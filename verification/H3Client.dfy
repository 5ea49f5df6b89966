/**
  The request scheduler of the HTTP/3 client (impulse/src/bin/h3_client.rs). The QUIC library, the
  socket and the clock are an environment that decides, round by round, what each call returns.
 */
module H3Client {
  import opened Prelude

  /** Command-line limits: requests, parallel streams, retries per request, reconnects. */
  datatype Limits = Limits(requests: nat, parallel: nat, retries: nat, reconnects: nat)

  datatype Result = Result(id: nat, ok: bool)

  /**
    The loop's variables, and three histories: sends per id, ids whose stream finished, and
    whether the client gave up reconnecting.
   */
  datatype Sched = Sched(
    pending: seq<nat>,
    inflight: map<nat, nat>,
    attempts: seq<nat>,
    results: seq<Result>,
    completed: nat,
    failures: nat,
    nextStream: nat,
    submitted: multiset<nat>,
    finished: set<nat>,
    gaveUp: bool)

  // ---- What each piece of the loop does ----

  predicate ShouldRetry(attemptsStarted: nat, retries: nat) { attemptsStarted <= retries }

  function Complete(s: Sched, id: nat, ok: bool): Sched {
    s.(results := s.results + [Result(id, ok)],
       completed := s.completed + 1,
       failures := if ok then s.failures else s.failures + 1)
  }

  function RetryOrFail(s: Sched, limits: Limits, id: nat): Sched
    requires id < |s.attempts|
  {
    if ShouldRetry(s.attempts[id], limits.retries) then s.(pending := s.pending + [id])
    else Complete(s, id, false)
  }

  function Popped(s: Sched): Sched
    requires s.pending != []
  {
    s.(pending := s.pending[1..])
  }

  /** One send_request call that was not merely blocked; `submitted` records them per id. */
  function CountAttempt(s: Sched, id: nat): Sched
    requires id < |s.attempts|
  {
    s.(attempts := s.attempts[id := s.attempts[id] + 1], submitted := s.submitted + multiset{id})
  }

  /** The library accepted the request on a new stream; client stream IDs go up by four (section 2.1 of RFC 9000). */
  function Launch(s: Sched): Sched
    requires s.pending != [] && s.pending[0] < |s.attempts|
  {
    var t := CountAttempt(Popped(s), s.pending[0]);
    t.(inflight := t.inflight[t.nextStream := s.pending[0]], nextStream := t.nextStream + 4)
  }

  /** The library refused the request outright. */
  function Reject(s: Sched, limits: Limits): Sched
    requires s.pending != [] && s.pending[0] < |s.attempts|
  {
    RetryOrFail(CountAttempt(Popped(s), s.pending[0]), limits, s.pending[0])
  }

  function Forget(s: Sched, stream: nat): Sched { s.(inflight := s.inflight - {stream}) }

  /** A stream was reset, failed while reading, timed out, or its connection went away. */
  function Lose(s: Sched, limits: Limits, stream: nat): Sched
    requires stream in s.inflight ==> s.inflight[stream] < |s.attempts|
  {
    if stream in s.inflight then RetryOrFail(Forget(s, stream), limits, s.inflight[stream]) else s
  }

  function Finish(s: Sched, stream: nat): Sched {
    if stream in s.inflight
    then Complete(Forget(s, stream).(finished := s.finished + {s.inflight[stream]}), s.inflight[stream], true)
    else s
  }

  function GiveUp(s: Sched): Sched
    requires s.pending != []
  {
    Complete(Popped(s).(gaveUp := true), s.pending[0], false)
  }

  // ---- Invariant ----

  ghost function Ids(results: seq<Result>): seq<nat> {
    seq(|results|, i requires 0 <= i < |results| => results[i].id)
  }

  ghost predicate Injective(m: map<nat, nat>) { forall x, y :: x in m && y in m && x != y ==> m[x] != m[y] }

  ghost function Done(s: Sched): set<nat> { Members(Ids(s.results)) }

  function FailureCount(results: seq<Result>): nat {
    if results == [] then 0
    else FailureCount(results[..|results| - 1]) + (if results[|results| - 1].ok then 0 else 1)
  }

  /** Every id below `n` is in exactly one of pending, in flight and done, once. */
  ghost predicate Partitioned(s: Sched, n: nat) {
    && NoDuplicates(s.pending) && Injective(s.inflight) && NoDuplicates(Ids(s.results))
    && Members(s.pending) !! s.inflight.Values && Members(s.pending) !! Done(s) && s.inflight.Values !! Done(s)
    && (forall id: nat :: id < n <==> id in Members(s.pending) || id in s.inflight.Values || id in Done(s))
  }

  ghost predicate AttemptsBounded(s: Sched, limits: Limits) {
    && |s.attempts| == limits.requests
    && (forall id :: 0 <= id < limits.requests ==> s.submitted[id] == s.attempts[id] <= limits.retries + 1)
    && (forall id <- s.pending :: id < limits.requests && s.attempts[id] <= limits.retries)
  }

  ghost predicate Counted(s: Sched) {
    s.completed == |s.results| && s.failures == FailureCount(s.results)
  }

  /** Reported as succeeded exactly when its stream finished; as failed only out of attempts or after giving up. */
  ghost predicate Truthful(s: Sched, limits: Limits) {
    && s.finished <= Done(s)
    && (forall r <- s.results :: r.ok <==> r.id in s.finished)
    && (forall r <- s.results :: r.id < |s.attempts| && (!r.ok && !s.gaveUp ==> s.attempts[r.id] == limits.retries + 1))
  }

  ghost predicate StreamsFresh(s: Sched) { forall x :: x in s.inflight ==> x < s.nextStream }

  ghost predicate Inv(s: Sched, limits: Limits) {
    Partitioned(s, limits.requests) && AttemptsBounded(s, limits) && Counted(s) && Truthful(s, limits) && StreamsFresh(s)
  }

  /** An id in hand: taken from pending or from its stream, and not yet put back anywhere. */
  ghost predicate InHand(s: Sched, limits: Limits, id: nat) {
    && id < limits.requests
    && NoDuplicates(s.pending) && Injective(s.inflight) && NoDuplicates(Ids(s.results))
    && Members(s.pending) !! s.inflight.Values && Members(s.pending) !! Done(s) && s.inflight.Values !! Done(s)
    && (forall x: nat :: x < limits.requests <==> x == id || x in Members(s.pending) || x in s.inflight.Values || x in Done(s))
    && id !in Members(s.pending) && id !in s.inflight.Values && id !in Done(s)
    && AttemptsBounded(s, limits) && Counted(s) && Truthful(s, limits) && StreamsFresh(s)
  }

  lemma PopTakes(s: Sched, limits: Limits)
    requires Inv(s, limits) && s.pending != []
    ensures InHand(Popped(s), limits, s.pending[0]) && s.attempts[s.pending[0]] <= limits.retries
  {
    assert s.pending == [s.pending[0]] + s.pending[1..];
    assert s.pending[0] in Members(s.pending);
    assert Members(s.pending) == {s.pending[0]} + Members(s.pending[1..]);
  }

  lemma ForgetTakes(s: Sched, limits: Limits, stream: nat)
    requires Inv(s, limits) && stream in s.inflight
    ensures InHand(Forget(s, stream), limits, s.inflight[stream])
  {
    assert s.inflight[stream] in s.inflight.Values;
    assert Forget(s, stream).inflight.Values == s.inflight.Values - {s.inflight[stream]} by {
      forall v | v in s.inflight.Values && v != s.inflight[stream] ensures v in Forget(s, stream).inflight.Values {
        var x :| x in s.inflight && s.inflight[x] == v;
        assert x in Forget(s, stream).inflight;
      }
    }
  }

  lemma {:induction false} ResultsAppend(s: Sched, id: nat, ok: bool)
    ensures var t := Complete(s, id, ok);
            Ids(t.results) == Ids(s.results) + [id] && Done(t) == Done(s) + {id}
            && FailureCount(t.results) == FailureCount(s.results) + (if ok then 0 else 1)
  {
    var t := Complete(s, id, ok);
    assert Ids(t.results) == Ids(s.results) + [id];
    assert t.results[..|t.results| - 1] == s.results;
  }

  /** A result for the id in hand, with the history that goes with it. */
  lemma CompletePuts(s: Sched, limits: Limits, id: nat, ok: bool, gaveUp: bool)
    requires InHand(s, limits, id) && (!ok && !gaveUp ==> s.attempts[id] == limits.retries + 1)
    ensures var u := s.(finished := if ok then s.finished + {id} else s.finished, gaveUp := s.gaveUp || gaveUp);
            Inv(Complete(u, id, ok), limits)
  {
    var u := s.(finished := if ok then s.finished + {id} else s.finished, gaveUp := s.gaveUp || gaveUp);
    hide Ids, FailureCount, Truthful, Partitioned, Members, NoDuplicates, Injective;
    ResultsAppend(u, id, ok);
    TruthAppends(s, u, limits, id, ok, gaveUp);
    PartitionAppends(s, Complete(u, id, ok), limits, id);
  }

  lemma PartitionAppends(s: Sched, t: Sched, limits: Limits, id: nat)
    requires InHand(s, limits, id) && t.pending == s.pending && t.inflight == s.inflight
    requires Ids(t.results) == Ids(s.results) + [id]
    ensures Partitioned(t, limits.requests)
  {
    DistinctAppend(Ids(s.results), id);
    assert Done(t) == Done(s) + {id};
    hide Ids, FailureCount, Truthful, NoDuplicates, Injective;
  }

  lemma DistinctAppend(ids: seq<nat>, id: nat)
    requires NoDuplicates(ids) && id !in Members(ids)
    ensures NoDuplicates(ids + [id])
  {
    forall i | 0 <= i < |ids| ensures ids[i] != id {
      assert ids[i] in Members(ids);
    }
  }

  lemma TruthAppends(s: Sched, u: Sched, limits: Limits, id: nat, ok: bool, gaveUp: bool)
    requires Truthful(s, limits) && id < |s.attempts| && id !in Done(s)
    requires !ok && !gaveUp ==> s.attempts[id] == limits.retries + 1
    requires u == s.(finished := if ok then s.finished + {id} else s.finished, gaveUp := s.gaveUp || gaveUp)
    ensures Truthful(Complete(u, id, ok), limits)
  {
    ResultsAppend(u, id, ok);
    forall r | r in s.results ensures r.id in Done(s) {
      var k :| 0 <= k < |s.results| && s.results[k] == r;
      assert Ids(s.results)[k] == r.id;
    }
  }

  lemma RetryOrFailPuts(s: Sched, limits: Limits, id: nat)
    requires InHand(s, limits, id)
    ensures Inv(RetryOrFail(s, limits, id), limits)
  {
    if ShouldRetry(s.attempts[id], limits.retries) {
      assert Members(s.pending + [id]) == Members(s.pending) + {id};
    } else {
      CompletePuts(s, limits, id, false, false);
    }
  }

  lemma AttemptKeeps(s: Sched, limits: Limits, id: nat)
    requires InHand(s, limits, id) && s.attempts[id] <= limits.retries
    ensures InHand(CountAttempt(s, id), limits, id)
  {
    forall x | x in s.pending ensures x != id {
      assert x in Members(s.pending);
    }
    forall r | r in s.results ensures r.id != id {
      var k :| 0 <= k < |s.results| && s.results[k] == r;
      assert Ids(s.results)[k] == r.id;
    }
  }

  lemma LaunchKeeps(s: Sched, limits: Limits)
    requires Inv(s, limits) && s.pending != []
    ensures s.pending[0] < |s.attempts| && Inv(Launch(s), limits) && |Launch(s).inflight| == |s.inflight| + 1
  {
    PopTakes(s, limits);
    var id := s.pending[0];
    AttemptKeeps(Popped(s), limits, id);
    var t := CountAttempt(Popped(s), id);
    LaunchPuts(t, limits, id);
  }

  lemma LaunchPuts(t: Sched, limits: Limits, id: nat)
    requires InHand(t, limits, id)
    ensures var u := t.(inflight := t.inflight[t.nextStream := id], nextStream := t.nextStream + 4);
            Inv(u, limits) && |u.inflight| == |t.inflight| + 1
  {
    MapAdds(t.inflight, t.nextStream, id);
  }

  lemma MapAdds(m: map<nat, nat>, k: nat, v: nat)
    requires k !in m && v !in m.Values && Injective(m)
    ensures Injective(m[k := v]) && m[k := v].Values == m.Values + {v} && |m[k := v]| == |m| + 1
  {
    MapAddsValues(m, k, v);
    MapAddsInjective(m, k, v);
    assert m[k := v].Keys == m.Keys + {k};
  }

  lemma MapAddsValues(m: map<nat, nat>, k: nat, v: nat)
    requires k !in m
    ensures m[k := v].Values == m.Values + {v}
  {
    var n := m[k := v];
    forall w ensures w in n.Values <==> w in m.Values || w == v {
      if w in m.Values {
        var x :| x in m && m[x] == w;
        assert n[x] == w;
      } else if w == v {
        assert n[k] == w;
      }
    }
  }

  lemma MapAddsInjective(m: map<nat, nat>, k: nat, v: nat)
    requires k !in m && v !in m.Values && Injective(m)
    ensures Injective(m[k := v])
  {
    forall x | x in m ensures m[x] != v {
      assert m[x] in m.Values;
    }
  }

  lemma RejectKeeps(s: Sched, limits: Limits)
    requires Inv(s, limits) && s.pending != []
    ensures s.pending[0] < |s.attempts| && Inv(Reject(s, limits), limits)
  {
    PopTakes(s, limits);
    AttemptKeeps(Popped(s), limits, s.pending[0]);
    RetryOrFailPuts(CountAttempt(Popped(s), s.pending[0]), limits, s.pending[0]);
  }

  lemma GiveUpKeeps(s: Sched, limits: Limits)
    requires Inv(s, limits) && s.pending != []
    ensures Inv(GiveUp(s), limits)
  {
    PopTakes(s, limits);
    CompletePuts(Popped(s), limits, s.pending[0], false, true);
  }

  lemma StreamKeeps(s: Sched, limits: Limits, stream: nat)
    requires Inv(s, limits)
    ensures stream in s.inflight ==> s.inflight[stream] < limits.requests == |s.attempts|
    ensures Inv(Finish(s, stream), limits)
    ensures stream in s.inflight ==> Inv(Lose(s, limits, stream), limits)
  {
    if stream in s.inflight {
      ForgetTakes(s, limits, stream);
      CompletePuts(Forget(s, stream), limits, s.inflight[stream], true, false);
      RetryOrFailPuts(Forget(s, stream), limits, s.inflight[stream]);
    }
  }

  // ---- Counting ----

  lemma {:induction false} DistinctSize(s: seq<nat>)
    requires NoDuplicates(s)
    ensures |Members(s)| == |s|
  {
    if s == [] {
    } else {
      var n := |s| - 1;
      DistinctSize(s[..n]);
      assert s == s[..n] + [s[n]];
      assert s[n] !in s[..n];
      assert Members(s) == Members(s[..n]) + {s[n]};
    }
  }

  ghost function Below(n: nat): (r: set<nat>)
    ensures |r| == n && forall x: nat :: x in r <==> x < n
  {
    if n == 0 then {} else Below(n - 1) + {n - 1}
  }

  lemma SubsetOfSameSize(a: set<nat>, b: set<nat>)
    requires a <= b && |a| >= |b|
    ensures a == b
  {
    assert |b| == |a| + |b - a| by {
      assert b == a + (b - a);
    }
    assert |b - a| == 0;
  }

  /** Every id has exactly one result, and nothing is waiting or in flight. */
  ghost predicate AllAnswered(s: Sched, limits: Limits) {
    && s.completed == limits.requests == |s.results|
    && s.pending == [] && s.inflight == map[]
    && NoDuplicates(Ids(s.results)) && (forall id: nat :: id < limits.requests <==> id in Done(s))
    && s.failures == FailureCount(s.results) && Truthful(s, limits)
  }

  /** Reaching the requested number of completions leaves no request unanswered. */
  lemma CompletedIsAnswered(s: Sched, limits: Limits)
    requires Inv(s, limits) && s.completed >= limits.requests
    ensures AllAnswered(s, limits)
  {
    DistinctSize(Ids(s.results));
    assert Done(s) <= Below(limits.requests);
    SubsetOfSameSize(Done(s), Below(limits.requests));
    assert Members(s.pending) == {} && s.inflight.Values == {};
    SomeMember(s.pending);
    SomeValue(s.inflight);
  }

  lemma SomeMember(s: seq<nat>)
    ensures s != [] ==> Members(s) != {}
  {
    if s != [] {
      assert s[0] in Members(s);
    }
  }

  lemma SomeValue(m: map<nat, nat>)
    ensures m != map[] ==> m.Values != {}
  {
    if x :| x in m {
      assert m[x] in m.Values;
    }
  }

  /** With nothing pending or in flight, every id has its result. */
  lemma DrainedIsAnswered(s: Sched, limits: Limits)
    requires Inv(s, limits) && s.pending == [] && s.inflight == map[]
    ensures AllAnswered(s, limits)
  {
    DistinctSize(Ids(s.results));
    assert Done(s) == Below(limits.requests);
  }

  /** Attempts still allowed, over all requests. */
  function Remaining(attempts: seq<nat>, retries: nat): int {
    if attempts == [] then 0
    else Remaining(attempts[..|attempts| - 1], retries) + retries + 1 - attempts[|attempts| - 1]
  }

  lemma {:induction false} RemainingDrops(attempts: seq<nat>, retries: nat, id: nat)
    requires id < |attempts|
    ensures Remaining(attempts[id := attempts[id] + 1], retries) == Remaining(attempts, retries) - 1
  {
    var n := |attempts| - 1;
    if id < n {
      RemainingDrops(attempts[..n], retries, id);
      assert attempts[id := attempts[id] + 1][..n] == attempts[..n][id := attempts[id] + 1];
    } else {
      assert attempts[id := attempts[id] + 1][..n] == attempts[..n];
    }
  }

  lemma {:induction false} RemainingNonNegative(attempts: seq<nat>, retries: nat)
    requires forall i :: 0 <= i < |attempts| ==> attempts[i] <= retries + 1
    ensures 0 <= Remaining(attempts, retries)
  {
    if attempts == [] {
    } else {
      RemainingNonNegative(attempts[..|attempts| - 1], retries);
    }
  }
}
