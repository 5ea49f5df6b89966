/**
  One round of the client's main loop (impulse/src/bin/h3_client.rs) as functions and relations on
  the scheduler's state, with the answers of the library and the socket as parameters.
 */
module H3Rounds {
  import opened Prelude
  import opened H3Client

  datatype Send = Accepted | Blocked | Refused

  datatype Poll = Finished(stream: nat) | Reset(stream: nat) | BodyFailed(stream: nat) | Ignored

  /** What the library, the socket and the clock do during one round of the loop. */
  datatype Round = Round(
    flushFails: bool,
    aborts: bool,
    established: bool,
    sends: nat -> Send,
    polls: seq<Poll>,
    pollFails: bool,
    timedOut: set<nat>,
    closed: bool,
    reopenFails: bool)

  /** Normal exit of the loop, an error returned early, or rounds left to come. */
  datatype Exit = Answered | Aborted | Running

  function Start(limits: Limits): Sched {
    Sched(seq(limits.requests, i => i), map[], seq(limits.requests, _ => 0), [], 0, 0, 0, multiset{}, {}, false)
  }

  lemma StartInv(limits: Limits)
    ensures Inv(Start(limits), limits)
  {
    var s := Start(limits);
    forall id: nat ensures id < limits.requests <==> id in Members(s.pending) {
      if id < limits.requests {
        assert s.pending[id] == id;
      }
    }
  }

  // ---- Submitting ----

  ghost predicate Open(s: Sched, limits: Limits) { Inv(s, limits) && |s.inflight| <= limits.parallel }

  ghost predicate CanSend(s: Sched, limits: Limits) {
    Open(s, limits) && |s.inflight| < limits.parallel && s.pending != []
  }

  ghost function Budget(s: Sched, limits: Limits): nat
    requires Open(s, limits)
  {
    RemainingNonNegative(s.attempts, limits.retries);
    Remaining(s.attempts, limits.retries)
  }

  /** One send that the library accepts or refuses; either way it spends an attempt. */
  ghost function SendOne(s: Sched, limits: Limits, accepted: bool): (r: Sched)
    requires CanSend(s, limits)
    ensures Open(r, limits) && Budget(r, limits) == Budget(s, limits) - 1
  {
    hide Inv, Remaining, Launch, Reject;
    Spendable(s, limits);
    if accepted then LaunchOpen(s, limits); Launch(s) else RejectOpen(s, limits); Reject(s, limits)
  }

  lemma LaunchOpen(s: Sched, limits: Limits)
    requires CanSend(s, limits)
    ensures s.pending[0] < |s.attempts| && Open(Launch(s), limits)
    ensures Launch(s).attempts == s.attempts[s.pending[0] := s.attempts[s.pending[0]] + 1]
  {
    hide Inv;
    LaunchKeeps(s, limits);
  }

  lemma RejectOpen(s: Sched, limits: Limits)
    requires CanSend(s, limits)
    ensures s.pending[0] < |s.attempts| && Open(Reject(s, limits), limits)
    ensures Reject(s, limits).attempts == s.attempts[s.pending[0] := s.attempts[s.pending[0]] + 1]
  {
    hide Inv;
    RejectKeeps(s, limits);
    RejectSameStreams(s, limits);
  }

  lemma SendKeepsHistory(s: Sched, limits: Limits, accepted: bool)
    requires CanSend(s, limits)
    ensures SendOne(s, limits, accepted).gaveUp == s.gaveUp
  {
    hide Inv, Budget;
    Spendable(s, limits);
  }

  lemma RejectSameStreams(s: Sched, limits: Limits)
    requires s.pending != [] && s.pending[0] < |s.attempts|
    ensures Reject(s, limits).inflight == s.inflight
    ensures Reject(s, limits).attempts == s.attempts[s.pending[0] := s.attempts[s.pending[0]] + 1]
  {
  }

  /** The submit loop from its `call`-th send on. */
  ghost function SubmitFrom(s: Sched, limits: Limits, sends: nat -> Send, call: nat): (r: Sched)
    requires Open(s, limits)
    ensures Open(r, limits)
    decreases Budget(s, limits)
  {
    hide Open, Budget, SendOne;
    if !CanSend(s, limits) || sends(call).Blocked? then s
    else SubmitFrom(SendOne(s, limits, sends(call).Accepted?), limits, sends, call + 1)
  }

  lemma StopReason(s: Sched, limits: Limits)
    requires Open(s, limits)
    ensures CanSend(s, limits) || |s.inflight| == limits.parallel || s.pending == []
  {
    hide Inv;
  }

  /**
    Submitting stops only at the stream limit, with nothing left to send, or on a blocked send: `n`
    is the call it stops at, none before it was blocked, and each spent exactly one attempt.
   */
  lemma {:induction false} SubmitStops(s: Sched, limits: Limits, sends: nat -> Send, call: nat) returns (n: nat)
    requires Open(s, limits)
    ensures var r := SubmitFrom(s, limits, sends, call);
            && call <= n && Budget(r, limits) == Budget(s, limits) - (n - call)
            && (forall m :: call <= m < n ==> !sends(m).Blocked?)
            && (|r.inflight| == limits.parallel || r.pending == [] || sends(n).Blocked?)
    decreases Budget(s, limits)
  {
    hide Inv, Budget, SendOne, Open;
    n := call;
    StopReason(s, limits);
    if CanSend(s, limits) && !sends(call).Blocked? {
      n := SubmitStops(SendOne(s, limits, sends(call).Accepted?), limits, sends, call + 1);
    }
  }

  // ---- Polling ----

  ghost function PollStep(s: Sched, limits: Limits, e: Poll): (r: Sched)
    requires Inv(s, limits)
    ensures Inv(r, limits) && |r.inflight| <= |s.inflight|
  {
    if e.Ignored? || e.stream !in s.inflight then s
    else
      StreamKeeps(s, limits, e.stream);
      SmallerInflight(s, limits, e.stream);
      if e.Finished? then Finish(s, e.stream) else Lose(s, limits, e.stream)
  }

  ghost function PollSteps(s: Sched, limits: Limits, polls: seq<Poll>): (r: Sched)
    requires Inv(s, limits)
    ensures Inv(r, limits) && |r.inflight| <= |s.inflight|
  {
    if polls == [] then s else PollStep(PollSteps(s, limits, polls[..|polls| - 1]), limits, polls[|polls| - 1])
  }

  /** A stream that is reset, or whose body cannot be read, costs its request an attempt, not its result. */
  lemma PollLoses(s: Sched, limits: Limits, e: Poll)
    requires Inv(s, limits) && (e.Reset? || e.BodyFailed?) && e.stream in s.inflight
    ensures var id := s.inflight[e.stream];
            var r := PollStep(s, limits, e);
            && id < |s.attempts| && r.inflight == s.inflight - {e.stream} && r.attempts == s.attempts
            && if s.attempts[id] <= limits.retries
               then r.pending == s.pending + [id] && r.results == s.results
               else r.pending == s.pending && r.results == s.results + [Result(id, false)]
  {
    StreamKnown(s, limits, e.stream);
    hide Inv;
  }

  lemma StreamKnown(s: Sched, limits: Limits, stream: nat)
    requires Inv(s, limits) && stream in s.inflight
    ensures s.inflight[stream] < |s.attempts|
  {
    hide Inv;
    StreamKeeps(s, limits, stream);
  }

  /** Event `j` of the polls is the end of the stream on which request `id` is in flight by then. */
  ghost predicate FinishesAt(s: Sched, limits: Limits, polls: seq<Poll>, j: nat, id: nat) {
    && Inv(s, limits) && j < |polls| && polls[j].Finished?
    && var u := PollSteps(s, limits, polls[..j]);
       polls[j].stream in u.inflight && u.inflight[polls[j].stream] == id
  }

  ghost predicate Succeeded(s: Sched, id: nat) { Result(id, true) in s.results }

  lemma PollOk(s: Sched, limits: Limits, e: Poll, id: nat)
    requires Inv(s, limits)
    ensures Succeeded(PollStep(s, limits, e), id)
            <==> Succeeded(s, id) || (e.Finished? && e.stream in s.inflight && s.inflight[e.stream] == id)
  {
    if !e.Ignored? && e.stream in s.inflight {
      StreamKnown(s, limits, e.stream);
      hide Inv;
    }
  }

  lemma FinishesEarlier(s: Sched, limits: Limits, polls: seq<Poll>, n: nat, j: nat, id: nat)
    requires n <= |polls|
    ensures j < n ==> (FinishesAt(s, limits, polls[..n], j, id) <==> FinishesAt(s, limits, polls, j, id))
    ensures n <= j ==> !FinishesAt(s, limits, polls[..n], j, id)
  {
    hide Inv, PollStep;
    if j < n {
      assert polls[..n][..j] == polls[..j];
    }
  }

  lemma {:induction false} PollsOk(s: Sched, limits: Limits, polls: seq<Poll>, id: nat)
    requires Inv(s, limits)
    ensures Succeeded(PollSteps(s, limits, polls), id)
            <==> Succeeded(s, id) || exists j :: FinishesAt(s, limits, polls, j, id)
  {
    hide PollStep, Inv, Succeeded;
    if polls == [] {
    } else {
      var n := |polls| - 1;
      PollsOk(s, limits, polls[..n], id);
      PollOk(PollSteps(s, limits, polls[..n]), limits, polls[n], id);
      if exists j :: FinishesAt(s, limits, polls, j, id) {
        var j :| FinishesAt(s, limits, polls, j, id);
        FinishesEarlier(s, limits, polls, n, j, id);
      }
      if exists j :: FinishesAt(s, limits, polls[..n], j, id) {
        var j :| FinishesAt(s, limits, polls[..n], j, id);
        FinishesEarlier(s, limits, polls, n, j, id);
      }
      if polls[n].Finished? && polls[n].stream in PollSteps(s, limits, polls[..n]).inflight
         && PollSteps(s, limits, polls[..n]).inflight[polls[n].stream] == id {
        assert FinishesAt(s, limits, polls, n, id);
      }
    }
  }

  lemma SendOk(s: Sched, limits: Limits, accepted: bool, id: nat)
    requires CanSend(s, limits)
    ensures Succeeded(SendOne(s, limits, accepted), id) <==> Succeeded(s, id)
  {
    Spendable(s, limits);
    hide Inv;
  }

  lemma {:induction false} SubmitOk(s: Sched, limits: Limits, sends: nat -> Send, call: nat, id: nat)
    requires Open(s, limits)
    ensures Succeeded(SubmitFrom(s, limits, sends, call), id) <==> Succeeded(s, id)
    decreases Budget(s, limits)
  {
    hide Open, Budget, SendOne, Succeeded;
    if !CanSend(s, limits) || sends(call).Blocked? {
    } else {
      SendOk(s, limits, sends(call).Accepted?, id);
      SubmitOk(SendOne(s, limits, sends(call).Accepted?), limits, sends, call + 1, id);
    }
  }

  // ---- Losing streams ----

  /** From `s` to `t` the given streams were retried or failed, in some order, and nothing else happened. */
  ghost predicate Lost(s: Sched, streams: set<nat>, t: Sched) {
    && t.inflight == s.inflight - streams
    && s.pending <= t.pending && s.results <= t.results
    && t.attempts == s.attempts && t.submitted == s.submitted
    && t.finished == s.finished && t.gaveUp == s.gaveUp && t.nextStream == s.nextStream
    && forall k :: |s.results| <= k < |t.results| ==> !t.results[k].ok
  }

  lemma LoseOne(s: Sched, limits: Limits, streams: set<nat>, t: Sched, stream: nat)
    requires Lost(s, streams, t) && stream in t.inflight && t.inflight[stream] < |t.attempts|
    ensures Lost(s, streams + {stream}, Lose(t, limits, stream))
  {
  }

  /** Each lost request is queued again if it has an attempt left, and reported failed otherwise. */
  lemma LostExactly(s: Sched, limits: Limits, streams: set<nat>, t: Sched, stream: nat)
    requires Inv(s, limits) && Inv(t, limits) && Lost(s, streams, t) && !s.gaveUp
    requires stream in streams && stream in s.inflight
    ensures var id := s.inflight[stream];
            id < |s.attempts| && if s.attempts[id] <= limits.retries then id in t.pending else Result(id, false) in t.results
  {
    var id := s.inflight[stream];
    assert id in s.inflight.Values;
    assert id !in t.inflight.Values;
    if id in Members(t.pending) {
    } else {
      assert id in Done(t);
      var k :| 0 <= k < |t.results| && t.results[k].id == id;
      assert t.results[k] in t.results;
    }
  }

  lemma LostOk(s: Sched, streams: set<nat>, t: Sched, id: nat)
    requires Lost(s, streams, t)
    ensures Succeeded(t, id) <==> Succeeded(s, id)
  {
    if Succeeded(t, id) {
      var k :| 0 <= k < |t.results| && t.results[k] == Result(id, true);
      assert s.results[k] == t.results[k];
    }
    if Succeeded(s, id) {
      var k :| 0 <= k < |s.results| && s.results[k] == Result(id, true);
      assert t.results[k] == s.results[k];
    }
  }

  function AllFailed(ids: seq<nat>): (r: seq<Result>)
    ensures |r| == |ids| && forall i :: 0 <= i < |ids| ==> r[i] == Result(ids[i], false)
  {
    seq(|ids|, i requires 0 <= i < |ids| => Result(ids[i], false))
  }

  lemma FailedNext(results: seq<Result>, ids: seq<nat>)
    requires ids != []
    ensures results + AllFailed(ids) == (results + [Result(ids[0], false)]) + AllFailed(ids[1..])
  {
  }

  // ---- A round ----

  /** What the round does before the timeouts, once the HTTP/3 connection is up. */
  ghost function Served(s: Sched, limits: Limits, connected: bool, round: Round): (r: Sched)
    requires Inv(s, limits) && |s.inflight| <= limits.parallel
    ensures Inv(r, limits) && |r.inflight| <= limits.parallel
  {
    if connected || round.established
    then PollSteps(SubmitFrom(s, limits, round.sends, 0), limits, round.polls)
    else s
  }

  predicate WantsReconnect(connected: bool, round: Round) {
    round.flushFails || round.closed || ((connected || round.established) && round.pollFails)
  }

  predicate Reconnects(connected: bool, round: Round, timed: Sched, limits: Limits) {
    WantsReconnect(connected, round) && timed.completed < limits.requests
  }

  /** How the reconnect branch goes on once every stream is lost, after `reconnects` reconnects. */
  function AfterDrain(drained: Sched, limits: Limits, reconnects: nat, reopenFails: bool): Exit {
    if drained.completed >= limits.requests || reconnects == limits.reconnects then Answered
    else if reopenFails then Aborted
    else Running
  }

  // ---- A run ----

  /** The client between two rounds. */
  datatype Moment = Moment(sched: Sched, connected: bool, reconnects: nat)

  /** A round takes the client from `m` to `n`; `timed` is its state after the timeouts, `drained` after losing every stream. */
  ghost predicate RoundDoes(m: Moment, round: Round, limits: Limits, exit: Exit, timed: Sched, drained: Sched, n: Moment) {
    && Open(m.sched, limits)
    && if round.aborts then exit.Aborted? && n == m
       else
         && Lost(Served(m.sched, limits, m.connected, round), round.timedOut, timed)
         && if !Reconnects(m.connected, round, timed, limits)
            then exit.Running? && n == Moment(timed, m.connected || round.established, m.reconnects)
            else
              && Lost(timed, timed.inflight.Keys, drained)
              && exit == AfterDrain(drained, limits, m.reconnects, round.reopenFails)
              && match exit
                 case Answered => n.sched.results == drained.results + AllFailed(drained.pending) && n.reconnects == m.reconnects
                 case Running => n == Moment(drained.(nextStream := 0), false, m.reconnects + 1)
                 case Aborted => n.sched == drained && n.reconnects == m.reconnects + 1
  }

  /** In the round that begins at `m`, the stream carrying request `id` finishes with poll event `j`. */
  ghost predicate FinishedIn(m: Moment, limits: Limits, round: Round, j: nat, id: nat) {
    && Open(m.sched, limits) && !round.aborts && (m.connected || round.established)
    && FinishesAt(SubmitFrom(m.sched, limits, round.sends, 0), limits, round.polls, j, id)
  }

  lemma ServedOk(m: Moment, limits: Limits, round: Round, id: nat)
    requires Open(m.sched, limits) && !round.aborts
    ensures Succeeded(Served(m.sched, limits, m.connected, round), id)
            <==> Succeeded(m.sched, id) || exists j :: FinishedIn(m, limits, round, j, id)
  {
    hide Inv, SubmitFrom, PollSteps, Succeeded;
    if m.connected || round.established {
      var s := SubmitFrom(m.sched, limits, round.sends, 0);
      SubmitOk(m.sched, limits, round.sends, 0, id);
      PollsOk(s, limits, round.polls, id);
      forall j: nat ensures FinishedIn(m, limits, round, j, id) <==> FinishesAt(s, limits, round.polls, j, id) {
      }
    }
  }

  lemma RoundOk(m: Moment, round: Round, limits: Limits, exit: Exit, timed: Sched, drained: Sched, n: Moment, id: nat)
    requires RoundDoes(m, round, limits, exit, timed, drained, n)
    ensures Succeeded(n.sched, id) <==> Succeeded(m.sched, id) || exists j :: FinishedIn(m, limits, round, j, id)
  {
    if round.aborts {
    } else {
      var served := Served(m.sched, limits, m.connected, round);
      ServedOk(m, limits, round, id);
      LostOk(served, round.timedOut, timed, id);
      hide Inv, Served, Lost, FinishedIn, Open;
      if Reconnects(m.connected, round, timed, limits) {
        LostOk(timed, timed.inflight.Keys, drained, id);
      }
    }
  }

  /** Rounds follow one another; only the last may end the run. */
  ghost predicate Chain(moments: seq<Moment>, rounds: seq<Round>, limits: Limits) {
    && 0 < |moments| <= |rounds| + 1
    && forall k :: 0 <= k < |moments| - 1 ==> Linked(moments, rounds, limits, k)
  }

  ghost predicate Linked(moments: seq<Moment>, rounds: seq<Round>, limits: Limits, k: nat) {
    k + 1 < |moments| && k < |rounds| && Goes(moments[k], rounds[k], limits, k + 2 == |moments|, moments[k + 1])
  }

  ghost predicate Goes(m: Moment, round: Round, limits: Limits, last: bool, n: Moment) {
    exists exit, timed, drained :: RoundDoes(m, round, limits, exit, timed, drained, n) && (exit.Running? || last)
  }

  lemma GoesOk(m: Moment, round: Round, limits: Limits, last: bool, n: Moment, id: nat)
    requires Goes(m, round, limits, last, n)
    ensures Succeeded(n.sched, id) <==> Succeeded(m.sched, id) || exists j :: FinishedIn(m, limits, round, j, id)
  {
    hide RoundDoes, FinishedIn, Succeeded;
    var exit, timed, drained :| RoundDoes(m, round, limits, exit, timed, drained, n);
    RoundOk(m, round, limits, exit, timed, drained, n, id);
  }

  /** Rounds that went on, and a last one that may end the run, make a chain. */
  ghost predicate RanThrough(moments: seq<Moment>, rounds: seq<Round>, limits: Limits) {
    && 0 < |moments| <= |rounds| + 1
    && (forall k :: 0 <= k < |moments| - 2 ==> GoesOn(moments, rounds, limits, k))
    && (|moments| > 1 ==> Goes(moments[|moments| - 2], rounds[|moments| - 2], limits, true, moments[|moments| - 1]))
  }

  ghost predicate GoesOn(moments: seq<Moment>, rounds: seq<Round>, limits: Limits, k: nat) {
    k + 1 < |moments| && k < |rounds| && Goes(moments[k], rounds[k], limits, false, moments[k + 1])
  }

  lemma ChainOf(moments: seq<Moment>, rounds: seq<Round>, limits: Limits)
    requires RanThrough(moments, rounds, limits)
    ensures Chain(moments, rounds, limits)
  {
    hide Goes;
    forall k | 0 <= k < |moments| - 1 ensures Linked(moments, rounds, limits, k) {
      if k < |moments| - 2 {
        assert GoesOn(moments, rounds, limits, k);
      }
    }
  }

  lemma MayGoOn(m: Moment, round: Round, limits: Limits, last: bool, n: Moment)
    ensures Goes(m, round, limits, false, n) ==> Goes(m, round, limits, last, n)
  {
    hide RoundDoes;
  }

  ghost predicate FinishedBefore(moments: seq<Moment>, rounds: seq<Round>, limits: Limits, k: nat, id: nat) {
    exists r: nat, j: nat :: r < k && r < |moments| && r < |rounds| && FinishedIn(moments[r], limits, rounds[r], j, id)
  }

  /** A request succeeds if and only if some round polled the end of the stream that was carrying it. */
  lemma {:induction false} SucceedsIffFinished(moments: seq<Moment>, rounds: seq<Round>, limits: Limits, k: nat, id: nat)
    requires Chain(moments, rounds, limits) && k < |moments|
    ensures Succeeded(moments[k].sched, id)
            <==> Succeeded(moments[0].sched, id) || FinishedBefore(moments, rounds, limits, k, id)
  {
    hide Goes, FinishedIn, Succeeded;
    if k == 0 {
    } else {
      SucceedsIffFinished(moments, rounds, limits, k - 1, id);
      assert Linked(moments, rounds, limits, k - 1);
      var m, round := moments[k - 1], rounds[k - 1];
      GoesOk(m, round, limits, k + 1 == |moments|, moments[k], id);
      if FinishedBefore(moments, rounds, limits, k, id) {
        var r: nat, j: nat :| r < k && r < |moments| && r < |rounds| && FinishedIn(moments[r], limits, rounds[r], j, id);
        assert r == k - 1 || FinishedBefore(moments, rounds, limits, k - 1, id);
      }
      if exists j :: FinishedIn(m, limits, round, j, id) {
        var j :| FinishedIn(m, limits, round, j, id);
        assert FinishedBefore(moments, rounds, limits, k, id);
      }
    }
  }

  /**
    A connection that failed is given up, and no other is: after a round with a failed flush, a
    failed poll or a closed connection the run is over, all requests are answered, or a fresh
    connection with nothing in flight is used; otherwise the connection stays.
   */
  lemma FailedConnectionReplaced(
    m: Moment, round: Round, limits: Limits, exit: Exit, timed: Sched, drained: Sched, n: Moment)
    requires RoundDoes(m, round, limits, exit, timed, drained, n) && !round.aborts && m.reconnects <= limits.reconnects
    ensures (round.flushFails || round.closed || ((m.connected || round.established) && round.pollFails)) && exit.Running? ==>
              n.sched.completed >= limits.requests
              || (n.sched.inflight == map[] && !n.connected && n.reconnects == m.reconnects + 1 <= limits.reconnects)
    ensures !round.flushFails && !round.closed && !((m.connected || round.established) && round.pollFails) ==>
              exit.Running? && n.reconnects == m.reconnects && n.connected == (m.connected || round.established)
  {
    hide Served, Inv;
    assert timed.inflight - timed.inflight.Keys == map[];
  }

  /** A new connection numbers its streams from zero again. */
  lemma FreshConnection(s: Sched, limits: Limits)
    requires Inv(s, limits) && s.inflight == map[]
    ensures Inv(s.(nextStream := 0), limits)
  {
  }

  /** The request at the head of the queue has an attempt left, and counting it lowers the total. */
  lemma Spendable(s: Sched, limits: Limits)
    requires Inv(s, limits) && s.pending != []
    ensures s.pending[0] < |s.attempts| && 0 <= Remaining(s.attempts, limits.retries)
    ensures var a := s.attempts[s.pending[0] := s.attempts[s.pending[0]] + 1];
            Remaining(a, limits.retries) == Remaining(s.attempts, limits.retries) - 1
    ensures 0 <= Remaining(s.attempts[s.pending[0] := s.attempts[s.pending[0]] + 1], limits.retries)
  {
    PopTakes(s, limits);
    RemainingNonNegative(s.attempts, limits.retries);
    RemainingDrops(s.attempts, limits.retries, s.pending[0]);
    RemainingNonNegative(s.attempts[s.pending[0] := s.attempts[s.pending[0]] + 1], limits.retries);
  }

  lemma SmallerInflight(s: Sched, limits: Limits, stream: nat)
    requires stream in s.inflight && s.inflight[stream] < |s.attempts|
    ensures |Lose(s, limits, stream).inflight| == |s.inflight| - 1
    ensures |Finish(s, stream).inflight| == |s.inflight| - 1
  {
    assert (s.inflight - {stream}).Keys == s.inflight.Keys - {stream};
  }
}
