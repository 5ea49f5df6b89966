/** The client's main loop over an arbitrary environment. */
module H3ClientRun {
  import opened H3Client
  import opened H3Rounds

  class Client {
    const limits: Limits
    var pending: seq<nat>
    var inflight: map<nat, nat>
    var attempts: seq<nat>
    var results: seq<Result>
    var completed: nat
    var failures: nat
    var nextStream: nat
    var connected: bool
    var reconnects: nat
    ghost var submitted: multiset<nat>
    ghost var finished: set<nat>
    ghost var gaveUp: bool

    ghost function View(): Sched
      reads this
    {
      Sched(pending, inflight, attempts, results, completed, failures, nextStream, submitted, finished, gaveUp)
    }

    ghost predicate Valid()
      reads this
    {
      && Inv(View(), limits) && |inflight| <= limits.parallel && reconnects <= limits.reconnects
      && (gaveUp ==> reconnects == limits.reconnects)
    }

    ghost function Now(): Moment
      reads this
    {
      Moment(View(), connected, reconnects)
    }

    constructor (limits: Limits)
      ensures Valid() && this.limits == limits && View() == Start(limits) && reconnects == 0 && !connected
    {
      this.limits := limits;
      pending := seq(limits.requests, i => i);
      inflight := map[];
      attempts := seq(limits.requests, _ => 0);
      results := [];
      completed, failures, nextStream, reconnects := 0, 0, 0, 0;
      connected := false;
      submitted, finished, gaveUp := multiset{}, {}, false;
      new;
      StartInv(limits);
    }

    method Answer(id: nat, ok: bool)
      modifies this
      ensures View() == Complete(old(View()), id, ok)
      ensures reconnects == old(reconnects) && connected == old(connected)
    {
      results := results + [Result(id, ok)];
      completed := completed + 1;
      if !ok {
        failures := failures + 1;
      }
    }

    method RetryOrFailRequest(id: nat)
      requires id < |attempts|
      modifies this
      ensures View() == RetryOrFail(old(View()), limits, id)
      ensures reconnects == old(reconnects) && connected == old(connected)
    {
      if ShouldRetry(attempts[id], limits.retries) {
        pending := pending + [id];
        return;
      }
      Answer(id, false);
    }

    /** `request_attempts[id] += 1` after taking the head of the queue. */
    method TakeHead() returns (id: nat)
      requires pending != [] && pending[0] < |attempts|
      modifies this`pending, this`attempts, this`submitted
      ensures id == old(pending[0]) && View() == CountAttempt(Popped(old(View())), id)
    {
      id := pending[0];
      pending := pending[1..];
      attempts := attempts[id := attempts[id] + 1];
      submitted := submitted + multiset{id};
    }

    method LaunchHead()
      requires pending != [] && pending[0] < |attempts|
      modifies this
      ensures View() == Launch(old(View()))
      ensures attempts == old(attempts[pending[0] := attempts[pending[0]] + 1])
      ensures reconnects == old(reconnects) && connected == old(connected)
    {
      var id := TakeHead();
      inflight := inflight[nextStream := id];
      nextStream := nextStream + 4;
    }

    method RejectHead()
      requires pending != [] && pending[0] < |attempts|
      modifies this
      ensures View() == Reject(old(View()), limits) && inflight == old(inflight)
      ensures attempts == old(attempts[pending[0] := attempts[pending[0]] + 1])
      ensures reconnects == old(reconnects) && connected == old(connected)
    {
      var id := TakeHead();
      RetryOrFailRequest(id);
    }

    method SendHead(accepted: bool)
      requires Valid() && CanSend(View(), limits)
      modifies this
      ensures View() == SendOne(old(View()), limits, accepted)
      ensures Valid() && reconnects == old(reconnects) && connected == old(connected)
    {
      hide Inv, Launch, Reject, Budget, Remaining;
      Spendable(View(), limits);
      SendKeepsHistory(View(), limits, accepted);
      if accepted {
        LaunchHead();
      } else {
        RejectHead();
      }
    }

    /** Submit pending requests up to the stream limit; ends because every send spends an attempt. */
    method Submit(sends: nat -> Send)
      requires Valid()
      modifies this
      ensures Valid() && reconnects == old(reconnects) && connected == old(connected)
      ensures View() == SubmitFrom(old(View()), limits, sends, 0)
    {
      hide Inv, SendOne, Budget;
      var calls := 0;
      while |inflight| < limits.parallel
        invariant Valid() && reconnects == old(reconnects) && connected == old(connected)
        invariant SubmitFrom(View(), limits, sends, calls) == SubmitFrom(old(View()), limits, sends, 0)
        decreases Budget(View(), limits)
      {
        if |pending| == 0 || sends(calls).Blocked? {
          break;
        }
        SendHead(sends(calls).Accepted?);
        calls := calls + 1;
      }
    }

    method LoseStream(stream: nat)
      requires stream in inflight && inflight[stream] < |attempts|
      modifies this
      ensures View() == Lose(old(View()), limits, stream)
      ensures reconnects == old(reconnects) && connected == old(connected)
    {
      var id := inflight[stream];
      inflight := inflight - {stream};
      RetryOrFailRequest(id);
    }

    /** One event of the poll loop. */
    method HandlePoll(event: Poll)
      requires Valid()
      modifies this
      ensures Valid() && reconnects == old(reconnects) && connected == old(connected)
      ensures View() == PollStep(old(View()), limits, event)
    {
      hide Inv;
      if event.Ignored? || event.stream !in inflight {
        return;
      }
      StreamKeeps(View(), limits, event.stream);
      SmallerInflight(View(), limits, event.stream);
      if event.Finished? {
        var id := inflight[event.stream];
        inflight := inflight - {event.stream};
        finished := finished + {id};
        Answer(id, true);
      } else {
        LoseStream(event.stream);
      }
    }

    /** Streams past their per-attempt deadline, in whatever order the hash map yields them. */
    method Expire(timedOut: set<nat>)
      requires Valid()
      modifies this
      ensures Valid() && reconnects == old(reconnects) && connected == old(connected)
      ensures Lost(old(View()), timedOut, View())
    {
      hide Inv;
      ghost var lost: set<nat> := {};
      while timedOut * inflight.Keys != {}
        invariant Valid() && reconnects == old(reconnects) && connected == old(connected)
        invariant lost <= timedOut && Lost(old(View()), lost, View())
        decreases |inflight|
      {
        var stream :| stream in timedOut * inflight.Keys;
        lost := LoseLive(stream, old(View()), lost);
      }
      assert old(inflight) - timedOut == inflight;
    }

    /** The connection is gone: every stream is retried or failed. */
    method DrainInflight()
      requires Valid()
      modifies this
      ensures Valid() && reconnects == old(reconnects) && connected == old(connected)
      ensures inflight == map[] && Lost(old(View()), old(inflight).Keys, View())
    {
      hide Inv;
      ghost var lost: set<nat> := {};
      while inflight != map[]
        invariant Valid() && reconnects == old(reconnects) && connected == old(connected)
        invariant lost <= old(inflight).Keys && Lost(old(View()), lost, View())
        decreases |inflight|
      {
        var stream :| stream in inflight;
        lost := LoseLive(stream, old(View()), lost);
      }
      assert old(inflight) - old(inflight).Keys == map[];
    }

    method LoseLive(stream: nat, ghost was: Sched, ghost before: set<nat>) returns (ghost lost: set<nat>)
      requires Valid() && stream in inflight && Lost(was, before, View())
      modifies this
      ensures Valid() && reconnects == old(reconnects) && connected == old(connected)
      ensures |inflight| < old(|inflight|) && lost == before + {stream} && Lost(was, lost, View())
    {
      hide Inv;
      StreamKeeps(View(), limits, stream);
      SmallerInflight(View(), limits, stream);
      LoseOne(was, limits, before, View(), stream);
      lost := before + {stream};
      LoseStream(stream);
    }

    method GiveUpHead()
      requires Valid() && pending != [] && reconnects == limits.reconnects
      modifies this
      ensures Valid() && View() == GiveUp(old(View()))
      ensures reconnects == old(reconnects) && connected == old(connected)
    {
      hide Inv;
      GiveUpKeeps(View(), limits);
      var id := pending[0];
      pending := pending[1..];
      gaveUp := true;
      Answer(id, false);
    }

    /** Out of reconnects: everything still queued is reported as failed. */
    method FailPending()
      requires Valid() && inflight == map[] && reconnects == limits.reconnects
      modifies this
      ensures Valid() && AllAnswered(View(), limits)
      ensures reconnects == old(reconnects) && connected == old(connected)
      ensures results == old(results) + AllFailed(old(pending)) && finished == old(finished)
    {
      hide Inv, AllAnswered, AllFailed;
      while |pending| > 0
        invariant Valid() && inflight == map[] && reconnects == old(reconnects) && connected == old(connected)
        invariant finished == old(finished) && results + AllFailed(pending) == old(results) + AllFailed(old(pending))
        decreases |pending|
      {
        FailedNext(results, pending);
        GiveUpHead();
      }
      assert results + AllFailed(pending) == results;
      DrainedIsAnswered(View(), limits);
    }

    method PollAll(polls: seq<Poll>)
      requires Valid()
      modifies this
      ensures Valid() && reconnects == old(reconnects) && connected == old(connected)
      ensures View() == PollSteps(old(View()), limits, polls)
    {
      hide Inv, PollStep;
      for k := 0 to |polls|
        invariant Valid() && reconnects == old(reconnects) && connected == old(connected)
        invariant View() == PollSteps(old(View()), limits, polls[..k])
      {
        assert polls[..k + 1][..k] == polls[..k];
        HandlePoll(polls[k]);
      }
      assert polls[..|polls|] == polls;
    }

    /** The reconnect branch at the end of a round; `drained` is the state after losing every stream. */
    method Reconnect(reopenFails: bool) returns (exit: Exit, ghost drained: Sched)
      requires Valid() && completed < limits.requests
      modifies this
      ensures Valid() && Lost(old(View()), old(inflight).Keys, drained)
      ensures exit == AfterDrain(drained, limits, old(reconnects), reopenFails)
      ensures exit.Answered? ==> AllAnswered(View(), limits) && reconnects == old(reconnects)
      ensures exit.Answered? ==> results == drained.results + AllFailed(drained.pending)
      ensures exit.Running? ==> View() == drained.(nextStream := 0) && reconnects == old(reconnects) + 1 && !connected
      ensures exit.Aborted? ==> View() == drained && reconnects == old(reconnects) + 1
    {
      hide Inv;
      DrainInflight();
      drained := View();
      if completed >= limits.requests {
        CompletedIsAnswered(View(), limits);
        return Answered, drained;
      }
      if reconnects >= limits.reconnects {
        FailPending();
        return Answered, drained;
      }
      reconnects := reconnects + 1;
      if reopenFails {
        return Aborted, drained;
      }
      FreshConnection(View(), limits);
      nextStream := 0;
      connected := false;
      exit := Running;
    }

    /** The part of a round that needs the HTTP/3 connection; opens it when the handshake is done. */
    method ServeStreams(round: Round) returns (reconnect: bool)
      requires Valid()
      modifies this
      ensures Valid() && reconnects == old(reconnects) && connected == (old(connected) || round.established)
      ensures View() == Served(old(View()), limits, old(connected), round)
      ensures reconnect == (round.flushFails || (connected && round.pollFails))
    {
      hide Inv, SubmitFrom, PollSteps;
      reconnect := round.flushFails;
      if !connected && round.established {
        connected := true;
      }
      if connected {
        Submit(round.sends);
        PollAll(round.polls);
        reconnect := reconnect || round.pollFails;
      }
    }

    /**
      One round of the main loop; `timed` is the state after the timeouts, and `drained` the one
      after losing every stream to a reconnect.
     */
    method Serve(round: Round) returns (exit: Exit, ghost timed: Sched, ghost drained: Sched)
      requires Valid() && completed < limits.requests
      modifies this
      ensures Valid()
      ensures RoundDoes(old(Now()), round, limits, exit, timed, drained, Now())
      ensures exit.Answered? ==> AllAnswered(View(), limits)
    {
      hide Inv, Served, Lost, AllAnswered, AllFailed;
      timed, drained := View(), View();
      if round.aborts {
        return Aborted, timed, drained;
      }
      var reconnect := ServeStreams(round);
      Expire(round.timedOut);
      timed := View();
      reconnect := reconnect || round.closed;
      if reconnect && completed < limits.requests {
        exit, drained := Reconnect(round.reopenFails);
      } else {
        exit := Running;
      }
    }

    /**
      run_client over any sequence of rounds. Whenever the loop ends normally, by count or by giving
      up, every request id has exactly one result; a request succeeds if and only if some round polls
      the end of the stream that carries it then; none is submitted more than `retries + 1` times.
      `moments` are the client's states between the rounds.
     */
    method Run(rounds: seq<Round>) returns (exit: Exit, ghost moments: seq<Moment>)
      requires Valid()
      modifies this
      ensures Valid()
      ensures Chain(moments, rounds, limits) && moments[0] == old(Now()) && moments[|moments| - 1] == Now()
      ensures forall id: nat :: Succeeded(View(), id)
                <==> Succeeded(old(View()), id) || FinishedBefore(moments, rounds, limits, |moments| - 1, id)
      ensures exit.Answered? ==> AllAnswered(View(), limits)
      ensures exit.Running? ==> completed < limits.requests && |moments| == |rounds| + 1
      ensures exit.Aborted? ==> |moments| > 1 && (rounds[|moments| - 2].aborts || rounds[|moments| - 2].reopenFails)
      ensures gaveUp ==> reconnects == limits.reconnects
      ensures forall id: nat :: id < limits.requests ==> submitted[id] <= limits.retries + 1
    {
      hide Inv, RoundDoes, Succeeded, FinishedBefore, AllAnswered, Chain, Goes;
      moments := [Now()];
      var k := 0;
      while completed < limits.requests
        invariant Valid() && k <= |rounds| && |moments| == k + 1
        invariant moments[0] == old(Now()) && moments[k] == Now()
        invariant forall i :: 0 <= i < k ==> GoesOn(moments, rounds, limits, i)
        decreases |rounds| - k
      {
        if k == |rounds| {
          AllWentOn(moments, rounds, limits);
          Related(moments, rounds);
          return Running, moments;
        }
        ghost var timed, drained;
        ghost var before := moments;
        exit, timed, drained := Serve(rounds[k]);
        moments := before + [Now()];
        RoundGoes(before[k], rounds[k], limits, exit, timed, drained, Now());
        forall i | 0 <= i < k ensures GoesOn(moments, rounds, limits, i) {
          assert GoesOn(before, rounds, limits, i);
        }
        if !exit.Running? {
          Related(moments, rounds);
          return;
        }
        k := k + 1;
      }
      CompletedIsAnswered(View(), limits);
      AllWentOn(moments, rounds, limits);
      Related(moments, rounds);
      exit := Answered;
    }

    /** What a run of rounds says about the results and the sends. */
    lemma Related(moments: seq<Moment>, rounds: seq<Round>)
      requires Valid() && RanThrough(moments, rounds, limits) && moments[|moments| - 1] == Now()
      ensures Chain(moments, rounds, limits)
      ensures forall id: nat :: Succeeded(View(), id)
                <==> Succeeded(moments[0].sched, id) || FinishedBefore(moments, rounds, limits, |moments| - 1, id)
      ensures forall id: nat :: id < limits.requests ==> submitted[id] <= limits.retries + 1
    {
      ChainOf(moments, rounds, limits);
      hide RanThrough, Chain, Succeeded, FinishedBefore;
      forall id: nat
        ensures Succeeded(View(), id)
                <==> Succeeded(moments[0].sched, id) || FinishedBefore(moments, rounds, limits, |moments| - 1, id)
      {
        SucceedsIffFinished(moments, rounds, limits, |moments| - 1, id);
      }
    }
  }

  lemma AllWentOn(moments: seq<Moment>, rounds: seq<Round>, limits: Limits)
    requires 0 < |moments| <= |rounds| + 1
    requires forall k :: 0 <= k < |moments| - 1 ==> GoesOn(moments, rounds, limits, k)
    ensures RanThrough(moments, rounds, limits)
  {
    hide Goes;
    if |moments| > 1 {
      var k := |moments| - 2;
      assert GoesOn(moments, rounds, limits, k);
      MayGoOn(moments[k], rounds[k], limits, true, moments[k + 1]);
    }
  }

  lemma RoundGoes(m: Moment, round: Round, limits: Limits, exit: Exit, timed: Sched, drained: Sched, n: Moment)
    requires RoundDoes(m, round, limits, exit, timed, drained, n)
    ensures Goes(m, round, limits, true, n) && (exit.Running? ==> Goes(m, round, limits, false, n))
    ensures exit.Aborted? ==> round.aborts || round.reopenFails
  {
    assert exit.Aborted? ==> round.aborts || round.reopenFails;
    hide RoundDoes;
  }
}
