/**
  Rotation of a backend's client (crates/transport/src/h2_pool.rs) as atomic steps of any number
  of concurrent calls on one backend: a read-locked section, the unlocked build, a write-locked
  section. A client is represented by the TLS policy it was built from.
 */
module ClientRotation {
  import opened Prelude

  /** A TLS policy; only equality matters. */
  type Tls = int

  const U64_MAX: nat := 0xFFFF_FFFF_FFFF_FFFF

  /** BackendClientState. */
  datatype Shared = Shared(client: Tls, tls: Tls, generation: nat)

  datatype Outcome = Rotated(previous: nat, current: nat) | Unchanged | BuildFailed

  /** Where a call stands; `policy` is what its client is or will be built from. */
  datatype Phase = Entered | Building(policy: Tls) | Installing(policy: Tls) | Returned(outcome: Outcome)

  /** `config` is the argument of rotate_backend_client_with_tls, absent for rotate_backend_client. */
  datatype Call = Call(config: Option<Tls>, phase: Phase)

  datatype System = System(shared: Shared, calls: seq<Call>, rotations: seq<Outcome>)

  function NextGeneration(g: nat): nat { Min(g + 1, U64_MAX) }

  /** The write-locked section of a call holding a client built from `policy`. */
  function Install(s: Shared, config: Option<Tls>, policy: Tls): (Shared, Outcome) {
    if config.Some? && s.tls == config.value then (s, Unchanged)
    else
      var tls := if config.Some? then config.value else s.tls;
      (Shared(policy, tls, NextGeneration(s.generation)), Rotated(s.generation, NextGeneration(s.generation)))
  }

  /** The next atomic section of call `i`; `builds` says whether the client can be built. */
  function Step(y: System, i: nat, builds: bool): System
    requires i < |y.calls|
  {
    var c := y.calls[i];
    match c.phase
    case Entered =>
      var next :=
        if c.config.None? then Building(y.shared.tls)
        else if y.shared.tls == c.config.value then Returned(Unchanged)
        else Building(c.config.value);
      y.(calls := y.calls[i := c.(phase := next)])
    case Building(policy) =>
      y.(calls := y.calls[i := c.(phase := if builds then Installing(policy) else Returned(BuildFailed))])
    case Installing(policy) =>
      var (shared, outcome) := Install(y.shared, c.config, policy);
      System(shared, y.calls[i := c.(phase := Returned(outcome))],
             if outcome.Rotated? then y.rotations + [outcome] else y.rotations)
    case Returned(_) => y
  }

  datatype Move = Move(call: nat, builds: bool)

  ghost predicate StepAt(ys: seq<System>, moves: seq<Move>, k: nat) {
    && k < |moves| && |ys| == |moves| + 1 && moves[k].call < |ys[k].calls|
    && ys[k + 1] == Step(ys[k], moves[k].call, moves[k].builds)
  }

  /** An interleaving of calls that have not begun, on a freshly built backend. */
  ghost predicate Interleaving(ys: seq<System>, moves: seq<Move>) {
    && |ys| == |moves| + 1
    && ys[0].shared.client == ys[0].shared.tls && ys[0].shared.generation == 0 && ys[0].rotations == []
    && (forall c <- ys[0].calls :: c.phase == Entered)
    && (forall y <- ys :: |y.calls| == |ys[0].calls|)
    && forall k :: 0 <= k < |moves| ==> StepAt(ys, moves, k)
  }

  ghost predicate Agree(s: Shared) { s.client == s.tls }

  /** A call with a TLS argument builds from that argument. */
  ghost predicate OwnPolicy(c: Call) {
    c.config.Some? && (c.phase.Building? || c.phase.Installing?) ==> c.phase.policy == c.config.value
  }

  /** The k-th completed rotation took generation k to k + 1, up to saturation. */
  ghost predicate Chained(y: System) {
    && y.shared.generation == Min(|y.rotations|, U64_MAX)
    && forall k :: 0 <= k < |y.rotations| ==> y.rotations[k] == Rotated(Min(k, U64_MAX), Min(k + 1, U64_MAX))
  }

  ghost predicate Inv(y: System) {
    Chained(y) && forall c <- y.calls :: OwnPolicy(c)
  }

  lemma StepKeeps(y: System, i: nat, builds: bool)
    requires Inv(y) && i < |y.calls|
    ensures Inv(Step(y, i, builds)) && |Step(y, i, builds).calls| == |y.calls|
    ensures forall j :: 0 <= j < |y.calls| ==> Step(y, i, builds).calls[j].config == y.calls[j].config
  {
    assert y.calls[i] in y.calls;
    var z := Step(y, i, builds);
    forall c | c in z.calls ensures OwnPolicy(c) {
      var j :| 0 <= j < |z.calls| && z.calls[j] == c;
      assert y.calls[j] in y.calls;
    }
  }

  lemma {:induction false} InvAt(ys: seq<System>, moves: seq<Move>, k: nat)
    requires Interleaving(ys, moves) && k <= |moves|
    ensures Inv(ys[k]) && |ys[k].calls| == |ys[0].calls|
    ensures forall j :: 0 <= j < |ys[0].calls| ==> ys[k].calls[j].config == ys[0].calls[j].config
  {
    if k == 0 {
    } else {
      InvAt(ys, moves, k - 1);
      assert StepAt(ys, moves, k - 1);
      StepKeeps(ys[k - 1], moves[k - 1].call, moves[k - 1].builds);
    }
  }

  /** In every interleaving the Rotated results form one chain of consecutive generations. */
  lemma RotationsChain(ys: seq<System>, moves: seq<Move>, k: nat)
    requires Interleaving(ys, moves) && k <= |moves|
    ensures Chained(ys[k])
  {
    InvAt(ys, moves, k);
  }

  // ---- Agreement of client and policy ----

  /** Move `k` installs a plain rotation whose client was built from a policy no longer in force. */
  ghost predicate StaleInstall(ys: seq<System>, moves: seq<Move>, k: nat)
    requires StepAt(ys, moves, k)
  {
    var c := ys[k].calls[moves[k].call];
    c.config.None? && c.phase.Installing? && c.phase.policy != ys[k].shared.tls
  }

  lemma StepAgrees(ys: seq<System>, moves: seq<Move>, k: nat)
    requires StepAt(ys, moves, k) && Inv(ys[k]) && Agree(ys[k].shared)
    ensures Agree(ys[k + 1].shared) <==> !StaleInstall(ys, moves, k)
  {
    assert ys[k].calls[moves[k].call] in ys[k].calls;
  }

  /**
    The installed client was built from the policy in force at every point of an interleaving if
    and only if no plain rotation installs a client built from a superseded policy.
   */
  lemma {:induction false} AgreesIffNoStaleInstall(ys: seq<System>, moves: seq<Move>, n: nat)
    requires Interleaving(ys, moves) && n <= |moves|
    ensures (forall k :: 0 <= k <= n ==> Agree(ys[k].shared))
            <==> (forall k :: 0 <= k < n ==> StepAt(ys, moves, k) && !StaleInstall(ys, moves, k))
  {
    if n == 0 {
    } else {
      AgreesIffNoStaleInstall(ys, moves, n - 1);
      InvAt(ys, moves, n - 1);
      assert StepAt(ys, moves, n - 1);
      if Agree(ys[n - 1].shared) {
        StepAgrees(ys, moves, n - 1);
      }
    }
  }

  /** With TLS rotations only, every interleaving keeps client and policy in agreement. */
  lemma {:induction false} TlsCallsAgree(ys: seq<System>, moves: seq<Move>, k: nat)
    requires Interleaving(ys, moves) && k <= |moves| && forall c <- ys[0].calls :: c.config.Some?
    ensures Agree(ys[k].shared)
  {
    if k == 0 {
    } else {
      TlsCallsAgree(ys, moves, k - 1);
      InvAt(ys, moves, k - 1);
      assert StepAt(ys, moves, k - 1);
      assert ys[0].calls[moves[k - 1].call] in ys[0].calls;
      StepAgrees(ys, moves, k - 1);
    }
  }

  /** The policy is the same at every point from `j` to `k`. */
  ghost predicate PolicySteady(ys: seq<System>, j: nat, k: nat) {
    j <= k < |ys| && forall m :: j <= m <= k ==> ys[m].shared.tls == ys[j].shared.tls
  }

  lemma {:induction false} SnapshotKept(ys: seq<System>, moves: seq<Move>, i: nat, j: nat, k: nat)
    requires Interleaving(ys, moves) && j < k <= |moves| && i < |ys[0].calls| && ys[0].calls[i].config.None?
    requires moves[j].call == i
    requires ys[j].calls[i].phase.Entered?
    ensures var p := ys[k].calls[i].phase;
            p.Building? || p.Installing? ==> p.policy == ys[j].shared.tls
    ensures !ys[k].calls[i].phase.Entered?
    decreases k
  {
    InvAt(ys, moves, k - 1);
    assert StepAt(ys, moves, k - 1);
    if j < k - 1 {
      SnapshotKept(ys, moves, i, j, k - 1);
    }
  }

  /** Move `j` is the read-locked section of call `i`. */
  ghost predicate Reads(ys: seq<System>, moves: seq<Move>, i: nat, j: nat) {
    j < |moves| && StepAt(ys, moves, j) && moves[j].call == i && ys[j].calls[i].phase.Entered?
  }

  /** Move `k` is the write-locked section of call `i`. */
  ghost predicate Installs(ys: seq<System>, moves: seq<Move>, i: nat, k: nat) {
    k < |moves| && StepAt(ys, moves, k) && moves[k].call == i && ys[k].calls[i].phase.Installing?
  }

  /** Call `i` is a plain rotation that reads at `j` and installs at `k`. */
  ghost predicate PlainWindow(ys: seq<System>, moves: seq<Move>, i: nat, j: nat, k: nat) {
    && j < k < |moves| == |ys| - 1 && Reads(ys, moves, i, j) && Installs(ys, moves, i, k)
    && ys[j].calls[i].config.None?
  }

  /** A call that has moved on from its entry has a read behind it. */
  lemma {:induction false} ReadBefore(ys: seq<System>, moves: seq<Move>, i: nat, k: nat) returns (j: nat)
    requires Interleaving(ys, moves) && k <= |moves| && i < |ys[0].calls|
    requires i < |ys[k].calls| && !ys[k].calls[i].phase.Entered?
    ensures j < k && Reads(ys, moves, i, j)
    decreases k
  {
    assert ys[0].calls[i] in ys[0].calls;
    if k == 0 {
      assert false;
    } else {
      InvAt(ys, moves, k - 1);
      assert StepAt(ys, moves, k - 1);
      j := k - 1;
      if !ys[k - 1].calls[i].phase.Entered? {
        j := ReadBefore(ys, moves, i, k - 1);
      }
    }
  }

  /** A plain install is stale exactly when the policy differs at the two ends of its window. */
  lemma StaleIffMoved(ys: seq<System>, moves: seq<Move>, i: nat, j: nat, k: nat)
    requires Interleaving(ys, moves) && PlainWindow(ys, moves, i, j, k)
    ensures StaleInstall(ys, moves, k) <==> ys[j].shared.tls != ys[k].shared.tls
  {
    InvAt(ys, moves, j);
    InvAt(ys, moves, k);
    SnapshotKept(ys, moves, i, j, k);
  }

  lemma StaleHasWindow(ys: seq<System>, moves: seq<Move>, k: nat) returns (j: nat)
    requires Interleaving(ys, moves) && StepAt(ys, moves, k) && StaleInstall(ys, moves, k)
    ensures PlainWindow(ys, moves, moves[k].call, j, k)
  {
    InvAt(ys, moves, k);
    j := ReadBefore(ys, moves, moves[k].call, k);
    InvAt(ys, moves, j);
  }

  /** The policy at the install of every plain rotation up to move `n` is the one it read. */
  ghost predicate WindowsMatch(ys: seq<System>, moves: seq<Move>, n: nat) {
    forall i: nat, j: nat, k: nat :: k < n && PlainWindow(ys, moves, i, j, k) ==> ys[j].shared.tls == ys[k].shared.tls
  }

  /**
    The installed client was built from the policy in force at every point of an interleaving if
    and only if, for every plain rotation that installs, the policy in force at its write-locked
    section is the one in force at its read-locked section.
   */
  lemma AgreesIffWindowsMatch(ys: seq<System>, moves: seq<Move>, n: nat)
    requires Interleaving(ys, moves) && n <= |moves|
    ensures (forall k :: 0 <= k <= n ==> Agree(ys[k].shared)) <==> WindowsMatch(ys, moves, n)
  {
    hide StaleInstall, Agree, Reads, Installs;
    AgreesIffNoStaleInstall(ys, moves, n);
    if WindowsMatch(ys, moves, n) {
      forall k | 0 <= k < n ensures StepAt(ys, moves, k) && !StaleInstall(ys, moves, k) {
        assert StepAt(ys, moves, k);
        if StaleInstall(ys, moves, k) {
          var j := StaleHasWindow(ys, moves, k);
          StaleIffMoved(ys, moves, moves[k].call, j, k);
        }
      }
    }
    if forall k :: 0 <= k <= n ==> Agree(ys[k].shared) {
      forall i: nat, j: nat, k: nat | k < n && PlainWindow(ys, moves, i, j, k) ensures ys[j].shared.tls == ys[k].shared.tls {
        StaleIffMoved(ys, moves, i, j, k);
      }
    }
  }

  /** If no policy change falls into the window of a plain rotation, client and policy agree throughout the run. */
  lemma SteadyWindowsAgree(ys: seq<System>, moves: seq<Move>, n: nat)
    requires Interleaving(ys, moves) && n <= |moves|
    requires forall i: nat, j: nat, k: nat :: k < n && PlainWindow(ys, moves, i, j, k) ==> PolicySteady(ys, j, k)
    ensures forall k :: 0 <= k <= n ==> Agree(ys[k].shared)
  {
    AgreesIffWindowsMatch(ys, moves, n);
    forall i: nat, j: nat, k: nat | k < n && PlainWindow(ys, moves, i, j, k) ensures ys[j].shared.tls == ys[k].shared.tls {
      assert PolicySteady(ys, j, k);
    }
  }

  /** A TLS rotation inside the window of a plain one: the old client ends up beside the new policy. */
  lemma StaleTrace() returns (ys: seq<System>, moves: seq<Move>)
    ensures Interleaving(ys, moves) && |ys[0].calls| == 2
    ensures ys[|moves|].shared == Shared(0, 1, 2)
    ensures forall c <- ys[|moves|].calls :: c.phase.Returned? && c.phase.outcome.Rotated?
  {
    var y0 := System(Shared(0, 0, 0), [Call(None, Entered), Call(Some(1), Entered)], []);
    moves := [Move(0, true), Move(1, true), Move(1, true), Move(1, true), Move(0, true), Move(0, true)];
    var y1 := Step(y0, 0, true);
    var y2 := Step(y1, 1, true);
    var y3 := Step(y2, 1, true);
    var y4 := Step(y3, 1, true);
    var y5 := Step(y4, 0, true);
    var y6 := Step(y5, 0, true);
    ys := [y0, y1, y2, y3, y4, y5, y6];
  }

  /**
    The mismatch is not repaired by rotating to the policy already in force: such calls, in any
    number and order, answer Unchanged and leave the shared state as it is.
   */
  lemma {:induction false} MismatchPersists(ys: seq<System>, moves: seq<Move>, n: nat, k: nat)
    requires |ys| == |moves| + 1 && n <= k <= |moves| && forall m :: 0 <= m < |moves| ==> StepAt(ys, moves, m)
    requires forall c <- ys[n].calls :: c.config == Some(ys[n].shared.tls)
    ensures ys[k].shared == ys[n].shared && forall c <- ys[k].calls :: c.config == Some(ys[n].shared.tls)
  {
    if n == k {
    } else {
      MismatchPersists(ys, moves, n, k - 1);
      assert StepAt(ys, moves, k - 1);
      var y, i := ys[k - 1], moves[k - 1].call;
      assert y.calls[i] in y.calls;
      forall c | c in ys[k].calls ensures c.config == Some(ys[n].shared.tls) {
        var j :| 0 <= j < |ys[k].calls| && ys[k].calls[j] == c;
        assert y.calls[j] in y.calls;
      }
    }
  }

  // ---- What a call reports ----

  /** Move `k` ends its call with outcome `o`. */
  ghost predicate Ends(ys: seq<System>, moves: seq<Move>, k: nat, o: Outcome) {
    && StepAt(ys, moves, k)
    && var i := moves[k].call;
       !ys[k].calls[i].phase.Returned? && i < |ys[k + 1].calls| && ys[k + 1].calls[i].phase == Returned(o)
  }

  /**
    A call tells the truth: Unchanged when its policy is in force, BuildFailed when its client could
    not be built, both without touching the backend; Rotated, with the generations before and after,
    when its client is installed, and then its policy is in force if it brought one.
   */
  lemma OutcomesTrue(ys: seq<System>, moves: seq<Move>, k: nat, o: Outcome)
    requires Ends(ys, moves, k, o)
    ensures var c, was, next := ys[k].calls[moves[k].call], ys[k].shared, ys[k + 1].shared;
            match o
            case Unchanged => c.config == Some(was.tls) && next == was
            case BuildFailed => c.phase.Building? && !moves[k].builds && next == was
            case Rotated(g, h) =>
              && c.phase.Installing? && next.client == c.phase.policy && g == was.generation && h == next.generation
              && next.tls == (if c.config.Some? then c.config.value else was.tls)
  {
  }

  /** Only a client that was built is installed. */
  lemma {:induction false} InstalledWasBuilt(ys: seq<System>, moves: seq<Move>, i: nat, k: nat) returns (m: nat)
    requires Interleaving(ys, moves) && k <= |moves| && i < |ys[0].calls| && i < |ys[k].calls|
    requires ys[k].calls[i].phase.Installing?
    ensures m < k && moves[m].call == i && moves[m].builds && i < |ys[m].calls| && ys[m].calls[i].phase.Building?
    decreases k
  {
    assert ys[0].calls[i] in ys[0].calls;
    if k == 0 {
      assert false;
    } else {
      InvAt(ys, moves, k - 1);
      assert StepAt(ys, moves, k - 1);
      m := k - 1;
      if ys[k - 1].calls[i].phase.Installing? {
        m := InstalledWasBuilt(ys, moves, i, k - 1);
      }
    }
  }

  // ---- Racing calls with one new policy ----

  /** One policy `t` is being introduced: it is in force exactly when one rotation has completed. */
  ghost predicate Racing(y: System, t: Tls, initial: Tls) {
    && (forall c <- y.calls :: c.config == Some(t))
    && (if y.shared.tls == initial then y.rotations == [] else y.shared.tls == t && |y.rotations| == 1)
    && (forall c <- y.calls :: c.phase.Returned? && !c.phase.outcome.BuildFailed? ==> y.shared.tls == t)
  }

  lemma RacingStep(y: System, i: nat, builds: bool, t: Tls, initial: Tls)
    requires Racing(y, t, initial) && i < |y.calls|
    ensures Racing(Step(y, i, builds), t, initial)
  {
    assert y.calls[i] in y.calls;
    var z := Step(y, i, builds);
    forall c | c in z.calls
      ensures c.config == Some(t)
      ensures c.phase.Returned? && !c.phase.outcome.BuildFailed? ==> z.shared.tls == t
    {
      var j :| 0 <= j < |z.calls| && z.calls[j] == c;
      assert y.calls[j] in y.calls;
    }
  }

  /**
    Any number of calls racing to install one new policy: once some call has returned without a
    build error, exactly one Rotated has been or ever will be reported; none if it was in force already.
   */
  lemma {:induction false} OneRotationWins(ys: seq<System>, moves: seq<Move>, t: Tls, k: nat)
    requires Interleaving(ys, moves) && k <= |moves| && forall c <- ys[0].calls :: c.config == Some(t)
    ensures Racing(ys[k], t, ys[0].shared.tls)
    ensures |ys[k].rotations| <= 1
    ensures (exists c <- ys[k].calls :: c.phase.Returned? && !c.phase.outcome.BuildFailed?)
            ==> |ys[k].rotations| == if t == ys[0].shared.tls then 0 else 1
  {
    if k == 0 {
    } else {
      OneRotationWins(ys, moves, t, k - 1);
      assert StepAt(ys, moves, k - 1);
      RacingStep(ys[k - 1], moves[k - 1].call, moves[k - 1].builds, t, ys[0].shared.tls);
    }
  }
}
