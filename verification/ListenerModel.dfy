/**
  Listener groups across reloads (impulse/src/listener_group.rs), keyed by label. Worker threads
  are handles 0, 1, 2, ... in spawn order; which have finished is up to the environment.
 */
module ListenerModel {
  import opened Prelude
  import opened WorkerRanges

  datatype Signature = Signature(
    listener: string,
    workerCount: nat,
    shardCount: nat,
    shardQueueCapacity: nat,
    shardQueueMaxBytes: nat,
    pinWorkers: bool,
    reuseport: bool,
    udpRecvBufferBytes: nat,
    udpSendBufferBytes: nat)

  /** The listener settings a signature is made of, before zeroes are raised to one. */
  type Config = Signature

  function SignatureOf(c: Config): (s: Signature)
    ensures s.listener == c.listener && s.workerCount >= 1
  {
    c.(workerCount := Max(c.workerCount, 1),
       shardCount := Max(c.shardCount, 1),
       shardQueueCapacity := Max(c.shardQueueCapacity, 1),
       shardQueueMaxBytes := Max(c.shardQueueMaxBytes, 1))
  }

  datatype Group = Group(signature: Signature, shutdown: bool, handles: set<nat>, base: nat)
  {
    function Slots(): Range { Range(base, base + signature.workerCount) }
  }

  /**
    The live groups, the number of worker threads ever spawned, how often each was joined, and
    the ones whose handle was dropped when a later thread of the same group failed to spawn.
   */
  datatype World = World(live: map<string, Group>, spawned: nat, joined: multiset<nat>, detached: set<nat>)

  const START: World := World(map[], 0, multiset{}, {})

  function LiveHandles(w: World): set<nat> {
    set l, h | l in w.live && h in w.live[l].handles :: h
  }

  // ---- Operations ----

  predicate Retired(g: Group, finished: set<nat>) { g.shutdown && g.handles <= finished }

  /** collect_finished_listener_groups, with the handles that report themselves finished. */
  function Collect(w: World, finished: set<nat>): World {
    w.(live := map l | l in w.live && !Retired(w.live[l], finished) ::
                 w.live[l].(handles := w.live[l].handles - finished),
       joined := w.joined + multiset(LiveHandles(w) * finished))
  }

  function RequestShutdown(w: World): World {
    w.(live := map l | l in w.live :: w.live[l].(shutdown := true))
  }

  function Desired(configs: seq<Config>): map<string, Signature> {
    if configs == [] then map[]
    else
      var last := configs[|configs| - 1];
      Desired(configs[..|configs| - 1])[last.listener := SignatureOf(last)]
  }

  predicate Wanted(g: Group, desired: map<string, Signature>) {
    g.signature.listener in desired && desired[g.signature.listener] == g.signature
  }

  function Retire(w: World, desired: map<string, Signature>): World {
    w.(live := map l | l in w.live ::
                 if Wanted(w.live[l], desired) then w.live[l] else w.live[l].(shutdown := true))
  }

  /** A spawn yields a running group, or an error after `started` of its threads were running. */
  datatype Outcome = Spawned(base: nat) | Failed(started: nat)

  function NewHandles(from: nat, count: nat): (r: set<nat>)
    ensures |r| == count && forall h :: h in r <==> from <= h < from + count
  {
    if count == 0 then {} else NewHandles(from, count - 1) + {from + count - 1}
  }

  ghost predicate LeastFreeIn(live: map<string, Group>, base: nat, count: nat) {
    && FreeIn(live, base, count)
    && forall c: nat :: c < base ==> !FreeIn(live, c, count)
  }

  ghost predicate FreeIn(live: map<string, Group>, base: nat, count: nat) {
    forall l :: l in live ==> !Overlaps(live[l].Slots(), base, count)
  }

  ghost predicate Possible(w: World, c: Config, o: Outcome) {
    match o
    case Spawned(base) => LeastFreeIn(w.live, base, SignatureOf(c).workerCount)
    case Failed(started) => started < SignatureOf(c).workerCount
  }

  /** One round of the spawn loop; a label that is still live is left alone. */
  function SpawnOne(w: World, c: Config, o: Outcome): World {
    if c.listener in w.live then w
    else
      match o
      case Spawned(base) =>
        var s := SignatureOf(c);
        w.(live := w.live[c.listener := Group(s, false, NewHandles(w.spawned, s.workerCount), base)],
           spawned := w.spawned + s.workerCount)
      case Failed(started) =>
        w.(spawned := w.spawned + started, detached := w.detached + NewHandles(w.spawned, started))
  }

  function SpawnAll(w: World, configs: seq<Config>, outcomes: seq<Outcome>): World
    requires |outcomes| == |configs|
  {
    if configs == [] then w
    else
      var n := |configs| - 1;
      SpawnOne(SpawnAll(w, configs[..n], outcomes[..n]), configs[n], outcomes[n])
  }

  function Reconcile(w: World, configs: seq<Config>, outcomes: seq<Outcome>): World
    requires |outcomes| == |configs|
  {
    SpawnAll(Retire(w, Desired(configs)), configs, outcomes)
  }

  /** Every outcome can be what its spawn returns. */
  ghost predicate AllPossible(w: World, configs: seq<Config>, outcomes: seq<Outcome>)
    requires |outcomes| == |configs|
  {
    forall k :: 0 <= k < |configs| ==> Possible(SpawnAll(w, configs[..k], outcomes[..k]), configs[k], outcomes[k])
  }

  // ---- Invariant ----

  ghost predicate Labelled(w: World) {
    forall l :: l in w.live ==> w.live[l].signature.listener == l && w.live[l].signature.workerCount >= 1
  }

  predicate Apart(a: Range, b: Range) { a.end <= b.start || b.end <= a.start }

  ghost predicate RangesApart(w: World) {
    forall l, m :: l in w.live && m in w.live && l != m ==> Apart(w.live[l].Slots(), w.live[m].Slots())
  }

  /** Each spawned thread is held by exactly one group, or was joined once, or was detached. */
  ghost predicate HandlesAccounted(w: World) {
    && (forall l, m, h :: l in w.live && m in w.live && h in w.live[l].handles && h in w.live[m].handles ==> l == m)
    && (forall h: nat :: (if h in LiveHandles(w) then 1 else 0) + w.joined[h] + (if h in w.detached then 1 else 0)
                         == if h < w.spawned then 1 else 0)
  }

  ghost predicate WithinCount(w: World) {
    forall l :: l in w.live ==> |w.live[l].handles| <= w.live[l].signature.workerCount
  }

  ghost predicate Accounted(w: World) { Labelled(w) && HandlesAccounted(w) && WithinCount(w) }

  ghost predicate Inv(w: World) { Accounted(w) && RangesApart(w) }

  lemma SubsetSize(a: set<nat>, b: set<nat>)
    requires a <= b
    ensures |a| <= |b| && (|a| == |b| ==> a == b)
  {
    assert b == a + (b - a);
  }

  lemma CollectLeaves(w: World, finished: set<nat>)
    ensures LiveHandles(Collect(w, finished)) == LiveHandles(w) - finished
  {
    var v := Collect(w, finished);
    forall h: nat ensures h in LiveHandles(v) <==> h in LiveHandles(w) && h !in finished {
      if h in LiveHandles(w) && h !in finished {
        var l :| l in w.live && h in w.live[l].handles;
        assert !Retired(w.live[l], finished);
        assert l in v.live && h in v.live[l].handles;
      }
    }
  }

  lemma CollectAccounts(w: World, finished: set<nat>)
    requires HandlesAccounted(w)
    ensures HandlesAccounted(Collect(w, finished))
  {
    CollectLeaves(w, finished);
    hide LiveHandles;
  }

  lemma CollectWithin(w: World, finished: set<nat>)
    requires WithinCount(w)
    ensures WithinCount(Collect(w, finished))
  {
    var v := Collect(w, finished);
    forall l | l in v.live ensures |v.live[l].handles| <= |w.live[l].handles| {
      SubsetSize(v.live[l].handles, w.live[l].handles);
    }
  }

  lemma CollectApart(w: World, finished: set<nat>)
    requires Labelled(w)
    ensures Labelled(Collect(w, finished)) && (RangesApart(w) ==> RangesApart(Collect(w, finished)))
  {
    var v := Collect(w, finished);
    forall l | l in v.live ensures l in w.live && v.live[l].signature == w.live[l].signature && v.live[l].base == w.live[l].base {
    }
    hide Collect;
  }

  lemma CollectKeeps(w: World, finished: set<nat>)
    requires Accounted(w)
    ensures Accounted(Collect(w, finished))
    ensures RangesApart(w) ==> RangesApart(Collect(w, finished))
  {
    hide Collect, HandlesAccounted, WithinCount, Labelled, RangesApart;
    CollectAccounts(w, finished);
    CollectWithin(w, finished);
    CollectApart(w, finished);
  }

  /** `v` is `w` with some groups told to shut down. */
  ghost predicate OnlyFlagged(w: World, v: World) {
    && v == w.(live := v.live) && v.live.Keys == w.live.Keys
    && forall l :: l in w.live ==> v.live[l] == w.live[l].(shutdown := v.live[l].shutdown)
  }

  lemma FlaggedKeeps(w: World, v: World)
    requires Accounted(w) && OnlyFlagged(w, v)
    ensures Accounted(v) && LiveHandles(v) == LiveHandles(w)
    ensures RangesApart(w) ==> RangesApart(v)
  {
    assert LiveHandles(v) == LiveHandles(w);
  }

  lemma SpawnedRanges(w: World, c: Config, base: nat)
    requires RangesApart(w) && c.listener !in w.live && FreeIn(w.live, base, SignatureOf(c).workerCount)
    ensures RangesApart(SpawnOne(w, c, Spawned(base)))
  {
    var v := SpawnOne(w, c, Spawned(base));
    forall l | l in w.live ensures Apart(w.live[l].Slots(), v.live[c.listener].Slots()) {
      assert !Overlaps(w.live[l].Slots(), base, SignatureOf(c).workerCount);
    }
  }

  lemma SpawnedHandles(w: World, c: Config, base: nat)
    requires HandlesAccounted(w) && c.listener !in w.live
    ensures HandlesAccounted(SpawnOne(w, c, Spawned(base)))
  {
    var v := SpawnOne(w, c, Spawned(base));
    var added := NewHandles(w.spawned, SignatureOf(c).workerCount);
    assert v.live[c.listener].handles == added;
    forall h: nat ensures h in LiveHandles(v) <==> h in LiveHandles(w) || h in added {
      if h in added {
        assert h in v.live[c.listener].handles;
      }
      if h in LiveHandles(w) {
        var l :| l in w.live && h in w.live[l].handles;
        assert l in v.live && h in v.live[l].handles;
      }
    }
    forall l, h | l in w.live && h in w.live[l].handles ensures h < w.spawned {
      assert h in LiveHandles(w);
    }
  }

  lemma SpawnOneKeeps(w: World, c: Config, o: Outcome)
    requires Accounted(w)
    ensures Accounted(SpawnOne(w, c, o))
  {
    if c.listener !in w.live {
      if o.Spawned? {
        SpawnedHandles(w, c, o.base);
      } else {
        assert LiveHandles(SpawnOne(w, c, o)) == LiveHandles(w);
      }
    }
  }

  lemma SpawnOneApart(w: World, c: Config, o: Outcome)
    requires RangesApart(w) && Possible(w, c, o)
    ensures RangesApart(SpawnOne(w, c, o))
  {
    if c.listener !in w.live && o.Spawned? {
      SpawnedRanges(w, c, o.base);
    }
  }

  // ---- Runs ----

  datatype Event =
    | Collecting(finished: set<nat>)
    | Reconciling(configs: seq<Config>, outcomes: seq<Outcome>)
    | ShuttingDown

  ghost predicate Steps(w: World, e: Event, v: World) {
    match e
    case Collecting(finished) => v == Collect(w, finished)
    case Reconciling(configs, outcomes) =>
      |outcomes| == |configs| && AllPossible(Retire(w, Desired(configs)), configs, outcomes)
      && v == Reconcile(w, configs, outcomes)
    case ShuttingDown => v == RequestShutdown(w)
  }

  ghost predicate StepAt(ws: seq<World>, es: seq<Event>, k: nat) {
    k < |es| && |ws| == |es| + 1 && Steps(ws[k], es[k], ws[k + 1])
  }

  ghost predicate Reachable(ws: seq<World>, es: seq<Event>) {
    |ws| == |es| + 1 && ws[0] == START && forall k :: 0 <= k < |es| ==> StepAt(ws, es, k)
  }

  lemma {:induction false} SpawnAllAccounts(w: World, configs: seq<Config>, outcomes: seq<Outcome>)
    requires |outcomes| == |configs| && Accounted(w)
    ensures Accounted(SpawnAll(w, configs, outcomes))
  {
    if configs == [] {
    } else {
      var n := |configs| - 1;
      SpawnAllAccounts(w, configs[..n], outcomes[..n]);
      SpawnOneKeeps(SpawnAll(w, configs[..n], outcomes[..n]), configs[n], outcomes[n]);
    }
  }

  lemma {:induction false} SpawnAllKeeps(w: World, configs: seq<Config>, outcomes: seq<Outcome>)
    requires |outcomes| == |configs| && Inv(w) && AllPossible(w, configs, outcomes)
    ensures Inv(SpawnAll(w, configs, outcomes))
  {
    if configs == [] {
    } else {
      var n := |configs| - 1;
      AllPossiblePrefix(w, configs, outcomes, n);
      SpawnAllKeeps(w, configs[..n], outcomes[..n]);
      SpawnOneKeeps(SpawnAll(w, configs[..n], outcomes[..n]), configs[n], outcomes[n]);
      SpawnOneApart(SpawnAll(w, configs[..n], outcomes[..n]), configs[n], outcomes[n]);
    }
  }

  lemma AllPossiblePrefix(w: World, configs: seq<Config>, outcomes: seq<Outcome>, n: nat)
    requires |outcomes| == |configs| && AllPossible(w, configs, outcomes) && n <= |configs|
    ensures AllPossible(w, configs[..n], outcomes[..n])
  {
    hide Possible, SpawnAll;
    forall k | 0 <= k < n
      ensures Possible(SpawnAll(w, configs[..n][..k], outcomes[..n][..k]), configs[..n][k], outcomes[..n][k])
    {
      assert configs[..n][..k] == configs[..k] && outcomes[..n][..k] == outcomes[..k];
      assert Possible(SpawnAll(w, configs[..k], outcomes[..k]), configs[k], outcomes[k]);
    }
  }

  lemma StepKeeps(w: World, e: Event, v: World)
    requires Inv(w) && Steps(w, e, v)
    ensures Inv(v)
  {
    match e
    case Collecting(finished) => CollectKeeps(w, finished);
    case Reconciling(configs, outcomes) =>
      FlaggedKeeps(w, Retire(w, Desired(configs)));
      SpawnAllKeeps(Retire(w, Desired(configs)), configs, outcomes);
    case ShuttingDown => FlaggedKeeps(w, RequestShutdown(w));
  }

  /**
    In every reachable state live worker-index ranges are pairwise disjoint, and every thread ever
    spawned is held by one live group, or joined exactly once, or detached by a failed spawn.
   */
  lemma {:induction false} RunKeeps(ws: seq<World>, es: seq<Event>, k: nat)
    requires Reachable(ws, es) && k <= |es|
    ensures Inv(ws[k])
  {
    hide Steps;
    if k > 0 {
      RunKeeps(ws, es, k - 1);
      assert StepAt(ws, es, k - 1);
      StepKeeps(ws[k - 1], es[k - 1], ws[k]);
    } else {
      StartInv();
    }
  }

  lemma StartInv()
    ensures Inv(START)
  {
  }

  /** Once no group is left, every spawned thread that no failed spawn detached was joined exactly once. */
  lemma DrainedMeansJoined(ws: seq<World>, es: seq<Event>, k: nat, h: nat)
    requires Reachable(ws, es) && k <= |es| && ws[k].live == map[]
    ensures ws[k].joined[h] == if h < ws[k].spawned && h !in ws[k].detached then 1 else 0
  {
    RunKeeps(ws, es, k);
    assert LiveHandles(ws[k]) == {};
  }

  /** A spawn that fails half-way leaves a thread that no later run of events can join. */
  lemma {:induction false} DetachedNeverJoined(ws: seq<World>, es: seq<Event>, j: nat, k: nat, h: nat)
    requires Reachable(ws, es) && j <= k <= |es| && h in ws[j].detached
    ensures h in ws[k].detached && ws[k].joined[h] == 0 && h !in LiveHandles(ws[k])
  {
    hide Steps;
    RunKeeps(ws, es, k);
    if j == k {
    } else {
      DetachedNeverJoined(ws, es, j, k - 1, h);
      assert StepAt(ws, es, k - 1);
      DetachedGrows(ws[k - 1], es[k - 1], ws[k]);
    }
  }

  lemma DetachedGrows(w: World, e: Event, v: World)
    requires Steps(w, e, v)
    ensures w.detached <= v.detached
  {
    if e.Reconciling? {
      SpawnAllDetaches(Retire(w, Desired(e.configs)), e.configs, e.outcomes);
    }
  }

  lemma {:induction false} SpawnAllDetaches(w: World, configs: seq<Config>, outcomes: seq<Outcome>)
    requires |outcomes| == |configs|
    ensures w.detached <= SpawnAll(w, configs, outcomes).detached
    ensures w.live.Keys <= SpawnAll(w, configs, outcomes).live.Keys
  {
    if configs == [] {
    } else {
      SpawnAllDetaches(w, configs[..|configs| - 1], outcomes[..|configs| - 1]);
    }
  }

  /** One failed spawn of a two-worker group: thread 0 is running and nobody holds its handle. */
  lemma DetachedThread() returns (ws: seq<World>, es: seq<Event>)
    ensures Reachable(ws, es) && |es| == 1 && ws[1] == World(map[], 1, multiset{}, {0})
  {
    var c := Signature("a", 2, 1, 1, 1, false, true, 0, 0);
    es := [Reconciling([c], [Failed(1)])];
    ws := [START, World(map[], 1, multiset{}, {0})];
    var retired := Retire(START, Desired([c]));
    assert retired.live == map[];
    SpawnSingle(retired, c, Failed(1));
    assert NewHandles(0, 1) == {0};
    assert StepAt(ws, es, 0);
  }

  /** A reconcile of one listener is one spawn. */
  lemma SpawnSingle(w: World, c: Config, o: Outcome)
    ensures SpawnAll(w, [c], [o]) == SpawnOne(w, c, o)
    ensures AllPossible(w, [c], [o]) <==> Possible(w, c, o)
  {
    hide Possible, SpawnOne;
    assert [c][..0] == [] && [o][..0] == [];
    assert SpawnAll(w, [c][..0], [o][..0]) == w;
  }
}
