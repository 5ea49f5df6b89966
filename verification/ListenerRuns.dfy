/** Reload convergence and the bound on worker indices. */
module ListenerRuns {
  import opened WorkerRanges
  import opened ListenerModel

  ghost predicate DistinctListeners(configs: seq<Config>) {
    forall i, j :: 0 <= i < j < |configs| ==> configs[i].listener != configs[j].listener
  }

  ghost predicate AllSpawned(outcomes: seq<Outcome>) { forall o <- outcomes :: o.Spawned? }

  function Listeners(configs: seq<Config>): set<string> { set c | c in configs :: c.listener }

  lemma {:induction false} DesiredOf(configs: seq<Config>)
    requires DistinctListeners(configs)
    ensures Desired(configs).Keys == Listeners(configs)
    ensures forall c <- configs :: c.listener in Desired(configs) && Desired(configs)[c.listener] == SignatureOf(c)
  {
    if configs == [] {
    } else {
      var n := |configs| - 1;
      DesiredOf(configs[..n]);
      assert configs == configs[..n] + [configs[n]];
      forall c | c in configs[..n] ensures c.listener != configs[n].listener {
      }
    }
  }

  ghost predicate FullyStaffed(g: Group) { |g.handles| == g.signature.workerCount }

  /** A spawned group runs what its listener is configured for, with all its workers. */
  ghost predicate Runs(g: Group, configs: seq<Config>) {
    !g.shutdown && FullyStaffed(g) && exists c <- configs :: g.signature == SignatureOf(c)
  }

  /** `v` is `w` with groups added for some of `configs`, for all of them when `all`. */
  ghost predicate Grown(w: World, configs: seq<Config>, all: bool, v: World) {
    && w.live.Keys <= v.live.Keys <= w.live.Keys + Listeners(configs)
    && (all ==> Listeners(configs) <= v.live.Keys)
    && (forall l :: l in w.live ==> v.live[l] == w.live[l])
    && (forall l :: l in v.live && l !in w.live ==> Runs(v.live[l], configs))
  }

  lemma GrownStep(w: World, configs: seq<Config>, all: bool, u: World, c: Config, o: Outcome)
    requires Grown(w, configs, all, u) && (all ==> o.Spawned?)
    ensures Grown(w, configs + [c], all, SpawnOne(u, c, o))
  {
    var v := SpawnOne(u, c, o);
    var more := configs + [c];
    assert c in more && forall d <- configs :: d in more;
    assert Listeners(more) == Listeners(configs) + {c.listener};
    forall l | l in v.live && l !in w.live ensures Runs(v.live[l], more) {
      if l in u.live {
        assert Runs(u.live[l], configs);
      }
    }
  }

  lemma {:induction false} SpawnAllAdds(w: World, configs: seq<Config>, outcomes: seq<Outcome>)
    requires |outcomes| == |configs|
    ensures Grown(w, configs, AllSpawned(outcomes), SpawnAll(w, configs, outcomes))
  {
    if configs == [] {
    } else {
      var n := |configs| - 1;
      SpawnAllAdds(w, configs[..n], outcomes[..n]);
      assert configs == configs[..n] + [configs[n]];
      hide Grown, SpawnOne;
      WeakerGrown(w, configs[..n], AllSpawned(outcomes[..n]), AllSpawned(outcomes), SpawnAll(w, configs[..n], outcomes[..n]));
      GrownStep(w, configs[..n], AllSpawned(outcomes), SpawnAll(w, configs[..n], outcomes[..n]), configs[n], outcomes[n]);
    }
  }

  lemma WeakerGrown(w: World, configs: seq<Config>, all: bool, some: bool, v: World)
    requires Grown(w, configs, all, v) && (some ==> all)
    ensures Grown(w, configs, some, v)
  {
  }

  /** Every group not shutting down is configured as it runs. */
  ghost predicate Settled(w: World, desired: map<string, Signature>) {
    forall l :: l in w.live && !w.live[l].shutdown ==> Wanted(w.live[l], desired)
  }

  lemma ReconcileSettles(w: World, configs: seq<Config>, outcomes: seq<Outcome>)
    requires |outcomes| == |configs| && DistinctListeners(configs) && Labelled(w)
    ensures var v := Reconcile(w, configs, outcomes); Settled(v, Desired(configs)) && Labelled(v)
  {
    var r := Retire(w, Desired(configs));
    var v := Reconcile(w, configs, outcomes);
    SpawnAllAdds(r, configs, outcomes);
    SpawnAllLabels(r, configs, outcomes);
    DesiredOf(configs);
    forall l | l in v.live && !v.live[l].shutdown ensures Wanted(v.live[l], Desired(configs)) {
      if l !in r.live {
        var c :| c in configs && v.live[l].signature == SignatureOf(c);
      }
    }
  }

  lemma {:induction false} SpawnAllLabels(w: World, configs: seq<Config>, outcomes: seq<Outcome>)
    requires |outcomes| == |configs| && Labelled(w)
    ensures Labelled(SpawnAll(w, configs, outcomes))
  {
    if configs == [] {
    } else {
      SpawnAllLabels(w, configs[..|configs| - 1], outcomes[..|configs| - 1]);
    }
  }

  /** `s` carries the settings of `c`, its zero numbers read as one. */
  predicate Carries(s: Signature, c: Config) {
    && s.listener == c.listener && s.pinWorkers == c.pinWorkers && s.reuseport == c.reuseport
    && s.udpRecvBufferBytes == c.udpRecvBufferBytes && s.udpSendBufferBytes == c.udpSendBufferBytes
    && s.workerCount == AtLeastOne(c.workerCount) && s.shardCount == AtLeastOne(c.shardCount)
    && s.shardQueueCapacity == AtLeastOne(c.shardQueueCapacity)
    && s.shardQueueMaxBytes == AtLeastOne(c.shardQueueMaxBytes)
  }

  function AtLeastOne(n: nat): nat { if n == 0 then 1 else n }

  lemma CarriedBySignature(s: Signature, c: Config)
    ensures Carries(s, c) <==> s == SignatureOf(c)
  {
  }

  /** Exactly the configured listeners run, each with its configured settings. */
  ghost predicate Converged(w: World, configs: seq<Config>) {
    && w.live.Keys == Listeners(configs)
    && forall c <- configs :: c.listener in w.live && Carries(w.live[c.listener].signature, c)
                              && !w.live[c.listener].shutdown
  }

  lemma AllWanted(w: World, configs: seq<Config>)
    requires DistinctListeners(configs) && Labelled(w)
    requires Settled(w, Desired(configs)) && forall l :: l in w.live ==> !w.live[l].shutdown
    ensures w.live.Keys <= Listeners(configs) && Retire(w, Desired(configs)) == w
  {
    DesiredOf(configs);
    hide Desired, Listeners;
    forall l | l in w.live ensures l in Listeners(configs) {
      assert Wanted(w.live[l], Desired(configs));
    }
    assert Retire(w, Desired(configs)).live == w.live;
  }

  lemma AllPresent(v: World, configs: seq<Config>)
    requires DistinctListeners(configs) && Settled(v, Desired(configs)) && Labelled(v)
    requires v.live.Keys == Listeners(configs) && forall l :: l in v.live ==> !v.live[l].shutdown
    ensures Converged(v, configs)
  {
    DesiredOf(configs);
    hide Desired;
    forall c | c in configs
      ensures c.listener in v.live && Carries(v.live[c.listener].signature, c) && !v.live[c.listener].shutdown
    {
      assert c.listener in Listeners(configs);
      assert Wanted(v.live[c.listener], Desired(configs));
      CarriedBySignature(v.live[c.listener].signature, c);
    }
  }

  lemma FinalReconcile(w: World, configs: seq<Config>, outcomes: seq<Outcome>)
    requires |outcomes| == |configs| && DistinctListeners(configs) && Labelled(w)
    requires Settled(w, Desired(configs)) && forall l :: l in w.live ==> !w.live[l].shutdown
    requires AllSpawned(outcomes)
    ensures Converged(Reconcile(w, configs, outcomes), configs)
  {
    AllWanted(w, configs);
    ReconcileSettles(w, configs, outcomes);
    SpawnAllAdds(w, configs, outcomes);
    var v := SpawnAll(w, configs, outcomes);
    assert v == Reconcile(w, configs, outcomes);
    hide Desired, SpawnAll, Reconcile, Retire, Settled, Labelled, Listeners, AllSpawned, DistinctListeners, Converged;
    AllPresent(v, configs);
  }

  /** Every desired listener has all its workers. */
  ghost predicate Staffed(w: World, configs: seq<Config>) {
    forall c <- configs :: c.listener in w.live && |w.live[c.listener].handles| == AtLeastOne(c.workerCount)
  }

  ghost predicate RetireesFinished(w: World, finished: set<nat>) {
    forall l :: l in w.live && w.live[l].shutdown ==> w.live[l].handles <= finished
  }

  /** Every group that stays has all its workers, and none of them has finished. */
  ghost predicate StayersIntact(w: World, finished: set<nat>) {
    forall l :: l in w.live && !w.live[l].shutdown ==> FullyStaffed(w.live[l]) && w.live[l].handles !! finished
  }

  lemma CollectClears(w: World, finished: set<nat>)
    requires RetireesFinished(w, finished)
    ensures var v := Collect(w, finished);
            forall l :: if l in w.live && !w.live[l].shutdown
                        then l in v.live && v.live[l] == w.live[l].(handles := w.live[l].handles - finished)
                        else l !in v.live
  {
  }

  /** A group still shutting down after the collect keeps the reload from converging. */
  lemma LingererBlocks(w: World, configs: seq<Config>, outcomes: seq<Outcome>, l: string)
    requires |outcomes| == |configs| && l in w.live && w.live[l].shutdown
    ensures !Converged(Reconcile(w, configs, outcomes), configs)
  {
    SpawnAllAdds(Retire(w, Desired(configs)), configs, outcomes);
    if l in Listeners(configs) {
      var c :| c in configs && c.listener == l;
    }
  }

  /** What the second reconcile makes of staffing: groups found stay as they are, new ones are full. */
  lemma FinalStaffing(w: World, configs: seq<Config>, outcomes: seq<Outcome>)
    requires |outcomes| == |configs| && DistinctListeners(configs) && Labelled(w)
    requires Settled(w, Desired(configs)) && forall l :: l in w.live ==> !w.live[l].shutdown
    requires AllSpawned(outcomes)
    ensures Staffed(Reconcile(w, configs, outcomes), configs) <==> forall l :: l in w.live ==> FullyStaffed(w.live[l])
  {
    var r := Retire(w, Desired(configs));
    assert r.live == w.live;
    SpawnAllAdds(r, configs, outcomes);
    FinalReconcile(w, configs, outcomes);
    var v := Reconcile(w, configs, outcomes);
    hide Reconcile, SpawnAll, Desired;
    forall l | l in w.live && Staffed(v, configs) ensures FullyStaffed(w.live[l]) {
      var c :| c in configs && c.listener == l;
    }
    if forall l :: l in w.live ==> FullyStaffed(w.live[l]) {
      forall c | c in configs ensures c.listener in v.live && FullyStaffed(v.live[c.listener]) {
        assert c.listener in Listeners(configs);
        assert c.listener in w.live || Runs(v.live[c.listener], configs);
      }
    }
  }

  lemma StillFull(g: Group, finished: set<nat>)
    requires |g.handles| <= g.signature.workerCount
    ensures |g.handles - finished| == g.signature.workerCount <==> FullyStaffed(g) && g.handles !! finished
  {
    SubsetSize(g.handles - finished, g.handles);
    if g.handles !! finished {
      assert g.handles - finished == g.handles;
    }
  }

  /** The reload from the state `v` after its first reconcile on, once the retirees have finished. */
  lemma ReloadStaffed(v: World, configs: seq<Config>, finished: set<nat>, second: seq<Outcome>)
    requires |second| == |configs| && DistinctListeners(configs) && AllSpawned(second)
    requires Settled(v, Desired(configs)) && Labelled(v) && WithinCount(v) && RetireesFinished(v, finished)
    ensures var u := Reconcile(Collect(v, finished), configs, second);
            Converged(u, configs) && (Staffed(u, configs) <==> StayersIntact(v, finished))
  {
    hide Reconcile, Collect, Desired, Converged, Staffed, Settled, Labelled, StayersIntact;
    var c := Collect(v, finished);
    CollectedClean(v, configs, finished);
    FinalReconcile(c, configs, second);
    FinalStaffing(c, configs, second);
    CollectedStaff(v, finished);
  }

  lemma CollectedClean(v: World, configs: seq<Config>, finished: set<nat>)
    requires Settled(v, Desired(configs)) && Labelled(v) && RetireesFinished(v, finished)
    ensures var c := Collect(v, finished);
            Settled(c, Desired(configs)) && Labelled(c) && forall l :: l in c.live ==> !c.live[l].shutdown
  {
    hide Desired;
    CollectClears(v, finished);
  }

  lemma CollectedStaff(v: World, finished: set<nat>)
    requires WithinCount(v) && RetireesFinished(v, finished)
    ensures var c := Collect(v, finished);
            (forall l :: l in c.live ==> FullyStaffed(c.live[l])) <==> StayersIntact(v, finished)
  {
    CollectClears(v, finished);
    var c := Collect(v, finished);
    hide Collect;
    forall l | l in v.live && !v.live[l].shutdown
      ensures l in c.live
      ensures FullyStaffed(c.live[l]) <==> FullyStaffed(v.live[l]) && v.live[l].handles !! finished
    {
      StillFull(v.live[l], finished);
    }
  }

  /**
    A reload: reconcile, let some workers finish, collect, reconcile again with spawns succeeding.
    The desired signatures and no others run afterwards if and only if every retiring worker had
    finished; and then every desired listener has all its workers if and only if, after the first
    reconcile, every staying group had all its workers and none of them finished meanwhile. The
    first reconcile's spawns may fail.
   */
  lemma ReloadConverges(
    w: World, configs: seq<Config>, first: seq<Outcome>, finished: set<nat>, second: seq<Outcome>)
    requires Accounted(w) && DistinctListeners(configs) && |first| == |second| == |configs| && AllSpawned(second)
    ensures var v := Reconcile(w, configs, first);
            var u := Reconcile(Collect(v, finished), configs, second);
            && (Converged(u, configs) <==> RetireesFinished(v, finished))
            && (Converged(u, configs) ==> (Staffed(u, configs) <==> StayersIntact(v, finished)))
  {
    var v := Reconcile(w, configs, first);
    ReconcileSettles(w, configs, first);
    FlaggedKeeps(w, Retire(w, Desired(configs)));
    SpawnAllAccounts(Retire(w, Desired(configs)), configs, first);
    hide Reconcile, Desired, Settled, Converged, Staffed, StayersIntact;
    if RetireesFinished(v, finished) {
      ReloadStaffed(v, configs, finished, second);
    } else {
      var l :| l in v.live && v.live[l].shutdown && !(v.live[l].handles <= finished);
      LingererBlocks(Collect(v, finished), configs, second, l);
    }
  }

  lemma {:induction false} SpawnNothing(w: World, configs: seq<Config>, outcomes: seq<Outcome>)
    requires |outcomes| == |configs| && Listeners(configs) <= w.live.Keys
    ensures SpawnAll(w, configs, outcomes) == w
  {
    if configs == [] {
    } else {
      var n := |configs| - 1;
      assert configs[n].listener in Listeners(configs);
      assert Listeners(configs[..n]) <= Listeners(configs);
      SpawnNothing(w, configs[..n], outcomes[..n]);
    }
  }

  /** A converged state is left alone by further reconciles, whatever a spawn would have returned. */
  lemma ConvergedIsStable(w: World, configs: seq<Config>, outcomes: seq<Outcome>)
    requires Labelled(w) && DistinctListeners(configs) && |outcomes| == |configs| && Converged(w, configs)
    ensures Reconcile(w, configs, outcomes) == w
  {
    DesiredOf(configs);
    forall l | l in w.live ensures Wanted(w.live[l], Desired(configs)) {
      var c :| c in configs && c.listener == l;
      CarriedBySignature(w.live[l].signature, c);
    }
    assert Retire(w, Desired(configs)).live == w.live;
    SpawnNothing(w, configs, outcomes);
  }

  /** Of several configurations with one label the last one counts. */
  lemma {:induction false} LastConfigCounts(configs: seq<Config>, k: nat)
    requires k < |configs| && forall j :: k < j < |configs| ==> configs[j].listener != configs[k].listener
    ensures configs[k].listener in Desired(configs) && Desired(configs)[configs[k].listener] == SignatureOf(configs[k])
  {
    var n := |configs| - 1;
    if k == n {
    } else {
      assert configs[n].listener != configs[k].listener;
      LastConfigCounts(configs[..n], k);
    }
  }

  // ---- Changed settings ----

  /** The same number, zero read as one. */
  predicate SameNumber(a: nat, b: nat) { a == b || (a <= 1 && b <= 1) }

  /** Two configurations that a running listener cannot tell apart. */
  predicate SameSettings(c: Config, d: Config) {
    && c.listener == d.listener && c.pinWorkers == d.pinWorkers && c.reuseport == d.reuseport
    && c.udpRecvBufferBytes == d.udpRecvBufferBytes && c.udpSendBufferBytes == d.udpSendBufferBytes
    && SameNumber(c.workerCount, d.workerCount) && SameNumber(c.shardCount, d.shardCount)
    && SameNumber(c.shardQueueCapacity, d.shardQueueCapacity)
    && SameNumber(c.shardQueueMaxBytes, d.shardQueueMaxBytes)
  }

  lemma SameSignatureIff(c: Config, d: Config)
    ensures SignatureOf(c) == SignatureOf(d) <==> SameSettings(c, d)
  {
  }

  /** A group spawned for `c` carries its settings and has all the workers it asks for, at least one. */
  lemma SpawnedFor(w: World, c: Config, base: nat)
    requires c.listener !in w.live
    ensures var g := SpawnOne(w, c, Spawned(base)).live[c.listener];
            Carries(g.signature, c) && !g.shutdown && g.base == base
            && |g.handles| == AtLeastOne(c.workerCount)
  {
  }

  /**
    A reload to `d` retires the group spawned for `c` under the same label exactly when the two
    differ in a setting, and otherwise leaves it as it is, whatever a spawn would have returned.
   */
  lemma ReloadRetiresIffChanged(w: World, c: Config, base: nat, d: Config, o: Outcome)
    requires c.listener !in w.live && c.listener == d.listener
    ensures var v := SpawnOne(w, c, Spawned(base));
            var u := Reconcile(v, [d], [o]);
            && c.listener in u.live && (u.live[c.listener].shutdown <==> !SameSettings(c, d))
            && u.live[c.listener] == v.live[c.listener].(shutdown := !SameSettings(c, d))
  {
    SameSignatureIff(c, d);
    var v := SpawnOne(w, c, Spawned(base));
    assert [d][..0] == [];
    assert Desired([d]) == map[d.listener := SignatureOf(d)];
    SpawnSingle(Retire(v, Desired([d])), d, o);
  }

  // ---- Staffing of a group that stays wanted ----

  /** Event `e` gives group `g` no reason to stop. */
  ghost predicate KeepsWanting(e: Event, g: Group) {
    match e
    case Collecting(_) => true
    case Reconciling(configs, _) => Wanted(g, Desired(configs))
    case ShuttingDown => false
  }

  /** The workers that the collects among events `j` to `k - 1` found finished. */
  function Reaped(es: seq<Event>, j: nat, k: nat): set<nat>
    requires k <= |es|
  {
    if k <= j then {}
    else Reaped(es, j, k - 1) + (if es[k - 1].Collecting? then es[k - 1].finished else {})
  }

  lemma WantedStep(w: World, l: string, e: Event, v: World)
    requires Steps(w, e, v) && l in w.live && !w.live[l].shutdown && KeepsWanting(e, w.live[l])
    ensures l in v.live
    ensures v.live[l] == w.live[l].(handles := w.live[l].handles - if e.Collecting? then e.finished else {})
  {
    if e.Reconciling? {
      SpawnAllAdds(Retire(w, Desired(e.configs)), e.configs, e.outcomes);
      assert w.live[l].handles - {} == w.live[l].handles;
    }
  }

  lemma {:induction false} WantedGroupShrinks(ws: seq<World>, es: seq<Event>, l: string, j: nat, k: nat)
    requires Reachable(ws, es) && j <= k <= |es| && l in ws[j].live && !ws[j].live[l].shutdown
    requires forall m :: j <= m < k ==> KeepsWanting(es[m], ws[j].live[l])
    ensures l in ws[k].live
    ensures ws[k].live[l] == ws[j].live[l].(handles := ws[j].live[l].handles - Reaped(es, j, k))
  {
    hide Steps;
    if j == k {
      assert ws[j].live[l].handles - {} == ws[j].live[l].handles;
    } else {
      WantedGroupShrinks(ws, es, l, j, k - 1);
      assert StepAt(ws, es, k - 1);
      WantedStep(ws[k - 1], l, es[k - 1], ws[k]);
      assert ws[k].live[l].handles == ws[j].live[l].handles - Reaped(es, j, k);
    }
  }

  /**
    In every run, a group that stays wanted is never restaffed: whatever collects and reconciles
    follow, it has all its workers if and only if it had them at first and no collect found one of
    them finished, and it has none exactly when the collects found all of them finished.
   */
  lemma EmptiedGroupStays(ws: seq<World>, es: seq<Event>, l: string, j: nat, k: nat)
    requires Reachable(ws, es) && j <= k <= |es| && l in ws[j].live && !ws[j].live[l].shutdown
    requires forall m :: j <= m < k ==> KeepsWanting(es[m], ws[j].live[l])
    ensures l in ws[k].live && !ws[k].live[l].shutdown && ws[k].live[l].signature == ws[j].live[l].signature
    ensures FullyStaffed(ws[k].live[l])
            <==> FullyStaffed(ws[j].live[l]) && ws[j].live[l].handles !! Reaped(es, j, k)
    ensures ws[k].live[l].handles == {} <==> ws[j].live[l].handles <= Reaped(es, j, k)
  {
    hide Steps;
    RunKeeps(ws, es, j);
    WantedGroupShrinks(ws, es, l, j, k);
    StillFull(ws[j].live[l], Reaped(es, j, k));
    NothingLeft(ws[j].live[l].handles, Reaped(es, j, k));
  }

  lemma NothingLeft(a: set<nat>, b: set<nat>)
    ensures a - b == {} <==> a <= b
  {
    if a - b == {} {
      forall h | h in a ensures h in b {
        assert h !in a - b;
      }
    }
  }

  /** Such a run: the only worker of a wanted listener ends, and the next reconcile leaves the listener without any. */
  lemma EmptiedListener() returns (c: Config, ws: seq<World>, es: seq<Event>)
    ensures Reachable(ws, es) && |es| == 3 && es[0] == Reconciling([c], [Spawned(0)]) && es[2].Reconciling?
    ensures es[2].configs == [c] && Converged(ws[3], [c]) && !Staffed(ws[3], [c])
    ensures ws[3].live == map["a" := Group(SignatureOf(c), false, {}, 0)]
  {
    hide Steps;
    c := Signature("a", 1, 1, 1, 1, false, false, 0, 0);
    var s := SignatureOf(c);
    var one := World(map["a" := Group(s, false, {0}, 0)], 1, multiset{}, {});
    var none := World(map["a" := Group(s, false, {}, 0)], 1, multiset{0}, {});
    es := [Reconciling([c], [Spawned(0)]), Collecting({0}), Reconciling([c], [Spawned(1)])];
    ws := [START, one, none, none];
    SpawnsFirst(c, one);
    CollectsOnly(one, none);
    LeavesEmpty(c, none);
    assert StepAt(ws, es, 0) && StepAt(ws, es, 1) && StepAt(ws, es, 2);
    assert c in [c];
  }

  lemma SpawnsFirst(c: Config, v: World)
    requires c.listener == "a" && SignatureOf(c).workerCount == 1
    requires v == World(map["a" := Group(SignatureOf(c), false, {0}, 0)], 1, multiset{}, {})
    ensures Steps(START, Reconciling([c], [Spawned(0)]), v)
  {
    var r := Retire(START, Desired([c]));
    assert r.live == map[] && r == START;
    SpawnSingle(r, c, Spawned(0));
    assert NewHandles(0, 1) == {0};
    assert SpawnOne(r, c, Spawned(0)).live == v.live;
  }

  lemma CollectsOnly(w: World, v: World)
    requires w.live.Keys == {"a"} && w.live["a"].handles == {0} && !w.live["a"].shutdown && w.joined == multiset{}
    requires v == w.(live := map["a" := w.live["a"].(handles := {})], joined := multiset{0})
    ensures Steps(w, Collecting({0}), v)
  {
    assert 0 in w.live["a"].handles;
    assert LiveHandles(w) * {0} == {0};
    assert w.live["a"].handles - {0} == {};
    assert Collect(w, {0}).live == v.live;
  }

  lemma LeavesEmpty(c: Config, w: World)
    requires c.listener == "a" && SignatureOf(c).workerCount == 1
    requires w.live == map["a" := Group(SignatureOf(c), false, {}, 0)]
    ensures Steps(w, Reconciling([c], [Spawned(1)]), w)
  {
    assert [c][..0] == [];
    assert Desired([c]) == map["a" := SignatureOf(c)];
    var r := Retire(w, Desired([c]));
    assert r.live == w.live && r == w;
    SpawnSingle(r, c, Spawned(1));
    assert Overlaps(w.live["a"].Slots(), 0, 1);
  }

  // ---- Bounded worker indices ----

  /** `rs` lists the ranges of the live groups. */
  ghost predicate Lists(rs: seq<Range>, live: map<string, Group>, most: nat) {
    && |rs| == |live|
    && (forall base: nat, count: nat :: Free(rs, base, count) <==> FreeIn(live, base, count))
    && (forall r <- rs :: r.start <= r.end)
    && TotalSlots(rs) <= |live| * most
  }

  lemma {:induction false} ListRanges(live: map<string, Group>, most: nat) returns (rs: seq<Range>)
    requires forall l :: l in live ==> live[l].signature.workerCount <= most
    ensures Lists(rs, live, most)
    decreases |live|
  {
    if live == map[] {
      rs := [];
    } else {
      var l :| l in live;
      var rest := live - {l};
      assert rest.Keys == live.Keys - {l};
      var tail := ListRanges(rest, most);
      rs := [live[l].Slots()] + tail;
      assert rs[1..] == tail;
      forall base: nat, count: nat ensures Free(rs, base, count) <==> FreeIn(live, base, count) {
        FreeSplits(rs, base, count);
        FreeInSplits(live, l, base, count);
        hide Free, FreeIn;
      }
      MulSucc(|rest|, most);
    }
  }

  lemma MulSucc(n: nat, m: nat)
    ensures (n + 1) * m == n * m + m
  {
  }

  lemma FreeSplits(rs: seq<Range>, base: nat, count: nat)
    requires rs != []
    ensures Free(rs, base, count) <==> !Overlaps(rs[0], base, count) && Free(rs[1..], base, count)
  {
    assert rs == [rs[0]] + rs[1..];
  }

  lemma FreeInSplits(live: map<string, Group>, l: string, base: nat, count: nat)
    requires l in live
    ensures FreeIn(live, base, count) <==> !Overlaps(live[l].Slots(), base, count) && FreeIn(live - {l}, base, count)
  {
    assert forall m :: m in live ==> m == l || (m in live - {l} && (live - {l})[m] == live[m]);
    assert forall m :: m in live - {l} ==> m in live && (live - {l})[m] == live[m];
  }

  lemma AllocationBounded(live: map<string, Group>, base: nat, count: nat, most: nat, groups: nat)
    requires forall l :: l in live ==> live[l].signature.workerCount <= most
    requires LeastFreeIn(live, base, count) && 1 <= count <= most && |live| <= groups
    ensures base <= groups * (2 * most - 1)
  {
    var rs := ListRanges(live, most);
    LeastFreeBounded(rs, base, count);
    MulGrows(|live|, groups, 2 * most - 1);
    ProductBound(|live|, most, count);
  }

  lemma ProductBound(n: nat, most: nat, count: nat)
    requires 1 <= count <= most
    ensures n * most + n * (count - 1) <= n * (2 * most - 1)
  {
    assert n * (2 * most - 1) - n * most - n * (count - 1) == n * (most - count);
  }

  /** Every slot in use lies below the bound for `groups` groups of at most `most` workers. */
  ghost predicate Bounded(w: World, most: nat, groups: nat) {
    forall l :: l in w.live ==>
      w.live[l].signature.workerCount <= most && w.live[l].base <= groups * (2 * most - 1)
  }

  ghost predicate SmallConfigs(e: Event, most: nat) {
    e.Reconciling? ==> forall c <- e.configs :: SignatureOf(c).workerCount <= most
  }

  lemma SpawnOneBounded(w: World, c: Config, o: Outcome, most: nat, groups: nat)
    requires Bounded(w, most, groups) && Possible(w, c, o) && SignatureOf(c).workerCount <= most && |w.live| <= groups
    ensures Bounded(SpawnOne(w, c, o), most, groups)
  {
    if c.listener !in w.live && o.Spawned? {
      AllocationBounded(w.live, o.base, SignatureOf(c).workerCount, most, groups);
    }
  }

  lemma SmallerMap(a: map<string, Group>, b: map<string, Group>)
    requires a.Keys <= b.Keys
    ensures |a| <= |b|
  {
    assert b.Keys == a.Keys + (b.Keys - a.Keys);
    assert |b.Keys| == |a.Keys| + |b.Keys - a.Keys|;
  }

  lemma {:induction false} SpawnAllBounded(
    w: World, configs: seq<Config>, outcomes: seq<Outcome>, most: nat, groups: nat)
    requires |outcomes| == |configs| && AllPossible(w, configs, outcomes) && Bounded(w, most, groups)
    requires forall c <- configs :: SignatureOf(c).workerCount <= most
    requires |SpawnAll(w, configs, outcomes).live| <= groups
    ensures Bounded(SpawnAll(w, configs, outcomes), most, groups)
  {
    if configs == [] {
    } else {
      var n := |configs| - 1;
      var u := SpawnAll(w, configs[..n], outcomes[..n]);
      SmallerMap(u.live, SpawnAll(w, configs, outcomes).live);
      AllPossiblePrefix(w, configs, outcomes, n);
      SpawnAllBounded(w, configs[..n], outcomes[..n], most, groups);
      SpawnOneBounded(u, configs[n], outcomes[n], most, groups);
    }
  }

  lemma StepBounded(w: World, e: Event, v: World, most: nat, groups: nat)
    requires Steps(w, e, v) && Bounded(w, most, groups) && SmallConfigs(e, most) && |v.live| <= groups
    ensures Bounded(v, most, groups)
  {
    if e.Reconciling? {
      SpawnAllBounded(Retire(w, Desired(e.configs)), e.configs, e.outcomes, most, groups);
    }
  }

  /**
    Indices stay bounded over any number of reloads: if no configuration asks for more than `most`
    workers and at most `groups` groups are ever live together, no slot is ever at or above
    `groups * (2 * most - 1) + most`.
   */
  lemma {:induction false} IndicesStayBounded(ws: seq<World>, es: seq<Event>, most: nat, groups: nat, k: nat)
    requires Reachable(ws, es) && k <= |es|
    requires forall e <- es :: SmallConfigs(e, most)
    requires forall w <- ws :: |w.live| <= groups
    ensures forall l :: l in ws[k].live ==> ws[k].live[l].Slots().end <= groups * (2 * most - 1) + most
    ensures Bounded(ws[k], most, groups)
  {
    hide Steps;
    if k == 0 {
    } else {
      IndicesStayBounded(ws, es, most, groups, k - 1);
      assert StepAt(ws, es, k - 1);
      StepBounded(ws[k - 1], es[k - 1], ws[k], most, groups);
    }
  }

  // ---- Shutdown ----

  /** The polls of the shutdown loop, `rounds[k]` being the handles finished at the k-th. */
  function PollRounds(w: World, rounds: seq<set<nat>>): World {
    if rounds == [] then w else Collect(PollRounds(w, rounds[..|rounds| - 1]), rounds[|rounds| - 1])
  }

  function Seen(rounds: seq<set<nat>>): set<nat> {
    if rounds == [] then {} else Seen(rounds[..|rounds| - 1]) + rounds[|rounds| - 1]
  }

  lemma PollNext(w: World, rounds: seq<set<nat>>, k: nat)
    requires k < |rounds|
    ensures PollRounds(w, rounds[..k + 1]) == Collect(PollRounds(w, rounds[..k]), rounds[k])
    ensures var v, u := PollRounds(w, rounds[..k]), PollRounds(w, rounds[..k + 1]);
            u.spawned == v.spawned && u.detached == v.detached
  {
    assert rounds[..k + 1][..k] == rounds[..k];
  }

  ghost predicate AllFlagged(w: World) { forall l :: l in w.live ==> w.live[l].shutdown }

  lemma {:induction false} SeenPrefix(rounds: seq<set<nat>>, k: nat)
    requires k <= |rounds|
    ensures Seen(rounds[..k]) <= Seen(rounds)
    decreases |rounds|
  {
    if k < |rounds| {
      assert rounds[..|rounds| - 1][..k] == rounds[..k];
      SeenPrefix(rounds[..|rounds| - 1], k);
    } else {
      assert rounds[..k] == rounds;
    }
  }

  /** What each group is after the polls: gone once all its workers were seen finished. */
  lemma {:induction false} PolledGroup(w: World, rounds: seq<set<nat>>, l: string)
    requires AllFlagged(w)
    ensures AllFlagged(PollRounds(w, rounds))
    ensures l in PollRounds(w, rounds).live
            <==> l in w.live && !(rounds != [] && w.live[l].handles <= Seen(rounds))
    ensures l in PollRounds(w, rounds).live
            ==> PollRounds(w, rounds).live[l].handles == w.live[l].handles - Seen(rounds)
  {
    if rounds == [] {
    } else {
      PolledGroup(w, rounds[..|rounds| - 1], l);
    }
  }

  /** The loop ends at a poll if and only if every worker has been seen finished by then. */
  lemma PollsDrainIff(w: World, rounds: seq<set<nat>>)
    requires AllFlagged(w) && rounds != []
    ensures PollRounds(w, rounds).live == map[] <==> LiveHandles(w) <= Seen(rounds)
  {
    hide PollRounds, Seen;
    var v := PollRounds(w, rounds);
    if v.live == map[] {
      forall l, h | l in w.live && h in w.live[l].handles ensures h in Seen(rounds) {
        PolledGroup(w, rounds, l);
      }
    }
    if LiveHandles(w) <= Seen(rounds) {
      forall l ensures l !in v.live {
        PolledGroup(w, rounds, l);
        if l in w.live {
          assert w.live[l].handles <= LiveHandles(w);
        }
      }
    }
  }
}
