/**
  The listener-group vector as it runs: swap_remove loops over groups and handles. Every method is
  proved to be the step of `ListenerModel` that the run theorems speak about.
 */
module ListenerGroups {
  import opened Prelude
  import opened WorkerRanges
  import opened ListenerModel
  import opened ListenerRuns

  /** One entry of the vector; handles keep their order of removal. */
  datatype Runtime = Runtime(signature: Signature, shutdown: bool, handles: seq<nat>, base: nat)

  function ViewOf(r: Runtime): Group { Group(r.signature, r.shutdown, Members(r.handles), r.base) }

  /** The handles joined so far and the ones left, over one scan of `all`. */
  ghost predicate Split(all: seq<nat>, left: seq<nat>, joined: seq<nat>) {
    NoDuplicates(left) && NoDuplicates(joined) && Members(left) !! Members(joined)
    && Members(left) + Members(joined) == Members(all)
  }

  lemma SplitMove(all: seq<nat>, left: seq<nat>, joined: seq<nat>, i: nat)
    requires Split(all, left, joined) && i < |left|
    ensures Split(all, SwapRemoved(left, i), joined + [left[i]])
  {
    var rest := SwapRemoved(left, i);
    assert left[i] !in rest;
    assert Members(rest) == Members(left) - {left[i]} by {
      forall h | h in left && h != left[i] ensures h in rest {
        var k :| 0 <= k < |left| && left[k] == h;
        assert rest[if k == |left| - 1 then i else k] == h;
      }
    }
    assert Members(joined + [left[i]]) == Members(joined) + {left[i]};
  }

  /** ListenerGroupRuntime::collect_finished. */
  method CollectFinished(all: seq<nat>, finished: set<nat>) returns (left: seq<nat>, joined: seq<nat>)
    requires NoDuplicates(all)
    ensures NoDuplicates(left) && Members(left) == Members(all) - finished
    ensures NoDuplicates(joined) && Members(joined) == Members(all) * finished
  {
    left, joined := all, [];
    var idx := 0;
    while idx < |left|
      invariant idx <= |left| && Split(all, left, joined)
      invariant Members(joined) <= finished
      invariant forall k :: 0 <= k < idx ==> left[k] !in finished
      decreases |left| - idx
    {
      if left[idx] !in finished {
        idx := idx + 1;
        continue;
      }
      SplitMove(all, left, joined, idx);
      joined := joined + [left[idx]];
      left := SwapRemoved(left, idx);
    }
    assert Members(left) !! finished;
  }

  // ---- The vector and the model ----

  ghost predicate DistinctLabels(gs: seq<Runtime>) {
    forall i, j :: 0 <= i < j < |gs| ==> gs[i].signature.listener != gs[j].signature.listener
  }

  function Labels(gs: seq<Runtime>): set<string> { set g | g in gs :: g.signature.listener }

  ghost predicate Represents(gs: seq<Runtime>, live: map<string, Group>) {
    && DistinctLabels(gs) && Labels(gs) == live.Keys
    && (forall g <- gs :: NoDuplicates(g.handles) && g.signature.listener in live
                          && live[g.signature.listener] == ViewOf(g))
  }

  lemma AppendRepresents(gs: seq<Runtime>, live: map<string, Group>, g: Runtime)
    requires Represents(gs, live) && g.signature.listener !in live && NoDuplicates(g.handles)
    ensures Represents(gs + [g], live[g.signature.listener := ViewOf(g)])
  {
    var more := gs + [g];
    assert Labels(more) == Labels(gs) + {g.signature.listener};
    forall h | h in gs ensures h.signature.listener in live {
    }
  }

  lemma UpdatedLabels(gs: seq<Runtime>, i: nat, g: Runtime)
    requires i < |gs| && g.signature == gs[i].signature
    ensures Labels(gs[i := g]) == Labels(gs) && (DistinctLabels(gs) ==> DistinctLabels(gs[i := g]))
  {
    var changed := gs[i := g];
    forall l | l in Labels(gs) ensures l in Labels(changed) {
      var k :| 0 <= k < |gs| && gs[k].signature.listener == l;
      assert changed[k] in changed;
    }
    forall l | l in Labels(changed) ensures l in Labels(gs) {
      var k :| 0 <= k < |changed| && changed[k].signature.listener == l;
      assert gs[k] in gs;
    }
  }

  lemma UpdateRepresents(gs: seq<Runtime>, live: map<string, Group>, i: nat, g: Runtime)
    requires Represents(gs, live) && i < |gs| && NoDuplicates(g.handles)
    requires g.signature == gs[i].signature
    ensures Represents(gs[i := g], live[g.signature.listener := ViewOf(g)])
  {
    var changed := gs[i := g];
    UpdatedLabels(gs, i, g);
    assert gs[i] in gs;
    hide Labels, NoDuplicates, ViewOf;
    forall h | h in changed
      ensures NoDuplicates(h.handles) && h.signature.listener in live
      ensures live[g.signature.listener := ViewOf(g)][h.signature.listener] == ViewOf(h)
    {
      var k :| 0 <= k < |changed| && changed[k] == h;
      assert gs[k] in gs;
    }
  }

  /** Every group left by a swap-remove was there before, at another place than the one removed. */
  lemma LeftBehind<T>(s: seq<T>, i: nat, k: nat) returns (was: nat)
    requires i < |s| && k < |s| - 1
    ensures was < |s| && was != i && SwapRemoved(s, i)[k] == s[was] && was == if k == i then |s| - 1 else k
  {
    was := if k == i then |s| - 1 else k;
  }

  lemma RemovedDistinct(gs: seq<Runtime>, i: nat)
    requires DistinctLabels(gs) && i < |gs|
    ensures DistinctLabels(SwapRemoved(gs, i))
    ensures forall h :: h in SwapRemoved(gs, i) ==> h in gs && h.signature.listener != gs[i].signature.listener
  {
    var rest := SwapRemoved(gs, i);
    forall j, k | 0 <= j < k < |rest| ensures rest[j].signature.listener != rest[k].signature.listener {
      var a := LeftBehind(gs, i, j);
      var b := LeftBehind(gs, i, k);
    }
    forall h | h in rest ensures h in gs && h.signature.listener != gs[i].signature.listener {
      var k :| 0 <= k < |rest| && rest[k] == h;
      var was := LeftBehind(gs, i, k);
    }
  }

  lemma RemovedLabels(gs: seq<Runtime>, i: nat)
    requires DistinctLabels(gs) && i < |gs|
    ensures Labels(SwapRemoved(gs, i)) == Labels(gs) - {gs[i].signature.listener}
  {
    var rest, n := SwapRemoved(gs, i), |gs| - 1;
    RemovedDistinct(gs, i);
    hide DistinctLabels;
    forall l | l in Labels(gs) && l != gs[i].signature.listener ensures l in Labels(rest) {
      var k :| 0 <= k < |gs| && gs[k].signature.listener == l;
      assert rest[if k == n then i else k] in rest;
    }
  }

  lemma RemoveRepresents(gs: seq<Runtime>, live: map<string, Group>, i: nat)
    requires Represents(gs, live) && i < |gs|
    ensures Represents(SwapRemoved(gs, i), live - {gs[i].signature.listener})
  {
    RemovedDistinct(gs, i);
    RemovedLabels(gs, i);
    hide Labels, DistinctLabels, NoDuplicates, ViewOf;
  }

  // ---- Partial collection: the groups labelled in `done` have been visited ----

  function CollectSome(live: map<string, Group>, finished: set<nat>, done: set<string>): map<string, Group> {
    map l | l in live && !(l in done && Retired(live[l], finished)) ::
      if l in done then live[l].(handles := live[l].handles - finished) else live[l]
  }

  function JoinedBy(live: map<string, Group>, finished: set<nat>, done: set<string>): set<nat> {
    set l, h | l in done && l in live && h in live[l].handles && h in finished :: h
  }

  lemma CollectNone(live: map<string, Group>, finished: set<nat>)
    ensures CollectSome(live, finished, {}) == live && JoinedBy(live, finished, {}) == {}
  {
  }

  lemma CollectOne(live: map<string, Group>, finished: set<nat>, done: set<string>, l: string, g: Group)
    requires l in live && l !in done && g == live[l].(handles := live[l].handles - finished)
    ensures CollectSome(live, finished, done + {l})
            == if Retired(live[l], finished) then CollectSome(live, finished, done)[l := g] - {l}
               else CollectSome(live, finished, done)[l := g]
  {
  }

  lemma JoinedOne(w: World, finished: set<nat>, done: set<string>, l: string)
    requires HandlesAccounted(w) && l in w.live && l !in done
    ensures multiset(JoinedBy(w.live, finished, done + {l}))
            == multiset(JoinedBy(w.live, finished, done)) + multiset(w.live[l].handles * finished)
  {
    var before, now := JoinedBy(w.live, finished, done), w.live[l].handles * finished;
    assert before !! now;
    assert JoinedBy(w.live, finished, done + {l}) == before + now;
  }

  lemma {:induction false} NoDuplicatesMultiset(s: seq<nat>)
    requires NoDuplicates(s)
    ensures multiset(s) == multiset(Members(s))
  {
    if s == [] {
    } else {
      var n := |s| - 1;
      NoDuplicatesMultiset(s[..n]);
      assert s == s[..n] + [s[n]];
      assert s[n] !in s[..n];
      assert Members(s) == Members(s[..n]) + {s[n]};
    }
  }

  lemma CollectAll(w: World, finished: set<nat>, done: set<string>, gs: seq<Runtime>)
    requires Represents(gs, CollectSome(w.live, finished, done))
    requires forall g <- gs :: g.signature.listener in done
    ensures CollectSome(w.live, finished, done) == Collect(w, finished).live
    ensures JoinedBy(w.live, finished, done) == LiveHandles(w) * finished
  {
    forall l | l in w.live ensures l in done {
      if l in CollectSome(w.live, finished, done) {
        assert l in Labels(gs);
      }
    }
  }

  /** What the collection loop knows about the group it visits. */
  lemma Visited(gs: seq<Runtime>, live: map<string, Group>, finished: set<nat>, done: set<string>, idx: nat)
    requires idx < |gs| && gs[idx].signature.listener !in done && Represents(gs, CollectSome(live, finished, done))
    ensures var l := gs[idx].signature.listener;
            l in live && live[l] == ViewOf(gs[idx]) && NoDuplicates(gs[idx].handles)
  {
    assert gs[idx] in gs;
  }

  lemma EmptyIffRetired(g: Group, left: seq<nat>, finished: set<nat>)
    requires Members(left) == g.handles - finished
    ensures g.shutdown && |left| == 0 <==> Retired(g, finished)
  {
    if |left| > 0 {
      assert left[0] in Members(left);
    } else {
      forall h | h in g.handles ensures h in finished {
        assert h !in Members(left);
        assert h !in g.handles - finished;
      }
    }
  }

  // ---- Partial retirement: the first `k` groups have been compared with the configuration ----

  function RetireSome(live: map<string, Group>, desired: map<string, Signature>, done: set<string>): map<string, Group> {
    map l | l in live :: if l in done && !Wanted(live[l], desired) then live[l].(shutdown := true) else live[l]
  }

  lemma RetireNone(live: map<string, Group>, desired: map<string, Signature>)
    ensures RetireSome(live, desired, {}) == live
  {
  }

  lemma RetireNext(live: map<string, Group>, desired: map<string, Signature>, done: set<string>, l: string)
    requires l in live && l !in done
    ensures RetireSome(live, desired, done + {l})
            == RetireSome(live, desired, done)[l :=
                 if Wanted(live[l], desired) then live[l] else live[l].(shutdown := true)]
  {
  }

  lemma RetireEvery(w: World, desired: map<string, Signature>, done: set<string>)
    requires w.live.Keys <= done
    ensures RetireSome(w.live, desired, done) == Retire(w, desired).live
  {
  }

  function LabelsUpTo(gs: seq<Runtime>, k: nat): set<string>
    requires k <= |gs|
  {
    set i | 0 <= i < k :: gs[i].signature.listener
  }

  lemma LabelsNext(gs: seq<Runtime>, k: nat, h: Runtime)
    requires k < |gs| && h.signature == gs[k].signature
    ensures LabelsUpTo(gs, 0) == {}
    ensures LabelsUpTo(gs[k := h], k + 1) == LabelsUpTo(gs, k) + {h.signature.listener}
  {
    var changed := gs[k := h];
    forall l ensures l in LabelsUpTo(changed, k + 1) <==> l in LabelsUpTo(gs, k) || l == h.signature.listener {
      if l == h.signature.listener {
        assert changed[k].signature.listener == l;
      } else if l in LabelsUpTo(gs, k) {
        var i :| 0 <= i < k && gs[i].signature.listener == l;
        assert changed[i].signature.listener == l;
      }
    }
  }

  /** The slots of the vector's groups, in vector order. */
  function SlotsOf(gs: seq<Runtime>): seq<Range> {
    seq(|gs|, i requires 0 <= i < |gs| => ViewOf(gs[i]).Slots())
  }

  lemma FreeOfSlots(gs: seq<Runtime>, live: map<string, Group>, base: nat, count: nat)
    requires Represents(gs, live)
    ensures Free(SlotsOf(gs), base, count) <==> FreeIn(live, base, count)
  {
    if Free(SlotsOf(gs), base, count) {
      forall l | l in live ensures !Overlaps(live[l].Slots(), base, count) {
        assert l in Labels(gs);
        var i :| 0 <= i < |gs| && gs[i].signature.listener == l;
        assert gs[i] in gs && SlotsOf(gs)[i] in SlotsOf(gs);
      }
    }
    if FreeIn(live, base, count) {
      forall r | r in SlotsOf(gs) ensures !Overlaps(r, base, count) {
        var i :| 0 <= i < |gs| && SlotsOf(gs)[i] == r;
        assert gs[i] in gs;
      }
    }
  }

  lemma LeastFreeOfSlots(gs: seq<Runtime>, live: map<string, Group>, base: nat, count: nat)
    requires Represents(gs, live) && LeastFree(SlotsOf(gs), base, count)
    ensures LeastFreeIn(live, base, count)
  {
    FreeOfSlots(gs, live, base, count);
    forall c: nat | c < base ensures !FreeIn(live, c, count) {
      FreeOfSlots(gs, live, c, count);
    }
  }

  function Fresh(from: nat, count: nat): (r: seq<nat>)
    ensures |r| == count && forall i :: 0 <= i < count ==> r[i] == from + i
  {
    seq(count, i => from + i)
  }

  lemma FreshHandles(from: nat, count: nat)
    ensures NoDuplicates(Fresh(from, count)) && Members(Fresh(from, count)) == NewHandles(from, count)
  {
    forall h | h in NewHandles(from, count) ensures h in Fresh(from, count) {
      assert Fresh(from, count)[h - from] == h;
    }
  }

  lemma RepresentsDistinct(gs: seq<Runtime>, live: map<string, Group>)
    requires Represents(gs, live)
    ensures DistinctLabels(gs)
  {
  }

  /** The slots as the allocator computes them. */
  function SaturatedSlots(gs: seq<Runtime>): seq<Range> {
    seq(|gs|, i requires 0 <= i < |gs| =>
          Range(gs[i].base, SaturatingAdd(gs[i].base, gs[i].signature.workerCount)))
  }

  /** The worker slots of `limit` groups of at most `most` workers fit the machine word. */
  ghost predicate Fits(most: nat, limit: nat) { limit * (2 * most - 1) + most <= USIZE_MAX }

  /** Ranges are apart, and so far from the end of the machine word that no index saturates. */
  ghost predicate Roomy(w: World, most: nat, limit: nat) {
    RangesApart(w) && Bounded(w, most, limit) && |w.live| <= limit && Fits(most, limit)
  }

  /** Room for the live groups and one for each configuration. */
  ghost predicate RoomFor(w: World, configs: seq<Config>, most: nat, limit: nat) {
    && RangesApart(w) && Bounded(w, most, limit) && |w.live| + |configs| <= limit && Fits(most, limit)
    && forall c <- configs :: SignatureOf(c).workerCount <= most
  }

  ghost predicate AllocatorsBase(live: map<string, Group>, base: nat, count: nat) {
    exists gs :: Represents(gs, live) && base == FirstFit(Sort(SaturatedSlots(gs)), 0, count)
  }

  /** What a spawn of `c` among `live` yields: the given failure, or a group at the allocator's base. */
  ghost predicate Chosen(live: map<string, Group>, c: Config, failure: Option<nat>, o: Outcome) {
    c.listener !in live ==>
      if failure.Some? then o == Failed(failure.value)
      else o.Spawned? && AllocatorsBase(live, o.base, SignatureOf(c).workerCount)
  }

  ghost predicate AllChosen(w: World, configs: seq<Config>, failures: seq<Option<nat>>, outcomes: seq<Outcome>) {
    && |failures| == |outcomes| == |configs|
    && forall k :: 0 <= k < |configs| ==>
         Chosen(SpawnAll(w, configs[..k], outcomes[..k]).live, configs[k], failures[k], outcomes[k])
  }

  lemma ChosenNext(
    w: World, configs: seq<Config>, failures: seq<Option<nat>>, k: nat, outcomes: seq<Outcome>, o: Outcome)
    requires k < |configs| == |failures| && |outcomes| == k && AllChosen(w, configs[..k], failures[..k], outcomes)
    requires Chosen(SpawnAll(w, configs[..k], outcomes).live, configs[k], failures[k], o)
    ensures AllChosen(w, configs[..k + 1], failures[..k + 1], outcomes + [o])
    ensures SpawnAll(w, configs[..k + 1], outcomes + [o])
            == SpawnOne(SpawnAll(w, configs[..k], outcomes), configs[k], o)
  {
    hide Chosen, SpawnOne;
    var more, all := configs[..k + 1], outcomes + [o];
    assert more[..k] == configs[..k] && all[..k] == outcomes;
    forall j | 0 <= j < k + 1
      ensures Chosen(SpawnAll(w, more[..j], all[..j]).live, more[j], failures[..k + 1][j], all[j])
    {
      if j < k {
        assert more[..j] == configs[..k][..j] && all[..j] == outcomes[..j];
        assert Chosen(SpawnAll(w, configs[..k][..j], outcomes[..j]).live, configs[..k][j], failures[..k][j], outcomes[j]);
      }
    }
  }

  lemma SpawnStaysRoomy(w: World, c: Config, o: Outcome, most: nat, limit: nat)
    ensures Roomy(w, most, limit) && Possible(w, c, o) && SignatureOf(c).workerCount <= most ==>
              RangesApart(SpawnOne(w, c, o)) && Bounded(SpawnOne(w, c, o), most, limit)
  {
    if Roomy(w, most, limit) && Possible(w, c, o) && SignatureOf(c).workerCount <= most {
      SpawnOneApart(w, c, o);
      SpawnOneBounded(w, c, o, most, limit);
    }
  }

  lemma SlotsInWord(gs: seq<Runtime>, live: map<string, Group>, w: World, most: nat, limit: nat)
    requires Represents(gs, live) && w.live == live && Labelled(w) && Bounded(w, most, limit) && Fits(most, limit)
    ensures SaturatedSlots(gs) == SlotsOf(gs) && InWord(SlotsOf(gs))
  {
    forall i | 0 <= i < |gs|
      ensures gs[i].base < gs[i].base + gs[i].signature.workerCount <= USIZE_MAX
    {
      assert gs[i] in gs;
    }
    assert SaturatedSlots(gs) == SlotsOf(gs);
  }

  class ListenerGroups {
    var groups: seq<Runtime>
    /** Handles in the order they were joined. */
    var joined: seq<nat>
    var spawned: nat
    ghost var live: map<string, Group>
    ghost var detached: set<nat>

    ghost function View(): World
      reads this
    {
      World(live, spawned, multiset(joined), detached)
    }

    ghost predicate Valid()
      reads this
    {
      Represents(groups, live) && Accounted(View())
    }

    constructor ()
      ensures Valid() && View() == START
    {
      groups, joined, spawned := [], [], 0;
      live, detached := map[], {};
    }

    /** One visit of the collection loop; says whether the group was dropped. */
    method CollectAt(idx: nat, finished: set<nat>, ghost was: World, ghost done: set<string>) returns (dropped: bool)
      requires HandlesAccounted(was) && idx < |groups| && groups[idx].signature.listener !in done
      requires Represents(groups, live) && live == CollectSome(was.live, finished, done)
      requires multiset(joined) == was.joined + multiset(JoinedBy(was.live, finished, done))
      modifies this`groups, this`joined, this`live
      ensures var l := old(groups[idx].signature.listener);
              && Represents(groups, live) && live == CollectSome(was.live, finished, done + {l})
              && multiset(joined) == was.joined + multiset(JoinedBy(was.live, finished, done + {l}))
              && (if dropped then groups == SwapRemoved(old(groups), idx)
                  else |groups| == old(|groups|) && groups == old(groups)[idx := groups[idx]]
                       && groups[idx].signature.listener == l)
    {
      hide Represents, CollectSome, JoinedBy, HandlesAccounted;
      Visited(groups, was.live, finished, done, idx);
      var g := groups[idx];
      ghost var l := g.signature.listener;
      var left, now := CollectFinished(g.handles, finished);
      NoDuplicatesMultiset(now);
      JoinedOne(was, finished, done, l);
      joined := joined + now;
      var h := g.(handles := left);
      CollectOne(was.live, finished, done, l, ViewOf(h));
      UpdateRepresents(groups, live, idx, h);
      dropped := h.shutdown && |left| == 0;
      EmptyIffRetired(was.live[l], left, finished);
      if dropped {
        RemoveRepresents(groups[idx := h], live[l := ViewOf(h)], idx);
        assert SwapRemoved(groups[idx := h], idx) == SwapRemoved(groups, idx);
        groups := SwapRemoved(groups, idx);
        live := live[l := ViewOf(h)] - {l};
      } else {
        groups := groups[idx := h];
        live := live[l := ViewOf(h)];
      }
    }

    /** collect_finished_listener_groups. */
    method CollectFinishedGroups(finished: set<nat>)
      requires Valid()
      modifies this
      ensures Valid() && View() == Collect(old(View()), finished)
    {
      hide Represents, CollectSome, JoinedBy, HandlesAccounted;
      ghost var was := View();
      ghost var done: set<string> := {};
      CollectNone(live, finished);
      var idx := 0;
      while idx < |groups|
        invariant idx <= |groups| && Represents(groups, live) && live == CollectSome(was.live, finished, done)
        invariant multiset(joined) == was.joined + multiset(JoinedBy(was.live, finished, done))
        invariant spawned == was.spawned && detached == was.detached
        invariant forall k :: 0 <= k < |groups| ==> (groups[k].signature.listener in done <==> k < idx)
        decreases |groups| - idx
      {
        ghost var l := groups[idx].signature.listener;
        RepresentsDistinct(groups, live);
        var dropped := CollectAt(idx, finished, was, done);
        done := done + {l};
        if !dropped {
          idx := idx + 1;
        }
      }
      CollectAll(was, finished, done, groups);
      CollectKeeps(was, finished);
    }

    /** The first loop of reconcile_listener_groups. */
    method RetireUnwanted(desired: map<string, Signature>)
      requires Represents(groups, live)
      modifies this`groups, this`live
      ensures Represents(groups, live) && live == Retire(old(View()), desired).live
    {
      hide Represents, RetireSome;
      ghost var was := View();
      RetireNone(live, desired);
      assert LabelsUpTo(groups, 0) == {};
      for k := 0 to |groups|
        invariant |groups| == old(|groups|) && Represents(groups, live)
        invariant live == RetireSome(was.live, desired, LabelsUpTo(groups, k))
      {
        var g := groups[k];
        ghost var done := LabelsUpTo(groups, k);
        RetireVisit(groups, was.live, desired, k);
        RetireNext(was.live, desired, done, g.signature.listener);
        var wanted := g.signature.listener in desired && desired[g.signature.listener] == g.signature;
        var h := if wanted then g else g.(shutdown := true);
        UpdateRepresents(groups, live, k, h);
        LabelsNext(groups, k, h);
        groups := groups[k := h];
        live := live[g.signature.listener := ViewOf(h)];
      }
      RetireFinish(groups, was, desired);
    }

    /** A group of `s.workerCount` fresh threads joins the vector. */
    method AddGroup(s: Signature, base: nat)
      requires Represents(groups, live) && s.listener !in live
      modifies this
      ensures Represents(groups, live)
      ensures View() == old(View()).(
                live := old(live)[s.listener := Group(s, false, NewHandles(old(spawned), s.workerCount), base)],
                spawned := old(spawned) + s.workerCount)
    {
      hide Represents;
      FreshHandles(spawned, s.workerCount);
      var g := Runtime(s, false, Fresh(spawned, s.workerCount), base);
      AppendRepresents(groups, live, g);
      groups := groups + [g];
      live := live[s.listener := ViewOf(g)];
      spawned := spawned + s.workerCount;
    }

    /**
      One spawn: `failure` is None on success, else the number of threads already started. The base
      is the allocator's, and a legal one of the model while the machine word has room.
     */
    method SpawnGroup(c: Config, failure: Option<nat>, ghost most: nat, ghost limit: nat)
      returns (ghost outcome: Outcome)
      requires Valid() && (failure.Some? ==> failure.value < SignatureOf(c).workerCount)
      modifies this
      ensures Valid() && View() == SpawnOne(old(View()), c, outcome)
      ensures Chosen(old(live), c, failure, outcome)
      ensures old(Roomy(View(), most, limit)) && SignatureOf(c).workerCount <= most ==>
                Possible(old(View()), c, outcome) && RangesApart(View()) && Bounded(View(), most, limit)
    {
      hide Represents, Accounted, Bounded, LeastFreeIn, Fits, NewHandles, RangesApart, Sort, FirstFit;
      var known := HasLabel(c.listener);
      if known {
        // not attempted; the model ignores the outcome
        outcome := Failed(0);
        return;
      }
      var s := SignatureOf(c);
      var base := AllocateBase(s.workerCount, most, limit);
      outcome := if failure.None? then Spawned(base) else Failed(failure.value);
      SpawnOneKeeps(View(), c, outcome);
      SpawnStaysRoomy(View(), c, outcome, most, limit);
      if failure.Some? {
        DropStarted(failure.value);
      } else {
        AddGroup(s, base);
      }
    }

    /** The handles of a failed spawn go out of scope unjoined. */
    method DropStarted(started: nat)
      modifies this`spawned, this`detached
      ensures View() == old(View()).(spawned := old(spawned) + started,
                                     detached := old(detached) + NewHandles(old(spawned), started))
    {
      detached := detached + NewHandles(spawned, started);
      spawned := spawned + started;
    }

    method HasLabel(l: string) returns (known: bool)
      requires Represents(groups, live)
      ensures known <==> l in live
    {
      known := exists g <- groups :: g.signature.listener == l;
      assert l in Labels(groups) <==> l in live;
    }

    method AllocateBase(count: nat, ghost most: nat, ghost limit: nat) returns (base: nat)
      requires Valid() && 1 <= count
      ensures base == FirstFit(Sort(SaturatedSlots(groups)), 0, count)
      ensures Bounded(View(), most, limit) && Fits(most, limit) ==> LeastFreeIn(live, base, count)
    {
      hide Represents, LeastFreeIn, Bounded, Fits, Sort, FirstFit;
      base := Allocate(SaturatedSlots(groups), count);
      if Bounded(View(), most, limit) && Fits(most, limit) {
        SlotsInWord(groups, live, View(), most, limit);
        LeastFreeOfSlots(groups, live, base, count);
      }
    }

    /**
      reconcile_listener_groups; `failures[k]` is what spawning `configs[k]` would return. With room
      for `limit` groups of at most `most` workers in the machine word it is a step of the model.
     */
    method ReconcileGroups(configs: seq<Config>, failures: seq<Option<nat>>, ghost most: nat, ghost limit: nat)
      returns (ghost outcomes: seq<Outcome>)
      requires Valid() && |failures| == |configs|
      requires forall k :: 0 <= k < |configs| && failures[k].Some? ==> failures[k].value < SignatureOf(configs[k]).workerCount
      modifies this
      ensures Valid() && |outcomes| == |configs| && View() == Reconcile(old(View()), configs, outcomes)
      ensures AllChosen(Retire(old(View()), Desired(configs)), configs, failures, outcomes)
      ensures old(RoomFor(View(), configs, most, limit)) ==>
                && Steps(old(View()), Reconciling(configs, outcomes), View())
                && RangesApart(View()) && Bounded(View(), most, limit)
    {
      hide Represents, Accounted, Bounded, Possible, SpawnOne, Retire, Fits, Chosen, RangesApart;
      ghost var was := View();
      ghost var room := RoomFor(was, configs, most, limit);
      RetireUnwanted(Desired(configs));
      ghost var retired := View();
      RetireSafe(was, Desired(configs), most, limit);
      outcomes := [];
      for k := 0 to |configs|
        invariant Valid() && |outcomes| == k && |live| <= |retired.live| + k
        invariant View() == SpawnAll(retired, configs[..k], outcomes)
        invariant AllChosen(retired, configs[..k], failures[..k], outcomes)
        invariant room ==> RangesApart(View()) && Bounded(View(), most, limit)
        invariant room ==> AllPossible(retired, configs[..k], outcomes)
      {
        ghost var before := View();
        ghost var o := SpawnGroup(configs[k], failures[k], most, limit);
        if room {
          assert configs[k] in configs;
          SpawnedNext(retired, configs, k, outcomes, o);
        }
        ChosenNext(retired, configs, failures, k, outcomes, o);
        SpawnOneSize(before, configs[k], o);
        outcomes := outcomes + [o];
      }
      assert configs[..|configs|] == configs && failures[..|configs|] == failures;
    }

    /** The flag loop of shutdown_listener_groups. */
    method RequestShutdownAll()
      requires Valid()
      modifies this
      ensures Valid() && View() == RequestShutdown(old(View()))
    {
      hide Represents, Accounted;
      RetireUnwanted(map[]);
      RetireNobody(old(View()));
    }

    /**
      shutdown_listener_groups: `rounds[k]` are the handles finished at the k-th poll. The loop ends,
      with every thread joined once, exactly when the polls have seen every worker finish.
     */
    method ShutdownGroups(rounds: seq<set<nat>>) returns (drained: bool)
      requires Valid()
      modifies this
      ensures Valid() && detached == old(detached) && spawned == old(spawned)
      ensures drained <==> rounds != [] && LiveHandles(old(View())) <= Seen(rounds)
      ensures drained ==> groups == [] && forall h: nat :: h < spawned && h !in detached ==> multiset(joined)[h] == 1
      ensures !drained ==> View() == PollRounds(RequestShutdown(old(View())), rounds)
    {
      RequestShutdownAll();
      ghost var flagged := View();
      FlaggedHandles(old(View()));
      assert flagged.spawned == old(spawned) && flagged.detached == old(detached);
      hide Accounted, Represents, PollRounds, Collect, LiveHandles, AllFlagged, RequestShutdown, Seen;
      assert PollRounds(flagged, rounds[..0]) == flagged by {
        PollNothing(flagged, rounds);
      }
      for k := 0 to |rounds|
        invariant Valid() && detached == old(detached) && spawned == old(spawned)
        invariant View() == PollRounds(flagged, rounds[..k])
        invariant 0 < k ==> !(LiveHandles(flagged) <= Seen(rounds[..k]))
      {
        PollNext(flagged, rounds, k);
        CollectFinishedGroups(rounds[k]);
        PollsDrainIff(flagged, rounds[..k + 1]);
        EmptyBoth(groups, live);
        if groups == [] {
          AllJoined(View());
          SeenPrefix(rounds, k + 1);
          return true;
        }
      }
      assert rounds[..|rounds|] == rounds;
      drained := false;
    }
  }

  lemma PollNothing(w: World, rounds: seq<set<nat>>)
    ensures PollRounds(w, rounds[..0]) == w
  {
  }

  lemma RetireNobody(w: World)
    requires Accounted(w)
    ensures Retire(w, map[]).live == RequestShutdown(w).live && Accounted(RequestShutdown(w))
  {
    assert Retire(w, map[]).live == RequestShutdown(w).live;
    hide Accounted;
    FlaggedKeeps(w, RequestShutdown(w));
  }

  lemma FlaggedHandles(w: World)
    ensures AllFlagged(RequestShutdown(w)) && LiveHandles(RequestShutdown(w)) == LiveHandles(w)
  {
    var v := RequestShutdown(w);
    forall h ensures h in LiveHandles(v) <==> h in LiveHandles(w) {
      if h in LiveHandles(w) {
        var l :| l in w.live && h in w.live[l].handles;
        assert l in v.live && h in v.live[l].handles;
      }
    }
  }

  lemma EmptyBoth(gs: seq<Runtime>, live: map<string, Group>)
    requires Represents(gs, live)
    ensures gs == [] <==> live == map[]
  {
    if gs != [] {
      assert gs[0] in gs;
    }
  }

  lemma RetireSafe(w: World, desired: map<string, Signature>, most: nat, limit: nat)
    requires Accounted(w)
    ensures Accounted(Retire(w, desired))
    ensures RangesApart(w) ==> RangesApart(Retire(w, desired))
    ensures Bounded(w, most, limit) ==> Bounded(Retire(w, desired), most, limit)
    ensures Retire(w, desired) == w.(live := Retire(w, desired).live) && |Retire(w, desired).live| == |w.live|
  {
    FlaggedKeeps(w, Retire(w, desired));
    assert Retire(w, desired).live.Keys == w.live.Keys;
  }

  lemma AllJoined(w: World)
    requires Accounted(w) && w.live == map[]
    ensures forall h: nat :: h < w.spawned && h !in w.detached ==> w.joined[h] == 1
  {
    assert LiveHandles(w) == {};
  }

  lemma SpawnedNext(w: World, configs: seq<Config>, k: nat, outcomes: seq<Outcome>, o: Outcome)
    requires k < |configs| && |outcomes| == k && AllPossible(w, configs[..k], outcomes)
    requires Possible(SpawnAll(w, configs[..k], outcomes), configs[k], o)
    ensures AllPossible(w, configs[..k + 1], outcomes + [o])
    ensures SpawnAll(w, configs[..k + 1], outcomes + [o])
            == SpawnOne(SpawnAll(w, configs[..k], outcomes), configs[k], o)
  {
    hide Possible, SpawnOne;
    var more, all := configs[..k + 1], outcomes + [o];
    assert more[..k] == configs[..k] && all[..k] == outcomes;
    forall j | 0 <= j < k + 1 ensures Possible(SpawnAll(w, more[..j], all[..j]), more[j], all[j]) {
      if j < k {
        assert more[..j] == configs[..k][..j] && all[..j] == outcomes[..j];
        assert Possible(SpawnAll(w, configs[..k][..j], outcomes[..j]), configs[..k][j], outcomes[j]);
      }
    }
  }

  lemma SpawnOneSize(w: World, c: Config, o: Outcome)
    ensures |SpawnOne(w, c, o).live| <= |w.live| + 1
  {
    assert SpawnOne(w, c, o).live.Keys <= w.live.Keys + {c.listener};
    if c.listener !in w.live && o.Spawned? {
      assert SpawnOne(w, c, o).live.Keys == w.live.Keys + {c.listener};
    }
  }

  lemma RetireVisit(gs: seq<Runtime>, live: map<string, Group>, desired: map<string, Signature>, k: nat)
    requires k < |gs| && Represents(gs, RetireSome(live, desired, LabelsUpTo(gs, k)))
    ensures var l := gs[k].signature.listener;
            l in live && l !in LabelsUpTo(gs, k) && live[l] == ViewOf(gs[k]) && NoDuplicates(gs[k].handles)
  {
    assert gs[k] in gs;
  }

  lemma RetireFinish(gs: seq<Runtime>, w: World, desired: map<string, Signature>)
    requires Represents(gs, RetireSome(w.live, desired, LabelsUpTo(gs, |gs|)))
    ensures RetireSome(w.live, desired, LabelsUpTo(gs, |gs|)) == Retire(w, desired).live
  {
    forall l | l in w.live ensures l in LabelsUpTo(gs, |gs|) {
      assert l in Labels(gs);
    }
    RetireEvery(w, desired, LabelsUpTo(gs, |gs|));
  }
}
