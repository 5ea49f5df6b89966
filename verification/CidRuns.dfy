/** Operation histories of the trie: stored set, lookup, node counts. */
module CidRuns {
  import opened Prelude
  import opened CidTrie

  datatype Op = Insert(cid: Cid) | Remove(cid: Cid) | Clear

  function Apply(t: Trie, op: Op): Trie {
    match op
    case Insert(cid) => CidTrie.Insert(t, cid)
    case Remove(cid) => CidTrie.Remove(t, cid)
    case Clear => EMPTY
  }

  function Run(ops: seq<Op>): Trie {
    if ops == [] then EMPTY else Apply(Run(ops[..|ops| - 1]), ops[|ops| - 1])
  }

  /** The same history on a plain set of IDs. */
  function Contents(ops: seq<Op>): set<Cid> {
    if ops == [] then {}
    else
      var before := Contents(ops[..|ops| - 1]);
      match ops[|ops| - 1]
      case Insert(cid) => before + {cid}
      case Remove(cid) => before - {cid}
      case Clear => {}
  }

  /** `t` is a pruned trie holding exactly `cids`. */
  ghost predicate Holds(t: Trie, cids: set<Cid>) {
    Valid(t) && forall k :: Stores(t, k) <==> k in cids
  }

  lemma InsertHolds(t: Trie, cids: set<Cid>, cid: Cid)
    requires Holds(t, cids)
    ensures Holds(CidTrie.Insert(t, cid), cids + {cid})
  {
    PutFiled(t, [], cid);
    assert [] + cid == cid;
    PutPruned(t, cid, cid);
    forall k ensures Stores(CidTrie.Insert(t, cid), k) <==> k in cids + {cid} {
      PutStores(t, cid, cid, k);
    }
  }

  lemma RemoveHolds(t: Trie, cids: set<Cid>, cid: Cid)
    requires Holds(t, cids)
    ensures Holds(CidTrie.Remove(t, cid), cids - {cid})
  {
    RemoveKeeps(t, [], cid);
    forall k ensures Stores(CidTrie.Remove(t, cid), k) <==> k in cids - {cid} {
      RemoveStores(t, cid, k);
    }
  }

  /** After every history the trie is pruned and holds exactly the IDs a set would. */
  lemma {:induction false} HistoryHolds(ops: seq<Op>)
    ensures Holds(Run(ops), Contents(ops))
  {
    if ops == [] {
    } else {
      var init := ops[..|ops| - 1];
      HistoryHolds(init);
      match ops[|ops| - 1]
      case Insert(cid) => InsertHolds(Run(init), Contents(init), cid);
      case Remove(cid) => RemoveHolds(Run(init), Contents(init), cid);
      case Clear =>
    }
  }

  /** Histories with the same outcome on a set build the same tree, node for node. */
  lemma HistoryCanonical(ops: seq<Op>, others: seq<Op>)
    requires Contents(ops) == Contents(others)
    ensures Run(ops) == Run(others)
  {
    HistoryHolds(ops);
    HistoryHolds(others);
    Canonical(Run(ops), Run(others), []);
  }

  /** Removing an ID that was not there before restores the tree as it was. */
  lemma RemoveUndoesInsert(t: Trie, cids: set<Cid>, cid: Cid)
    requires Holds(t, cids) && !Stores(t, cid)
    ensures CidTrie.Remove(CidTrie.Insert(t, cid), cid) == t
  {
    InsertHolds(t, cids, cid);
    RemoveHolds(CidTrie.Insert(t, cid), cids + {cid}, cid);
    assert cids + {cid} - {cid} == cids;
    Canonical(CidTrie.Remove(CidTrie.Insert(t, cid), cid), t, []);
  }

  // ---- Longest-prefix lookup ----

  /** `r` is the longest of `cids` that `dcid` starts with. */
  ghost predicate LongestPrefix(cids: set<Cid>, dcid: Cid, r: Option<Cid>) {
    match r
    case None => forall k :: k in cids ==> !(k <= dcid)
    case Some(best) => best in cids && best <= dcid && forall k :: k in cids && k <= dcid ==> |k| <= |best|
  }

  lemma LongestPrefixUnique(cids: set<Cid>, dcid: Cid, r: Option<Cid>, s: Option<Cid>)
    requires LongestPrefix(cids, dcid, r) && LongestPrefix(cids, dcid, s)
    ensures r == s
  {
    if r.Some? && s.Some? {
      assert r.value == dcid[..|r.value|] && s.value == dcid[..|s.value|];
    }
  }

  /** The scan the trie replaces: try every stored ID, keep the longest that matches. */
  function LinearScan(cids: seq<Cid>, dcid: Cid): (r: Option<Cid>)
    ensures LongestPrefix((set k | k in cids), dcid, r)
  {
    if cids == [] then None
    else
      var n := |cids| - 1;
      assert (set k | k in cids) == (set k | k in cids[..n]) + {cids[n]} by {
        assert cids == cids[..n] + [cids[n]];
      }
      var best := LinearScan(cids[..n], dcid);
      if cids[n] <= dcid && (best.None? || |best.value| < |cids[n]|) then Some(cids[n]) else best
  }

  /** The node reached by the first `k` bytes of `path`. */
  function Descend(t: Trie, path: Cid): Option<Trie>
    decreases |path|
  {
    if path == [] then Some(t)
    else if path[0] in t.children then Descend(t.children[path[0]], path[1..])
    else None
  }

  lemma {:induction false} DescendAt(t: Trie, path: Cid)
    ensures At(t, path) == if Descend(t, path).Some? then Descend(t, path).value.scid else None
    decreases |path|
  {
    if path != [] && path[0] in t.children {
      DescendAt(t.children[path[0]], path[1..]);
    }
  }

  lemma {:induction false} DescendExtend(t: Trie, path: Cid, b: byte)
    requires Descend(t, path).Some?
    ensures var u := Descend(t, path).value;
            Descend(t, path + [b]) == if b in u.children then Some(u.children[b]) else None
    decreases |path|
  {
    if path == [] {
      assert path + [b] == [b];
      assert [b][1..] == [];
    } else {
      DescendExtend(t.children[path[0]], path[1..], b);
      assert (path + [b])[1..] == path[1..] + [b];
    }
  }

  lemma {:induction false} DescendStops(t: Trie, path: Cid, longer: Cid)
    requires Descend(t, path).None? && path <= longer
    ensures !Stores(t, longer)
    decreases |path|
  {
    if path[0] in t.children {
      DescendStops(t.children[path[0]], path[1..], longer[1..]);
    }
  }

  lemma {:induction false} FiledAt(t: Trie, prefix: Cid, path: Cid)
    requires Filed(t, prefix) && Stores(t, path)
    ensures At(t, path) == Some(prefix + path)
    decreases |path|
  {
    if path == [] {
      assert prefix + path == prefix;
    } else {
      FiledAt(t.children[path[0]], prefix + [path[0]], path[1..]);
      assert prefix + [path[0]] + path[1..] == prefix + path;
    }
  }

  /** The matches among the prefixes of `dcid` shorter than `n`. */
  ghost predicate BestBelow(cids: set<Cid>, dcid: Cid, n: nat, r: Option<Cid>) {
    match r
    case None => forall k :: k in cids && k <= dcid ==> |k| >= n
    case Some(best) => best in cids && best <= dcid && |best| < n
                       && forall k :: k in cids && k <= dcid && |k| < n ==> |k| <= |best|
  }

  lemma BestExtends(t: Trie, cids: set<Cid>, dcid: Cid, n: nat, r: Option<Cid>, node: Trie)
    requires Holds(t, cids) && n <= |dcid| && BestBelow(cids, dcid, n, r) && Descend(t, dcid[..n]) == Some(node)
    ensures BestBelow(cids, dcid, n + 1, if node.scid.Some? then node.scid else r)
  {
    DescendAt(t, dcid[..n]);
    assert Stores(t, dcid[..n]) <==> node.scid.Some?;
    if node.scid.Some? {
      FiledAt(t, [], dcid[..n]);
      assert [] + dcid[..n] == dcid[..n];
    }
    forall k | k in cids && k <= dcid && |k| == n ensures node.scid.Some? {
      assert k == dcid[..n];
    }
  }

  lemma BestFinal(t: Trie, cids: set<Cid>, dcid: Cid, n: nat, r: Option<Cid>)
    requires Holds(t, cids) && n <= |dcid| && BestBelow(cids, dcid, n + 1, r)
    requires n == |dcid| || Descend(t, dcid[..n + 1]).None?
    ensures LongestPrefix(cids, dcid, r)
  {
    forall k | k in cids && k <= dcid ensures |k| < n + 1 {
      if n < |k| {
        DescendStops(t, dcid[..n + 1], k);
      }
    }
  }

  /** One iteration of the lookup: `r` is the best match so far and `node` the node reached. */
  lemma LookupStep(t: Trie, cids: set<Cid>, dcid: Cid, i: nat, r: Option<Cid>, node: Trie)
    requires Holds(t, cids) && i < |dcid| && BestBelow(cids, dcid, i, r) && Descend(t, dcid[..i]) == Some(node)
    ensures var best := if node.scid.Some? then node.scid else r;
            if dcid[i] in node.children
            then BestBelow(cids, dcid, i + 1, best) && Descend(t, dcid[..i + 1]) == Some(node.children[dcid[i]])
            else LongestPrefix(cids, dcid, best)
  {
    BestExtends(t, cids, dcid, i, r, node);
    DescendExtend(t, dcid[..i], dcid[i]);
    assert dcid[..i] + [dcid[i]] == dcid[..i + 1];
    if dcid[i] !in node.children {
      BestFinal(t, cids, dcid, i, if node.scid.Some? then node.scid else r);
    }
  }

  lemma LookupEnd(t: Trie, cids: set<Cid>, dcid: Cid, r: Option<Cid>, node: Trie)
    requires Holds(t, cids) && BestBelow(cids, dcid, |dcid|, r) && Descend(t, dcid[..|dcid|]) == Some(node)
    ensures LongestPrefix(cids, dcid, if node.scid.Some? then node.scid else r)
  {
    BestExtends(t, cids, dcid, |dcid|, r, node);
    BestFinal(t, cids, dcid, |dcid|, if node.scid.Some? then node.scid else r);
  }
}
