/** Sizes of the trie: stored IDs and nodes. */
module CidCounts {
  import opened Prelude
  import opened CidTrie
  import opened CidRuns

  // ---- The counting recursion ----

  /** Nodes of `t`: all of them, or only those that hold an ID. */
  function Count(t: Trie, all: bool): nat
    decreases t, 257
  {
    (if all || t.scid.Some? then 1 else 0) + CountFrom(t, all, 0)
  }

  /** The same below the children for bytes `b` and up. */
  function CountFrom(t: Trie, all: bool, b: nat): nat
    requires b <= 256
    decreases t, 256 - b
  {
    if b == 256 then 0
    else (if b as byte in t.children then Count(t.children[b as byte], all) else 0) + CountFrom(t, all, b + 1)
  }

  function CountNodes(t: Trie): nat { Count(t, true) }

  function CountScids(t: Trie): nat { Count(t, false) }

  // ---- The paths it counts ----

  function Behind(b: byte, paths: set<Cid>): set<Cid> { set p | p in paths :: [b] + p }

  function Paths(t: Trie, all: bool): set<Cid>
    decreases t, 257
  {
    (if all || t.scid.Some? then {[]} else {}) + PathsFrom(t, all, 0)
  }

  function PathsFrom(t: Trie, all: bool, b: nat): set<Cid>
    requires b <= 256
    decreases t, 256 - b
  {
    if b == 256 then {}
    else
      (if b as byte in t.children then Behind(b as byte, Paths(t.children[b as byte], all)) else {})
      + PathsFrom(t, all, b + 1)
  }

  lemma {:induction false} BehindSize(b: byte, paths: set<Cid>)
    ensures |Behind(b, paths)| == |paths|
  {
    if paths != {} {
      var p :| p in paths;
      BehindSize(b, paths - {p});
      assert Behind(b, paths) == Behind(b, paths - {p}) + {[b] + p};
      assert [b] + p !in Behind(b, paths - {p}) by {
        forall q | q in paths - {p} ensures [b] + q != [b] + p {
          assert ([b] + q)[1..] == q && ([b] + p)[1..] == p;
        }
      }
    }
  }

  lemma {:induction false} PathsFromStart(t: Trie, all: bool, b: nat, p: Cid)
    requires b <= 256 && p in PathsFrom(t, all, b)
    ensures p != [] && p[0] as int >= b
    decreases 256 - b
  {
    if p in PathsFrom(t, all, b + 1) {
      PathsFromStart(t, all, b + 1, p);
    }
  }

  lemma {:induction false} PathsFromAt(t: Trie, all: bool, b: nat, p: Cid)
    requires b <= 256 && p != [] && p[0] as int >= b
    ensures p in PathsFrom(t, all, b) <==> p[0] in t.children && p[1..] in Paths(t.children[p[0]], all)
    decreases 256 - b
  {
    var x := b as byte;
    assert p == [p[0]] + p[1..];
    if p[0] as int > b {
      PathsFromAt(t, all, b + 1, p);
    } else {
      if p in PathsFrom(t, all, b + 1) {
        PathsFromStart(t, all, b + 1, p);
        assert false;
      }
      if x in t.children && p in Behind(x, Paths(t.children[x], all)) {
        var q :| q in Paths(t.children[x], all) && p == [x] + q;
        assert q == p[1..];
      }
    }
  }

  lemma DisjointSize(a: set<Cid>, b: set<Cid>)
    requires a !! b
    ensures |a + b| == |a| + |b|
  {
  }

  lemma BehindApart(t: Trie, all: bool, b: nat, paths: set<Cid>)
    requires b < 256
    ensures Behind(b as byte, paths) !! PathsFrom(t, all, b + 1)
  {
    var here, above := Behind(b as byte, paths), PathsFrom(t, all, b + 1);
    forall p | p in above ensures p !in here {
      PathsFromStart(t, all, b + 1, p);
    }
  }

  lemma {:induction false} CountFromSize(t: Trie, all: bool, b: nat)
    requires b <= 256
    ensures CountFrom(t, all, b) == |PathsFrom(t, all, b)|
    decreases t, 256 - b
  {
    hide Behind, Paths, Count;
    if b == 256 {
    } else {
      CountFromSize(t, all, b + 1);
      var x := b as byte;
      if x in t.children {
        var below := Paths(t.children[x], all);
        CountSize(t.children[x], all);
        BehindSize(x, below);
        BehindApart(t, all, b, below);
        DisjointSize(Behind(x, below), PathsFrom(t, all, b + 1));
      }
    }
  }

  lemma {:induction false} CountSize(t: Trie, all: bool)
    ensures Count(t, all) == |Paths(t, all)|
    decreases t, 257
  {
    CountFromSize(t, all, 0);
    if [] in PathsFrom(t, all, 0) {
      PathsFromStart(t, all, 0, []);
    }
  }

  lemma {:induction false} PathsAt(t: Trie, all: bool, p: Cid)
    ensures p in Paths(t, all) <==> Descend(t, p).Some? && (all || Stores(t, p))
    decreases |p|
  {
    if p == [] {
      if [] in PathsFrom(t, all, 0) {
        PathsFromStart(t, all, 0, []);
        assert false;
      }
    } else {
      PathsFromAt(t, all, 0, p);
      if p[0] in t.children {
        PathsAt(t.children[p[0]], all, p[1..]);
      }
    }
  }

  // ---- Results ----

  /** count_scids is the number of IDs held, so is_empty tests for none. */
  lemma ScidsCounted(t: Trie, cids: set<Cid>)
    requires Holds(t, cids)
    ensures CountScids(t) == |cids|
  {
    CountSize(t, false);
    forall p ensures p in Paths(t, false) <==> p in cids {
      PathsAt(t, false, p);
      DescendAt(t, p);
    }
    assert Paths(t, false) == cids;
  }

  function Prefixes(cids: set<Cid>): set<Cid> {
    set k, n | k in cids && 0 < n <= |k| :: k[..n]
  }

  lemma {:induction false} NodeLeadsToId(t: Trie, p: Cid) returns (k: Cid)
    requires Pruned(t) && Descend(t, p).Some? && (p == [] ==> Live(t))
    ensures Stores(t, k) && p <= k
    decreases |p|
  {
    if p == [] {
      k := LiveStores(t);
    } else {
      var rest := NodeLeadsToId(t.children[p[0]], p[1..]);
      k := [p[0]] + rest;
      assert k[1..] == rest && p == [p[0]] + p[1..];
    }
  }

  lemma {:induction false} PrefixIsNode(t: Trie, k: Cid, n: nat)
    requires Stores(t, k) && n <= |k|
    ensures Descend(t, k[..n]).Some?
    decreases n
  {
    if n == 0 {
    } else {
      PrefixIsNode(t.children[k[0]], k[1..], n - 1);
      assert k[1..][..n - 1] == k[..n][1..];
    }
  }

  /** A pruned trie has one node per distinct non-empty prefix of its IDs, plus the root. */
  lemma NodesCounted(t: Trie, cids: set<Cid>)
    requires Holds(t, cids)
    ensures CountNodes(t) == 1 + |Prefixes(cids)|
  {
    CountSize(t, true);
    PathsAt(t, true, []);
    forall p | p != [] ensures p in Paths(t, true) <==> p in Prefixes(cids) {
      PathsAt(t, true, p);
      if p in Paths(t, true) {
        var k := NodeLeadsToId(t, p);
        assert p == k[..|p|];
      }
      if p in Prefixes(cids) {
        var k, n :| k in cids && 0 < n <= |k| && p == k[..n];
        PrefixIsNode(t, k, n);
      }
    }
    assert Paths(t, true) == Prefixes(cids) + {[]};
  }

  function TotalLength(cids: seq<Cid>): nat {
    if cids == [] then 0 else TotalLength(cids[..|cids| - 1]) + |cids[|cids| - 1]|
  }

  function PrefixesOfOne(k: Cid, n: nat): (r: set<Cid>)
    requires n <= |k|
    ensures |r| <= n && forall p :: p in r <==> 0 < |p| <= n && p <= k
  {
    if n == 0 then {}
    else
      assert forall p | p <= k && |p| == n :: p == k[..n];
      PrefixesOfOne(k, n - 1) + {k[..n]}
  }

  lemma {:induction false} PrefixesBounded(cids: seq<Cid>)
    ensures |Prefixes(set k | k in cids)| <= TotalLength(cids)
  {
    if cids == [] {
      assert Prefixes(set k | k in cids) == {};
    } else {
      var n := |cids| - 1;
      PrefixesBounded(cids[..n]);
      var one := PrefixesOfOne(cids[n], |cids[n]|);
      var before := Prefixes(set k | k in cids[..n]);
      assert cids == cids[..n] + [cids[n]];
      forall p ensures p in Prefixes(set k | k in cids) <==> p in before || p in one {
        if p in one {
          assert p == cids[n][..|p|];
        }
      }
      assert Prefixes(set k | k in cids) == before + one;
      assert |before + one| <= |before| + |one|;
    }
  }

  /** Memory grows with the sum of the ID lengths: `cids` is any list of the IDs held. */
  lemma NodesBounded(t: Trie, cids: seq<Cid>)
    requires Holds(t, set k | k in cids)
    ensures CountNodes(t) <= 1 + TotalLength(cids)
  {
    NodesCounted(t, set k | k in cids);
    PrefixesBounded(cids);
  }
}
