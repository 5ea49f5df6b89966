/** The byte trie behind connection-ID lookup (crates/edge/src/cid_radix.rs), as values. */
module CidTrie {
  import opened Prelude

  newtype byte = x: int | 0 <= x < 256

  type Cid = seq<byte>

  datatype Trie = Node(scid: Option<Cid>, children: map<byte, Trie>)

  const EMPTY: Trie := Node(None, map[])

  /** A node that pruning must keep. */
  predicate Live(t: Trie) { t.scid.Some? || t.children != map[] }

  // ---- Operations ----

  function Put(t: Trie, path: Cid, cid: Cid): Trie
    decreases |path|
  {
    if path == [] then t.(scid := Some(cid))
    else
      var child := if path[0] in t.children then t.children[path[0]] else EMPTY;
      t.(children := t.children[path[0] := Put(child, path[1..], cid)])
  }

  function Insert(t: Trie, cid: Cid): Trie { Put(t, cid, cid) }

  /** prune_remove: the second result says that the node itself can be dropped. */
  function PruneRemove(t: Trie, path: Cid): (Trie, bool)
    decreases |path|
  {
    var u :=
      if path == [] then t.(scid := None)
      else if path[0] !in t.children then t
      else
        var (child, dead) := PruneRemove(t.children[path[0]], path[1..]);
        t.(children := if dead then t.children - {path[0]} else t.children[path[0] := child]);
    (u, !Live(u))
  }

  function Remove(t: Trie, cid: Cid): Trie { PruneRemove(t, cid).0 }

  // ---- What a trie stores ----

  /** The value at the end of `path`. */
  function At(t: Trie, path: Cid): Option<Cid>
    decreases |path|
  {
    if path == [] then t.scid
    else if path[0] in t.children then At(t.children[path[0]], path[1..])
    else None
  }

  predicate Stores(t: Trie, path: Cid) { At(t, path).Some? }

  /** Every value is filed under its own bytes. */
  ghost predicate Filed(t: Trie, prefix: Cid) {
    && (t.scid.Some? ==> t.scid.value == prefix)
    && forall b :: b in t.children ==> Filed(t.children[b], prefix + [b])
  }

  /** No dead node below the root. */
  ghost predicate Pruned(t: Trie) {
    forall b :: b in t.children ==> Live(t.children[b]) && Pruned(t.children[b])
  }

  ghost predicate Valid(t: Trie) { Filed(t, []) && Pruned(t) }

  lemma {:induction false} PutFiled(t: Trie, prefix: Cid, path: Cid)
    requires Filed(t, prefix)
    ensures Filed(Put(t, path, prefix + path), prefix)
    decreases |path|
  {
    if path == [] {
      assert prefix + path == prefix;
    } else {
      var b := path[0];
      var child := if b in t.children then t.children[b] else EMPTY;
      assert prefix + path == prefix + [b] + path[1..];
      PutFiled(child, prefix + [b], path[1..]);
    }
  }

  lemma {:induction false} PutPruned(t: Trie, path: Cid, cid: Cid)
    requires Pruned(t)
    ensures Pruned(Put(t, path, cid)) && Live(Put(t, path, cid))
    decreases |path|
  {
    if path == [] {
    } else {
      var child := if path[0] in t.children then t.children[path[0]] else EMPTY;
      PutPruned(child, path[1..], cid);
      assert path[0] in Put(t, path, cid).children;
    }
  }

  lemma {:induction false} PutStores(t: Trie, path: Cid, cid: Cid, k: Cid)
    ensures Stores(Put(t, path, cid), k) <==> k == path || Stores(t, k)
    decreases |path|
  {
    if path != [] && k != [] && k[0] == path[0] {
      var child := if path[0] in t.children then t.children[path[0]] else EMPTY;
      PutStores(child, path[1..], cid, k[1..]);
      assert k == path <==> k[1..] == path[1..] by {
        assert k == [k[0]] + k[1..] && path == [path[0]] + path[1..];
      }
    }
  }

  lemma {:induction false} RemoveKeeps(t: Trie, prefix: Cid, path: Cid)
    requires Filed(t, prefix) && Pruned(t)
    ensures Filed(PruneRemove(t, path).0, prefix) && Pruned(PruneRemove(t, path).0)
    decreases |path|
  {
    if path != [] && path[0] in t.children {
      RemoveKeeps(t.children[path[0]], prefix + [path[0]], path[1..]);
    }
  }

  lemma {:induction false} RemoveStores(t: Trie, path: Cid, k: Cid)
    ensures Stores(PruneRemove(t, path).0, k) <==> k != path && Stores(t, k)
    decreases |path|
  {
    if path != [] && k != [] && k[0] == path[0] && path[0] in t.children {
      RemoveStores(t.children[path[0]], path[1..], k[1..]);
      assert k == path <==> k[1..] == path[1..] by {
        assert k == [k[0]] + k[1..] && path == [path[0]] + path[1..];
      }
    }
  }

  // ---- Canonical shape ----

  lemma {:induction false} LiveStores(t: Trie) returns (k: Cid)
    requires Live(t) && Pruned(t)
    ensures Stores(t, k)
    decreases t
  {
    if t.scid.Some? {
      k := [];
    } else {
      var b :| b in t.children;
      var rest := LiveStores(t.children[b]);
      k := [b] + rest;
    }
  }

  lemma SameChild(t: Trie, u: Trie, b: byte)
    requires forall k :: Stores(t, k) <==> Stores(u, k)
    requires b in t.children && Live(t.children[b]) && Pruned(t.children[b])
    ensures b in u.children
    ensures forall k :: Stores(t.children[b], k) <==> Stores(u.children[b], k)
  {
    var w := LiveStores(t.children[b]);
    assert Stores(t, [b] + w) && ([b] + w)[1..] == w;
    forall k ensures b in u.children && (Stores(t.children[b], k) <==> Stores(u.children[b], k)) {
      assert ([b] + k)[1..] == k;
      assert Stores(t, [b] + w) <==> Stores(u, [b] + w);
      assert Stores(t, [b] + k) <==> Stores(u, [b] + k);
    }
  }

  /** Two pruned tries storing the same IDs are the same tree. */
  lemma {:induction false} Canonical(t: Trie, u: Trie, prefix: Cid)
    requires Filed(t, prefix) && Pruned(t) && Filed(u, prefix) && Pruned(u)
    requires forall k :: Stores(t, k) <==> Stores(u, k)
    ensures t == u
    decreases t
  {
    assert Stores(t, []) <==> Stores(u, []);
    forall b ensures b in t.children <==> b in u.children {
      if b in t.children {
        SameChild(t, u, b);
      }
      if b in u.children {
        SameChild(u, t, b);
      }
    }
    forall b | b in t.children ensures t.children[b] == u.children[b] {
      SameChild(t, u, b);
      Canonical(t.children[b], u.children[b], prefix + [b]);
    }
    assert t.children == u.children;
  }
}
