/**
  The trie as it runs: nodes updated in place. Each method is proved to do to the abstract tree
  what the function of the same name in `CidTrie` does.
 */
module CidRadix {
  import opened Prelude
  import opened CidTrie
  import opened CidRuns
  import opened CidCounts

  class TrieNode {
    var scid: Option<Cid>
    var children: map<byte, TrieNode>
    /** The tree below this node, and the nodes that make it up. */
    ghost var tree: Trie
    ghost var repr: set<TrieNode>

    ghost predicate Valid()
      reads this, repr
      decreases repr
    {
      && this in repr
      && tree.scid == scid && tree.children.Keys == children.Keys
      && (forall b :: b in children ==>
            children[b] in repr && children[b].repr <= repr && this !in children[b].repr)
      && (forall b :: b in children ==> children[b].Valid() && children[b].tree == tree.children[b])
      && (forall b, c :: b in children && c in children && b != c ==> children[b].repr !! children[c].repr)
    }

    /** The part of Valid that does not look at `tree`. */
    ghost predicate Rooted()
      reads this`children, this`repr, repr - {this}
    {
      && this in repr
      && (forall b :: b in children ==> children[b] != this && children[b] in repr)
      && (forall b :: b in children ==> children[b].repr <= repr && this !in children[b].repr)
      && (forall b :: b in children ==> children[b].Valid())
      && (forall b, c :: b in children && c in children && b != c ==> children[b].repr !! children[c].repr)
    }

    /** Valid except that `tree` and `repr` have not yet followed a change below child `b`. */
    ghost predicate Stale(b: byte)
      reads this, repr, (if b in children then {children[b]} + children[b].repr else {})
    {
      && this in repr && b in children
      && tree.scid == scid && tree.children.Keys == children.Keys
      && children[b].Valid() && this !in children[b].repr
      && (forall c :: c in children && c != b ==>
            && children[c] in repr && children[c].repr <= repr && this !in children[c].repr
            && children[c].Valid() && children[c].tree == tree.children[c]
            && children[c].repr !! children[b].repr)
      && (forall c, d :: c in children && d in children && b != c && c != d && d != b
            ==> children[c].repr !! children[d].repr)
    }

    ghost method Own(b: byte)
      requires Stale(b)
      modifies this`repr
      ensures Stale(b) && repr == old(repr) + children[b].repr && children[b].repr <= repr
    {
      repr := repr + children[b].repr;
    }

    ghost method Retree(b: byte)
      requires Stale(b) && Rooted()
      modifies this`tree
      ensures Valid()
      ensures tree == old(tree).(children := old(tree).children[b := children[b].tree])
    {
      ghost var next := tree.(children := tree.children[b := children[b].tree]);
      assert forall c :: c in children ==> children[c].tree == next.children[c];
      hide Stale;
      tree := next;
    }

    ghost method Adopt(b: byte)
      requires Stale(b)
      modifies this`tree, this`repr
      ensures Valid() && repr == old(repr) + children[b].repr
      ensures tree == old(tree).(children := old(tree).children[b := children[b].tree])
    {
      assert children[b] in children[b].repr;
      Own(b);
      assert Rooted();
      Retree(b);
    }

    constructor ()
      ensures Valid() && fresh(repr) && tree == EMPTY
    {
      scid := None;
      children := map[];
      tree := EMPTY;
      repr := {this};
    }

    /** `entry(byte).or_default()`. */
    method Entry(b: byte) returns (child: TrieNode)
      requires Valid()
      modifies this
      ensures Valid() && fresh(repr - old(repr)) && b in children && child == children[b]
      ensures this in repr && child.repr <= repr && b in tree.children
      ensures tree == if b in old(tree).children then old(tree)
                      else old(tree).(children := old(tree).children[b := EMPTY])
    {
      if b !in children {
        var added := new TrieNode();
        children := children[b := added];
        tree := tree.(children := tree.children[b := EMPTY]);
        repr := repr + added.repr;
      }
      child := children[b];
    }

    method SetScid(value: Option<Cid>)
      requires Valid()
      modifies this`scid, this`tree
      ensures Valid() && tree == old(tree).(scid := value)
    {
      scid := value;
      tree := tree.(scid := value);
    }

    method Put(path: Cid, cid: Cid)
      requires Valid() && this in repr
      modifies repr
      ensures Valid() && fresh(repr - old(repr))
      ensures tree == CidTrie.Put(old(tree), path, cid)
      decreases |path|, 0
    {
      hide Valid, Stale;
      if path == [] {
        SetScid(Some(cid));
      } else {
        var child := Entry(path[0]);
        PutChild(path[0], path[1..], cid);
      }
    }

    method PutChild(b: byte, path: Cid, cid: Cid)
      requires Valid() && b in children && b in tree.children
      modifies repr
      ensures Valid() && fresh(repr - old(repr))
      ensures tree == old(tree).(children := old(tree).children[b := CidTrie.Put(old(tree).children[b], path, cid)])
      decreases |path|, 2
    {
      assert this in repr && children[b].repr <= repr && children[b].tree == tree.children[b];
      hide Valid, Stale;
      PutBelow(b, path, cid);
      Adopt(b);
    }

    method PutBelow(b: byte, path: Cid, cid: Cid)
      requires Valid() && b in children
      modifies children[b].repr
      ensures unchanged(this) && Stale(b) && fresh(children[b].repr - old(children[b].repr))
      ensures children[b].tree == CidTrie.Put(old(children[b].tree), path, cid)
      decreases |path|, 1
    {
      children[b].Put(path, cid);
    }

    method PruneBelow(b: byte, path: Cid) returns (dead: bool)
      requires Valid() && b in children
      modifies children[b].repr
      ensures unchanged(this) && Stale(b) && fresh(children[b].repr - old(children[b].repr))
      ensures (children[b].tree, dead) == CidTrie.PruneRemove(old(children[b].tree), path)
      decreases |path|, 5
    {
      dead := children[b].PruneRemove(path);
    }

    method PruneChild(b: byte, path: Cid) returns (dead: bool)
      requires Valid() && b in children && b in tree.children
      modifies repr
      ensures Valid() && fresh(repr - old(repr)) && b in children && this in repr
      ensures (old(tree).(children := old(tree).children[b := CidTrie.PruneRemove(old(tree).children[b], path).0]),
               CidTrie.PruneRemove(old(tree).children[b], path).1) == (tree, dead)
      decreases |path|, 6
    {
      assert this in repr && children[b].repr <= repr && children[b].tree == tree.children[b];
      hide Valid, Stale;
      dead := PruneBelow(b, path);
      Adopt(b);
    }

    method Drop(b: byte)
      requires Valid()
      modifies this`children, this`tree
      ensures Valid() && tree == old(tree).(children := old(tree).children - {b})
    {
      children := children - {b};
      tree := tree.(children := tree.children - {b});
    }

    method PruneRemove(path: Cid) returns (dead: bool)
      requires Valid() && this in repr
      modifies repr
      ensures Valid() && fresh(repr - old(repr))
      ensures (tree, dead) == CidTrie.PruneRemove(old(tree), path)
      decreases |path|, 4
    {
      Clear(path);
      dead := IsDead();
    }

    /** The body of prune_remove before its final test. */
    method Clear(path: Cid)
      requires Valid() && this in repr
      modifies repr
      ensures Valid() && fresh(repr - old(repr))
      ensures tree == CidTrie.PruneRemove(old(tree), path).0
      decreases |path|, 3
    {
      var known := HasChild(path);
      PruneCases(tree, path);
      hide Valid, Stale, CidTrie.PruneRemove;
      if path == [] {
        SetScid(None);
      } else if known {
        var dead := PruneChild(path[0], path[1..]);
        if dead {
          Drop(path[0]);
        }
      }
    }

    method HasChild(path: Cid) returns (known: bool)
      requires Valid()
      ensures known <==> path != [] && path[0] in children && path[0] in tree.children
      ensures !known && path != [] ==> path[0] !in tree.children
    {
      known := path != [] && path[0] in children;
    }

    /** Children are visited by byte value; the program visits them in hash order, the sum is the same. */
    method CountScids() returns (n: nat)
      requires Valid()
      ensures n == CidCounts.CountScids(tree)
      decreases repr
    {
      n := if scid.Some? then 1 else 0;
      for b := 0 to 256
        invariant n + CountFrom(tree, false, b) == CidCounts.CountScids(tree)
      {
        if b as byte in children {
          var below := children[b as byte].CountScids();
          n := n + below;
        }
      }
    }

    method IsDead() returns (dead: bool)
      requires Valid()
      ensures dead == !Live(tree)
    {
      dead := scid.None? && children == map[];
    }
  }

  class CidRadix {
    var root: TrieNode

    /** The connection IDs currently indexed. */
    ghost predicate Indexes(cids: set<Cid>)
      reads this, root, root.repr
    {
      root.Valid() && Holds(root.tree, cids)
    }

    constructor ()
      ensures Indexes({}) && fresh(root.repr)
    {
      root := new TrieNode();
    }

    method Insert(cid: Cid, ghost cids: set<Cid>)
      requires Indexes(cids)
      modifies root.repr
      ensures Indexes(cids + {cid}) && root == old(root) && fresh(root.repr - old(root.repr))
      ensures root.tree == CidTrie.Insert(old(root.tree), cid)
    {
      InsertHolds(root.tree, cids, cid);
      hide Holds;
      root.Put(cid, cid);
    }

    method Remove(cid: Cid, ghost cids: set<Cid>)
      requires Indexes(cids)
      modifies root.repr
      ensures Indexes(cids - {cid}) && root == old(root) && fresh(root.repr - old(root.repr))
      ensures root.tree == CidTrie.Remove(old(root.tree), cid)
    {
      RemoveHolds(root.tree, cids, cid);
      hide Holds;
      var dead := root.PruneRemove(cid);
    }

    method Clear()
      modifies this
      ensures Indexes({}) && fresh(root) && fresh(root.repr)
    {
      root := new TrieNode();
    }

    /**
      Section 5.2 of RFC 9000 asks to match a packet to a connection by its connection ID; for a
      short header the stored ID is a prefix of the bytes received.
     */
    method LongestPrefixMatch(dcid: Cid, ghost cids: set<Cid>) returns (found: Option<Cid>)
      requires Indexes(cids)
      ensures dcid == [] ==> found.None?
      ensures dcid != [] ==> LongestPrefix(cids, dcid, found)
    {
      if dcid == [] {
        return None;
      }
      var node := root;
      found := None;
      assert dcid[..0] == [] && Descend(root.tree, []) == Some(root.tree);
      assert BestBelow(cids, dcid, 0, None);
      hide Holds, BestBelow, LongestPrefix, Descend;
      for i := 0 to |dcid|
        invariant node.Valid() && Descend(root.tree, dcid[..i]) == Some(node.tree)
        invariant BestBelow(cids, dcid, i, found)
      {
        LookupStep(root.tree, cids, dcid, i, found, node.tree);
        if node.scid.Some? {
          found := node.scid;
        }
        if dcid[i] !in node.children {
          return;
        }
        node := node.children[dcid[i]];
      }
      LookupEnd(root.tree, cids, dcid, found, node.tree);
      if node.scid.Some? {
        found := node.scid;
      }
    }

    method IsEmpty(ghost cids: set<Cid>) returns (empty: bool)
      requires Indexes(cids)
      ensures empty <==> cids == {}
    {
      var n := root.CountScids();
      ScidsCounted(root.tree, cids);
      empty := n == 0;
    }
  }

  /** The three cases of a pruning removal, as the in-place version meets them. */
  lemma PruneCases(t: Trie, path: Cid)
    ensures path == [] ==> CidTrie.PruneRemove(t, path).0 == t.(scid := None)
    ensures path != [] && path[0] !in t.children ==> CidTrie.PruneRemove(t, path).0 == t
    ensures path != [] && path[0] in t.children ==>
              var (child, dead) := CidTrie.PruneRemove(t.children[path[0]], path[1..]);
              var u := t.(children := t.children[path[0] := child]);
              CidTrie.PruneRemove(t, path).0 == if dead then u.(children := u.children - {path[0]}) else u
  {
    if path != [] && path[0] in t.children {
      var child := CidTrie.PruneRemove(t.children[path[0]], path[1..]).0;
      assert t.children[path[0] := child] - {path[0]} == t.children - {path[0]};
    }
  }

  /** On a non-empty DCID the trie answers exactly what a scan over any list of the IDs answers. */
  lemma LookupIsLinearScan(cids: seq<Cid>, dcid: Cid, found: Option<Cid>)
    requires LongestPrefix((set k | k in cids), dcid, found)
    ensures found == LinearScan(cids, dcid)
  {
    LongestPrefixUnique((set k | k in cids), dcid, found, LinearScan(cids, dcid));
  }
}
