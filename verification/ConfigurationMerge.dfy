/** Merging any number of configuration files: when it succeeds, and what the result holds. */
module ConfigurationMerge {
  import opened Wrappers
  import opened Configuration

  /** A loaded YAML file: nothing at all, or a mapping. */
  datatype File = EmptyFile | Mapping(entries: map<string, Tree>)

  function Content(file: File): Tree {
    if file.EmptyFile? then EMPTY else Node(file.entries)
  }

  function Contents(files: seq<File>): (trees: seq<Tree>)
    ensures |trees| == |files|
    ensures forall i | 0 <= i < |trees| :: trees[i] == Content(files[i])
  {
    seq(|files|, i requires 0 <= i < |files| => Content(files[i]))
  }

  ghost predicate AllNodes(trees: seq<Tree>) {
    forall i | 0 <= i < |trees| :: trees[i].Node?
  }

  ghost predicate PairwiseCompatible(trees: seq<Tree>) {
    forall i, j | 0 <= i < j < |trees| :: Compatible(trees[i], trees[j])
  }

  /** The merge of all trees, first to last. */
  ghost function MergeAll(trees: seq<Tree>): Tree {
    if |trees| == 0 then EMPTY
    else Merged(MergeAll(trees[..|trees| - 1]), trees[|trees| - 1])
  }

  // ---------------------------------------------------------------------------------------------
  // Merged is a partial commutative monoid on compatible trees
  // ---------------------------------------------------------------------------------------------

  lemma CompatibleSymmetric(a: Tree, b: Tree)
    ensures Compatible(a, b) <==> Compatible(b, a)
  {
    assert forall path :: ConflictAt(a, b, path) <==> ConflictAt(b, a, path);
  }

  lemma {:induction false} MergedCommutes(a: Tree, b: Tree)
    requires Compatible(a, b)
    ensures Merged(a, b) == Merged(b, a)
    decreases a
  {
    if a.Node? && b.Node? {
      CompatibleNodes(a, b);
      forall k | k in a.entries && k in b.entries
        ensures Merged(a.entries[k], b.entries[k]) == Merged(b.entries[k], a.entries[k])
      {
        MergedCommutes(a.entries[k], b.entries[k]);
      }
      assert Merged(a, b).entries == Merged(b, a).entries;
    } else {
      CompatibleLeaf(a, b);
    }
  }

  /** A third tree fits the merge of two exactly when it fits both. */
  lemma {:induction false} CompatibleMerged(a: Tree, b: Tree, c: Tree)
    requires Compatible(a, b)
    ensures Compatible(Merged(a, b), c) <==> Compatible(a, c) && Compatible(b, c)
    decreases a
  {
    if a.Leaf? || b.Leaf? {
      CompatibleLeaf(a, b);
    } else if c.Leaf? {
      CompatibleLeaf(Merged(a, b), c);
      CompatibleLeaf(a, c);
    } else {
      CompatibleNodes(a, b);
      CompatibleNodes(a, c);
      CompatibleNodes(b, c);
      CompatibleNodes(Merged(a, b), c);
      forall k | k in a.entries && k in b.entries && k in c.entries
        ensures Compatible(Merged(a, b).entries[k], c.entries[k]) <==>
                Compatible(a.entries[k], c.entries[k]) && Compatible(b.entries[k], c.entries[k])
      {
        CompatibleMerged(a.entries[k], b.entries[k], c.entries[k]);
      }
    }
  }

  lemma {:induction false} MergedAssociates(a: Tree, b: Tree, c: Tree)
    requires Compatible(a, b) && Compatible(a, c) && Compatible(b, c)
    ensures Merged(Merged(a, b), c) == Merged(a, Merged(b, c))
    decreases a
  {
    if a.Leaf? || b.Leaf? {
      CompatibleLeaf(a, b);
    } else if c.Leaf? {
      CompatibleLeaf(a, c);
    } else {
      CompatibleNodes(a, b);
      CompatibleNodes(a, c);
      CompatibleNodes(b, c);
      forall k | k in a.entries && k in b.entries && k in c.entries
        ensures Merged(Merged(a.entries[k], b.entries[k]), c.entries[k]) ==
                Merged(a.entries[k], Merged(b.entries[k], c.entries[k]))
      {
        MergedAssociates(a.entries[k], b.entries[k], c.entries[k]);
      }
      assert Merged(Merged(a, b), c).entries == Merged(a, Merged(b, c)).entries;
    }
  }

  lemma EmptyUnit(t: Tree)
    requires t.Node?
    ensures Compatible(EMPTY, t) && Merged(EMPTY, t) == t
  {
    CompatibleNodes(EMPTY, t);
    assert Merged(EMPTY, t).entries == t.entries;
  }

  // ---------------------------------------------------------------------------------------------
  // The merge of all files
  // ---------------------------------------------------------------------------------------------

  lemma {:induction false} MergeAllNode(trees: seq<Tree>)
    requires AllNodes(trees)
    ensures MergeAll(trees).Node?
  {
    if |trees| > 0 {
      MergeAllNode(trees[..|trees| - 1]);
    }
  }

  /** The next file conflicts with the merge so far exactly when it conflicts with an earlier file. */
  lemma {:induction false} NextFile(trees: seq<Tree>, next: Tree)
    requires AllNodes(trees) && next.Node? && PairwiseCompatible(trees)
    ensures Compatible(MergeAll(trees), next) <==> forall i | 0 <= i < |trees| :: Compatible(trees[i], next)
  {
    if |trees| == 0 {
      EmptyUnit(next);
    } else {
      var init, last := trees[..|trees| - 1], trees[|trees| - 1];
      NextFile(init, next);
      NextFile(init, last);
      CompatibleMerged(MergeAll(init), last, next);
      assert trees == init + [last];
    }
  }

  // ---------------------------------------------------------------------------------------------
  // The order of the files does not matter
  // ---------------------------------------------------------------------------------------------

  function Without(trees: seq<Tree>, i: nat): seq<Tree>
    requires i < |trees|
  {
    trees[..i] + trees[i + 1..]
  }

  lemma CompatibleWithout(trees: seq<Tree>, i: nat)
    requires i < |trees| && AllNodes(trees) && PairwiseCompatible(trees)
    ensures AllNodes(Without(trees, i)) && PairwiseCompatible(Without(trees, i))
    ensures Compatible(MergeAll(Without(trees, i)), trees[i])
  {
    var rest := Without(trees, i);
    forall j | 0 <= j < |rest| ensures Compatible(rest[j], trees[i]) {
      if i <= j {
        CompatibleSymmetric(trees[i], trees[j + 1]);
      }
    }
    NextFile(rest, trees[i]);
  }

  /** The last two of three compatible trees can be swapped. */
  lemma SwapLast(r: Tree, x: Tree, y: Tree)
    requires Compatible(r, x) && Compatible(r, y) && Compatible(x, y)
    ensures Merged(Merged(r, x), y) == Merged(Merged(r, y), x)
  {
    hide Compatible, Merged;
    CompatibleSymmetric(x, y);
    MergedAssociates(r, x, y);
    MergedCommutes(x, y);
    MergedAssociates(r, y, x);
  }

  lemma MergeAllStep(trees: seq<Tree>, last: Tree)
    ensures MergeAll(trees + [last]) == Merged(MergeAll(trees), last)
  {
    assert (trees + [last])[..|trees|] == trees;
  }

  /** Any file can be merged last. */
  lemma {:induction false} MergeLast(trees: seq<Tree>, i: nat)
    requires i < |trees| && AllNodes(trees) && PairwiseCompatible(trees)
    ensures MergeAll(trees) == Merged(MergeAll(Without(trees, i)), trees[i])
  {
    hide Compatible, Merged, MergeAll;
    var init, last := trees[..|trees| - 1], trees[|trees| - 1];
    assert trees == init + [last];
    MergeAllStep(init, last);
    if i == |trees| - 1 {
      assert Without(trees, i) == init;
    } else {
      MergeLast(init, i);
      var rest := Without(init, i);
      assert Without(trees, i) == rest + [last];
      MergeAllStep(rest, last);
      CompatibleWithout(init, i);
      CompatibleWithout(trees, |trees| - 1);
      NextFile(rest, last);
      SwapLast(MergeAll(rest), trees[i], last);
    }
  }

  /** The same files in another order merge to the same configuration, or fail to merge as well. */
  lemma OrderIrrelevant(s: seq<Tree>, t: seq<Tree>)
    requires AllNodes(s) && AllNodes(t) && multiset(s) == multiset(t)
    ensures PairwiseCompatible(s) <==> PairwiseCompatible(t)
    ensures PairwiseCompatible(s) ==> MergeAll(s) == MergeAll(t)
  {
    PairwiseByMembers(s);
    PairwiseByMembers(t);
    assert forall x :: x in s <==> x in multiset(s);
    assert forall x :: x in t <==> x in multiset(t);
    if PairwiseCompatible(s) {
      SameMerge(s, t);
    }
  }

  /** A tree is compatible with itself, so compatibility in pairs says nothing about order. */
  lemma PairwiseByMembers(s: seq<Tree>)
    ensures PairwiseCompatible(s) <==> forall x, y | x in s && y in s :: Compatible(x, y)
  {
    if PairwiseCompatible(s) {
      forall x, y | x in s && y in s ensures Compatible(x, y) {
        var i :| 0 <= i < |s| && s[i] == x;
        var j :| 0 <= j < |s| && s[j] == y;
        CompatibleSymmetric(x, y);
        assert i < j || i == j || j < i;
      }
    }
  }

  lemma WithoutMembers(s: seq<Tree>, i: nat)
    requires i < |s|
    ensures multiset(Without(s, i)) == multiset(s) - multiset{s[i]}
  {
    assert s == s[..i] + [s[i]] + s[i + 1..];
  }

  lemma IndexOf(x: Tree, t: seq<Tree>) returns (i: nat)
    requires x in multiset(t)
    ensures i < |t| && t[i] == x
  {
    i :| 0 <= i < |t| && t[i] == x;
  }

  /** The last element of s, found in t: both sequences stay permutations of each other without it. */
  lemma MatchLast(s: seq<Tree>, t: seq<Tree>) returns (i: nat)
    requires |s| > 0 && multiset(s) == multiset(t)
    ensures i < |t| && t[i] == s[|s| - 1]
    ensures multiset(Without(s, |s| - 1)) == multiset(Without(t, i))
  {
    hide Without;
    i := IndexOf(s[|s| - 1], t);
    WithoutMembers(t, i);
    WithoutMembers(s, |s| - 1);
  }

  lemma {:induction false} SameMerge(s: seq<Tree>, t: seq<Tree>)
    requires AllNodes(s) && AllNodes(t) && multiset(s) == multiset(t)
    requires PairwiseCompatible(s) && PairwiseCompatible(t)
    ensures MergeAll(s) == MergeAll(t)
    decreases |s|
  {
    if |s| == 0 {
      assert |multiset(t)| == 0;
    } else {
      var i := MatchLast(s, t);
      CompatibleWithout(t, i);
      CompatibleWithout(s, |s| - 1);
      SameMerge(Without(s, |s| - 1), Without(t, i));
      MergeLast(t, i);
      MergeLast(s, |s| - 1);
    }
  }

  // ---------------------------------------------------------------------------------------------
  // What a lookup finds in the result
  // ---------------------------------------------------------------------------------------------

  /** Where only one side holds a path the merge holds the same, and where both do, their merge. */
  lemma {:induction false} WalkMerged(a: Tree, b: Tree, path: Path)
    requires Compatible(a, b)
    ensures Walk(a, path).Found? && Walk(b, path).Found? ==>
              && Compatible(Walk(a, path).tree, Walk(b, path).tree)
              && Holds(Merged(a, b), path, Merged(Walk(a, path).tree, Walk(b, path).tree))
    ensures Walk(a, path).Found? && !Walk(b, path).Found? ==> Walk(Merged(a, b), path) == Walk(a, path)
    ensures !Walk(a, path).Found? && Walk(b, path).Found? ==> Walk(Merged(a, b), path) == Walk(b, path)
    ensures !Walk(a, path).Found? && !Walk(b, path).Found? ==> !Walk(Merged(a, b), path).Found?
    decreases |path|
  {
    if a.Leaf? || b.Leaf? {
      CompatibleLeaf(a, b);
    } else if |path| > 0 {
      CompatibleNodes(a, b);
      var k := path[0];
      if k in a.entries && k in b.entries {
        WalkMerged(a.entries[k], b.entries[k], path[1..]);
      }
    }
  }

  /** The subtrees the files hold at a path, in file order. */
  ghost function HeldAt(trees: seq<Tree>, path: Path): seq<Tree> {
    if |trees| == 0 then []
    else
      var init, last := trees[..|trees| - 1], trees[|trees| - 1];
      HeldAt(init, path) + if Walk(last, path).Found? then [Walk(last, path).tree] else []
  }

  lemma {:induction false} HeldBySome(trees: seq<Tree>, path: Path, sub: Tree)
    ensures sub in HeldAt(trees, path) <==> exists i | 0 <= i < |trees| :: Holds(trees[i], path, sub)
  {
    if |trees| > 0 {
      var init, last := trees[..|trees| - 1], trees[|trees| - 1];
      HeldBySome(init, path, sub);
      if exists i | 0 <= i < |trees| :: Holds(trees[i], path, sub) {
        var i :| 0 <= i < |trees| && Holds(trees[i], path, sub);
        assert i < |init| ==> Holds(init[i], path, sub);
      }
      if exists i | 0 <= i < |init| :: Holds(init[i], path, sub) {
        var i :| 0 <= i < |init| && Holds(init[i], path, sub);
        assert Holds(trees[i], path, sub);
      }
      assert Holds(last, path, sub) ==> Holds(trees[|trees| - 1], path, sub);
    }
  }

  /**
    After a successful merge a path is found exactly when some file holds it. A leaf found there
    is the leaf every such file holds, and a mapping is the merge of their mappings.
   */
  lemma {:induction false} LookupMerged(trees: seq<Tree>, path: Path)
    requires AllNodes(trees) && PairwiseCompatible(trees) && path != []
    ensures Walk(MergeAll(trees), path).Found? <==> HeldAt(trees, path) != []
    ensures HeldAt(trees, path) != [] ==>
              var found, held := Walk(MergeAll(trees), path).tree, HeldAt(trees, path);
              && (found.Leaf? ==> forall i | 0 <= i < |held| :: held[i] == found)
              && (found.Node? ==> AllNodes(held) && found == MergeAll(held))
  {
    if |trees| > 0 {
      var init, last := trees[..|trees| - 1], trees[|trees| - 1];
      LookupMerged(init, path);
      NextFile(init, last);
      WalkMerged(MergeAll(init), last, path);
      var held := HeldAt(trees, path);
      if Walk(last, path).Found? {
        var x := Walk(last, path).tree;
        assert held[..|held| - 1] == HeldAt(init, path) && held[|held| - 1] == x;
        if HeldAt(init, path) == [] {
          if x.Node? {
            EmptyUnit(x);
            assert MergeAll(held) == Merged(MergeAll([]), x);
          }
        } else {
          var before := Walk(MergeAll(init), path).tree;
          if before.Leaf? || x.Leaf? {
            CompatibleLeaf(before, x);
          }
        }
      } else {
        assert held == HeldAt(init, path);
      }
    }
  }

  /** A dotted lookup finds the leaf v in the merged configuration exactly when some file holds v there. */
  lemma LeafLookup(trees: seq<Tree>, path: Path, v: Scalar)
    requires AllNodes(trees) && PairwiseCompatible(trees)
    ensures Holds(MergeAll(trees), path, Leaf(v)) <==>
            exists i | 0 <= i < |trees| :: Holds(trees[i], path, Leaf(v))
  {
    if path == [] {
      MergeAllNode(trees);
    } else {
      LookupMerged(trees, path);
      HeldBySome(trees, path, Leaf(v));
      var held := HeldAt(trees, path);
      if held != [] {
        assert held[0] in held;
      }
    }
  }
}
