/**
  The merge as kontiki/configuration/merge.py does it: in place, on nested dictionaries. Sub-mappings
  only the second dictionary has become part of the first one, as the same objects.
 */
module Dictionaries {
  import opened Wrappers
  import opened Configuration
  import opened ConfigurationMerge

  datatype Slot = Plain(scalar: Scalar) | Nested(dict: Dictionary)

  /** A dictionary that owns its sub-dictionaries: no two keys share one. */
  class Dictionary {
    var entries: map<string, Slot>
    ghost var Repr: set<Dictionary>

    ghost predicate Valid()
      reads this, Repr
      decreases Repr
    {
      && this in Repr
      && (forall k | k in entries && entries[k].Nested? ::
            entries[k].dict in Repr && entries[k].dict.Repr <= Repr - {this} && entries[k].dict.Valid())
      && (forall k, l | k in entries && l in entries && k != l && entries[k].Nested? && entries[l].Nested? ::
            entries[k].dict.Repr !! entries[l].dict.Repr)
    }

    ghost function Content(key: string): Tree
      requires Valid() && key in entries
      reads this, Repr
      decreases Repr, 0
    {
      if entries[key].Plain? then Leaf(entries[key].scalar) else entries[key].dict.Abs()
    }

    /** The tree the dictionary holds. */
    ghost function Abs(): (t: Tree)
      requires Valid()
      reads this, Repr
      ensures t.Node? && t.entries.Keys == entries.Keys
      decreases Repr, 1
    {
      Node(map k | k in entries :: Content(k))
    }

    constructor ()
      ensures Valid() && Abs() == EMPTY && Repr == {this}
    {
      entries, Repr := map[], {this};
    }

    /** A new key, which takes over what is below its entry. */
    method Put(key: string, entry: Slot)
      requires Valid() && key !in entries
      requires entry.Nested? ==> entry.dict.Valid() && entry.dict.Repr !! Repr
      modifies this
      ensures Valid() && entries == old(entries)[key := entry]
      ensures Repr == old(Repr) + if entry.Nested? then entry.dict.Repr else {}
    {
      entries := entries[key := entry];
      if entry.Nested? {
        Repr := Repr + entry.dict.Repr;
      }
    }
  }

  /** Every entry is the very one that was there, or the very one of the other dictionary for a new key. */
  ghost predicate TakenOver(entries: map<string, Slot>, others: map<string, Slot>, result: map<string, Slot>) {
    && result.Keys == entries.Keys + others.Keys
    && forall k | k in result :: result[k] == if k in entries then entries[k] else others[k]
  }

  /** The loop over the keys of d2 only: their sub-dictionaries are shared, not copied. */
  method AddMissing(d1: Dictionary, d2: Dictionary)
    requires d1.Valid() && d2.Valid() && d1.Repr !! d2.Repr
    modifies d1
    ensures d1.Valid() && d1.Repr <= old(d1.Repr) + d2.Repr
    ensures forall k | k in old(d1.entries) && k in d2.entries && d2.entries[k].Nested? ::
              d1.Repr !! d2.entries[k].dict.Repr
    ensures TakenOver(old(d1.entries), d2.entries, d1.entries)
    ensures MergedExcept(old(d1.Abs()), d2.Abs(), old(d1.entries.Keys) * d2.entries.Keys, d1.Abs().entries)
  {
    var only := d2.entries.Keys - d1.entries.Keys;
    while only != {}
      invariant only <= d2.entries.Keys - old(d1.entries.Keys)
      invariant d1.entries.Keys == old(d1.entries.Keys) + (d2.entries.Keys - old(d1.entries.Keys) - only)
      invariant forall k | k in d1.entries ::
                  d1.entries[k] == if k in old(d1.entries) then old(d1.entries)[k] else d2.entries[k]
      invariant d1.Valid() && d1.Repr <= old(d1.Repr) + d2.Repr - {d2}
      invariant forall k | k in d2.entries && (k in only || k in old(d1.entries)) && d2.entries[k].Nested? ::
                  d1.Repr !! d2.entries[k].dict.Repr
    {
      var key :| key in only;
      d1.Put(key, d2.entries[key]);
      only := only - {key};
    }
    forall k | k in d1.entries
      ensures d1.Content(k) == if k in old(d1.entries) then old(d1.Content(k)) else d2.Content(k)
    {
      if k in old(d1.entries) && d1.entries[k].Nested? {
        assert d1 !in d1.entries[k].dict.Repr;
      }
    }
    AllMissing(old(d1.Abs()), d2.Abs(), d1.Abs().entries);
  }

  /** The tree an entry stands for. */
  ghost function TreeOf(entry: Slot): Tree
    requires entry.Nested? ==> entry.dict.Valid()
    reads if entry.Nested? then {entry.dict} + entry.dict.Repr else {}
  {
    if entry.Plain? then Leaf(entry.scalar) else entry.dict.Abs()
  }

  /** A key below which both dictionaries have one: these are merged in turn. */
  method MergeSubs(d1: Dictionary, key: string, y: Dictionary) returns (errors: seq<Path>, warnings: seq<Path>)
    requires d1.Valid() && key in d1.entries && d1.entries[key].Nested?
    requires y.Valid() && d1.Repr !! y.Repr
    modifies d1, d1.entries[key].dict.Repr
    ensures d1.Valid() && d1.entries == old(d1.entries) && d1.Repr <= old(d1.Repr) + y.Repr
    ensures d1.Abs().entries == old(d1.Abs()).entries[key := Merged(old(d1.Content(key)), old(y.Abs()))]
    ensures forall k | k in d1.entries && k != key && d1.entries[k].Nested? ::
              d1.entries[k].dict.Repr == old(d1.entries[k].dict.Repr)
    ensures Reports(old(d1.Content(key)), old(y.Abs()), errors, warnings)
    decreases d1.Content(key), 2
  {
    hide Reports, Merged, TakenOver;
    var x := d1.entries[key].dict;
    errors, warnings := SmartMerge(x, y);
    d1.Repr := d1.Repr + x.Repr;
    assert forall k | k in d1.entries && k != key :: d1.Content(k) == old(d1.Content(k));
  }

  /** A key both dictionaries have: two sub-dictionaries are merged, anything else must be equal. */
  method MergeShared(d1: Dictionary, key: string, other: Slot) returns (errors: seq<Path>, warnings: seq<Path>)
    requires d1.Valid() && key in d1.entries
    requires other.Nested? ==> other.dict.Valid() && d1.Repr !! other.dict.Repr
    modifies d1, if d1.entries[key].Nested? then d1.entries[key].dict.Repr else {}
    ensures d1.Valid() && d1.entries == old(d1.entries)
    ensures d1.Repr <= old(d1.Repr) + if other.Nested? then other.dict.Repr else {}
    ensures d1.Abs().entries == old(d1.Abs()).entries[key := Merged(old(d1.Content(key)), old(TreeOf(other)))]
    ensures forall k | k in d1.entries && k != key && d1.entries[k].Nested? ::
              d1.entries[k].dict.Repr == old(d1.entries[k].dict.Repr)
    ensures Reports(old(d1.Content(key)), old(TreeOf(other)), errors, warnings)
    decreases d1.Content(key), 3
  {
    hide Reports;
    var entry := d1.entries[key];
    if entry.Nested? && other.Nested? {
      hide *;
      errors, warnings := MergeSubs(d1, key, other.dict);
    } else {
      errors, warnings := [], [];
      if entry.Plain? && other.Plain? && entry.scalar == other.scalar {
        warnings := [[]];
      } else {
        errors := [[]];
      }
      assert d1.Content(key) == TreeOf(other) <==> errors == [];
      LeafReports(d1.Content(key), TreeOf(other), errors, warnings);
      assert d1.Abs().entries[key] == Merged(d1.Content(key), TreeOf(other));
    }
  }

  /** The keys left to merge: what is below them in d1 is still apart from d2. */
  ghost predicate Apart(d1: Dictionary, d2: Dictionary, left: set<string>)
    requires d1.Valid() && d2.Valid()
    reads d1, d1.Repr, d2, d2.Repr
  {
    && left <= d1.entries.Keys * d2.entries.Keys && d1 !in d2.Repr
    && (forall k | k in left && d2.entries[k].Nested? :: d1.Repr !! d2.entries[k].dict.Repr)
    && (forall k | k in left && d1.entries[k].Nested? :: d1.entries[k].dict.Repr !! d2.Repr)
  }

  /** One round of the loop over the shared keys. */
  method MergeNext(d1: Dictionary, d2: Dictionary, key: string, ghost left: set<string>, ghost t1: Tree,
                   ghost visited: set<string>, errors: seq<Path>, warnings: seq<Path>)
    returns (allErrors: seq<Path>, allWarnings: seq<Path>)
    requires d1.Valid() && d2.Valid() && Apart(d1, d2, left) && key in left && key !in visited
    requires t1.Node? && key in t1.entries && MergedExcept(t1, d2.Abs(), left, d1.Abs().entries)
    requires ReportsBelow(t1, d2.Abs(), visited, errors, warnings)
    modifies d1, if d1.entries[key].Nested? then d1.entries[key].dict.Repr else {}
    ensures d1.Valid() && d2.Valid() && d2.Abs() == old(d2.Abs()) && d1.Repr <= old(d1.Repr) + d2.Repr
    ensures d1.entries == old(d1.entries) && d2.entries == old(d2.entries) && d2.Repr == old(d2.Repr)
    ensures Apart(d1, d2, left - {key}) && MergedExcept(t1, d2.Abs(), left - {key}, d1.Abs().entries)
    ensures forall k | k in left && k != key && d1.entries[k].Nested? ::
              d1.entries[k].dict.Repr == old(d1.entries[k].dict.Repr)
    ensures ReportsBelow(t1, d2.Abs(), visited + {key}, allErrors, allWarnings)
    decreases t1.entries[key], 4
  {
    hide Reports, ReportsBelow, Merged, MergedExcept, Below, Dictionary.Abs, Dictionary.Content, TreeOf;
    ghost var t2, before := d2.Abs(), d1.Abs().entries;
    AbsContent(d1, key);
    AbsContent(d2, key);
    NotYetMerged(t1, t2, left, key, before);
    var subErrors, subWarnings := MergeShared(d1, key, d2.entries[key]);
    MergedOne(t1, t2, left, key, before, Merged(t1.entries[key], t2.entries[key]));
    ReportKey(t1, t2, visited, key, errors, warnings, subErrors, subWarnings);
    allErrors, allWarnings := errors + Below(key, subErrors), warnings + Below(key, subWarnings);
  }

  /** The loop over the shared keys; it changes only what d1 owned before the merge. */
  method MergeSharedKeys(d1: Dictionary, d2: Dictionary, sharedKeys: set<string>, ghost t1: Tree,
                         ghost owned: set<Dictionary>)
    returns (errors: seq<Path>, warnings: seq<Path>)
    requires d1.Valid() && d2.Valid() && Apart(d1, d2, sharedKeys) && d1 in owned && owned !! d2.Repr
    requires forall k | k in sharedKeys && d1.entries[k].Nested? :: d1.entries[k].dict.Repr <= owned
    requires t1.Node? && sharedKeys == t1.entries.Keys * d2.Abs().entries.Keys
    requires MergedExcept(t1, d2.Abs(), sharedKeys, d1.Abs().entries)
    modifies owned
    ensures d1.Valid() && d1.entries == old(d1.entries) && d1.Repr <= old(d1.Repr) + d2.Repr
    ensures d1.Abs() == Merged(t1, d2.Abs()) && Reports(t1, d2.Abs(), errors, warnings)
    decreases t1, 0
  {
    hide Reports, ReportsBelow, Merged, MergedExcept, Distinct, Dictionary.Abs, Dictionary.Content, TreeOf;
    ghost var t2 := d2.Abs();
    errors, warnings := [], [];
    NothingReported(t1, t2);
    var left := sharedKeys;
    ghost var visited := {};
    while left != {}
      invariant left <= sharedKeys && visited == sharedKeys - left
      invariant d1.Valid() && d1.entries == old(d1.entries)
      invariant d1.Repr <= old(d1.Repr) + d2.Repr && Apart(d1, d2, left)
      invariant forall k | k in left && d1.entries[k].Nested? :: d1.entries[k].dict.Repr <= owned
      invariant MergedExcept(t1, t2, left, d1.Abs().entries)
      invariant ReportsBelow(t1, t2, visited, errors, warnings)
    {
      var key :| key in left;
      errors, warnings := MergeNext(d1, d2, key, left, t1, visited, errors, warnings);
      left, visited := left - {key}, visited + {key};
    }
    assert visited == t1.entries.Keys * t2.entries.Keys;
    AllMerged(t1, t2, d1.Abs().entries);
    AllReported(t1, t2, errors, warnings);
  }

  /**
    _smart_merge: afterwards d1 holds the union of what both held, in the same objects, d2 holds what
    it held, and the errors are exactly the conflicting paths and the warnings the values defined twice.
   */
  method SmartMerge(d1: Dictionary, d2: Dictionary) returns (errors: seq<Path>, warnings: seq<Path>)
    requires d1.Valid() && d2.Valid() && d1.Repr !! d2.Repr
    modifies d1.Repr
    ensures d1.Valid() && d1.Repr <= old(d1.Repr) + d2.Repr
    ensures d1.Abs() == Merged(old(d1.Abs()), old(d2.Abs()))
    ensures TakenOver(old(d1.entries), d2.entries, d1.entries)
    ensures d2.Valid() && d2.entries == old(d2.entries) && d2.Abs() == old(d2.Abs())
    ensures Reports(old(d1.Abs()), old(d2.Abs()), errors, warnings)
    decreases d1.Abs(), 1
  {
    hide Reports, Merged, MergedExcept, Dictionary.Abs, Dictionary.Content;
    ghost var t1, owned := d1.Abs(), d1.Repr;
    var sharedKeys := d1.entries.Keys * d2.entries.Keys;
    AddMissing(d1, d2);
    errors, warnings := MergeSharedKeys(d1, d2, sharedKeys, t1, owned);
  }

  lemma AbsContent(d: Dictionary, key: string)
    requires d.Valid() && key in d.entries
    ensures d.Abs().entries[key] == d.Content(key) == TreeOf(d.entries[key])
  {
  }

  lemma NotYetMerged(a: Tree, b: Tree, left: set<string>, key: string, entries: map<string, Tree>)
    requires a.Node? && b.Node? && MergedExcept(a, b, left, entries) && key in left && key in a.entries
    ensures key in entries && entries[key] == a.entries[key]
  {
  }

  lemma AllMissing(a: Tree, b: Tree, entries: map<string, Tree>)
    requires a.Node? && b.Node? && entries.Keys == a.entries.Keys + b.entries.Keys
    requires forall k | k in entries :: entries[k] == if k in a.entries then a.entries[k] else b.entries[k]
    ensures MergedExcept(a, b, a.entries.Keys * b.entries.Keys, entries)
  {
  }

  // ---------------------------------------------------------------------------------------------
  // Merging files
  // ---------------------------------------------------------------------------------------------

  /** The dictionaries of a loaded file. */
  method Load(tree: Tree) returns (d: Dictionary)
    requires tree.Node?
    ensures d.Valid() && fresh(d.Repr) && d.Abs() == tree
    decreases tree
  {
    d := new Dictionary();
    var left := tree.entries.Keys;
    while left != {}
      invariant left <= tree.entries.Keys && d.Valid() && fresh(d.Repr)
      invariant d.entries.Keys == tree.entries.Keys - left
      invariant forall k | k in d.entries :: d.Content(k) == tree.entries[k]
    {
      var key :| key in left;
      if tree.entries[key].Leaf? {
        d.Put(key, Plain(tree.entries[key].value));
      } else {
        var sub := Load(tree.entries[key]);
        d.Put(key, Nested(sub));
      }
      left := left - {key};
    }
    assert d.Abs().entries == tree.entries;
  }

  /** The j-th file is the first that does not fit the files before it, and errors are exactly its conflicts. */
  ghost predicate FirstMisfit(trees: seq<Tree>, j: nat, errors: seq<Path>) {
    && j < |trees| && PairwiseCompatible(trees[..j]) && !PairwiseCompatible(trees[..j + 1])
    && errors != [] && forall p :: p in errors <==> ConflictAt(MergeAll(trees[..j]), trees[j], p)
  }

  /** What the errors of one merge step say about the files so far. */
  lemma FileFits(trees: seq<Tree>, i: nat, errors: seq<Path>)
    requires AllNodes(trees) && i < |trees| && PairwiseCompatible(trees[..i])
    requires forall p :: p in errors <==> ConflictAt(MergeAll(trees[..i]), trees[i], p)
    ensures errors == [] ==> PairwiseCompatible(trees[..i + 1])
    ensures errors != [] ==> FirstMisfit(trees, i, errors) && !PairwiseCompatible(trees)
    ensures MergeAll(trees[..i + 1]) == Merged(MergeAll(trees[..i]), trees[i])
  {
    hide Merged, ConflictAt;
    NextFile(trees[..i], trees[i]);
    assert trees[..i + 1] == trees[..i] + [trees[i]];
    assert trees[..i + 1][..i] == trees[..i];
    if errors != [] {
      assert errors[0] in errors;
      var k :| 0 <= k < i && !Compatible(trees[..i][k], trees[i]);
      assert !Compatible(trees[..i + 1][k], trees[..i + 1][i]) && !Compatible(trees[k], trees[i]);
    }
  }

  /**
    merge: the files are folded into one dictionary. It succeeds exactly when every two files are
    compatible, and otherwise reports the conflicts of the first file that does not fit.
   */
  method Merge(files: seq<File>) returns (r: Result<Dictionary, seq<Path>>)
    ensures r.Ok? <==> PairwiseCompatible(Contents(files))
    ensures r.Ok? ==> r.value.Valid() && fresh(r.value.Repr) && r.value.Abs() == MergeAll(Contents(files))
    ensures r.Err? ==> exists j: nat :: FirstMisfit(Contents(files), j, r.error)
  {
    hide Merged, MergeAll, Dictionary.Abs, ConflictAt, Compatible, Distinct, FirstMisfit;
    ghost var trees := Contents(files);
    var config := new Dictionary();
    assert trees[..0] == [];
    NoFiles();
    for i := 0 to |files|
      invariant config.Valid() && fresh(config.Repr) && config.Abs() == MergeAll(trees[..i])
      invariant PairwiseCompatible(trees[..i])
    {
      var next := Load(Content(files[i]));
      var errors, warnings := SmartMerge(config, next);
      FileFits(trees, i, errors);
      if errors != [] {
        return Err(errors);
      }
    }
    assert trees[..|files|] == trees;
    r := Ok(config);
  }

  lemma NoFiles()
    ensures MergeAll([]) == EMPTY
  {
  }
}
