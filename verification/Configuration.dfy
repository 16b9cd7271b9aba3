/**
  Merged YAML configuration (kontiki/configuration/merge.py) and the dotted lookup over it
  (kontiki/configuration/parameter.py). A file is a tree without sharing; leaves are compared
  strictly, so the boolean true and the number 1 differ.
 */
module Configuration {
  import opened Wrappers

  /** A value the merge takes whole; a list may hold mappings, and is a leaf all the same. */
  datatype Scalar = Nothing | Flag(flag: bool) | Number(number: int) | Text(text: string) | Items(items: seq<Tree>)

  datatype Tree = Leaf(value: Scalar) | Node(entries: map<string, Tree>)

  type Path = seq<string>

  const EMPTY := Node(map[])

  // ---------------------------------------------------------------------------------------------
  // Lookup
  // ---------------------------------------------------------------------------------------------

  /** The outcome of value[k1][k2]...: the subtree, a KeyError, or a TypeError on a leaf. */
  datatype Lookup = Found(tree: Tree) | KeyMissing | NotSubscriptable

  function Walk(t: Tree, path: Path): Lookup {
    if |path| == 0 then Found(t)
    else if t.Leaf? then NotSubscriptable
    else if path[0] !in t.entries then KeyMissing
    else Walk(t.entries[path[0]], path[1..])
  }

  predicate Holds(t: Tree, path: Path, sub: Tree) {
    Walk(t, path) == Found(sub)
  }

  /** Some prefix of the path leads to a mapping that lacks the next key. */
  ghost predicate Misses(t: Tree, path: Path) {
    exists n: nat :: n < |path| && LacksNext(t, path, n)
  }

  ghost predicate LacksNext(t: Tree, path: Path, n: nat)
    requires n < |path|
  {
    exists entries :: Holds(t, path[..n], Node(entries)) && path[n] !in entries
  }

  /** Some proper prefix of the path leads to a leaf. */
  ghost predicate MeetsLeaf(t: Tree, path: Path) {
    exists n: nat, value :: n < |path| && Holds(t, path[..n], Leaf(value))
  }

  lemma OneKey(t: Tree, key: string, sub: Tree)
    ensures Holds(t, [key], sub) <==> t.Node? && key in t.entries && t.entries[key] == sub
  {
    assert [key][1..] == [];
    if t.Node? && key in t.entries {
      assert Walk(t.entries[key], []) == Found(t.entries[key]);
    }
  }

  /** One more key leads from a mapping to what it holds there. */
  lemma {:induction false} OneKeyFurther(t: Tree, path: Path, key: string, sub: Tree)
    ensures Holds(t, path + [key], sub) <==>
            exists entries :: Holds(t, path, Node(entries)) && key in entries && entries[key] == sub
  {
    if |path| == 0 {
      assert path + [key] == [key];
      OneKey(t, key, sub);
      assert forall entries :: Holds(t, path, Node(entries)) <==> t == Node(entries);
      assert t.Node? ==> t == Node(t.entries);
    } else {
      assert (path + [key])[1..] == path[1..] + [key];
      if t.Node? && path[0] in t.entries {
        OneKeyFurther(t.entries[path[0]], path[1..], key, sub);
        assert forall entries :: Holds(t, path, Node(entries)) <==>
                                 Holds(t.entries[path[0]], path[1..], Node(entries));
      }
    }
  }

  /** Where a walk ends: at what the path leads to, at the first missing key, or at a leaf before its end. */
  lemma {:induction false} WalkEnds(t: Tree, path: Path)
    ensures Walk(t, path) == KeyMissing <==> Misses(t, path)
    ensures Walk(t, path) == NotSubscriptable <==> MeetsLeaf(t, path)
    ensures Walk(t, path).Found? <==> exists sub :: Holds(t, path, sub)
  {
    if |path| > 0 {
      assert path[..0] == [];
      if t.Leaf? {
        assert Holds(t, path[..0], t);
        AtMostOneEnd(t, path);
      } else if path[0] !in t.entries {
        assert Holds(t, path[..0], Node(t.entries)) && LacksNext(t, path, 0);
        AtMostOneEnd(t, path);
      } else {
        WalkEnds(t.entries[path[0]], path[1..]);
        EndsBelow(t, path);
      }
    }
    assert Walk(t, path).Found? ==> Holds(t, path, Walk(t, path).tree);
  }

  /** A prefix that ends the walk is the longest one that can be followed. */
  lemma AtMostOneEnd(t: Tree, path: Path)
    requires |path| > 0 && (t.Leaf? || path[0] !in t.entries)
    ensures t.Leaf? ==> !Misses(t, path)
    ensures t.Node? ==> !MeetsLeaf(t, path)
  {
    forall n: nat, sub | 0 < n < |path| ensures !Holds(t, path[..n], sub) {
      assert path[..n][0] == path[0];
    }
    assert path[..0] == [];
  }

  lemma EndsBelow(t: Tree, path: Path)
    requires |path| > 0 && t.Node? && path[0] in t.entries
    ensures Misses(t, path) <==> Misses(t.entries[path[0]], path[1..])
    ensures MeetsLeaf(t, path) <==> MeetsLeaf(t.entries[path[0]], path[1..])
  {
    var below, rest := t.entries[path[0]], path[1..];
    forall n: nat, sub | n < |rest| ensures Holds(t, path[..n + 1], sub) <==> Holds(below, rest[..n], sub) {
      assert path[..n + 1][1..] == rest[..n] && path[..n + 1][0] == path[0];
    }
    assert path[..0] == [];
    forall n: nat | n < |rest| ensures LacksNext(t, path, n + 1) <==> LacksNext(below, rest, n) {
      assert path[n + 1] == rest[n];
    }
    if Misses(t, path) {
      var n: nat :| n < |path| && LacksNext(t, path, n);
      assert n > 0;
      assert LacksNext(below, rest, n - 1);
    }
    if Misses(below, rest) {
      var n: nat :| n < |rest| && LacksNext(below, rest, n);
      assert LacksNext(t, path, n + 1);
    }
    if MeetsLeaf(t, path) {
      var n: nat, value :| n < |path| && Holds(t, path[..n], Leaf(value));
      assert n > 0;
      assert Holds(below, rest[..n - 1], Leaf(value));
    }
    if MeetsLeaf(below, rest) {
      var n: nat, value :| n < |rest| && Holds(below, rest[..n], Leaf(value));
      assert Holds(t, path[..n + 1], Leaf(value));
    }
  }

  /** str.split("."). */
  function Split(s: string): (path: Path)
    ensures |path| > 0
  {
    if |s| == 0 then [""]
    else if s[0] == '.' then [""] + Split(s[1..])
    else var rest := Split(s[1..]); [[s[0]] + rest[0]] + rest[1..]
  }

  function JoinDots(path: Path): string
    requires |path| > 0
  {
    if |path| == 1 then path[0] else path[0] + "." + JoinDots(path[1..])
  }

  predicate DotFree(s: string) {
    forall i | 0 <= i < |s| :: s[i] != '.'
  }

  lemma {:induction false} SplitKey(key: string)
    requires DotFree(key)
    ensures Split(key) == [key]
  {
    if |key| > 0 {
      SplitKey(key[1..]);
      assert [key[0]] + key[1..] == key;
    }
  }

  lemma {:induction false} SplitKeyDot(key: string, rest: string)
    requires DotFree(key)
    ensures Split(key + "." + rest) == [key] + Split(rest)
  {
    var s := key + "." + rest;
    if |key| == 0 {
      assert s[1..] == rest;
    } else {
      SplitKeyDot(key[1..], rest);
      assert s[1..] == key[1..] + "." + rest;
      assert [key[0]] + key[1..] == key;
    }
  }

  /** Splitting a dotted path gives back the keys it was joined from, when no key has a dot. */
  lemma {:induction false} SplitJoin(path: Path)
    requires |path| > 0 && forall i | 0 <= i < |path| :: DotFree(path[i])
    ensures Split(JoinDots(path)) == path
  {
    if |path| == 1 {
      SplitKey(path[0]);
    } else {
      SplitJoin(path[1..]);
      SplitKeyDot(path[0], JoinDots(path[1..]));
    }
  }

  datatype ParameterError = PathNotFound | NotAMapping | NoConfiguration

  /** What a lookup may return besides a configured tree. */
  datatype Parameter = Configured(tree: Tree) | DefaultValue | MissingSentinel

  /** The default argument of a lookup: absent (the module's sentinel), None, or another value. */
  datatype Default = NoDefault | NoneDefault | OtherDefault

  /** ConfigParameter.get: the walk, one key at a time. */
  method Get(config: Tree, path: string, default: Default) returns (r: Result<Parameter, ParameterError>)
    ensures match Walk(config, Split(path))
            case Found(t) => r == Ok(Configured(t))
            case KeyMissing => r == if default.NoDefault? then Err(PathNotFound) else Ok(DefaultValue)
            case NotSubscriptable => r == Err(NotAMapping)
    ensures r == Err(PathNotFound) <==> Misses(config, Split(path)) && default.NoDefault?
    ensures r == Ok(DefaultValue) <==> Misses(config, Split(path)) && !default.NoDefault?
    ensures r == Err(NotAMapping) <==> MeetsLeaf(config, Split(path))
    ensures forall t :: r == Ok(Configured(t)) <==> Holds(config, Split(path), t)
  {
    hide Misses, MeetsLeaf, Split;
    WalkEnds(config, Split(path));
    var keys := Split(path);
    var value := config;
    for i := 0 to |keys|
      invariant Walk(config, keys) == Walk(value, keys[i..])
    {
      if value.Leaf? {
        return Err(NotAMapping);
      }
      if keys[i] !in value.entries {
        return if default.NoDefault? then Err(PathNotFound) else Ok(DefaultValue);
      }
      assert keys[i..][1..] == keys[i + 1..];
      value := value.entries[keys[i]];
    }
    r := Ok(Configured(value));
  }

  /**
    get_parameter. On an empty configuration the default is returned unlooked, so a lookup
    without default gives back the module's sentinel instead of raising.
   */
  method GetParameter(config: Tree, path: string, default: Default) returns (r: Result<Parameter, ParameterError>)
    requires config.Node?
    ensures r == Ok(MissingSentinel) <==> config == EMPTY && default.NoDefault?
    ensures r == Err(NoConfiguration) <==> config == EMPTY && default.NoneDefault?
    ensures r == Err(PathNotFound) <==> config != EMPTY && default.NoDefault? && Misses(config, Split(path))
    ensures r == Err(NotAMapping) <==> config != EMPTY && MeetsLeaf(config, Split(path))
    ensures forall t :: r == Ok(Configured(t)) <==> config != EMPTY && Holds(config, Split(path), t)
  {
    if config.entries != map[] {
      r := Get(config, path, default);
    } else if !default.NoneDefault? {
      r := Ok(if default.NoDefault? then MissingSentinel else DefaultValue);
    } else {
      r := Err(NoConfiguration);
    }
  }

  // ---------------------------------------------------------------------------------------------
  // Merging two trees
  // ---------------------------------------------------------------------------------------------

  /** Both trees reach path, and they neither are both mappings nor agree there. */
  ghost predicate ConflictAt(a: Tree, b: Tree, path: Path) {
    && Walk(a, path).Found?
    && Walk(b, path).Found?
    && var x, y := Walk(a, path).tree, Walk(b, path).tree;
       x != y && !(x.Node? && y.Node?)
  }

  /** Both trees define path with the same value, below no deeper merge. */
  ghost predicate RepeatAt(a: Tree, b: Tree, path: Path) {
    && Walk(a, path).Found?
    && Walk(a, path) == Walk(b, path)
    && Walk(a, path).tree.Leaf?
  }

  ghost predicate Compatible(a: Tree, b: Tree) {
    forall path :: !ConflictAt(a, b, path)
  }

  /** The union of two trees; where they conflict, the first one stays. */
  ghost function Merged(a: Tree, b: Tree): Tree {
    if a.Node? && b.Node? then
      Node(map k | k in a.entries.Keys + b.entries.Keys ::
        if k !in b.entries then a.entries[k]
        else if k !in a.entries then b.entries[k]
        else Merged(a.entries[k], b.entries[k]))
    else a
  }

  /** Compatibility seen key by key. */
  lemma CompatibleNodes(a: Tree, b: Tree)
    requires a.Node? && b.Node?
    ensures Compatible(a, b) <==>
            forall k | k in a.entries && k in b.entries :: Compatible(a.entries[k], b.entries[k])
  {
    if Compatible(a, b) {
      forall k, path | k in a.entries && k in b.entries
        ensures !ConflictAt(a.entries[k], b.entries[k], path)
      {
        assert !ConflictAt(a, b, [k] + path);
        assert ([k] + path)[1..] == path;
      }
    } else {
      var path :| ConflictAt(a, b, path);
      assert ConflictAt(a.entries[path[0]], b.entries[path[0]], path[1..]);
    }
  }

  lemma CompatibleLeaf(a: Tree, b: Tree)
    requires a.Leaf? || b.Leaf?
    ensures Compatible(a, b) <==> a == b
  {
    assert ConflictAt(a, b, []) <==> a != b;
  }

  /** One key in front of every path: the f"{key}:{subkey}" of a merge step. */
  function Below(key: string, paths: seq<Path>): (r: seq<Path>)
    ensures |r| == |paths|
    ensures forall i | 0 <= i < |r| :: r[i] == [key] + paths[i]
  {
    seq(|paths|, i requires 0 <= i < |paths| => [key] + paths[i])
  }

  /** The errors are exactly the conflicting paths and the warnings the repeated ones, each once. */
  ghost predicate Reports(a: Tree, b: Tree, errors: seq<Path>, warnings: seq<Path>) {
    && Distinct(errors)
    && Distinct(warnings)
    && (forall p :: p in errors <==> ConflictAt(a, b, p))
    && (forall p :: p in warnings <==> RepeatAt(a, b, p))
  }

  /** The same for the paths whose first key was already visited. */
  ghost predicate ReportsBelow(a: Tree, b: Tree, visited: set<string>, errors: seq<Path>, warnings: seq<Path>) {
    && Distinct(errors)
    && Distinct(warnings)
    && (forall p :: p in errors <==> |p| > 0 && p[0] in visited && ConflictAt(a, b, p))
    && (forall p :: p in warnings <==> |p| > 0 && p[0] in visited && RepeatAt(a, b, p))
  }

  /** The merged entries, once the shared keys outside left were merged. */
  ghost predicate MergedExcept(a: Tree, b: Tree, left: set<string>, entries: map<string, Tree>)
    requires a.Node? && b.Node?
  {
    && entries.Keys == a.entries.Keys + b.entries.Keys
    && forall k | k in entries ::
      if k !in a.entries then entries[k] == b.entries[k]
      else if k !in b.entries || k in left then entries[k] == a.entries[k]
      else entries[k] == Merged(a.entries[k], b.entries[k])
  }

  lemma NothingReported(a: Tree, b: Tree)
    ensures ReportsBelow(a, b, {}, [], [])
  {
  }

  lemma MergedOne(a: Tree, b: Tree, left: set<string>, key: string, entries: map<string, Tree>, sub: Tree)
    requires a.Node? && b.Node? && MergedExcept(a, b, left, entries) && key in a.entries && key in b.entries
    requires sub == Merged(a.entries[key], b.entries[key])
    ensures MergedExcept(a, b, left - {key}, entries[key := sub])
  {
  }

  lemma AllMerged(a: Tree, b: Tree, entries: map<string, Tree>)
    requires a.Node? && b.Node? && MergedExcept(a, b, {}, entries)
    ensures Node(entries) == Merged(a, b)
  {
    assert entries == Merged(a, b).entries;
  }

  lemma LeafReports(a: Tree, b: Tree, errors: seq<Path>, warnings: seq<Path>)
    requires a.Leaf? || b.Leaf?
    requires errors == (if a == b then [] else [[]]) && warnings == if a == b then [[]] else []
    ensures Reports(a, b, errors, warnings)
  {
    assert forall p :: p in errors <==> p == [] && a != b;
    assert forall p :: p in warnings <==> p == [] && a == b;
  }

  lemma AllReported(a: Tree, b: Tree, errors: seq<Path>, warnings: seq<Path>)
    requires a.Node? && b.Node?
    requires ReportsBelow(a, b, a.entries.Keys * b.entries.Keys, errors, warnings)
    ensures Reports(a, b, errors, warnings)
  {
  }

  lemma ReportKey(a: Tree, b: Tree, visited: set<string>, key: string, errors: seq<Path>, warnings: seq<Path>,
                  subErrors: seq<Path>, subWarnings: seq<Path>)
    requires a.Node? && b.Node? && key in a.entries && key in b.entries && key !in visited
    requires ReportsBelow(a, b, visited, errors, warnings)
    requires Reports(a.entries[key], b.entries[key], subErrors, subWarnings)
    ensures ReportsBelow(a, b, visited + {key}, errors + Below(key, subErrors), warnings + Below(key, subWarnings))
  {
    ReportedBelow(a, b, visited, key, errors, subErrors);
    RepeatedBelow(a, b, visited, key, warnings, subWarnings);
  }

  lemma ReportedBelow(a: Tree, b: Tree, visited: set<string>, key: string, errors: seq<Path>, sub: seq<Path>)
    requires a.Node? && b.Node? && key in a.entries && key in b.entries && key !in visited
    requires Distinct(errors) && Distinct(sub)
    requires forall p :: p in errors <==> |p| > 0 && p[0] in visited && ConflictAt(a, b, p)
    requires forall p :: p in sub <==> ConflictAt(a.entries[key], b.entries[key], p)
    ensures Distinct(errors + Below(key, sub))
    ensures forall p :: p in errors + Below(key, sub) <==> |p| > 0 && p[0] in visited + {key} && ConflictAt(a, b, p)
  {
    hide Below, Distinct;
    BelowIn(key, sub);
    BelowFresh(key, errors, sub);
  }

  lemma RepeatedBelow(a: Tree, b: Tree, visited: set<string>, key: string, warnings: seq<Path>, sub: seq<Path>)
    requires a.Node? && b.Node? && key in a.entries && key in b.entries && key !in visited
    requires Distinct(warnings) && Distinct(sub)
    requires forall p :: p in warnings <==> |p| > 0 && p[0] in visited && RepeatAt(a, b, p)
    requires forall p :: p in sub <==> RepeatAt(a.entries[key], b.entries[key], p)
    ensures Distinct(warnings + Below(key, sub))
    ensures forall p :: p in warnings + Below(key, sub) <==> |p| > 0 && p[0] in visited + {key} && RepeatAt(a, b, p)
  {
    hide Below, Distinct;
    BelowIn(key, sub);
    BelowFresh(key, warnings, sub);
  }

  lemma BelowIn(key: string, paths: seq<Path>)
    ensures forall p :: p in Below(key, paths) <==> |p| > 0 && p[0] == key && p[1..] in paths
  {
    forall p ensures p in Below(key, paths) <==> |p| > 0 && p[0] == key && p[1..] in paths {
      if p in Below(key, paths) {
        var i :| 0 <= i < |paths| && p == [key] + paths[i];
        assert p[1..] == paths[i];
      }
      if |p| > 0 && p[0] == key && p[1..] in paths {
        var i :| 0 <= i < |paths| && p[1..] == paths[i];
        assert Below(key, paths)[i] == p;
      }
    }
  }

  lemma BelowFresh(key: string, paths: seq<Path>, sub: seq<Path>)
    requires Distinct(paths) && Distinct(sub)
    requires forall p | p in paths :: |p| > 0 && p[0] != key
    ensures Distinct(paths + Below(key, sub))
  {
    var all := paths + Below(key, sub);
    forall i, j | 0 <= i < j < |all| ensures all[i] != all[j] {
      if i < |paths| {
        assert paths[i] in paths;
      } else {
        assert all[i][1..] == sub[i - |paths|] && all[j][1..] == sub[j - |paths|];
      }
    }
  }
}
