/** Configuration inheritance: recursive merging, and resolving a chain of parents. */
module ConfigLoader {
  import opened Ordering
  import opened Wrappers

  /** A YAML value: null, a string, a mapping, or anything else (a number, a list) kept whole. */
  datatype Value = Null | Str(text: string) | Other(yaml: string) | Mapping(entries: map<string, Value>)

  type Config = map<string, Value>

  // ---------------------------------------------------------------- deep_merge

  /** Mappings merge key by key; anything else in delta replaces what base has. */
  function Merge(base: Value, delta: Value): Value
    decreases delta
  {
    if base.Mapping? && delta.Mapping? then
      Mapping(map k | k in base.entries.Keys + delta.entries.Keys ::
                if k !in delta.entries then base.entries[k]
                else if k !in base.entries then delta.entries[k]
                else Merge(base.entries[k], delta.entries[k]))
    else delta
  }

  function MergeConfigs(base: Config, delta: Config): Config {
    Merge(Mapping(base), Mapping(delta)).entries
  }

  lemma MergedInside(base: Value, delta: Value)
    ensures Merge(base, delta)
            == if base.Mapping? && delta.Mapping? then Mapping(MergeConfigs(base.entries, delta.entries)) else delta
  {
  }

  /** What two mappings merge to under one key. */
  lemma MergedUnder(base: Value, delta: Value, k: string)
    requires base.Mapping? && delta.Mapping?
    ensures Merge(base, delta).Mapping?
    ensures k in Merge(base, delta).entries <==> k in base.entries || k in delta.entries
    ensures k in Merge(base, delta).entries ==>
              Merge(base, delta).entries[k]
              == if k !in delta.entries then base.entries[k]
                 else if k !in base.entries then delta.entries[k]
                 else Merge(base.entries[k], delta.entries[k])
  {
  }

  lemma MergedAt(base: Config, delta: Config, k: string)
    requires k in delta
    ensures k in MergeConfigs(base, delta)
    ensures MergeConfigs(base, delta)[k]
            == if k in base && base[k].Mapping? && delta[k].Mapping? then Mapping(MergeConfigs(base[k].entries, delta[k].entries))
               else delta[k]
  {
    if k in base {
      MergedUnder(Mapping(base), Mapping(delta), k);
      MergedInside(base[k], delta[k]);
    }
  }

  lemma MergedKeys(base: Config, delta: Config)
    ensures MergeConfigs(base, delta).Keys == base.Keys + delta.Keys
    ensures forall k :: k in base && k !in delta ==> MergeConfigs(base, delta)[k] == base[k]
  {
  }

  method DeepMerge(base: Config, delta: Config) returns (merged: Config)
    ensures merged == MergeConfigs(base, delta)
    decreases Mapping(delta)
  {
    MergedKeys(base, delta);
    hide MergeConfigs;
    merged := base;
    var todo := delta.Keys;
    while todo != {}
      invariant todo <= delta.Keys
      invariant merged.Keys == base.Keys + (delta.Keys - todo)
      invariant forall k :: k in merged ==>
                  merged[k] == if k in delta.Keys - todo then MergeConfigs(base, delta)[k] else base[k]
    {
      var k :| k in todo;
      MergedAt(base, delta, k);
      var existing := if k in merged then merged[k] else Null;
      if existing.Mapping? && delta[k].Mapping? {
        var inner := DeepMerge(existing.entries, delta[k].entries);
        merged := merged[k := Mapping(inner)];
      } else {
        merged := merged[k := delta[k]];
      }
      todo := todo - {k};
    }
    assert merged == MergeConfigs(base, delta);
  }

  // ---------------------------------------------------------------- what merging means

  type Path = seq<string>

  /** The value that is not a mapping at the end of a path of keys, if there is one. */
  function LeafAt(v: Value, path: Path): Option<Value> {
    if !v.Mapping? then (if path == [] then Some(v) else None)
    else if path != [] && path[0] in v.entries then LeafAt(v.entries[path[0]], path[1..])
    else None
  }

  /** Whether delta says something about the path that shuts out base: a leaf on the way, or a mapping at its end. */
  predicate Overrides(delta: Value, path: Path) {
    if !delta.Mapping? then true
    else if path == [] then true
    else path[0] in delta.entries && Overrides(delta.entries[path[0]], path[1..])
  }

  lemma {:induction false} SilentMeansNoLeaf(delta: Value, path: Path)
    requires !Overrides(delta, path)
    ensures path != [] && LeafAt(delta, path) == None
    decreases path
  {
    if path[0] in delta.entries {
      SilentMeansNoLeaf(delta.entries[path[0]], path[1..]);
    }
  }

  /** Leaf by leaf, delta wins wherever it speaks, and base is kept wherever it does not. */
  lemma {:induction false} MergeLeaves(base: Value, delta: Value, path: Path)
    ensures LeafAt(Merge(base, delta), path) == if Overrides(delta, path) then LeafAt(delta, path) else LeafAt(base, path)
    decreases path
  {
    if base.Mapping? && delta.Mapping? && path != [] && path[0] in base.entries && path[0] in delta.entries {
      MergeLeaves(base.entries[path[0]], delta.entries[path[0]], path[1..]);
    } else if !Overrides(delta, path) {
      SilentMeansNoLeaf(delta, path);
    }
  }

  /** Merging the same delta again changes nothing, at any depth. */
  lemma {:induction false} MergeIdempotent(base: Value, delta: Value)
    ensures Merge(Merge(base, delta), delta) == Merge(base, delta)
    decreases delta
  {
    if base.Mapping? && delta.Mapping? {
      var once := Merge(base, delta);
      var twice := Merge(once, delta);
      forall k | k in once.entries ensures twice.entries[k] == once.entries[k] {
        if k in delta.entries && k in base.entries {
          MergeIdempotent(base.entries[k], delta.entries[k]);
        } else if k in delta.entries {
          MergeWithItself(delta.entries[k]);
        }
      }
      assert twice.entries == once.entries;
    } else if delta.Mapping? {
      MergeWithItself(delta);
    }
  }

  lemma {:induction false} MergeWithItself(v: Value)
    ensures Merge(v, v) == v
  {
    if v.Mapping? {
      forall k | k in v.entries ensures Merge(v, v).entries[k] == v.entries[k] {
        MergeWithItself(v.entries[k]);
      }
      assert Merge(v, v).entries == v.entries;
    }
  }

  // ---------------------------------------------------------------- when merging is associative

  /** Every key of a is one of c, at every depth where both are mappings. */
  predicate Covers(c: Value, a: Value)
    decreases a
  {
    a.Mapping? && c.Mapping? ==> forall k :: k in a.entries ==> k in c.entries && Covers(c.entries[k], a.entries[k])
  }

  lemma {:induction false} CoversIff(a: Value, c: Value)
    ensures Merge(a, c) == c <==> Covers(c, a)
    decreases a
  {
    if a.Mapping? && c.Mapping? {
      forall k | k in a.entries && k in c.entries
        ensures Merge(a.entries[k], c.entries[k]) == c.entries[k] <==> Covers(c.entries[k], a.entries[k])
      {
        CoversIff(a.entries[k], c.entries[k]);
      }
      if Covers(c, a) {
        assert Merge(a, c).entries == c.entries;
      } else {
        var k :| k in a.entries && !(k in c.entries && Covers(c.entries[k], a.entries[k]));
        assert k in Merge(a, c).entries;
      }
    }
  }

  /** Nowhere does b hold a leaf between a mapping of a and a mapping of c that leaves out one of a's keys. */
  predicate NothingResurfaces(a: Value, b: Value, c: Value)
    decreases b
  {
    a.Mapping? && c.Mapping? ==>
      if !b.Mapping? then Covers(c, a)
      else forall k :: k in a.entries && k in b.entries && k in c.entries ==>
             NothingResurfaces(a.entries[k], b.entries[k], c.entries[k])
  }

  /** Merging is associative exactly where no key of a resurfaces through a leaf of b. */
  lemma {:induction false} MergeAssociativeIff(a: Value, b: Value, c: Value)
    ensures Merge(Merge(a, b), c) == Merge(a, Merge(b, c)) <==> NothingResurfaces(a, b, c)
    decreases b
  {
    if a.Mapping? && c.Mapping? {
      if !b.Mapping? {
        CoversIff(a, c);
      } else {
        MappingsAssociate(a, b, c);
        forall k | k in a.entries && k in b.entries && k in c.entries
          ensures Merge(Merge(a.entries[k], b.entries[k]), c.entries[k]) == Merge(a.entries[k], Merge(b.entries[k], c.entries[k]))
                  <==> NothingResurfaces(a.entries[k], b.entries[k], c.entries[k])
        {
          MergeAssociativeIff(a.entries[k], b.entries[k], c.entries[k]);
        }
      }
    }
  }

  /** The three values at key k associate, where all three mappings have it. */
  predicate AssociatesAt(a: Value, b: Value, c: Value, k: string)
    requires a.Mapping? && b.Mapping? && c.Mapping?
  {
    k in a.entries && k in b.entries && k in c.entries ==>
      Merge(Merge(a.entries[k], b.entries[k]), c.entries[k]) == Merge(a.entries[k], Merge(b.entries[k], c.entries[k]))
  }

  /** Three mappings associate exactly if the values under every common key do. */
  lemma MappingsAssociate(a: Value, b: Value, c: Value)
    requires a.Mapping? && b.Mapping? && c.Mapping?
    ensures Merge(Merge(a, b), c) == Merge(a, Merge(b, c)) <==> forall k :: k in a.entries ==> AssociatesAt(a, b, c, k)
  {
    hide Merge, AssociatesAt;
    var left, right := Merge(Merge(a, b), c), Merge(a, Merge(b, c));
    EntryAssociates(a, b, c, "");
    forall k
      ensures k in left.entries <==> k in right.entries
      ensures k in left.entries ==> (left.entries[k] == right.entries[k] <==> AssociatesAt(a, b, c, k))
      ensures AssociatesAt(a, b, c, k) || k in a.entries
    {
      EntryAssociates(a, b, c, k);
    }
    if forall k :: k in a.entries ==> AssociatesAt(a, b, c, k) {
      assert left.entries == right.entries;
    } else {
      var k :| k in a.entries && !AssociatesAt(a, b, c, k);
      EntryAssociates(a, b, c, k);
    }
  }

  /** Either way of merging three mappings gives one key the same value exactly if the three values there associate. */
  lemma EntryAssociates(a: Value, b: Value, c: Value, k: string)
    requires a.Mapping? && b.Mapping? && c.Mapping?
    ensures Merge(Merge(a, b), c).Mapping? && Merge(a, Merge(b, c)).Mapping?
    ensures var left, right := Merge(Merge(a, b), c).entries, Merge(a, Merge(b, c)).entries;
            && (k in left <==> k in right)
            && (k in left <==> k in a.entries || k in b.entries || k in c.entries)
            && (k in left ==> (left[k] == right[k] <==> AssociatesAt(a, b, c, k)))
    ensures AssociatesAt(a, b, c, k) || (k in a.entries && k in b.entries && k in c.entries)
  {
    hide Merge;
    MergedUnder(a, b, k);
    MergedUnder(b, c, k);
    MergedUnder(Merge(a, b), c, k);
    MergedUnder(a, Merge(b, c), k);
  }

  /** A scalar between two mappings: merging in the other order brings a key of the first one back. */
  lemma MergeIsNotAssociative() returns (a: Value, b: Value, c: Value)
    ensures Merge(Merge(a, b), c) != Merge(a, Merge(b, c))
  {
    a, b, c := Mapping(map["x" := Null]), Null, Mapping(map[]);
    assert "x" in Merge(a, c).entries;
  }

  // ---------------------------------------------------------------- resolving the chain

  datatype LoadError = InheritsNotString | Cycle(id: string) | Gap(id: string) | Unreadable(id: string)

  const INHERITS := "inherits"

  /** data.get("inherits") */
  function Inherits(data: Config): Value {
    if INHERITS in data then data[INHERITS] else Null
  }

  /** Resolves the parent first, then merges the child over it. */
  function Resolve(data: Config, parents: map<string, Config>, seen: set<string>): Result<Config, LoadError>
    decreases |parents.Keys - seen|
  {
    match Inherits(data)
    case Null => Success(data)
    case Str(id) =>
      if id in seen then Failure(Cycle(id))
      else if id !in parents then Failure(Gap(id))
      else
        Shrinks(parents.Keys, seen, id);
        (match Resolve(parents[id], parents, seen + {id})
         case Failure(e) => Failure(e)
         case Success(parent) => Success(MergeConfigs(parent, data)))
    case _ => Failure(InheritsNotString)
  }

  lemma Shrinks(all: set<string>, seen: set<string>, id: string)
    requires id in all && id !in seen
    ensures |all - (seen + {id})| < |all - seen|
  {
    assert all - (seen + {id}) == all - seen - {id};
  }

  // ---------------------------------------------------------------- chains of ancestors

  /** The last ancestor of a chain, or the configuration itself when the chain is empty. */
  function Top(data: Config, parents: map<string, Config>, chain: seq<string>): Config
    requires forall i :: 0 <= i < |chain| ==> chain[i] in parents
  {
    if chain == [] then data else parents[chain[|chain| - 1]]
  }

  /** Each id of the chain is the parent named by the one before. */
  ghost predicate Walk(data: Config, parents: map<string, Config>, chain: seq<string>) {
    && (forall i :: 0 <= i < |chain| ==> chain[i] in parents)
    && (forall i :: 0 <= i < |chain| ==> Inherits(Top(data, parents, chain[..i])) == Str(chain[i]))
  }

  function Members(chain: seq<string>): set<string> {
    set i | 0 <= i < |chain| :: chain[i]
  }

  /** Merges down a chain: the resolved top, under each of its descendants in turn, ending with data. */
  function MergeDown(top: Config, data: Config, parents: map<string, Config>, chain: seq<string>): Config
    requires forall i :: 0 <= i < |chain| ==> chain[i] in parents
    decreases |chain|
  {
    if chain == [] then top else
    var below := chain[..|chain| - 1];
    MergeDown(MergeConfigs(top, Top(data, parents, below)), data, parents, below)
  }

  lemma WalkPrefix(data: Config, parents: map<string, Config>, chain: seq<string>, n: nat)
    requires Walk(data, parents, chain) && n <= |chain|
    ensures Walk(data, parents, chain[..n])
  {
    assert forall i :: 0 <= i < n ==> chain[..n][..i] == chain[..i];
  }

  /** Along a chain without repetition, resolving is resolving its top and merging down. */
  lemma {:induction false} ResolveAlong(data: Config, parents: map<string, Config>, chain: seq<string>)
    requires Walk(data, parents, chain) && Distinct(chain)
    ensures Resolve(data, parents, {})
            == match Resolve(Top(data, parents, chain), parents, Members(chain))
               case Failure(e) => Failure(e)
               case Success(top) => Success(MergeDown(top, data, parents, chain))
    decreases |chain|
  {
    if chain == [] {
      assert Members(chain) == {};
    } else {
      hide MergeConfigs;
      var n := |chain| - 1;
      var below := chain[..n];
      WalkPrefix(data, parents, chain, n);
      ResolveAlong(data, parents, below);
      OneStep(data, parents, chain);
    }
  }

  /** One step of the recursion, at the node below the top. */
  lemma OneStep(data: Config, parents: map<string, Config>, chain: seq<string>)
    requires Walk(data, parents, chain) && Distinct(chain) && chain != []
    ensures Resolve(Top(data, parents, chain[..|chain| - 1]), parents, Members(chain[..|chain| - 1]))
            == match Resolve(Top(data, parents, chain), parents, Members(chain))
               case Failure(e) => Failure(e)
               case Success(top) => Success(MergeConfigs(top, Top(data, parents, chain[..|chain| - 1])))
  {
    hide MergeConfigs;
    var n := |chain| - 1;
    assert Members(chain) == Members(chain[..n]) + {chain[n]};
    assert chain[n] !in Members(chain[..n]);
  }

  /** What a walk that cannot go on without repeating an id says about the outcome. */
  ghost predicate OutcomeAt(data: Config, parents: map<string, Config>, chain: seq<string>) {
    && Walk(data, parents, chain) && Distinct(chain)
    && match Inherits(Top(data, parents, chain))
       case Null => Resolve(data, parents, {}) == Success(MergeDown(Top(data, parents, chain), data, parents, chain))
       case Str(id) => if id in chain then Resolve(data, parents, {}) == Failure(Cycle(id))
                       else id !in parents && Resolve(data, parents, {}) == Failure(Gap(id))
       case _ => Resolve(data, parents, {}) == Failure(InheritsNotString)
  }

  lemma EndOfWalk(data: Config, parents: map<string, Config>, chain: seq<string>)
    requires Walk(data, parents, chain) && Distinct(chain)
    requires match Inherits(Top(data, parents, chain)) case Str(id) => id in chain || id !in parents case _ => true
    ensures OutcomeAt(data, parents, chain)
  {
    ResolveAlong(data, parents, chain);
    hide MergeDown, Walk, MergeConfigs;
    MembersIff(chain);
  }

  lemma MembersIff(chain: seq<string>)
    ensures forall id :: id in Members(chain) <==> id in chain
  {
  }

  lemma Extend(data: Config, parents: map<string, Config>, chain: seq<string>, id: string)
    requires Walk(data, parents, chain) && Distinct(chain)
    requires Inherits(Top(data, parents, chain)) == Str(id) && id in parents
    ensures Walk(data, parents, chain + [id])
    ensures id !in chain ==> Distinct(chain + [id])
  {
    var longer := chain + [id];
    forall i | 0 <= i < |longer| ensures Inherits(Top(data, parents, longer[..i])) == Str(longer[i]) {
      assert longer[..i] == chain[..i];
      assert i == |chain| ==> chain[..i] == chain;
    }
  }

  lemma {:induction false} WalkOut(data: Config, parents: map<string, Config>, chain: seq<string>) returns (full: seq<string>)
    requires Walk(data, parents, chain) && Distinct(chain)
    ensures OutcomeAt(data, parents, full)
    decreases |parents.Keys - Members(chain)|
  {
    var next := Inherits(Top(data, parents, chain));
    if next.Str? && next.text !in chain && next.text in parents {
      Extend(data, parents, chain, next.text);
      MembersIff(chain);
      Shrinks(parents.Keys, Members(chain), next.text);
      MembersGrow(chain, next.text);
      full := WalkOut(data, parents, chain + [next.text]);
    } else {
      full := chain;
      EndOfWalk(data, parents, chain);
    }
  }

  /**
   * Every parent map resolves one way: up its chain of distinct ancestors to a configuration
   * without a parent, whose descendants are merged over it in turn, or to the first repeated,
   * missing or malformed parent.
   */
  lemma ResolveOutcome(data: Config, parents: map<string, Config>) returns (chain: seq<string>)
    ensures OutcomeAt(data, parents, chain)
  {
    chain := WalkOut(data, parents, []);
  }

  // ---------------------------------------------------------------- cycles

  lemma NextOnWalk(data: Config, parents: map<string, Config>, walk: seq<string>, n: nat)
    requires Walk(data, parents, walk) && n < |walk|
    ensures forall i :: 0 <= i < n ==> walk[i] in parents
    ensures Inherits(Top(data, parents, walk[..n])) == Str(walk[n])
  {
  }

  /** There is one way up. */
  lemma {:induction false} WalksAgree(data: Config, parents: map<string, Config>, a: seq<string>, b: seq<string>)
    requires Walk(data, parents, a) && Walk(data, parents, b) && |a| <= |b|
    ensures a == b[..|a|]
    decreases |a|
  {
    if a != [] {
      var n := |a| - 1;
      WalkPrefix(data, parents, a, n);
      NextOnWalk(data, parents, a, n);
      NextOnWalk(data, parents, b, n);
      hide Walk, Inherits;
      WalksAgree(data, parents, a[..n], b);
      assert a[..n] == b[..n];
      OneLonger(a, b, n);
    }
  }

  lemma OneLonger(a: seq<string>, b: seq<string>, n: nat)
    requires |a| == n + 1 <= |b| && a[..n] == b[..n] && a[n] == b[n]
    ensures a == b[..n + 1]
  {
    assert a == a[..n] + [a[n]] && b[..n + 1] == b[..n] + [b[n]];
  }

  lemma PrefixDistinct(chain: seq<string>, n: nat)
    requires Distinct(chain) && n <= |chain|
    ensures Distinct(chain[..n])
  {
  }

  /** A chain that comes back to one of its ids is always refused as a cycle. */
  lemma CyclesAreRefused(data: Config, parents: map<string, Config>, walk: seq<string>, i: nat, j: nat)
    requires Walk(data, parents, walk) && i < j < |walk| && walk[i] == walk[j]
    ensures Resolve(data, parents, {}).Failure? && Resolve(data, parents, {}).error.Cycle?
  {
    var chain := ResolveOutcome(data, parents);
    hide Resolve, MergeDown;
    assert !Distinct(walk);
    if |walk| <= |chain| {
      PrefixDistinct(chain, |walk|);
      WalksAgree(data, parents, walk, chain);
      assert false;
    } else {
      WalksAgree(data, parents, chain, walk);
      assert Inherits(Top(data, parents, walk[..|chain|])) == Str(walk[|chain|]);
    }
  }

  /** Only a chain that comes back to one of its ids is refused as a cycle. */
  lemma OnlyCyclesAreRefusedAsCycles(data: Config, parents: map<string, Config>) returns (walk: seq<string>)
    requires Resolve(data, parents, {}).Failure? && Resolve(data, parents, {}).error.Cycle?
    ensures Walk(data, parents, walk) && !Distinct(walk)
  {
    var chain := ResolveOutcome(data, parents);
    hide Resolve, MergeDown;
    var id := Inherits(Top(data, parents, chain)).text;
    Extend(data, parents, chain, id);
    var i :| 0 <= i < |chain| && chain[i] == id;
    walk := chain + [id];
    assert walk[i] == walk[|chain|];
  }

  // ---------------------------------------------------------------- load_version_spec

  /** Loading reads each parent's file; a missing file is refused as unreadable. */
  function Loaded(data: Config, files: map<string, Config>): Result<Config, LoadError> {
    match Resolve(data, files, {})
    case Failure(Gap(id)) => Failure(Unreadable(id))
    case r => r
  }

  lemma {:induction false} MergeDownAgrees(
      top: Config, data: Config, files: map<string, Config>, parents: map<string, Config>, chain: seq<string>)
    requires forall i :: 0 <= i < |chain| ==> chain[i] in files && chain[i] in parents && files[chain[i]] == parents[chain[i]]
    ensures MergeDown(top, data, files, chain) == MergeDown(top, data, parents, chain)
    decreases |chain|
  {
    if chain != [] {
      var below := chain[..|chain| - 1];
      MergeDownAgrees(MergeConfigs(top, Top(data, files, below)), data, files, parents, below);
    }
  }

  /** The loop's state: the chain walked so far, and its parents. */
  ghost predicate Gathered(
      data: Config, files: map<string, Config>, parents: map<string, Config>, seen: set<string>, current: Config, chain: seq<string>)
  {
    && Walk(data, files, chain) && Distinct(chain)
    && seen == Members(chain) && parents.Keys == seen
    && (forall id :: id in parents ==> id in files && parents[id] == files[id])
    && current == Top(data, files, chain)
  }

  lemma GatherOne(
      data: Config, files: map<string, Config>, parents: map<string, Config>, seen: set<string>, current: Config, chain: seq<string>,
      id: string)
    requires Gathered(data, files, parents, seen, current, chain)
    requires Inherits(current) == Str(id) && id !in seen && id in files
    ensures Gathered(data, files, parents[id := files[id]], seen + {id}, files[id], chain + [id])
  {
    hide Walk, Distinct, Inherits, Members, Top;
    MembersIff(chain);
    Extend(data, files, chain, id);
    MembersGrow(chain, id);
    TopExtended(data, files, chain, id);
  }

  lemma MembersGrow(chain: seq<string>, id: string)
    ensures Members(chain + [id]) == Members(chain) + {id}
  {
    hide Members;
    MembersIff(chain);
    MembersIff(chain + [id]);
  }

  lemma TopExtended(data: Config, parents: map<string, Config>, chain: seq<string>, id: string)
    requires Walk(data, parents, chain + [id])
    ensures id in parents && Top(data, parents, chain + [id]) == parents[id]
  {
    assert (chain + [id])[|chain|] == id;
  }

  /** What ends the loop decides what loading returns. */
  lemma LoopEnds(
      data: Config, files: map<string, Config>, parents: map<string, Config>, seen: set<string>, current: Config, chain: seq<string>)
    requires Gathered(data, files, parents, seen, current, chain)
    ensures match Inherits(current)
            case Null => Resolve(data, parents, {}).Success? && Resolve(data, parents, {}) == Loaded(data, files)
            case Str(id) => (id in seen ==> Loaded(data, files) == Failure(Cycle(id)))
                            && (id !in seen && id !in files ==> Loaded(data, files) == Failure(Unreadable(id)))
            case _ => Loaded(data, files) == Failure(InheritsNotString)
  {
    hide Resolve, MergeDown, Distinct;
    MembersIff(chain);
    var next := Inherits(current);
    if !next.Str? || next.text in chain || next.text !in files {
      EndOfWalk(data, files, chain);
    }
    if next.Null? {
      GatheredWalk(data, files, parents, seen, current, chain);
      EndOfWalk(data, parents, chain);
      MergeDownAgrees(current, data, files, parents, chain);
    }
  }

  lemma GatheredWalk(
      data: Config, files: map<string, Config>, parents: map<string, Config>, seen: set<string>, current: Config, chain: seq<string>)
    requires Gathered(data, files, parents, seen, current, chain)
    ensures Walk(data, parents, chain) && Top(data, parents, chain) == current
    ensures forall i :: 0 <= i < |chain| ==> chain[i] in parents && files[chain[i]] == parents[chain[i]]
  {
    hide Inherits, Distinct;
    MembersIff(chain);
    hide Members;
    forall i | 0 <= i < |chain| ensures chain[i] in parents {
      assert chain[i] in chain;
    }
    forall i | 0 <= i <= |chain| ensures Top(data, parents, chain[..i]) == Top(data, files, chain[..i]) {
      TopAgrees(data, files, parents, chain[..i]);
    }
    assert chain[..|chain|] == chain;
  }

  lemma TopAgrees(data: Config, files: map<string, Config>, parents: map<string, Config>, chain: seq<string>)
    requires forall i :: 0 <= i < |chain| ==> chain[i] in files && chain[i] in parents && files[chain[i]] == parents[chain[i]]
    ensures Top(data, files, chain) == Top(data, parents, chain)
  {
  }

  /**
   * Gathers the parents by following the chain, and resolves. The gathered parents are enough:
   * resolving them never meets a gap or a cycle, and gives what resolving against the whole
   * directory would.
   */
  method LoadVersionSpec(data: Config, files: map<string, Config>) returns (res: Result<Config, LoadError>)
    ensures res == Loaded(data, files)
  {
    hide Resolve, Gathered, Loaded;
    var parents: map<string, Config> := map[];
    var seen: set<string> := {};
    var current := data;
    ghost var chain: seq<string> := [];
    assert Gathered(data, files, parents, seen, current, chain) by { NothingGathered(data, files); }
    while true
      invariant Gathered(data, files, parents, seen, current, chain)
      invariant seen <= files.Keys
      decreases |files.Keys - seen|
    {
      LoopEnds(data, files, parents, seen, current, chain);
      match Inherits(current) {
        case Null => break;
        case Str(id) =>
          if id in seen {
            return Failure(Cycle(id));
          }
          if id !in files {
            return Failure(Unreadable(id));
          }
          GatherOne(data, files, parents, seen, current, chain, id);
          Shrinks(files.Keys, seen, id);
          seen := seen + {id};
          parents := parents[id := files[id]];
          current := files[id];
          chain := chain + [id];
        case _ => return Failure(InheritsNotString);
      }
    }
    res := Resolve(data, parents, {});
  }

  lemma NothingGathered(data: Config, files: map<string, Config>)
    ensures Gathered(data, files, map[], {}, data, [])
  {
  }

  // ---------------------------------------------------------------- the child wins

  /** Whatever a configuration sets itself, at any depth, is what its resolved form has. */
  lemma ChildWins(data: Config, parents: map<string, Config>, path: Path)
    requires Resolve(data, parents, {}).Success? && Overrides(Mapping(data), path)
    ensures LeafAt(Mapping(Resolve(data, parents, {}).value), path) == LeafAt(Mapping(data), path)
  {
    hide Overrides, LeafAt;
    match Inherits(data)
    case Null =>
    case Str(id) =>
      assert {} + {id} == {id};
      assert Resolve(parents[id], parents, {id}).Success?;
      var parent := Resolve(parents[id], parents, {id}).value;
      assert Resolve(data, parents, {}) == Success(MergeConfigs(parent, data));
      MergeLeaves(Mapping(parent), Mapping(data), path);
  }
}
