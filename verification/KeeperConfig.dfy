/** Keeper configuration: the deep merge of TOML tables and the include chain that feeds it. */
module KeeperConfig {
  import opened Lists

  // Strings are told apart from the other scalars because only a string can name a base file.
  datatype Toml = Text(s: string) | Scalar(literal: string) | Table(entries: map<string, Toml>)

  type Dict = map<string, Toml>

  // ---- the merge ----

  function Merge(base: Toml, overlay: Toml): Toml
    decreases overlay
  {
    if base.Table? && overlay.Table? then
      Table(base.entries +
            map k | k in overlay.entries ::
              if k in base.entries then Merge(base.entries[k], overlay.entries[k]) else overlay.entries[k])
    else overlay
  }

  // What key has in the merge, if the overlay has it.
  function Merged(base: Dict, overlay: Dict, key: string): Toml
    requires key in overlay
  {
    if key in base then Merge(base[key], overlay[key]) else overlay[key]
  }

  // A copy of the base in which every key of the overlay but those in rest has been updated.
  ghost predicate Updated(copy: Dict, base: Dict, overlay: Dict, rest: set<string>) {
    && copy.Keys == base.Keys + (overlay.Keys - rest)
    && forall k :: k in copy ==> copy[k] == if k in overlay && k !in rest then Merged(base, overlay, k) else base[k]
  }

  lemma NothingUpdated(base: Dict, overlay: Dict)
    ensures Updated(base, base, overlay, overlay.Keys)
  {
  }

  lemma OneUpdated(copy: Dict, base: Dict, overlay: Dict, rest: set<string>, key: string)
    requires Updated(copy, base, overlay, rest) && rest <= overlay.Keys && key in rest
    ensures Updated(copy[key := Merged(base, overlay, key)], base, overlay, rest - {key})
    ensures key in copy <==> key in base
    ensures key in base ==> copy[key] == base[key]
  {
    hide Merged;
  }

  lemma AllUpdated(copy: Dict, base: Dict, overlay: Dict)
    requires Updated(copy, base, overlay, {})
    ensures Table(copy) == Merge(Table(base), Table(overlay))
  {
    var goal := Merge(Table(base), Table(overlay)).entries;
    assert copy.Keys == goal.Keys;
    assert forall k :: k in goal ==> goal[k] == copy[k];
  }

  /** merge_dicts: a copy of the base, updated key by key. */
  method MergeDicts(base: Dict, overlay: Dict) returns (merged: Dict)
    ensures Table(merged) == Merge(Table(base), Table(overlay))
    decreases Table(overlay)
  {
    hide Updated, Merge;
    merged := base;
    var rest := overlay.Keys;
    NothingUpdated(base, overlay);
    while rest != {}
      invariant rest <= overlay.Keys && Updated(merged, base, overlay, rest)
    {
      var key :| key in rest;
      var value := overlay[key];
      OneUpdated(merged, base, overlay, rest, key);
      if value.Table? && key in merged && merged[key].Table? {
        assert Table(overlay).entries[key] == value;
        var inner := MergeDicts(merged[key].entries, value.entries);
        merged := merged[key := Table(inner)];
      } else {
        OverlayWins(base, value, key);
        merged := merged[key := value];
      }
      rest := rest - {key};
    }
    AllUpdated(merged, base, overlay);
  }

  lemma OverlayWins(base: Dict, value: Toml, key: string)
    ensures key in base && !(base[key].Table? && value.Table?) ==> Merge(base[key], value) == value
  {
  }

  // The scalar a path of keys leads to, if it leads to one.
  function Leaf(t: Toml, path: seq<string>): Option<Toml> {
    if path == [] then (if t.Table? then None else Some(t))
    else if t.Table? && path[0] in t.entries then Leaf(t.entries[path[0]], path[1..])
    else None
  }

  // The path, or the part of it t has, ends at something in t: a node, or a scalar on the way.
  predicate Occupies(t: Toml, path: seq<string>) {
    path == [] || !t.Table? || (path[0] in t.entries && Occupies(t.entries[path[0]], path[1..]))
  }

  // The merge, path by path: the overlay's scalars, and the base's wherever the overlay has nothing.
  lemma {:induction false} LeafOfMerge(base: Toml, overlay: Toml, path: seq<string>)
    requires base.Table? && overlay.Table?
    ensures Leaf(Merge(base, overlay), path) ==
            if Occupies(overlay, path) then Leaf(overlay, path) else Leaf(base, path)
    decreases path
  {
    if path != [] && path[0] in overlay.entries {
      var o, rest := overlay.entries[path[0]], path[1..];
      if !Occupies(o, rest) {
        UnoccupiedHasNoLeaf(o, rest);
      }
      if path[0] in base.entries {
        var b := base.entries[path[0]];
        assert Merge(base, overlay).entries[path[0]] == Merge(b, o);
        if b.Table? && o.Table? {
          LeafOfMerge(b, o, rest);
        }
      }
    }
  }

  lemma {:induction false} UnoccupiedHasNoLeaf(o: Toml, path: seq<string>)
    requires !Occupies(o, path)
    ensures Leaf(o, path) == None
    decreases path
  {
    if path[0] in o.entries {
      UnoccupiedHasNoLeaf(o.entries[path[0]], path[1..]);
    }
  }

  // The empty table is a unit on both sides.
  lemma MergeUnit(t: Toml)
    requires t.Table?
    ensures Merge(Table(map[]), t) == t && Merge(t, Table(map[])) == t
  {
  }

  /** No other table is a unit on either side. */
  lemma OnlyEmptyIsUnit(u: Toml)
    requires u.Table?
    ensures (forall t: Toml :: t.Table? ==> Merge(u, t) == t) <==> u == Table(map[])
    ensures (forall t: Toml :: t.Table? ==> Merge(t, u) == t) <==> u == Table(map[])
  {
    hide Merge;
    MergeUnit(u);
    forall t: Toml | t.Table?
      ensures Merge(Table(map[]), t) == t && Merge(t, Table(map[])) == t
    {
      MergeUnit(t);
    }
  }

  // The overlay says everything the base says.
  predicate Covered(base: Toml, overlay: Toml)
    decreases overlay
  {
    base.Table? && overlay.Table? ==>
      forall k :: k in base.entries ==> k in overlay.entries && Covered(base.entries[k], overlay.entries[k])
  }

  lemma {:induction false} CoveredIsAbsorbed(base: Toml, overlay: Toml)
    ensures Merge(base, overlay) == overlay <==> Covered(base, overlay)
    decreases overlay
  {
    if base.Table? && overlay.Table? {
      var m := Merge(base, overlay).entries;
      forall k | k in base.entries && k in overlay.entries
        ensures m[k] == overlay.entries[k] <==> Covered(base.entries[k], overlay.entries[k])
      {
        CoveredIsAbsorbed(base.entries[k], overlay.entries[k]);
      }
      if Covered(base, overlay) {
        assert m == overlay.entries;
      } else {
        var k :| k in base.entries && (k !in overlay.entries || !Covered(base.entries[k], overlay.entries[k]));
        assert k in m;
      }
    }
  }

  lemma {:induction false} CoveredReflexive(t: Toml)
    ensures Covered(t, t)
  {
    if t.Table? {
      forall k | k in t.entries
        ensures Covered(t.entries[k], t.entries[k])
      {
        CoveredReflexive(t.entries[k]);
      }
    }
  }

  // Merging a table with itself changes nothing.
  lemma {:induction false} MergeIdempotent(t: Toml)
    ensures Merge(t, t) == t
  {
    CoveredReflexive(t);
    CoveredIsAbsorbed(t, t);
  }

  // No scalar in b stands between two tables of a and c, unless c covers a there.
  predicate Associates(a: Toml, b: Toml, c: Toml)
    decreases c
  {
    a.Table? && c.Table? ==>
      if !b.Table? then Covered(a, c)
      else forall k :: k in a.entries && k in b.entries && k in c.entries ==>
             Associates(a.entries[k], b.entries[k], c.entries[k])
  }

  // Whether three tables can be merged in either order: exactly under that condition.
  lemma {:induction false} MergeAssociatesExactly(a: Toml, b: Toml, c: Toml)
    ensures Merge(a, Merge(b, c)) == Merge(Merge(a, b), c) <==> Associates(a, b, c)
    decreases c
  {
    if a.Table? && c.Table? {
      if !b.Table? {
        CoveredIsAbsorbed(a, c);
      } else {
        var left, right := Merge(a, Merge(b, c)).entries, Merge(Merge(a, b), c).entries;
        assert left.Keys == right.Keys;
        forall k | k in left
          ensures left[k] == right[k] <==>
                  (k in a.entries && k in b.entries && k in c.entries ==>
                     Associates(a.entries[k], b.entries[k], c.entries[k]))
        {
          if k in a.entries && k in b.entries && k in c.entries {
            MergeAssociatesExactly(a.entries[k], b.entries[k], c.entries[k]);
          }
        }
        if Associates(a, b, c) {
          assert left == right;
        }
      }
    }
  }

  // Tables and scalars never meet at the same path.
  predicate SameShape(a: Toml, b: Toml)
    decreases b
  {
    && (a.Table? <==> b.Table?)
    && (a.Table? && b.Table? ==>
          forall k :: k in a.entries && k in b.entries ==> SameShape(a.entries[k], b.entries[k]))
  }

  lemma {:induction false} SameShapeAssociates(a: Toml, b: Toml, c: Toml)
    requires SameShape(a, b) && SameShape(b, c)
    ensures Associates(a, b, c) && Merge(a, Merge(b, c)) == Merge(Merge(a, b), c)
    decreases c
  {
    if a.Table? && b.Table? && c.Table? {
      forall k | k in a.entries && k in b.entries && k in c.entries
        ensures Associates(a.entries[k], b.entries[k], c.entries[k])
      {
        SameShapeAssociates(a.entries[k], b.entries[k], c.entries[k]);
      }
    }
    MergeAssociatesExactly(a, b, c);
  }

  // A scalar between two tables: merged from the left the base's own entries are lost, from the right
  // they are kept.
  lemma ClashBreaksAssociativity(k: string, a: Toml, scalar: Toml, c: Toml)
    requires a.Table? && !scalar.Table? && c.Table? && !Covered(a, c)
    ensures Merge(Table(map[k := a]), Merge(Table(map[k := scalar]), Table(map[k := c]))) !=
            Merge(Merge(Table(map[k := a]), Table(map[k := scalar])), Table(map[k := c]))
  {
    MergeAssociatesExactly(Table(map[k := a]), Table(map[k := scalar]), Table(map[k := c]));
    assert k in map[k := a] && k in map[k := scalar] && k in map[k := c];
  }

  lemma MergeNotAssociative()
    ensures exists a: Toml, b: Toml, c: Toml ::
              a.Table? && b.Table? && c.Table? && Merge(a, Merge(b, c)) != Merge(Merge(a, b), c)
  {
    hide Merge;
    var x := Table(map["x" := Scalar("1")]);
    assert "x" in x.entries;
    ClashBreaksAssociativity("k", x, Scalar("0"), Table(map[]));
  }

  // ---- the include chain ----

  type Path = string

  // A configuration file, as far as loading looks at it: no keeper table, or one.
  datatype File = NoKeeper | Keeper(table: Dict)

  // The files by resolved path, and how a base name is resolved against the file that names it.
  datatype Disk = Disk(files: map<Path, File>, resolve: (Path, string) -> Path, blank: string -> bool)

  datatype Loaded = Config(table: Dict) | Cyclic | Missing

  // The file a keeper table includes, if it names one with a non-blank string.
  function BaseOf(d: Disk, p: Path): Option<Path> {
    if p in d.files && d.files[p].Keeper? && "base" in d.files[p].table &&
       d.files[p].table["base"].Text? && !d.blank(d.files[p].table["base"].s)
    then Some(d.resolve(p, d.files[p].table["base"].s))
    else None
  }

  function OwnTable(d: Disk, p: Path): Dict
    requires p in d.files
  {
    match d.files[p] case NoKeeper => map[] case Keeper(t) => t
  }

  // ps follows the base links from its first file.
  ghost predicate IsChain(d: Disk, ps: seq<Path>) {
    ps != [] && forall i :: 0 <= i < |ps| - 1 ==> BaseOf(d, ps[i]) == Some(ps[i + 1])
  }

  // The chain's tables merged from its end: each file over everything it includes.
  ghost function Fold(d: Disk, ps: seq<Path>): Toml
    requires ps != [] && forall p :: p in ps ==> p in d.files
  {
    if |ps| == 1 then Table(OwnTable(d, ps[0]))
    else Merge(Fold(d, ps[1..]), Table(OwnTable(d, ps[0])))
  }

  // The file names q as its base: a non-blank string in its keeper table that resolves to q.
  ghost predicate Includes(d: Disk, p: Path, q: Path) {
    && p in d.files && d.files[p].Keeper? && "base" in d.files[p].table
    && exists name :: d.files[p].table["base"] == Text(name) && !d.blank(name) && d.resolve(p, name) == q
  }

  lemma BaseIsInclude(d: Disk, p: Path)
    ensures forall q :: BaseOf(d, p) == Some(q) <==> Includes(d, p, q)
  {
    forall q | Includes(d, p, q)
      ensures BaseOf(d, p) == Some(q)
    {
    }
  }

  // The file's own table has something at the path, or a scalar on the way to it.
  ghost predicate Says(d: Disk, p: Path, path: seq<string>) {
    p in d.files && d.files[p].Keeper? && Occupies(Table(d.files[p].table), path)
  }

  // File k is the first of the chain that says anything there.
  ghost predicate FirstSays(d: Disk, ps: seq<Path>, k: nat, path: seq<string>) {
    k < |ps| && Says(d, ps[k], path) && forall j :: 0 <= j < k ==> !Says(d, ps[j], path)
  }

  /** Path by path: the first file of the chain that has something there decides, and its own table is all it takes. */
  lemma {:induction false} LeafOfFold(d: Disk, ps: seq<Path>, path: seq<string>)
    requires ps != [] && path != [] && forall p :: p in ps ==> p in d.files
    ensures Fold(d, ps).Table?
    ensures forall k: nat :: FirstSays(d, ps, k, path) ==>
              k < |ps| && d.files[ps[k]].Keeper?
              && Leaf(Fold(d, ps), path) == Leaf(Table(d.files[ps[k]].table), path)
    ensures (forall k :: 0 <= k < |ps| ==> !Says(d, ps[k], path)) ==> Leaf(Fold(d, ps), path) == None
  {
    var own := Table(OwnTable(d, ps[0]));
    assert Says(d, ps[0], path) <==> Occupies(own, path);
    if !Occupies(own, path) {
      UnoccupiedHasNoLeaf(own, path);
    }
    if |ps| > 1 {
      var rest := ps[1..];
      LeafOfFold(d, rest, path);
      LeafOfMerge(Fold(d, rest), own, path);
      FirstInRest(d, ps, path);
    }
    hide Merge, Leaf, Occupies;
  }

  lemma FirstInRest(d: Disk, ps: seq<Path>, path: seq<string>)
    requires |ps| > 1
    ensures forall k: nat :: FirstSays(d, ps, k, path) && k > 0 ==> FirstSays(d, ps[1..], k - 1, path)
    ensures forall k: nat :: FirstSays(d, ps, k, path) && k > 0 ==> !Says(d, ps[0], path)
    ensures (forall k :: 0 <= k < |ps| ==> !Says(d, ps[k], path)) ==>
              forall k :: 0 <= k < |ps[1..]| ==> !Says(d, ps[1..][k], path)
  {
    hide Says;
    assert forall j :: 0 <= j < |ps| - 1 ==> ps[1..][j] == ps[j + 1];
  }

  // A whole chain: all its files exist and are different, and the last includes nothing.
  ghost predicate Ends(d: Disk, ps: seq<Path>) {
    && IsChain(d, ps)
    && (forall p :: p in ps ==> p in d.files)
    && (forall i, j :: 0 <= i < j < |ps| ==> ps[i] != ps[j])
    && BaseOf(d, ps[|ps| - 1]) == None
  }

  // The chain comes back to a file it has been to.
  ghost predicate Revisits(d: Disk, ps: seq<Path>) {
    IsChain(d, ps) && exists i, j :: 0 <= i < j < |ps| && ps[i] == ps[j]
  }

  ghost predicate RunsOut(d: Disk, ps: seq<Path>) {
    IsChain(d, ps) && ps[|ps| - 1] !in d.files
  }

  // What the loader's answer says about the chain it followed; seen are the files before it.
  ghost predicate Explains(d: Disk, r: Loaded, ps: seq<Path>, seen: seq<Path>) {
    && ps != []
    && IsChain(d, seen + ps)
    && (r.Config? ==> Ends(d, seen + ps) && (forall p :: p in ps ==> p in d.files) && Table(r.table) == Fold(d, ps))
    && (r.Cyclic? ==> Revisits(d, seen + ps))
    && (r.Missing? ==> RunsOut(d, seen + ps))
  }

  // load_keeper_config: the shared `seen` set grows down the chain; the unseen files shrink.
  method LoadInto(d: Disk, path: Path, seen: set<Path>, ghost before: seq<Path>)
    returns (r: Loaded, ghost ps: seq<Path>)
    requires forall p :: p in seen <==> p in before
    requires seen <= d.files.Keys && IsChain(d, before + [path])
    requires forall i, j :: 0 <= i < j < |before| ==> before[i] != before[j]
    ensures ps != [] && ps[0] == path && Explains(d, r, ps, before)
    decreases d.files.Keys - seen
  {
    ps := [path];
    if path in seen {
      ghost var i :| 0 <= i < |before| && before[i] == path;
      assert (before + ps)[i] == (before + ps)[|before|];
      return Cyclic, ps;
    }
    if path !in d.files {
      return Missing, ps;
    }
    var raw := d.files[path];
    if raw.NoKeeper? {
      return Config(map[]), ps;
    }
    var base := BaseOf(d, path);
    if base.Some? {
      ghost var rest;
      r, rest := LoadInto(d, base.value, seen + {path}, before + [path]);
      ps := [path] + rest;
      assert before + ps == (before + [path]) + rest;
      if r.Config? {
        ghost var table := r.table;
        var merged := MergeDicts(r.table, raw.table);
        assert ps[1..] == rest;
        assert Fold(d, ps) == Merge(Fold(d, rest), Table(raw.table));
        r := Config(merged);
      }
    } else {
      r := Config(raw.table);
    }
  }

  lemma {:induction false} ChainsAgree(d: Disk, ps: seq<Path>, qs: seq<Path>, i: nat)
    requires IsChain(d, ps) && IsChain(d, qs) && ps[0] == qs[0]
    requires i < |ps| && i < |qs|
    ensures ps[i] == qs[i]
  {
    if i > 0 {
      ChainsAgree(d, ps, qs, i - 1);
      assert BaseOf(d, ps[i - 1]) == Some(ps[i]) && BaseOf(d, qs[i - 1]) == Some(qs[i]);
    }
  }

  lemma EndIsLast(d: Disk, qs: seq<Path>, i: nat)
    requires IsChain(d, qs) && i < |qs| && BaseOf(d, qs[i]) == None
    ensures i == |qs| - 1
  {
    if i < |qs| - 1 {
      HasNext(d, qs, i);
    }
  }

  lemma HasNext(d: Disk, qs: seq<Path>, i: nat)
    requires IsChain(d, qs) && i < |qs| - 1
    ensures BaseOf(d, qs[i]) == Some(qs[i + 1])
  {
  }

  // A chain that ends is the whole of every chain from the same file.
  lemma EndedChainIsLongest(d: Disk, ps: seq<Path>, qs: seq<Path>)
    requires IsChain(d, ps) && IsChain(d, qs) && ps[0] == qs[0] && BaseOf(d, ps[|ps| - 1]) == None
    ensures |qs| <= |ps| && qs == ps[..|qs|]
  {
    forall i | 0 <= i < |qs| && i < |ps|
      ensures ps[i] == qs[i]
    {
      ChainsAgree(d, ps, qs, i);
    }
    if |ps| <= |qs| {
      ChainsAgree(d, ps, qs, |ps| - 1);
      EndIsLast(d, qs, |ps| - 1);
    }
  }

  lemma RevisitingNeverEnds(d: Disk, ps: seq<Path>, qs: seq<Path>)
    requires Revisits(d, ps) && IsChain(d, qs) && ps[0] == qs[0]
    ensures !Ends(d, qs) && !RunsOut(d, qs)
  {
    if BaseOf(d, qs[|qs| - 1]) == None {
      EndedChainIsLongest(d, qs, ps);
      var i, j :| 0 <= i < j < |ps| && ps[i] == ps[j];
      assert qs[i] == qs[j];
      if qs[|qs| - 1] !in d.files {
        RepeatComesBack(d, qs, i, j, |qs| - 1);
      }
    }
  }

  // Past a repetition the chain goes round: whatever it meets, it has an include.
  lemma RepeatComesBack(d: Disk, qs: seq<Path>, i: nat, j: nat, k: nat)
    requires IsChain(d, qs) && i < j < |qs| && qs[i] == qs[j] && j <= k < |qs|
    ensures BaseOf(d, qs[k]).Some?
  {
    RoundOnce(d, qs, i, j, k);
    assert BaseOf(d, qs[k - (j - i)]) == Some(qs[k - (j - i) + 1]);
  }

  lemma {:induction false} RoundOnce(d: Disk, qs: seq<Path>, i: nat, j: nat, k: nat)
    requires IsChain(d, qs) && i < j < |qs| && qs[i] == qs[j] && j <= k < |qs|
    ensures k - (j - i) >= 0 && qs[k] == qs[k - (j - i)]
  {
    if k > j {
      RoundOnce(d, qs, i, j, k - 1);
      assert BaseOf(d, qs[k - 1]) == Some(qs[k]);
    }
  }

  // Some chain from the file has the shape.
  ghost predicate ChainRevisits(d: Disk, path: Path) {
    exists ps :: ps != [] && ps[0] == path && Revisits(d, ps)
  }

  ghost predicate ChainRunsOut(d: Disk, path: Path) {
    exists ps :: ps != [] && ps[0] == path && RunsOut(d, ps)
  }

  ghost predicate ChainEnds(d: Disk, path: Path) {
    exists ps :: ps != [] && ps[0] == path && Ends(d, ps)
  }

  /** The top call, with nothing seen. Its three answers are exactly the three shapes a chain can have. */
  method LoadKeeperConfig(d: Disk, path: Path) returns (r: Loaded)
    ensures r.Cyclic? <==> ChainRevisits(d, path)
    ensures r.Missing? <==> ChainRunsOut(d, path)
    ensures r.Config? <==> ChainEnds(d, path)
    ensures forall ps :: r.Config? && ps != [] && ps[0] == path && Ends(d, ps) ==> Table(r.table) == Fold(d, ps)
    // What a path leads to in the result is what it leads to in the first file of the chain that has something there.
    ensures forall ps, k: nat, keys :: r.Config? && ps != [] && ps[0] == path && Ends(d, ps) && keys != []
                                       && FirstSays(d, ps, k, keys) ==>
              k < |ps| && ps[k] in d.files && d.files[ps[k]].Keeper?
              && Leaf(Table(r.table), keys) == Leaf(Table(d.files[ps[k]].table), keys)
  {
    hide Explains, ChainRevisits, ChainRunsOut, ChainEnds, Fold, FirstSays, Leaf, Ends;
    ghost var ps;
    r, ps := LoadInto(d, path, {}, []);
    LoadIsExact(d, r, path, ps);
    if r.Config? {
      forall qs, k: nat, keys | qs != [] && qs[0] == path && Ends(d, qs) && keys != [] && FirstSays(d, qs, k, keys)
        ensures k < |qs| && qs[k] in d.files && d.files[qs[k]].Keeper?
        ensures Leaf(Table(r.table), keys) == Leaf(Table(d.files[qs[k]].table), keys)
      {
        EndsInFiles(d, qs);
        LeafOfFold(d, qs, keys);
        FirstIsThere(d, qs, k, keys);
      }
    }
  }

  lemma EndsInFiles(d: Disk, ps: seq<Path>)
    requires Ends(d, ps)
    ensures forall p :: p in ps ==> p in d.files
  {
  }

  lemma FirstIsThere(d: Disk, ps: seq<Path>, k: nat, keys: seq<string>)
    requires FirstSays(d, ps, k, keys)
    ensures k < |ps| && ps[k] in d.files && d.files[ps[k]].Keeper?
  {
  }

  lemma LoadIsExact(d: Disk, r: Loaded, path: Path, ps: seq<Path>)
    requires ps != [] && ps[0] == path && Explains(d, r, ps, [])
    ensures r.Cyclic? <==> ChainRevisits(d, path)
    ensures r.Missing? <==> ChainRunsOut(d, path)
    ensures r.Config? <==> ChainEnds(d, path)
    ensures forall qs :: r.Config? && qs != [] && qs[0] == path && Ends(d, qs) ==> Table(r.table) == Fold(d, qs)
  {
    hide Revisits, RunsOut, Ends, IsChain, Fold;
    assert [] + ps == ps;
    forall qs | qs != [] && qs[0] == path
      ensures Revisits(d, qs) ==> r.Cyclic?
      ensures RunsOut(d, qs) ==> r.Missing?
      ensures Ends(d, qs) ==> r.Config? && qs == ps
    {
      AnswerFitsChain(d, r, ps, qs);
    }
  }

  lemma AnswerFitsChain(d: Disk, r: Loaded, ps: seq<Path>, qs: seq<Path>)
    requires ps != [] && Explains(d, r, ps, []) && qs != [] && qs[0] == ps[0]
    ensures Revisits(d, qs) ==> r.Cyclic?
    ensures RunsOut(d, qs) ==> r.Missing?
    ensures Ends(d, qs) ==> r.Config? && qs == ps
  {
    hide Fold, Revisits, RunsOut, Ends, IsChain;
    assert [] + ps == ps;
    if Revisits(d, qs) {
      RevisitingNeverEnds(d, qs, ps);
    }
    if RunsOut(d, qs) || Ends(d, qs) {
      OneShape(d, ps, qs);
    }
  }

  lemma OneShape(d: Disk, ps: seq<Path>, qs: seq<Path>)
    requires IsChain(d, ps) && (Ends(d, qs) || RunsOut(d, qs)) && ps[0] == qs[0]
    ensures !Revisits(d, ps)
    ensures Ends(d, ps) ==> ps == qs && Ends(d, qs)
    ensures RunsOut(d, ps) ==> RunsOut(d, qs) && !Ends(d, qs)
  {
    if Revisits(d, ps) {
      RevisitingNeverEnds(d, ps, qs);
    }
    EndedChainIsLongest(d, qs, ps);
    if Ends(d, ps) || RunsOut(d, ps) {
      EndedChainIsLongest(d, ps, qs);
      assert qs[..|ps|] == qs && ps[..|qs|] == ps;
    }
  }
}
