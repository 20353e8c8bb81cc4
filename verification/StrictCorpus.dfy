/** The strict row corpus: one itemised finding per row, checked before it may replace a catalog's findings. */
module StrictCorpus {
  import opened Jsons
  import opened Lists

  const SOURCE_PREFIX := "prompt_corpus/GOAL_LOOP/"

  predicate Named(v: Json) {
    v.Str? && v.s != ""
  }

  predicate IsSeverity(v: Json) {
    v.Str? && v.s in {"critical", "warning", "info"}
  }

  // ---- what can be wrong with one row ----

  function PatternsOf(f: Dict): Json {
    if "patterns" in f then f["patterns"] else Arr([])
  }

  predicate Strings(v: Json) {
    v.Arr? && forall i :: 0 <= i < |v.items| ==> v.items[i].Str?
  }

  predicate BadFields(f: Dict) {
    || !Named(Get(f, "finding_id"))
    || !Named(Get(f, "title"))
    || !IsSeverity(Get(f, "severity"))
    || !Named(Get(f, "actionability"))
    || !(Get(f, "decision_id").Null? || Get(f, "decision_id").Str?)
    || !Strings(PatternsOf(f))
  }

  predicate Logical(v: Json) {
    v.Str? && SOURCE_PREFIX <= v.s
  }

  predicate Positive(v: Json) {
    v.Arr? && v.items != [] && forall i :: 0 <= i < |v.items| ==> v.items[i].Num? && v.items[i].n > 0
  }

  function PathOf(f: Dict): Json {
    if Get(f, "source").Obj? then Get(Get(f, "source").fields, "path") else Null
  }

  function RefsOf(f: Dict): Json {
    if Get(f, "source").Obj? then Get(Get(f, "source").fields, "line_refs") else Null
  }

  // What the catalog says of its sources: their line counts, where it gives usable ones.
  datatype Binding = Binding(required: bool, counts: map<string, Option<int>>)

  predicate Unbound(f: Dict, b: Binding) {
    b.required && Logical(PathOf(f)) && PathOf(f).s !in b.counts
  }

  predicate Beyond(f: Dict, b: Binding) {
    && Positive(RefsOf(f)) && Logical(PathOf(f))
    && PathOf(f).s in b.counts && b.counts[PathOf(f).s].Some?
    && exists i :: 0 <= i < |RefsOf(f).items| && RefsOf(f).items[i].n > b.counts[PathOf(f).s].value
  }

  predicate BadReplay(f: Dict) {
    var e := Get(f, "replay_expectation");
    !e.Obj? || !Named(Get(e.fields, "phase")) || !Named(Get(e.fields, "expected_status"))
  }

  datatype Fault = RowFault | DuplicateFault | PathFault | RefsFault | UnboundFault | BeyondFault | ReplayFault

  predicate Repeats(rows: seq<Json>, i: nat)
    requires i < |rows| && rows[i].Obj?
  {
    var id := Get(rows[i].fields, "finding_id");
    Named(id) && exists j :: 0 <= j < i && rows[j].Obj? && Get(rows[j].fields, "finding_id") == id
  }

  // Row i has the fault.
  predicate Faulty(fault: Fault, rows: seq<Json>, i: nat, b: Binding)
    requires i < |rows|
  {
    if !rows[i].Obj? then fault.RowFault? else
      var f := rows[i].fields;
      match fault
      case RowFault => BadFields(f)
      case DuplicateFault => Repeats(rows, i)
      case PathFault => !Logical(PathOf(f))
      case RefsFault => !Positive(RefsOf(f))
      case UnboundFault => Unbound(f, b)
      case BeyondFault => Beyond(f, b)
      case ReplayFault => BadReplay(f)
  }

  function FaultyRows(fault: Fault, rows: seq<Json>, b: Binding): set<nat> {
    set i | 0 <= i < |rows| && Faulty(fault, rows, i, b)
  }

  // Looking a severity that is a list or an object up in a set raises.
  ghost predicate Raises(rows: seq<Json>) {
    exists row :: row in rows && row.Obj? && (Get(row.fields, "severity").Arr? || Get(row.fields, "severity").Obj?)
  }

  lemma RaisesGrows(rows: seq<Json>, i: nat)
    requires i < |rows|
    ensures Raises(rows[..i + 1]) <==>
            Raises(rows[..i])
            || (rows[i].Obj? && (Get(rows[i].fields, "severity").Arr? || Get(rows[i].fields, "severity").Obj?))
    ensures Raises(rows[..i + 1]) ==> Raises(rows)
  {
    assert rows[..i + 1] == rows[..i] + [rows[i]];
    assert forall row :: row in rows[..i + 1] ==> row in rows;
  }

  lemma NothingRaises()
    ensures !Raises([])
  {
  }

  // ---- the loop over the rows ----

  method CheckFields(f: Dict) returns (wrong: bool)
    ensures wrong || !Named(Get(f, "finding_id")) <==> BadFields(f)
  {
    var decision := Get(f, "decision_id");
    wrong := !Named(Get(f, "title")) || !IsSeverity(Get(f, "severity")) || !Named(Get(f, "actionability"));
    if !decision.Null? && !decision.Str? {
      wrong := true;
    }
    if !Strings(PatternsOf(f)) {
      wrong := true;
    }
  }

  // One row: which faults it adds. The identifiers seen so far decide about repetition.
  method CheckRow(f: Dict, seen: set<string>, b: Binding) returns (faults: set<Fault>, nowSeen: set<string>)
    ensures RowFault in faults <==> BadFields(f)
    ensures DuplicateFault in faults <==> Named(Get(f, "finding_id")) && Get(f, "finding_id").s in seen
    ensures PathFault in faults <==> !Logical(PathOf(f))
    ensures RefsFault in faults <==> !Positive(RefsOf(f))
    ensures UnboundFault in faults <==> Unbound(f, b)
    ensures BeyondFault in faults <==> Beyond(f, b)
    ensures ReplayFault in faults <==> BadReplay(f)
    ensures nowSeen == if Named(Get(f, "finding_id")) then seen + {Get(f, "finding_id").s} else seen
  {
    hide Positive, Strings, Logical, IsSeverity, BadFields, Unbound, Beyond, BadReplay;
    faults, nowSeen := {}, seen;
    var id := Get(f, "finding_id");
    if !Named(id) {
      faults := faults + {RowFault};
    } else if id.s in seen {
      faults := faults + {DuplicateFault};
    } else {
      nowSeen := seen + {id.s};
    }
    var wrong := CheckFields(f);
    if wrong {
      faults := faults + {RowFault};
    }
    var sourceFaults := CheckSource(f, b);
    faults := faults + sourceFaults;
    if BadReplay(f) {
      faults := faults + {ReplayFault};
    }
  }

  method CheckSource(f: Dict, b: Binding) returns (faults: set<Fault>)
    ensures PathFault in faults <==> !Logical(PathOf(f))
    ensures RefsFault in faults <==> !Positive(RefsOf(f))
    ensures UnboundFault in faults <==> Unbound(f, b)
    ensures BeyondFault in faults <==> Beyond(f, b)
    ensures faults <= {PathFault, RefsFault, UnboundFault, BeyondFault}
  {
    var source := Get(f, "source");
    if !source.Obj? {
      faults := {PathFault, RefsFault};
    } else {
      faults := {};
      var path, refs := Get(source.fields, "path"), Get(source.fields, "line_refs");
      if !Logical(path) {
        faults := faults + {PathFault};
      } else if b.required && path.s !in b.counts {
        faults := faults + {UnboundFault};
      }
      if !Positive(refs) {
        faults := faults + {RefsFault};
      } else if Logical(path) && path.s in b.counts {
        var count := b.counts[path.s];
        if count.Some? && exists i :: 0 <= i < |refs.items| && refs.items[i].n > count.value {
          faults := faults + {BeyondFault};
        }
      }
    }
  }

  // The identifiers of the rows, wherever a row has one.
  function IdsOf(rows: seq<Json>): set<string> {
    set i | 0 <= i < |rows| && rows[i].Obj? && Named(Get(rows[i].fields, "finding_id"))
      :: Get(rows[i].fields, "finding_id").s
  }

  method CheckRows(rows: seq<Json>, b: Binding) returns (raised: bool, faulty: map<Fault, set<nat>>, ids: set<string>)
    ensures raised <==> Raises(rows)
    ensures !raised ==> forall fault: Fault :: fault in faulty && faulty[fault] == FaultyRows(fault, rows, b)
    ensures !raised ==> ids == IdsOf(rows)
  {
    hide BadFields, Unbound, Beyond, BadReplay, Positive, Logical, Raises;
    NothingRaises();
    raised, ids := false, {};
    faulty := map[RowFault := {}, DuplicateFault := {}, PathFault := {}, RefsFault := {}, UnboundFault := {},
                  BeyondFault := {}, ReplayFault := {}];
    forall fault: Fault
      ensures fault in faulty && faulty[fault] == {}
    {
      match fault
      case RowFault => case DuplicateFault => case PathFault => case RefsFault =>
      case UnboundFault => case BeyondFault => case ReplayFault =>
    }
    for i := 0 to |rows|
      invariant !Raises(rows[..i])
      invariant ids == IdsOf(rows[..i])
      invariant forall fault: Fault :: fault in faulty && faulty[fault] == FaultyUpTo(fault, rows, b, i)
    {
      RaisesGrows(rows, i);
      var faults: set<Fault> := {RowFault};
      if rows[i].Obj? {
        var severity := Get(rows[i].fields, "severity");
        if severity.Arr? || severity.Obj? {
          raised := true;
          return;
        }
        faults, ids := CheckRow(rows[i].fields, ids, b);
      }
      RowStep(rows, i, b, faults);
      faulty := map fault: Fault | fault in faulty :: faulty[fault] + if fault in faults then {i} else {};
    }
    assert rows[..|rows|] == rows;
  }

  function FaultyUpTo(fault: Fault, rows: seq<Json>, b: Binding, n: nat): set<nat>
    requires n <= |rows|
  {
    set i | 0 <= i < n && Faulty(fault, rows, i, b)
  }

  // A row's faults are those CheckRow finds, given the identifiers before it.
  lemma RowStep(rows: seq<Json>, i: nat, b: Binding, faults: set<Fault>)
    requires i < |rows| && (!rows[i].Obj? ==> faults == {RowFault})
    requires rows[i].Obj? ==>
               var f := rows[i].fields;
               && (RowFault in faults <==> BadFields(f))
               && (DuplicateFault in faults <==>
                   Named(Get(f, "finding_id")) && Get(f, "finding_id").s in IdsOf(rows[..i]))
               && (PathFault in faults <==> !Logical(PathOf(f))) && (RefsFault in faults <==> !Positive(RefsOf(f)))
               && (UnboundFault in faults <==> Unbound(f, b)) && (BeyondFault in faults <==> Beyond(f, b))
               && (ReplayFault in faults <==> BadReplay(f))
    ensures forall fault: Fault :: fault in faults <==> Faulty(fault, rows, i, b)
  {
    hide BadFields, Unbound, Beyond, BadReplay, Positive, Logical;
    forall fault: Fault
      ensures fault in faults <==> Faulty(fault, rows, i, b)
    {
      match fault {
        case DuplicateFault =>
          if rows[i].Obj? {
            RepeatsIffSeen(rows, i);
          }
        case _ =>
      }
    }
  }

  lemma RepeatsIffSeen(rows: seq<Json>, i: nat)
    requires i < |rows| && rows[i].Obj?
    ensures Repeats(rows, i) <==>
            Named(Get(rows[i].fields, "finding_id")) && Get(rows[i].fields, "finding_id").s in IdsOf(rows[..i])
  {
  }

  // ---- the validation ----

  function ItemsOf(v: Json): seq<Json> {
    if v.Arr? then v.items else []
  }

  function SourceEntry(v: Json, before: map<string, Option<int>>): map<string, Option<int>> {
    if !v.Obj? || !Named(Get(v.fields, "path")) then before else
      var count := Get(v.fields, "line_count");
      before[Get(v.fields, "path").s := if count.Num? && count.n >= 0 then Some(count.n) else None]
  }

  function LineCounts(sources: seq<Json>): map<string, Option<int>> {
    if sources == [] then map[] else SourceEntry(sources[|sources| - 1], LineCounts(sources[..|sources| - 1]))
  }

  function CatalogField(catalog: Option<Dict>, key: string): Json {
    if catalog.Some? then Get(catalog.value, key) else Null
  }

  function BindingOf(catalog: Option<Dict>, require: bool): Binding {
    Binding(catalog.Some? && require, LineCounts(ItemsOf(CatalogField(catalog, "external_sources"))))
  }

  method CollectLineCounts(sources: seq<Json>) returns (counts: map<string, Option<int>>)
    ensures counts == LineCounts(sources)
  {
    counts := map[];
    for i := 0 to |sources|
      invariant counts == LineCounts(sources[..i])
    {
      assert sources[..i + 1][..i] == sources[..i];
      counts := SourceEntry(sources[i], counts);
    }
    assert sources[..|sources|] == sources;
  }

  datatype CorpusError =
    | SchemaVersion | InventoryNotCorpus | CorpusIdMissing | CatalogIdMissing | CatalogIdMismatch | StatusNotComplete
    | ExpectedMismatch | CatalogSourcesNotList | ExpectedNotInt | FindingsNotList | CountMismatch
    | IdsNotUnique | RowsInvalid | PathsNotLogical | RefsNotPositive | PathsNotInCatalog | RefsBeyondSource
    | ReplayInvalid | LocalPath

  function FaultOf(e: CorpusError): Option<Fault> {
    match e
    case IdsNotUnique => Some(DuplicateFault)
    case RowsInvalid => Some(RowFault)
    case PathsNotLogical => Some(PathFault)
    case RefsNotPositive => Some(RefsFault)
    case PathsNotInCatalog => Some(UnboundFault)
    case RefsBeyondSource => Some(BeyondFault)
    case ReplayInvalid => Some(ReplayFault)
    case _ => None
  }

  predicate LooksLikeInventory(corpus: Dict) {
    || Get(corpus, "inventory_id") == Str("goal-loop-explicit-source-row-candidates-v1")
    || "candidate_rows" in corpus
    || "source_candidate_coverage" in corpus
  }

  // What each error says of the corpus itself.
  predicate HeaderBroken(e: CorpusError, corpus: Dict, catalog: Option<Dict>, require: bool,
                         localPath: string -> bool) {
    var catalogId := CatalogField(catalog, "catalog_id");
    var catalogTotal := CatalogField(catalog, "expected_findings_total");
    var expected, findings := Get(corpus, "expected_findings_total"), Get(corpus, "findings");
    match e
    case SchemaVersion => Get(corpus, "schema_version") != Num(1)
    case InventoryNotCorpus => LooksLikeInventory(corpus)
    case CorpusIdMissing => !Named(Get(corpus, "corpus_id"))
    case CatalogIdMissing => !Named(Get(corpus, "source_catalog_id"))
    case CatalogIdMismatch => catalogId.Str? && Get(corpus, "source_catalog_id") != catalogId
    case StatusNotComplete => Get(corpus, "status") != Str("COMPLETE")
    case ExpectedMismatch => catalogTotal.Num? && expected != catalogTotal
    case CatalogSourcesNotList => catalog.Some? && require && !CatalogField(catalog, "external_sources").Arr?
    case ExpectedNotInt => !expected.Num?
    case FindingsNotList => !findings.Arr?
    case CountMismatch => expected.Num? && |ItemsOf(findings)| != expected.n
    case LocalPath => Leaks(Obj(corpus), localPath)
    case _ => false
  }

  predicate Broken(e: CorpusError, corpus: Dict, catalog: Option<Dict>, require: bool, localPath: string -> bool) {
    match FaultOf(e)
    case Some(fault) => FaultyRows(fault, ItemsOf(Get(corpus, "findings")), BindingOf(catalog, require)) != {}
    case None => HeaderBroken(e, corpus, catalog, require, localPath)
  }

  datatype Validation = Validation(errors: set<CorpusError>, rowCount: nat, uniqueIds: nat)

  function Errors(corpus: Dict, catalog: Option<Dict>, require: bool, localPath: string -> bool): set<CorpusError> {
    set e: CorpusError | Broken(e, corpus, catalog, require, localPath)
  }

  // ---- what a corpus without errors is ----

  ghost predicate HasText(f: Dict, key: string) {
    key in f && f[key].Str? && f[key].s != ""
  }

  // Entry k of the catalog's sources is the last one for the path.
  ghost predicate LastListed(sources: seq<Json>, k: nat, path: string) {
    && k < |sources| && ListsPath(sources[k], path)
    && forall j :: k < j < |sources| ==> !ListsPath(sources[j], path)
  }

  ghost predicate ListsPath(v: Json, path: string) {
    v.Obj? && path != "" && "path" in v.fields && v.fields["path"] == Str(path)
  }

  // A logical path and positive line numbers; where the catalog lists sources the path is one of them, and no line is
  // beyond the count that its last entry gives.
  ghost predicate SoundSource(source: Dict, sources: seq<Json>, required: bool) {
    && "path" in source && source["path"].Str? && "prompt_corpus/GOAL_LOOP/" <= source["path"].s
    && "line_refs" in source && source["line_refs"].Arr? && source["line_refs"].items != []
    && (forall n :: n in source["line_refs"].items ==> n.Num? && n.n > 0)
    && (required ==> exists k: nat :: LastListed(sources, k, source["path"].s))
    && forall k: nat :: LastListed(sources, k, source["path"].s) ==> Within(source["line_refs"].items, sources[k])
  }

  ghost predicate Within(refs: seq<Json>, entry: Json) {
    entry.Obj? && "line_count" in entry.fields && entry.fields["line_count"].Num? && entry.fields["line_count"].n >= 0
    ==> forall n :: n in refs ==> n.Num? && n.n <= entry.fields["line_count"].n
  }

  ghost predicate SoundFields(f: Dict) {
    && HasText(f, "finding_id") && HasText(f, "title") && HasText(f, "actionability")
    && "severity" in f && (f["severity"] == Str("critical") || f["severity"] == Str("warning")
                           || f["severity"] == Str("info"))
    && ("decision_id" in f ==> f["decision_id"] == Null || f["decision_id"].Str?)
    && ("patterns" in f ==> f["patterns"].Arr? && forall p :: p in f["patterns"].items ==> p.Str?)
  }

  ghost predicate SoundRow(row: Json, sources: seq<Json>, required: bool) {
    && row.Obj? && SoundFields(row.fields)
    && "source" in row.fields && row.fields["source"].Obj?
    && SoundSource(row.fields["source"].fields, sources, required)
    && "replay_expectation" in row.fields && row.fields["replay_expectation"].Obj?
    && HasText(row.fields["replay_expectation"].fields, "phase")
    && HasText(row.fields["replay_expectation"].fields, "expected_status")
  }

  // No two rows have the same identifier.
  ghost predicate DistinctIds(rows: seq<Json>) {
    forall i, j :: 0 <= i < j < |rows| && rows[i].Obj? && rows[j].Obj? && HasText(rows[j].fields, "finding_id") ==>
      Get(rows[i].fields, "finding_id") != rows[j].fields["finding_id"]
  }

  ghost predicate SoundHeader(corpus: Dict, catalog: Dict, required: bool) {
    && Get(corpus, "schema_version") == Num(1) && Get(corpus, "status") == Str("COMPLETE")
    && Get(corpus, "inventory_id") != Str("goal-loop-explicit-source-row-candidates-v1")
    && "candidate_rows" !in corpus && "source_candidate_coverage" !in corpus
    && HasText(corpus, "corpus_id") && HasText(corpus, "source_catalog_id")
    && (Get(catalog, "catalog_id").Str? ==> corpus["source_catalog_id"] == catalog["catalog_id"])
    && "findings" in corpus && corpus["findings"].Arr?
    && Get(corpus, "expected_findings_total") == Num(|corpus["findings"].items|)
    && (Get(catalog, "expected_findings_total").Num? ==>
          corpus["expected_findings_total"] == catalog["expected_findings_total"])
    && (required ==> Get(catalog, "external_sources").Arr?)
  }

  // The whole of what a corpus has to be; an absent catalog says nothing.
  ghost predicate SoundCorpus(corpus: Dict, catalog: Option<Dict>, require: bool, localPath: string -> bool) {
    var c := if catalog.Some? then catalog.value else map[];
    var required := catalog.Some? && require;
    && SoundHeader(corpus, c, required)
    && (forall row :: row in corpus["findings"].items ==>
          SoundRow(row, ItemsOf(Get(c, "external_sources")), required))
    && DistinctIds(corpus["findings"].items)
    && !Leaks(Obj(corpus), localPath)
  }

  lemma {:induction false} CountsAreLast(sources: seq<Json>, path: string)
    ensures path in LineCounts(sources) <==> exists k: nat :: LastListed(sources, k, path)
    ensures forall k: nat :: LastListed(sources, k, path) ==>
              LineCounts(sources)[path] ==
              var n := Get(sources[k].fields, "line_count"); if n.Num? && n.n >= 0 then Some(n.n) else None
  {
    if sources != [] {
      var t, v, n := sources[..|sources| - 1], sources[|sources| - 1], |sources| - 1;
      CountsAreLast(t, path);
      if ListsPath(v, path) {
        assert LastListed(sources, n, path);
        assert forall k: nat :: LastListed(sources, k, path) ==> k == n;
      } else {
        forall k: nat
          ensures LastListed(sources, k, path) <==> LastListed(t, k, path)
        {
          assert forall j :: 0 <= j < n ==> sources[j] == t[j];
        }
      }
    }
  }

  lemma SourceIsSound(f: Dict, sources: seq<Json>, b: Binding)
    requires b.counts == LineCounts(sources)
    ensures Logical(PathOf(f)) && Positive(RefsOf(f)) && !Unbound(f, b) && !Beyond(f, b) <==>
            "source" in f && f["source"].Obj? && SoundSource(f["source"].fields, sources, b.required)
  {
    hide LineCounts, LastListed;
    if Logical(PathOf(f)) && Positive(RefsOf(f)) {
      CountsAreLast(sources, PathOf(f).s);
      RefsWithin(f, sources, b);
      AllPositive(RefsOf(f));
    }
    if "source" in f && f["source"].Obj? && SoundSource(f["source"].fields, sources, b.required) {
      AllPositive(RefsOf(f));
    }
  }

  lemma AllPositive(v: Json)
    ensures Positive(v) <==> v.Arr? && v.items != [] && forall n :: n in v.items ==> n.Num? && n.n > 0
  {
    if Positive(v) {
      forall n | n in v.items
        ensures n.Num? && n.n > 0
      {
        var i :| 0 <= i < |v.items| && v.items[i] == n;
      }
    }
  }

  lemma RefsWithin(f: Dict, sources: seq<Json>, b: Binding)
    requires b.counts == LineCounts(sources) && Logical(PathOf(f)) && Positive(RefsOf(f))
    ensures Beyond(f, b) <==>
            !(forall k: nat :: LastListed(sources, k, PathOf(f).s) ==> Within(RefsOf(f).items, sources[k]))
  {
    hide LineCounts, LastListed;
    var path, refs := PathOf(f).s, RefsOf(f).items;
    CountsAreLast(sources, path);
    OnlyOneLast(sources, path);
    if k: nat :| LastListed(sources, k, path) {
      ListedIsObject(sources, k, path);
      RefsBeyond(refs, sources[k]);
    }
  }

  lemma RefsBeyond(refs: seq<Json>, entry: Json)
    requires entry.Obj? && forall i :: 0 <= i < |refs| ==> refs[i].Num?
    ensures Within(refs, entry) <==>
            var n := Get(entry.fields, "line_count");
            n.Num? && n.n >= 0 ==> forall i :: 0 <= i < |refs| ==> refs[i].n <= n.n
  {
    if Within(refs, entry) {
      assert forall i :: 0 <= i < |refs| ==> refs[i] in refs;
    }
    forall n | n in refs
      ensures n.Num? && exists i :: 0 <= i < |refs| && refs[i] == n
    {
      var i :| 0 <= i < |refs| && refs[i] == n;
    }
  }

  lemma ListedIsObject(sources: seq<Json>, k: nat, path: string)
    requires LastListed(sources, k, path)
    ensures k < |sources| && sources[k].Obj?
  {
  }

  lemma OnlyOneLast(sources: seq<Json>, path: string)
    ensures forall j: nat, k: nat :: LastListed(sources, j, path) && LastListed(sources, k, path) ==> j == k
  {
  }

  lemma FieldsAreSound(f: Dict)
    ensures !BadFields(f) <==> SoundFields(f)
  {
    var v := PatternsOf(f);
    if v.Arr? {
      assert forall i :: 0 <= i < |v.items| ==> v.items[i] in v.items;
    }
  }

  // A row has none of the faults of its own exactly if it is sound.
  lemma RowIsSound(rows: seq<Json>, i: nat, sources: seq<Json>, b: Binding)
    requires i < |rows| && b.counts == LineCounts(sources)
    ensures (forall fault: Fault :: fault != DuplicateFault ==> !Faulty(fault, rows, i, b)) <==>
            SoundRow(rows[i], sources, b.required)
  {
    hide BadFields, SoundFields, SoundSource, Positive, Logical, Unbound, Beyond, Repeats, LineCounts;
    if rows[i].Obj? {
      var f := rows[i].fields;
      FieldsAreSound(f);
      SourceIsSound(f, sources, b);
      RowFaults(rows, i, b);
    } else {
      assert Faulty(RowFault, rows, i, b);
    }
  }

  lemma RowFaults(rows: seq<Json>, i: nat, b: Binding)
    requires i < |rows| && rows[i].Obj?
    ensures (forall fault: Fault :: fault != DuplicateFault ==> !Faulty(fault, rows, i, b)) <==>
            var f := rows[i].fields;
            !BadFields(f) && Logical(PathOf(f)) && Positive(RefsOf(f)) && !Unbound(f, b) && !Beyond(f, b)
            && !BadReplay(f)
  {
    hide BadFields, Positive, Logical, Unbound, Beyond, Repeats, BadReplay;
    assert Faulty(RowFault, rows, i, b) <==> BadFields(rows[i].fields);
    assert Faulty(PathFault, rows, i, b) <==> !Logical(PathOf(rows[i].fields));
    assert Faulty(RefsFault, rows, i, b) <==> !Positive(RefsOf(rows[i].fields));
    assert Faulty(UnboundFault, rows, i, b) <==> Unbound(rows[i].fields, b);
    assert Faulty(BeyondFault, rows, i, b) <==> Beyond(rows[i].fields, b);
    assert Faulty(ReplayFault, rows, i, b) <==> BadReplay(rows[i].fields);
  }

  lemma IdsAreDistinct(rows: seq<Json>, b: Binding)
    ensures (forall i :: 0 <= i < |rows| ==> !Faulty(DuplicateFault, rows, i, b)) <==> DistinctIds(rows)
  {
    forall i | 0 <= i < |rows|
      ensures Faulty(DuplicateFault, rows, i, b) <==>
              rows[i].Obj? && HasText(rows[i].fields, "finding_id")
              && exists j :: 0 <= j < i && rows[j].Obj?
                             && Get(rows[j].fields, "finding_id") == rows[i].fields["finding_id"]
    {
    }
  }

  // The header's own errors.
  lemma HeaderIsSound(corpus: Dict, catalog: Option<Dict>, require: bool, localPath: string -> bool)
    ensures (forall e: CorpusError :: !HeaderBroken(e, corpus, catalog, require, localPath)) <==>
            SoundHeader(corpus, if catalog.Some? then catalog.value else map[], catalog.Some? && require)
            && !Leaks(Obj(corpus), localPath)
  {
    hide Leaks, HeaderBroken, SoundHeader;
    if forall e: CorpusError :: !HeaderBroken(e, corpus, catalog, require, localPath) {
      HeaderErrors(corpus, catalog, require, localPath);
    }
    if SoundHeader(corpus, if catalog.Some? then catalog.value else map[], catalog.Some? && require)
       && !Leaks(Obj(corpus), localPath) {
      forall e: CorpusError
        ensures !HeaderBroken(e, corpus, catalog, require, localPath)
      {
        SoundBreaksNothing(e, corpus, catalog, require, localPath);
      }
    }
  }

  lemma SoundBreaksNothing(e: CorpusError, corpus: Dict, catalog: Option<Dict>, require: bool,
                           localPath: string -> bool)
    requires SoundHeader(corpus, if catalog.Some? then catalog.value else map[], catalog.Some? && require)
    requires !Leaks(Obj(corpus), localPath)
    ensures !HeaderBroken(e, corpus, catalog, require, localPath)
  {
    hide Leaks;
  }

  lemma KindErrors(corpus: Dict, catalog: Option<Dict>, require: bool, localPath: string -> bool)
    requires forall e: CorpusError :: !HeaderBroken(e, corpus, catalog, require, localPath)
    ensures Get(corpus, "schema_version") == Num(1) && Get(corpus, "status") == Str("COMPLETE")
    ensures Get(corpus, "inventory_id") != Str("goal-loop-explicit-source-row-candidates-v1")
    ensures "candidate_rows" !in corpus && "source_candidate_coverage" !in corpus
    ensures HasText(corpus, "corpus_id") && HasText(corpus, "source_catalog_id")
    ensures !Leaks(Obj(corpus), localPath)
  {
    hide Leaks;
    assert !HeaderBroken(SchemaVersion, corpus, catalog, require, localPath);
    assert !HeaderBroken(InventoryNotCorpus, corpus, catalog, require, localPath);
    assert !HeaderBroken(StatusNotComplete, corpus, catalog, require, localPath);
    assert !HeaderBroken(CorpusIdMissing, corpus, catalog, require, localPath);
    assert !HeaderBroken(CatalogIdMissing, corpus, catalog, require, localPath);
    assert !HeaderBroken(LocalPath, corpus, catalog, require, localPath);
  }

  lemma TotalErrors(corpus: Dict, catalog: Option<Dict>, require: bool, localPath: string -> bool)
    requires forall e: CorpusError :: !HeaderBroken(e, corpus, catalog, require, localPath)
    ensures var c := if catalog.Some? then catalog.value else map[];
            && (Get(c, "catalog_id").Str? ==> Get(corpus, "source_catalog_id") == c["catalog_id"])
            && "findings" in corpus && corpus["findings"].Arr?
            && Get(corpus, "expected_findings_total") == Num(|corpus["findings"].items|)
            && (Get(c, "expected_findings_total").Num? ==>
                  Get(corpus, "expected_findings_total") == c["expected_findings_total"])
            && (catalog.Some? && require ==> Get(c, "external_sources").Arr?)
  {
    hide Leaks;
    assert !HeaderBroken(CatalogIdMismatch, corpus, catalog, require, localPath);
    assert !HeaderBroken(ExpectedMismatch, corpus, catalog, require, localPath);
    assert !HeaderBroken(CatalogSourcesNotList, corpus, catalog, require, localPath);
    assert !HeaderBroken(ExpectedNotInt, corpus, catalog, require, localPath);
    assert !HeaderBroken(FindingsNotList, corpus, catalog, require, localPath);
    assert !HeaderBroken(CountMismatch, corpus, catalog, require, localPath);
  }

  lemma HeaderErrors(corpus: Dict, catalog: Option<Dict>, require: bool, localPath: string -> bool)
    requires forall e: CorpusError :: !HeaderBroken(e, corpus, catalog, require, localPath)
    ensures SoundHeader(corpus, if catalog.Some? then catalog.value else map[], catalog.Some? && require)
    ensures !Leaks(Obj(corpus), localPath)
  {
    hide Leaks, HeaderBroken;
    KindErrors(corpus, catalog, require, localPath);
    TotalErrors(corpus, catalog, require, localPath);
  }

  /** No error is reported exactly for the corpora that are sound, row by row and as a whole. */
  lemma CleanIffSound(corpus: Dict, catalog: Option<Dict>, require: bool, localPath: string -> bool)
    ensures Errors(corpus, catalog, require, localPath) == {} <==> SoundCorpus(corpus, catalog, require, localPath)
  {
    hide Leaks, HeaderBroken, SoundRow, DistinctIds, LineCounts, Faultless;
    var rows, b := ItemsOf(Get(corpus, "findings")), BindingOf(catalog, require);
    var sources := ItemsOf(CatalogField(catalog, "external_sources"));
    HeaderIsSound(corpus, catalog, require, localPath);
    RowsAreSound(rows, sources, b);
    NoErrorsMeans(corpus, catalog, require, localPath);
  }

  lemma RowsAreSound(rows: seq<Json>, sources: seq<Json>, b: Binding)
    requires b.counts == LineCounts(sources)
    ensures Faultless(rows, b) <==>
            (forall row :: row in rows ==> SoundRow(row, sources, b.required)) && DistinctIds(rows)
  {
    hide Faulty, SoundRow, DistinctIds, LineCounts;
    IdsAreDistinct(rows, b);
    forall i | 0 <= i < |rows|
      ensures (forall fault: Fault :: fault != DuplicateFault ==> !Faulty(fault, rows, i, b)) <==>
              SoundRow(rows[i], sources, b.required)
    {
      RowIsSound(rows, i, sources, b);
    }
    if Faultless(rows, b) {
      forall row | row in rows
        ensures SoundRow(row, sources, b.required)
      {
        var i :| 0 <= i < |rows| && rows[i] == row;
        assert SoundRow(rows[i], sources, b.required);
      }
    }
    if (forall row :: row in rows ==> SoundRow(row, sources, b.required)) && DistinctIds(rows) {
      forall fault: Fault, i | 0 <= i < |rows|
        ensures !Faulty(fault, rows, i, b)
      {
        assert rows[i] in rows;
        assert !Faulty(DuplicateFault, rows, i, b);
      }
    }
  }

  // No row has any fault.
  ghost predicate Faultless(rows: seq<Json>, b: Binding) {
    forall fault: Fault, i :: 0 <= i < |rows| ==> !Faulty(fault, rows, i, b)
  }

  lemma NoErrorsMeans(corpus: Dict, catalog: Option<Dict>, require: bool, localPath: string -> bool)
    ensures Errors(corpus, catalog, require, localPath) == {} <==>
            && (forall e: CorpusError :: !HeaderBroken(e, corpus, catalog, require, localPath))
            && Faultless(ItemsOf(Get(corpus, "findings")), BindingOf(catalog, require))
  {
    hide HeaderBroken, Faulty, BindingOf, FaultyRows;
    var rows, b := ItemsOf(Get(corpus, "findings")), BindingOf(catalog, require);
    forall fault: Fault
      ensures FaultyRows(fault, rows, b) == {} <==> forall i :: 0 <= i < |rows| ==> !Faulty(fault, rows, i, b)
    {
      FaultlessRows(fault, rows, b);
    }
    EachFaultHasAnError();
    assert forall e: CorpusError :: Broken(e, corpus, catalog, require, localPath) <==>
                                    e in Errors(corpus, catalog, require, localPath);
    if Errors(corpus, catalog, require, localPath) == {} {
      forall e: CorpusError
        ensures !HeaderBroken(e, corpus, catalog, require, localPath)
      {
        RowErrorsAreNotHeaders(e, corpus, catalog, require, localPath);
        assert !Broken(e, corpus, catalog, require, localPath);
      }
      forall fault: Fault
        ensures FaultyRows(fault, rows, b) == {}
      {
        var e: CorpusError :| FaultOf(e) == Some(fault);
        assert !Broken(e, corpus, catalog, require, localPath);
      }
      forall fault: Fault, i | 0 <= i < |rows|
        ensures !Faulty(fault, rows, i, b)
      {
        assert FaultyRows(fault, rows, b) == {};
      }
    } else {
      var e :| e in Errors(corpus, catalog, require, localPath);
      assert Broken(e, corpus, catalog, require, localPath);
    }
  }

  lemma FaultlessRows(fault: Fault, rows: seq<Json>, b: Binding)
    ensures FaultyRows(fault, rows, b) == {} <==> forall i :: 0 <= i < |rows| ==> !Faulty(fault, rows, i, b)
  {
    hide Faulty;
    assert forall i :: 0 <= i < |rows| && Faulty(fault, rows, i, b) ==> i in FaultyRows(fault, rows, b);
  }

  lemma RowErrorsAreNotHeaders(e: CorpusError, corpus: Dict, catalog: Option<Dict>, require: bool,
                               localPath: string -> bool)
    ensures FaultOf(e).Some? ==> !HeaderBroken(e, corpus, catalog, require, localPath)
  {
    hide Leaks;
  }

  lemma EachFaultHasAnError()
    ensures forall fault: Fault :: exists e: CorpusError :: FaultOf(e) == Some(fault)
  {
    forall fault: Fault
      ensures exists e: CorpusError :: FaultOf(e) == Some(fault)
    {
      match fault
      case RowFault => assert FaultOf(RowsInvalid) == Some(fault);
      case DuplicateFault => assert FaultOf(IdsNotUnique) == Some(fault);
      case PathFault => assert FaultOf(PathsNotLogical) == Some(fault);
      case RefsFault => assert FaultOf(RefsNotPositive) == Some(fault);
      case UnboundFault => assert FaultOf(PathsNotInCatalog) == Some(fault);
      case BeyondFault => assert FaultOf(RefsBeyondSource) == Some(fault);
      case ReplayFault => assert FaultOf(ReplayInvalid) == Some(fault);
    }
  }

  lemma SoundNeverRaises(corpus: Dict, catalog: Option<Dict>, require: bool, localPath: string -> bool)
    ensures SoundCorpus(corpus, catalog, require, localPath) ==> !Raises(ItemsOf(Get(corpus, "findings")))
  {
    hide Leaks, DistinctIds, SoundSource;
    if SoundCorpus(corpus, catalog, require, localPath) {
      forall row | row in ItemsOf(Get(corpus, "findings"))
        ensures row.Obj? && !Get(row.fields, "severity").Arr? && !Get(row.fields, "severity").Obj?
      {
        assert row in corpus["findings"].items;
      }
    }
  }

  /** validate_strict_row_corpus: it raises, or reports exactly the errors there are. */
  method ValidateStrictRowCorpus(corpus: Dict, catalog: Option<Dict>, require: bool, localPath: string -> bool)
    returns (v: Option<Validation>)
    ensures v.None? <==> Raises(ItemsOf(Get(corpus, "findings")))
    ensures v.Some? && v.value.errors == {} <==> SoundCorpus(corpus, catalog, require, localPath)
    ensures v.Some? ==>
              && v.value.errors == Errors(corpus, catalog, require, localPath)
              && v.value.rowCount == |ItemsOf(Get(corpus, "findings"))|
              && v.value.uniqueIds == |IdsOf(ItemsOf(Get(corpus, "findings")))|
  {
    hide Raises, FaultyRows, Leaks, IdsOf, LooksLikeInventory, SoundCorpus;
    var rows := ItemsOf(Get(corpus, "findings"));
    var header := CheckHeader(corpus, catalog, require, localPath);
    var counts := CollectLineCounts(ItemsOf(CatalogField(catalog, "external_sources")));
    var raised, faulty, ids := CheckRows(rows, Binding(catalog.Some? && require, counts));
    CleanIffSound(corpus, catalog, require, localPath);
    if raised {
      SoundNeverRaises(corpus, catalog, require, localPath);
      return None;
    }
    var rowErrors := set e: CorpusError | FaultOf(e).Some? && faulty[FaultOf(e).value] != {};
    ErrorsSplit(corpus, catalog, require, localPath, header, rowErrors);
    v := Some(Validation(header + rowErrors, |rows|, |ids|));
  }

  predicate AboutKind(e: CorpusError) {
    e in {SchemaVersion, InventoryNotCorpus, StatusNotComplete}
  }

  method CheckKind(corpus: Dict, catalog: Option<Dict>, require: bool, localPath: string -> bool)
    returns (errors: set<CorpusError>)
    ensures forall e: CorpusError :: e in errors <==>
            AboutKind(e) && HeaderBroken(e, corpus, catalog, require, localPath)
  {
    hide Leaks, LooksLikeInventory, Get, Named, ItemsOf, CatalogField;
    errors := {};
    if Get(corpus, "schema_version") != Num(1) {
      errors := errors + {SchemaVersion};
    }
    if LooksLikeInventory(corpus) {
      errors := errors + {InventoryNotCorpus};
    }
    if Get(corpus, "status") != Str("COMPLETE") {
      errors := errors + {StatusNotComplete};
    }
  }

  predicate AboutIds(e: CorpusError) {
    e in {CorpusIdMissing, CatalogIdMissing, CatalogIdMismatch}
  }

  method CheckIds(corpus: Dict, catalog: Option<Dict>, require: bool, localPath: string -> bool)
    returns (errors: set<CorpusError>)
    ensures forall e: CorpusError :: e in errors <==>
            AboutIds(e) && HeaderBroken(e, corpus, catalog, require, localPath)
  {
    hide Leaks, LooksLikeInventory, Get, Named, ItemsOf, CatalogField;
    var catalogId := CatalogField(catalog, "catalog_id");
    errors := {};
    if !Named(Get(corpus, "corpus_id")) {
      errors := errors + {CorpusIdMissing};
    }
    if !Named(Get(corpus, "source_catalog_id")) {
      errors := errors + {CatalogIdMissing};
    }
    if catalogId.Str? && Get(corpus, "source_catalog_id") != catalogId {
      errors := errors + {CatalogIdMismatch};
    }
  }

  predicate AboutTotals(e: CorpusError) {
    e in {ExpectedMismatch, CatalogSourcesNotList, ExpectedNotInt, FindingsNotList, CountMismatch}
  }

  method CheckTotals(corpus: Dict, catalog: Option<Dict>, require: bool, localPath: string -> bool)
    returns (errors: set<CorpusError>)
    ensures forall e: CorpusError :: e in errors <==>
            AboutTotals(e) && HeaderBroken(e, corpus, catalog, require, localPath)
  {
    hide Leaks, LooksLikeInventory, Get, Named, ItemsOf, CatalogField;
    var catalogTotal := CatalogField(catalog, "expected_findings_total");
    var expected, findings := Get(corpus, "expected_findings_total"), Get(corpus, "findings");
    errors := {};
    if catalogTotal.Num? && expected != catalogTotal {
      errors := errors + {ExpectedMismatch};
    }
    if catalog.Some? && require && !CatalogField(catalog, "external_sources").Arr? {
      errors := errors + {CatalogSourcesNotList};
    }
    if !expected.Num? {
      errors := errors + {ExpectedNotInt};
    }
    if !findings.Arr? {
      errors := errors + {FindingsNotList};
    }
    if expected.Num? && |ItemsOf(findings)| != expected.n {
      errors := errors + {CountMismatch};
    }
  }

  method CheckHeader(corpus: Dict, catalog: Option<Dict>, require: bool, localPath: string -> bool)
    returns (errors: set<CorpusError>)
    ensures forall e: CorpusError :: e in errors <==> HeaderBroken(e, corpus, catalog, require, localPath)
  {
    hide Leaks, LooksLikeInventory, Get, Named, ItemsOf, CatalogField;
    var kind := CheckKind(corpus, catalog, require, localPath);
    var ids := CheckIds(corpus, catalog, require, localPath);
    var totals := CheckTotals(corpus, catalog, require, localPath);
    errors := kind + ids + totals;
    if Leaks(Obj(corpus), localPath) {
      errors := errors + {LocalPath};
    }
  }

  lemma ErrorsSplit(corpus: Dict, catalog: Option<Dict>, require: bool, localPath: string -> bool,
                    header: set<CorpusError>, rowErrors: set<CorpusError>)
    requires forall e: CorpusError :: e in header <==> HeaderBroken(e, corpus, catalog, require, localPath)
    requires forall e: CorpusError :: e in rowErrors <==>
               FaultOf(e).Some?
               && FaultyRows(FaultOf(e).value, ItemsOf(Get(corpus, "findings")), BindingOf(catalog, require)) != {}
    ensures header + rowErrors == Errors(corpus, catalog, require, localPath)
  {
    hide FaultyRows, Leaks, LooksLikeInventory;
    forall e: CorpusError
      ensures e in header + rowErrors <==> e in Errors(corpus, catalog, require, localPath)
    {
      if FaultOf(e).Some? {
        assert !HeaderBroken(e, corpus, catalog, require, localPath);
      }
    }
  }
}
