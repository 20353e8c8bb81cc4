/** Families of structured identifiers, and the manifest that triages those no catalog lists. */
module Triage {
  import opened Sorting
  import opened Lists

  // ---- the family of an identifier ----

  // r is s up to, and without, its first dash.
  predicate UpToDash(r: string, s: string) {
    r <= s && '-' !in r && (r == s || s[|r|] == '-')
  }

  function BeforeDash(s: string): (r: string)
    ensures UpToDash(r, s)
  {
    if s == [] || s[0] == '-' then [] else [s[0]] + BeforeDash(s[1..])
  }

  predicate Digits(s: string) {
    s != [] && forall i :: 0 <= i < |s| ==> '0' <= s[i] <= '9'
  }

  // An S or an F and a number.
  predicate Numbered(id: string) {
    id != [] && id[0] in {'S', 'F'} && Digits(id[1..])
  }

  lemma NumberedIsSpelledOut(id: string)
    ensures Numbered(id) <==> |id| > 1 && id[0] in "SF" && forall c :: c in id[1..] ==> c in "0123456789"
  {
    forall c: char
      ensures '0' <= c <= '9' <==> c in "0123456789"
    {
      DigitIsListed(c);
    }
    if id != [] && Digits(id[1..]) {
      forall c | c in id[1..]
        ensures '0' <= c <= '9'
      {
        var i :| 0 <= i < |id[1..]| && id[1..][i] == c;
      }
    }
    assert forall i :: 0 <= i < |id| - 1 ==> id[1..][i] in id[1..];
  }

  lemma DigitIsListed(c: char)
    ensures '0' <= c <= '9' <==> c in "0123456789"
  {
    var all := "0123456789";
    assert all[0] == '0' && all[1] == '1' && all[2] == '2' && all[3] == '3' && all[4] == '4';
    assert all[5] == '5' && all[6] == '6' && all[7] == '7' && all[8] == '8' && all[9] == '9';
  }

  /** structured_item_id_family: the prefix of the identifier that names its family. */
  function Family(id: string): (r: string)
    ensures r <= id
    ensures "R-FATAL-" <= id ==> r + "-" <= id && |r| == 7
    ensures "P-" <= id ==> "P-" <= r && UpToDash(r[2..], id[2..])
    ensures |id| > 1 && id[0] in "SF" && (forall c :: c in id[1..] ==> c in "0123456789") ==> r == id[..1]
    ensures || "R-FATAL-" <= id || "P-" <= id || UpToDash(r, id)
            || (|id| > 1 && id[0] in "SF" && forall c :: c in id[1..] ==> c in "0123456789")
  {
    NumberedIsSpelledOut(id);
    if "R-FATAL-" <= id then "R-FATAL"
    else if "P-" <= id then "P-" + BeforeDash(id[2..])
    else if Numbered(id) then id[..1]
    else BeforeDash(id)
  }

  // ---- structured_item_id_family_summary ----

  datatype Entry = Entry(family: string, total: nat, uncataloged: nat, samples: seq<string>)

  function In(family: string): string -> bool {
    (id: string) => Family(id) == family
  }

  function Missing(family: string, catalog: set<string>): string -> bool {
    (id: string) => Family(id) == family && id !in catalog
  }

  // A family's entry after the given identifiers.
  function EntryOf(family: string, ids: seq<string>, catalog: set<string>): Entry {
    var missing := Filter(ids, Missing(family, catalog));
    Entry(family, CountIf(ids, In(family)), CountIf(ids, Missing(family, catalog)), Take(missing, 10))
  }

  function FamiliesOf(ids: seq<string>): set<string> {
    set id | id in ids :: Family(id)
  }

  // An entry after one more identifier of its family.
  function Bump(e: Entry, id: string, catalog: set<string>): Entry {
    if id in catalog then e.(total := e.total + 1)
    else Entry(e.family, e.total + 1, e.uncataloged + 1, if |e.samples| < 10 then e.samples + [id] else e.samples)
  }

  lemma Bumped(was: Entry, e: Entry, id: string, catalog: set<string>)
    requires e == if id in catalog then was.(total := was.total + 1)
                  else was.(total := was.total + 1, uncataloged := was.uncataloged + 1,
                            samples := if |was.samples| < 10 then was.samples + [id] else was.samples)
    ensures e == Bump(was, id, catalog)
  {
  }

  lemma EntryStep(family: string, ids: seq<string>, catalog: set<string>, id: string)
    ensures EntryOf(family, ids + [id], catalog) ==
            if Family(id) == family then Bump(EntryOf(family, ids, catalog), id, catalog)
            else EntryOf(family, ids, catalog)
  {
    hide Family;
    assert (ids + [id])[..|ids|] == ids;
    FilterMembers(ids, Missing(family, catalog));
  }

  lemma NoEntryYet(family: string, ids: seq<string>, catalog: set<string>)
    requires family !in FamiliesOf(ids)
    ensures EntryOf(family, ids, catalog) == Entry(family, 0, 0, [])
  {
    CountsSome(ids, In(family));
    CountsSome(ids, Missing(family, catalog));
    FilterMembers(ids, Missing(family, catalog));
  }

  lemma NoFamilies()
    ensures FamiliesOf([]) == {}
  {
  }

  lemma FamiliesGrow(ids: seq<string>, id: string)
    ensures FamiliesOf(ids + [id]) == FamiliesOf(ids) + {Family(id)}
  {
    assert Family(id) in FamiliesOf(ids + [id]) by {
      assert id in ids + [id];
    }
  }

  // The counting loop: one entry per family seen so far.
  method CountFamilies(ids: seq<string>, catalog: set<string>) returns (families: map<string, Entry>)
    ensures families.Keys == FamiliesOf(ids)
    ensures forall f :: f in families ==> families[f] == EntryOf(f, ids, catalog)
  {
    hide EntryOf, Family, FamiliesOf, Bump;
    families := map[];
    assert FamiliesOf(ids[..0]) == {} by {
      NoFamilies();
    }
    for i := 0 to |ids|
      invariant families.Keys == FamiliesOf(ids[..i])
      invariant forall f :: f in families ==> families[f] == EntryOf(f, ids[..i], catalog)
    {
      var id, family := ids[i], Family(ids[i]);
      ghost var before := ids[..i];
      assert ids[..i + 1] == before + [id];
      if family !in families {
        NoEntryYet(family, before, catalog);
      }
      forall f
        ensures EntryOf(f, ids[..i + 1], catalog) ==
                if family == f then Bump(EntryOf(f, before, catalog), id, catalog) else EntryOf(f, before, catalog)
      {
        EntryStep(f, before, catalog, id);
      }
      FamiliesGrow(before, id);
      var e := if family in families then families[family] else Entry(family, 0, 0, []);
      ghost var was := e;
      e := e.(total := e.total + 1);
      if id !in catalog {
        e := e.(uncataloged := e.uncataloged + 1);
        if |e.samples| < 10 {
          e := e.(samples := e.samples + [id]);
        }
      }
      Bumped(was, e, id, catalog);
      families := families[family := e];
    }
    assert ids[..|ids|] == ids;
  }

  // One entry per family, in order of the families, each counting the identifiers of the family.
  ghost predicate IsSummary(entries: seq<Entry>, ids: set<string>, catalog: set<string>) {
    exists ordered, names ::
      && Sorted(ordered, ids) && Sorted(names, FamiliesOf(ordered)) && |entries| == |names|
      && forall i :: 0 <= i < |names| ==> entries[i] == EntryOf(names[i], ordered, catalog)
  }

  lemma {:induction false} FilterKeepsSorted(s: seq<string>, f: string -> bool)
    requires SortedBy(Ascending(), s)
    ensures SortedBy(Ascending(), Filter(s, f))
  {
    hide Filter;
    var at := FilterKeepsOrder(s, f);
  }

  // The identifiers of a family that the catalog lacks.
  ghost function Lacking(ids: set<string>, family: string, catalog: set<string>): set<string> {
    set id | id in ids && Family(id) == family && id !in catalog
  }

  // An entry counts its family, and its samples are the first ten in order of those the catalog lacks.
  ghost predicate Sums(e: Entry, ids: set<string>, catalog: set<string>) {
    var lacking := Lacking(ids, e.family, catalog);
    && e.total == |set id | id in ids && Family(id) == e.family|
    && e.uncataloged == |lacking|
    && |e.samples| == (if |lacking| < 10 then |lacking| else 10)
    && Sorted(e.samples, Members(e.samples)) && Members(e.samples) <= lacking
    && forall id, i :: id in lacking - Members(e.samples) && 0 <= i < |e.samples| ==> StrLe(e.samples[i], id)
  }

  lemma EntrySums(family: string, ordered: seq<string>, ids: set<string>, catalog: set<string>)
    requires Sorted(ordered, ids)
    ensures Sums(EntryOf(family, ordered, catalog), ids, catalog)
  {
    hide Family, Filter, CountIf, StrLe;
    var e, missing := EntryOf(family, ordered, catalog), Filter(ordered, Missing(family, catalog));
    var lacking := Lacking(ids, family, catalog);
    InMembers(ordered, ids);
    CountIsSize(ordered, In(family), set id | id in ids && Family(id) == family);
    CountIsSize(ordered, Missing(family, catalog), lacking);
    FilterMembers(ordered, Missing(family, catalog));
    FilterDistinct(ordered, Missing(family, catalog));
    FilterKeepsSorted(ordered, Missing(family, catalog));
    FirstOnes(missing, 10);
    assert Members(missing) == lacking;
  }

  lemma InMembers(list: seq<string>, s: set<string>)
    requires Members(list) == s
    ensures forall x :: x in s <==> x in list
  {
  }

  lemma FirstOnes(s: seq<string>, n: nat)
    requires Distinct(s) && SortedBy(Ascending(), s)
    ensures var t := Take(s, n);
            && Sorted(t, Members(t)) && Members(t) <= Members(s)
            && forall x, i :: x in Members(s) - Members(t) && 0 <= i < |t| ==> StrLe(t[i], x)
  {
    hide StrLe;
    var t := Take(s, n);
    assert forall i :: 0 <= i < |t| ==> t[i] == s[i] && t[i] in Members(t);
    forall x, i | x in Members(s) - Members(t) && 0 <= i < |t|
      ensures StrLe(t[i], x)
    {
      var j :| 0 <= j < |s| && s[j] == x;
      assert Ascending()(s[i], s[j]);
    }
  }

  lemma SummarySums(entries: seq<Entry>, ids: set<string>, catalog: set<string>)
    requires IsSummary(entries, ids, catalog)
    ensures forall i :: 0 <= i < |entries| ==> Sums(entries[i], ids, catalog)
  {
    hide EntryOf, Sums, FamiliesOf;
    var ordered, names :| && Sorted(ordered, ids) && Sorted(names, FamiliesOf(ordered)) && |entries| == |names|
                          && forall i :: 0 <= i < |names| ==> entries[i] == EntryOf(names[i], ordered, catalog);
    forall i | 0 <= i < |entries|
      ensures Sums(entries[i], ids, catalog)
    {
      EntrySums(names[i], ordered, ids, catalog);
    }
  }

  /** structured_item_id_family_summary */
  method FamilySummary(ids: set<string>, catalog: set<string>) returns (entries: seq<Entry>)
    ensures IsSummary(entries, ids, catalog)
    ensures forall i :: 0 <= i < |entries| ==> Sums(entries[i], ids, catalog)
  {
    hide EntryOf, Sums;
    var ordered := SortedSet(ids);
    var families := CountFamilies(ordered, catalog);
    var names := SortedSet(families.Keys);
    assert forall i :: 0 <= i < |names| ==> names[i] in Members(names);
    entries := seq(|names|, i requires 0 <= i < |names| && names[i] in families => families[names[i]]);
    SummarySums(entries, ids, catalog);
  }

  function SumTotals(entries: seq<Entry>): nat {
    if entries == [] then 0 else SumTotals(entries[..|entries| - 1]) + entries[|entries| - 1].total
  }

  function SumUncataloged(entries: seq<Entry>): nat {
    if entries == [] then 0 else SumUncataloged(entries[..|entries| - 1]) + entries[|entries| - 1].uncataloged
  }

  // The sum over the names of how many identifiers of the family pass the test.
  function SumOver(names: seq<string>, ids: seq<string>, test: string -> bool): nat {
    if names == [] then 0 else
      SumOver(names[..|names| - 1], ids, test) + CountIf(ids, Both(names[|names| - 1], test))
  }

  function Both(family: string, test: string -> bool): string -> bool {
    (id: string) => Family(id) == family && test(id)
  }

  lemma {:induction false} SumOverStep(names: seq<string>, ids: seq<string>, id: string, test: string -> bool)
    requires Distinct(names)
    ensures SumOver(names, ids + [id], test) ==
            SumOver(names, ids, test) + if Family(id) in names && test(id) then 1 else 0
  {
    assert (ids + [id])[..|ids|] == ids;
    if names != [] {
      var t, x := names[..|names| - 1], names[|names| - 1];
      assert names == t + [x];
      DistinctGrows(t, x);
      SumOverStep(t, ids, id, test);
    }
  }

  lemma {:induction false} SumOverNothing(names: seq<string>, test: string -> bool)
    ensures SumOver(names, [], test) == 0
  {
    if names != [] {
      SumOverNothing(names[..|names| - 1], test);
    }
  }

  // Every identifier that passes is counted in its own family and in no other.
  lemma {:induction false} SumOverCountsAll(names: seq<string>, ids: seq<string>, test: string -> bool)
    requires Distinct(names) && forall id :: id in ids && test(id) ==> Family(id) in names
    ensures SumOver(names, ids, test) == CountIf(ids, test)
  {
    if ids == [] {
      SumOverNothing(names, test);
    } else {
      var t, x := ids[..|ids| - 1], ids[|ids| - 1];
      assert ids == t + [x];
      SumOverCountsAll(names, t, test);
      SumOverStep(names, t, x, test);
    }
  }

  function Any(): string -> bool {
    (id: string) => true
  }

  function Outside(catalog: set<string>): string -> bool {
    (id: string) => id !in catalog
  }

  lemma {:induction false} EntriesSum(entries: seq<Entry>, names: seq<string>, ids: seq<string>, catalog: set<string>)
    requires |entries| == |names| && forall i :: 0 <= i < |names| ==> entries[i] == EntryOf(names[i], ids, catalog)
    ensures SumTotals(entries) == SumOver(names, ids, Any())
    ensures SumUncataloged(entries) == SumOver(names, ids, Outside(catalog))
  {
    if names != [] {
      var n := |names| - 1;
      EntriesSum(entries[..n], names[..n], ids, catalog);
      CountIfSame(ids, In(names[n]), Both(names[n], Any()));
      CountIfSame(ids, Missing(names[n], catalog), Both(names[n], Outside(catalog)));
    }
  }

  lemma ListedAddsUp(entries: seq<Entry>, ordered: seq<string>, names: seq<string>, catalog: set<string>)
    requires Distinct(ordered) && Distinct(names) && Members(names) == FamiliesOf(ordered) && |entries| == |names|
    requires forall i :: 0 <= i < |names| ==> entries[i] == EntryOf(names[i], ordered, catalog)
    ensures SumTotals(entries) == |Members(ordered)|
    ensures SumUncataloged(entries) == |Members(ordered) - catalog|
  {
    hide EntryOf, Family, CountIf, SumOver, SumTotals, SumUncataloged;
    EntriesSum(entries, names, ordered, catalog);
    forall id | id in ordered
      ensures Family(id) in names
    {
      assert Family(id) in Members(names);
    }
    SumOverCountsAll(names, ordered, Any());
    SumOverCountsAll(names, ordered, Outside(catalog));
    Counted(ordered, catalog);
  }

  lemma Counted(ids: seq<string>, catalog: set<string>)
    requires Distinct(ids)
    ensures CountIf(ids, Any()) == |Members(ids)|
    ensures CountIf(ids, Outside(catalog)) == |Members(ids) - catalog|
  {
    hide Filter, CountIf;
    CountIsSize(ids, Any(), Members(ids));
    CountIsSize(ids, Outside(catalog), Members(ids) - catalog);
  }

  /** The families account for every structured identifier, and for every one the catalog lacks. */
  lemma SummaryAddsUp(entries: seq<Entry>, ids: set<string>, catalog: set<string>)
    requires IsSummary(entries, ids, catalog)
    ensures SumTotals(entries) == |ids|
    ensures SumUncataloged(entries) == |ids - catalog|
  {
    hide EntryOf, SumTotals, SumUncataloged;
    var ordered, names :| && Sorted(ordered, ids) && Sorted(names, FamiliesOf(ordered)) && |entries| == |names|
                          && forall i :: 0 <= i < |names| ==> entries[i] == EntryOf(names[i], ordered, catalog);
    ListedAddsUp(entries, ordered, names, catalog);
  }

  // ---- structured_triage_evidence ----

  // An entry of the manifest; the owner or disposition is empty where the manifest gives none.
  datatype TriageEntry = TriageEntry(family: Option<string>, uncataloged: int, owner: string, disposition: string)

  // An expected count is absent if the manifest gives none; one that is no number reads as zero.
  datatype Manifest = Manifest(
    status: string, catalogId: Option<string>, expectedIds: Option<int>, expectedOccurrences: Option<int>,
    entries: seq<TriageEntry>)

  datatype Outcome =
    | NotRequired
    | MissingFamilySummary
    | MissingManifest
    | Checked(passed: bool, missing: set<string>, extra: set<string>, mismatched: set<string>, incomplete: set<string>)

  function Required(families: seq<Entry>): map<string, int> {
    if families == [] then map[] else
      var e := families[|families| - 1];
      var before := Required(families[..|families| - 1]);
      if e.uncataloged > 0 then before[e.family := e.uncataloged] else before
  }

  // Of several entries for a family the last one counts.
  function Coverage(entries: seq<TriageEntry>): map<string, int> {
    if entries == [] then map[] else
      var e := entries[|entries| - 1];
      var before := Coverage(entries[..|entries| - 1]);
      if e.family.Some? then before[e.family.value := e.uncataloged] else before
  }

  function Unowned(entries: seq<TriageEntry>): set<string> {
    set i | 0 <= i < |entries| && entries[i].family.Some? && (entries[i].owner == "" || entries[i].disposition == "")
      :: entries[i].family.value
  }

  function Mismatched(required: map<string, int>, coverage: map<string, int>): set<string> {
    set f | f in required && (f !in coverage || coverage[f] != required[f])
  }

  // What the manifest says of itself fits the evidence.
  predicate HeaderFits(m: Manifest, uncataloged: int, occurrences: int, catalogId: Option<string>) {
    && m.status == "TRIAGED"
    && catalogId.Some? && m.catalogId == catalogId
    && m.expectedIds == Some(uncataloged)
    && m.expectedOccurrences == Some(occurrences)
  }

  method CollectRequired(families: seq<Entry>) returns (required: map<string, int>)
    ensures required == Required(families)
  {
    required := map[];
    for i := 0 to |families|
      invariant required == Required(families[..i])
    {
      assert families[..i + 1][..i] == families[..i];
      if families[i].uncataloged > 0 {
        required := required[families[i].family := families[i].uncataloged];
      }
    }
    assert families[..|families|] == families;
  }

  method CollectCoverage(entries: seq<TriageEntry>) returns (coverage: map<string, int>, incomplete: set<string>)
    ensures coverage == Coverage(entries) && incomplete == Unowned(entries)
  {
    coverage, incomplete := map[], {};
    for i := 0 to |entries|
      invariant coverage == Coverage(entries[..i]) && incomplete == Unowned(entries[..i])
    {
      var e := entries[i];
      assert entries[..i + 1][..i] == entries[..i];
      if e.family.Some? {
        coverage := coverage[e.family.value := e.uncataloged];
        if e.owner == "" {
          incomplete := incomplete + {e.family.value};
        }
        if e.disposition == "" {
          incomplete := incomplete + {e.family.value};
        }
      }
    }
    assert entries[..|entries|] == entries;
  }

  ghost predicate IsOutcome(o: Outcome, uncataloged: int, occurrences: int, families: Option<seq<Entry>>,
                            manifest: Option<Manifest>, catalogId: Option<string>) {
    if uncataloged == 0 then o.NotRequired?
    else if families.None? then o.MissingFamilySummary?
    else if manifest.None? then o.MissingManifest?
    else
      var required, coverage := Required(families.value), Coverage(manifest.value.entries);
      && o.Checked?
      && o.missing == required.Keys - coverage.Keys && o.extra == coverage.Keys - required.Keys
      && o.mismatched == Mismatched(required, coverage)
      && o.incomplete == Unowned(manifest.value.entries)
      && (o.passed <==> HeaderFits(manifest.value, uncataloged, occurrences, catalogId)
                        && o.missing == {} && o.extra == {} && o.mismatched == {} && o.incomplete == {})
  }

  // ---- the outcome, entry by entry ----

  // The summary needs the family covered; entry k is the last that says so.
  ghost predicate Needs(families: seq<Entry>, k: nat, f: string) {
    && k < |families| && families[k].family == f && families[k].uncataloged > 0
    && forall j :: k < j < |families| && families[j].uncataloged > 0 ==> families[j].family != f
  }

  // Entry k of the manifest is the last for the family.
  ghost predicate LastFor(entries: seq<TriageEntry>, k: nat, f: string) {
    && k < |entries| && entries[k].family == Some(f)
    && forall j :: k < j < |entries| ==> entries[j].family != Some(f)
  }

  ghost predicate Needed(families: seq<Entry>, f: string) {
    exists k: nat :: Needs(families, k, f)
  }

  ghost predicate Named(entries: seq<TriageEntry>, f: string) {
    exists k: nat :: LastFor(entries, k, f)
  }

  // The family is needed with a count that the last entry for it, if there is one, does not give.
  ghost predicate Miscounted(families: seq<Entry>, entries: seq<TriageEntry>, f: string) {
    exists k: nat :: Needs(families, k, f)
      && forall j: nat :: LastFor(entries, j, f) ==> entries[j].uncataloged != families[k].uncataloged
  }

  lemma NeedsStep(t: seq<Entry>, e: Entry, f: string)
    ensures e.uncataloged > 0 && e.family == f ==> forall k: nat :: Needs(t + [e], k, f) <==> k == |t|
    ensures !(e.uncataloged > 0 && e.family == f) ==> forall k: nat :: Needs(t + [e], k, f) <==> Needs(t, k, f)
  {
    var all := t + [e];
    assert forall j :: 0 <= j < |t| ==> all[j] == t[j];
    assert all[|t|] == e;
  }

  lemma {:induction false} RequiredIsLast(families: seq<Entry>, f: string)
    ensures f in Required(families) <==> exists k: nat :: Needs(families, k, f)
    ensures forall k: nat :: Needs(families, k, f) ==>
              k < |families| && f in Required(families) && Required(families)[f] == families[k].uncataloged
  {
    if families == [] {
      assert forall k: nat :: !Needs(families, k, f);
    } else {
      var t, e := families[..|families| - 1], families[|families| - 1];
      assert families == t + [e];
      NeedsStep(t, e, f);
      RequiredIsLast(t, f);
      hide Needs;
      assert e.uncataloged > 0 && e.family == f ==> Needs(families, |t|, f);
    }
  }

  lemma LastForStep(t: seq<TriageEntry>, e: TriageEntry, f: string)
    ensures e.family == Some(f) ==> forall k: nat :: LastFor(t + [e], k, f) <==> k == |t|
    ensures e.family != Some(f) ==> forall k: nat :: LastFor(t + [e], k, f) <==> LastFor(t, k, f)
  {
    var all := t + [e];
    assert forall j :: 0 <= j < |t| ==> all[j] == t[j];
    assert all[|t|] == e;
  }

  lemma {:induction false} CoverageIsLast(entries: seq<TriageEntry>, f: string)
    ensures f in Coverage(entries) <==> exists k: nat :: LastFor(entries, k, f)
    ensures forall k: nat :: LastFor(entries, k, f) ==>
              k < |entries| && f in Coverage(entries) && Coverage(entries)[f] == entries[k].uncataloged
  {
    if entries == [] {
      assert forall k: nat :: !LastFor(entries, k, f);
    } else {
      var t, e := entries[..|entries| - 1], entries[|entries| - 1];
      assert entries == t + [e];
      LastForStep(t, e, f);
      CoverageIsLast(t, f);
      hide LastFor;
      assert e.family == Some(f) ==> LastFor(entries, |t|, f);
    }
  }

  // Whether some entry leaves out who owns the family or what becomes of it.
  ghost predicate LeftOpen(entries: seq<TriageEntry>, f: string) {
    exists e :: e in entries && e.family == Some(f) && (e.owner == "" || e.disposition == "")
  }

  lemma UnownedMeans(entries: seq<TriageEntry>)
    ensures forall f :: f in Unowned(entries) <==> LeftOpen(entries, f)
  {
    forall f | LeftOpen(entries, f)
      ensures f in Unowned(entries)
    {
      var e :| e in entries && e.family == Some(f) && (e.owner == "" || e.disposition == "");
      var i :| 0 <= i < |entries| && entries[i] == e;
    }
  }

  ghost predicate OutcomeSays(o: Outcome, uncataloged: int, occurrences: int, families: seq<Entry>, m: Manifest,
                              catalogId: Option<string>) {
    && o.Checked?
    && (forall f :: f in o.missing <==> Needed(families, f) && !Named(m.entries, f))
    && (forall f :: f in o.extra <==> !Needed(families, f) && Named(m.entries, f))
    && (forall f :: f in o.mismatched <==> Miscounted(families, m.entries, f))
    && (forall f :: f in o.incomplete <==> LeftOpen(m.entries, f))
    && (o.passed <==>
        && m.status == "TRIAGED" && catalogId.Some? && m.catalogId == catalogId
        && m.expectedIds == Some(uncataloged) && m.expectedOccurrences == Some(occurrences)
        && o.missing == o.extra == o.mismatched == o.incomplete == {})
  }

  lemma MismatchedMeans(families: seq<Entry>, entries: seq<TriageEntry>, f: string)
    ensures f in Mismatched(Required(families), Coverage(entries)) <==> Miscounted(families, entries, f)
  {
    hide Needs, LastFor, Required, Coverage;
    RequiredIsLast(families, f);
    CoverageIsLast(entries, f);
  }

  lemma OutcomeMeans(o: Outcome, uncataloged: int, occurrences: int, families: seq<Entry>, m: Manifest,
                     catalogId: Option<string>)
    requires uncataloged != 0 && IsOutcome(o, uncataloged, occurrences, Some(families), Some(m), catalogId)
    ensures OutcomeSays(o, uncataloged, occurrences, families, m, catalogId)
  {
    hide Needs, LastFor, Required, Coverage, LeftOpen, Unowned, Miscounted, Mismatched;
    UnownedMeans(m.entries);
    forall f
      ensures f in Required(families) <==> Needed(families, f)
      ensures f in Coverage(m.entries) <==> Named(m.entries, f)
      ensures f in Mismatched(Required(families), Coverage(m.entries)) <==> Miscounted(families, m.entries, f)
    {
      RequiredIsLast(families, f);
      CoverageIsLast(m.entries, f);
      MismatchedMeans(families, m.entries, f);
    }
    hide Needed, Named;
  }

  /** structured_triage_evidence */
  method StructuredTriage(uncataloged: int, occurrences: int, families: Option<seq<Entry>>, manifest: Option<Manifest>,
                          catalogId: Option<string>) returns (o: Outcome)
    ensures IsOutcome(o, uncataloged, occurrences, families, manifest, catalogId)
    ensures uncataloged != 0 && families.Some? && manifest.Some? ==>
              OutcomeSays(o, uncataloged, occurrences, families.value, manifest.value, catalogId)
  {
    hide OutcomeSays;
    if uncataloged == 0 {
      return NotRequired;
    }
    if families.None? {
      return MissingFamilySummary;
    }
    if manifest.None? {
      return MissingManifest;
    }
    var required := CollectRequired(families.value);
    var coverage, incomplete := CollectCoverage(manifest.value.entries);
    var missing, extra := required.Keys - coverage.Keys, coverage.Keys - required.Keys;
    var mismatched := Mismatched(required, coverage);
    var passed := HeaderFits(manifest.value, uncataloged, occurrences, catalogId)
                  && missing == {} && extra == {} && mismatched == {} && incomplete == {};
    o := Checked(passed, missing, extra, mismatched, incomplete);
    OutcomeMeans(o, uncataloged, occurrences, families.value, manifest.value, catalogId);
  }

  // ---- what an accepted triage covers ----

  function OfFamily(ids: set<string>, family: string): set<string> {
    set id | id in ids && Family(id) == family
  }

  function FamiliesIn(ids: set<string>): set<string> {
    set id | id in ids :: Family(id)
  }

  // The manifest names exactly the families of the given identifiers, with how many each has.
  ghost predicate Covers(coverage: map<string, int>, ids: set<string>) {
    && coverage.Keys == FamiliesIn(ids)
    && forall f :: f in coverage ==> coverage[f] == |OfFamily(ids, f)|
  }

  lemma EntryCounts(family: string, ordered: seq<string>, catalog: set<string>)
    requires Distinct(ordered)
    ensures EntryOf(family, ordered, catalog).uncataloged == |OfFamily(Members(ordered) - catalog, family)|
  {
    hide Family, Filter, CountIf;
    CountIsSize(ordered, Missing(family, catalog), OfFamily(Members(ordered) - catalog, family));
  }

  lemma {:induction false} RequiredMeans(entries: seq<Entry>, names: seq<string>, ordered: seq<string>,
                                         catalog: set<string>)
    requires Distinct(ordered) && Distinct(names) && |entries| == |names|
    requires forall i :: 0 <= i < |names| ==> entries[i] == EntryOf(names[i], ordered, catalog)
    ensures forall f :: f in Required(entries) <==> f in names && OfFamily(Members(ordered) - catalog, f) != {}
    ensures forall f :: f in Required(entries) ==> Required(entries)[f] == |OfFamily(Members(ordered) - catalog, f)|
  {
    hide EntryOf, OfFamily;
    if names != [] {
      var n := |names| - 1;
      assert names == names[..n] + [names[n]];
      RequiredMeans(entries[..n], names[..n], ordered, catalog);
      EntryCounts(names[n], ordered, catalog);
      EntryNames(names[n], ordered, catalog);
    }
  }

  lemma EntryNames(family: string, ids: seq<string>, catalog: set<string>)
    ensures EntryOf(family, ids, catalog).family == family
  {
  }

  // What the summary requires is what the uncataloged identifiers need.
  lemma RequiredCovers(entries: seq<Entry>, ids: set<string>, catalog: set<string>)
    requires IsSummary(entries, ids, catalog)
    ensures Covers(Required(entries), ids - catalog)
  {
    hide EntryOf, Required, Family;
    var ordered, names :| && Sorted(ordered, ids) && Sorted(names, FamiliesOf(ordered)) && |entries| == |names|
                          && forall i :: 0 <= i < |names| ==> entries[i] == EntryOf(names[i], ordered, catalog);
    RequiredMeans(entries, names, ordered, catalog);
    forall f
      ensures f in Required(entries) <==> f in FamiliesIn(ids - catalog)
    {
      if f in FamiliesIn(ids - catalog) {
        var id :| id in ids - catalog && Family(id) == f;
        assert id in OfFamily(ids - catalog, f);
        assert id in Members(ordered);
        assert f in Members(names);
      }
      if OfFamily(ids - catalog, f) != {} {
        var id :| id in OfFamily(ids - catalog, f);
        assert id in ids - catalog;
      }
    }
  }

  lemma SameMaps(a: map<string, int>, b: map<string, int>)
    ensures a == b <==> b.Keys - a.Keys == {} && a.Keys - b.Keys == {} && Mismatched(b, a) == {}
  {
    if b.Keys - a.Keys == {} && a.Keys - b.Keys == {} && Mismatched(b, a) == {} {
      forall f
        ensures f in a <==> f in b
        ensures f in a ==> a[f] == b[f]
      {
        assert f !in b.Keys - a.Keys && f !in a.Keys - b.Keys && f !in Mismatched(b, a);
      }
    }
  }

  lemma CoversOnce(a: map<string, int>, b: map<string, int>, ids: set<string>)
    requires Covers(a, ids) && Covers(b, ids)
    ensures a == b
  {
  }

  ghost predicate HasMember(ids: set<string>, f: string) {
    exists id :: id in ids && Family(id) == f
  }

  // Read last-wins, the entries name exactly the families of the identifiers, with how many each has.
  ghost predicate EntriesCover(entries: seq<TriageEntry>, ids: set<string>) {
    && (forall f :: Named(entries, f) <==> HasMember(ids, f))
    && forall f, k: nat :: LastFor(entries, k, f) ==>
         entries[k].uncataloged == |set id | id in ids && Family(id) == f|
  }

  lemma CoverageCovers(entries: seq<TriageEntry>, ids: set<string>)
    ensures Covers(Coverage(entries), ids) <==> EntriesCover(entries, ids)
  {
    hide LastFor, Coverage, Family;
    forall f
      ensures f in Coverage(entries) <==> Named(entries, f)
      ensures forall k: nat :: LastFor(entries, k, f) ==>
                k < |entries| && f in Coverage(entries) && Coverage(entries)[f] == entries[k].uncataloged
      ensures f in FamiliesIn(ids) <==> HasMember(ids, f)
      ensures OfFamily(ids, f) == set id | id in ids && Family(id) == f
    {
      CoverageIsLast(entries, f);
    }
    hide OfFamily, FamiliesIn, HasMember;
    if Covers(Coverage(entries), ids) {
      forall f
        ensures Named(entries, f) <==> HasMember(ids, f)
      {
        assert f in Coverage(entries) <==> f in FamiliesIn(ids);
      }
      forall f, k: nat | LastFor(entries, k, f)
        ensures k < |entries| && entries[k].uncataloged == |set id | id in ids && Family(id) == f|
      {
        assert Coverage(entries)[f] == |OfFamily(ids, f)|;
      }
    }
    if EntriesCover(entries, ids) {
      assert Coverage(entries).Keys == FamiliesIn(ids);
      forall f | f in Coverage(entries)
        ensures Coverage(entries)[f] == |OfFamily(ids, f)|
      {
        var k: nat :| LastFor(entries, k, f);
      }
    }
  }

  /** A triage passes exactly when its header fits, every entry is owned, and it covers the uncataloged identifiers. */
  lemma TriageCovers(o: Outcome, entries: seq<Entry>, ids: set<string>, catalog: set<string>, occurrences: int,
                     m: Manifest, catalogId: Option<string>)
    requires IsSummary(entries, ids, catalog) && ids - catalog != {}
    requires IsOutcome(o, |ids - catalog|, occurrences, Some(entries), Some(m), catalogId)
    ensures o.Checked?
    ensures o.passed <==>
            && m.status == "TRIAGED" && catalogId.Some? && m.catalogId == catalogId
            && m.expectedIds == Some(|ids - catalog|) && m.expectedOccurrences == Some(occurrences)
            && (forall f :: !LeftOpen(m.entries, f))
            && EntriesCover(m.entries, ids - catalog)
  {
    hide IsSummary, Unowned, Coverage, Covers, Mismatched, Required, LeftOpen, EntriesCover;
    UnownedMeans(m.entries);
    CoverageCovers(m.entries, ids - catalog);
    RequiredCovers(entries, ids, catalog);
    SameMaps(Coverage(m.entries), Required(entries));
    if Covers(Coverage(m.entries), ids - catalog) {
      CoversOnce(Coverage(m.entries), Required(entries), ids - catalog);
    }
  }

  function SumListed(listing: seq<string>, coverage: map<string, int>): int
    requires forall f :: f in listing ==> f in coverage
  {
    if listing == [] then 0 else
      SumListed(listing[..|listing| - 1], coverage) + coverage[listing[|listing| - 1]]
  }

  lemma {:induction false} SumListedIsSumOver(listing: seq<string>, coverage: map<string, int>, ids: seq<string>)
    requires Distinct(ids) && Covers(coverage, Members(ids)) && forall f :: f in listing ==> f in coverage
    ensures SumListed(listing, coverage) == SumOver(listing, ids, Any())
  {
    hide Family, CountIf;
    if listing != [] {
      var f := listing[|listing| - 1];
      SumListedIsSumOver(listing[..|listing| - 1], coverage, ids);
      CountIsSize(ids, Both(f, Any()), OfFamily(Members(ids), f));
    }
  }

  /** In whatever order they are listed, the counts of a covering manifest add up to the uncataloged total. */
  lemma CoverageAddsUp(coverage: map<string, int>, ids: set<string>, listing: seq<string>)
    requires Covers(coverage, ids) && Distinct(listing) && Members(listing) == coverage.Keys
    ensures (forall f :: f in listing ==> f in coverage) && SumListed(listing, coverage) == |ids|
  {
    hide Family, CountIf, Covers, SumListed, SumOver;
    var ordered := Listed(ids);
    assert forall f :: f in listing <==> f in Members(listing);
    SumListedIsSumOver(listing, coverage, ordered);
    CoveredFamilies(coverage, ids);
    SumOverCountsAll(listing, ordered, Any());
    CountIsSize(ordered, Any(), ids);
  }

  lemma Listed(s: set<string>) returns (list: seq<string>)
    ensures Distinct(list) && Members(list) == s
  {
    if s == {} {
      list := [];
    } else {
      var x :| x in s;
      var rest := Listed(s - {x});
      DistinctGrows(rest, x);
      MembersGrow(rest, x);
      list := rest + [x];
    }
  }

  lemma CoveredFamilies(coverage: map<string, int>, ids: set<string>)
    requires Covers(coverage, ids)
    ensures forall id :: id in ids ==> Family(id) in coverage.Keys
  {
  }
}
