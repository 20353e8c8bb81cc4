/** The catalog's aggregate reconciliations: claimed totals that should be the sum of other claimed totals. */
module Reconciliation {
  import opened Jsons
  import opened Lists
  import opened StrictCorpus

  type Totals = map<string, int>

  function ClaimEntry(claim: Json, before: Totals): Totals {
    if !claim.Obj? || !Get(claim.fields, "claim_id").Str? || !Get(claim.fields, "claimed_total").Num? then before
    else before[Get(claim.fields, "claim_id").s := Get(claim.fields, "claimed_total").n]
  }

  // Of several claims with the same identifier the last one counts.
  function TotalsOf(claims: seq<Json>): Totals {
    if claims == [] then map[] else ClaimEntry(claims[|claims| - 1], TotalsOf(claims[..|claims| - 1]))
  }

  method AggregateClaimTotals(claims: seq<Json>) returns (totals: Totals)
    ensures totals == TotalsOf(claims)
  {
    totals := map[];
    for i := 0 to |claims|
      invariant totals == TotalsOf(claims[..i])
    {
      assert claims[..i + 1][..i] == claims[..i];
      totals := ClaimEntry(claims[i], totals);
    }
    assert claims[..|claims|] == claims;
  }

  // ---- what a sound reconciliation is ----

  function TermId(term: Json): Option<string> {
    if term.Obj? && Named(Get(term.fields, "claim_id")) then Some(Get(term.fields, "claim_id").s) else None
  }

  function Part(term: Json, totals: Totals): int {
    match TermId(term)
    case None => 0
    case Some(id) => if id in totals then totals[id] else 0
  }

  function SumTerms(terms: seq<Json>, totals: Totals): int {
    if terms == [] then 0 else SumTerms(terms[..|terms| - 1], totals) + Part(terms[|terms| - 1], totals)
  }

  function TargetOf(r: Json): Option<string> {
    if r.Obj? && Named(Get(r.fields, "target_claim_id")) then Some(Get(r.fields, "target_claim_id").s) else None
  }

  function TermsOf(r: Json): seq<Json> {
    if r.Obj? then ItemsOf(Get(r.fields, "terms")) else []
  }

  datatype Fault =
    | Malformed | MissingTarget | UnsupportedOperation | UnknownTarget
    | MalformedTerm | UnknownTerm | MissingTerms | ArithmeticMismatch

  // The term names a claim.
  ghost predicate NamesClaim(term: Json) {
    term.Obj? && HasText(term.fields, "claim_id")
  }

  ghost predicate Known(term: Json, totals: Totals) {
    NamesClaim(term) && term.fields["claim_id"].s in totals
  }

  ghost predicate HasTarget(r: Json, totals: Totals) {
    && r.Obj? && HasText(r.fields, "target_claim_id") && Get(r.fields, "operation") == Str("sum")
    && r.fields["target_claim_id"].s in totals
  }

  // The target is a claim, every term is a claim, there are terms, and the target's total is their sum.
  ghost predicate Sound(r: Json, totals: Totals) {
    && HasTarget(r, totals)
    && "terms" in r.fields && r.fields["terms"].Arr? && r.fields["terms"].items != []
    && (forall t :: t in r.fields["terms"].items ==> Known(t, totals))
    && totals[r.fields["target_claim_id"].s] == SumTerms(r.fields["terms"].items, totals)
  }

  // What is wrong with a reconciliation, the first of these if there are several.
  ghost predicate Wrong(r: Json, totals: Totals, fault: Fault) {
    match fault
    case Malformed => !r.Obj?
    case MissingTarget => r.Obj? && !HasText(r.fields, "target_claim_id")
    case UnsupportedOperation =>
      r.Obj? && HasText(r.fields, "target_claim_id") && Get(r.fields, "operation") != Str("sum")
    case UnknownTarget =>
      && r.Obj? && HasText(r.fields, "target_claim_id") && Get(r.fields, "operation") == Str("sum")
      && r.fields["target_claim_id"].s !in totals
    case MalformedTerm => HasTarget(r, totals) && exists t :: t in TermsOf(r) && !NamesClaim(t)
    case UnknownTerm =>
      && HasTarget(r, totals) && (forall t :: t in TermsOf(r) ==> NamesClaim(t))
      && exists t :: t in TermsOf(r) && !Known(t, totals)
    case MissingTerms => HasTarget(r, totals) && TermsOf(r) == []
    case ArithmeticMismatch =>
      && HasTarget(r, totals) && TermsOf(r) != [] && (forall t :: t in TermsOf(r) ==> Known(t, totals))
      && totals[r.fields["target_claim_id"].s] != SumTerms(TermsOf(r), totals)
  }

  // A list's sum is that of its parts, and a term counts its claim's total, or nothing.
  lemma {:induction false} TermsAddUp(s: seq<Json>, t: seq<Json>, totals: Totals)
    ensures SumTerms(s + t, totals) == SumTerms(s, totals) + SumTerms(t, totals)
  {
    if t == [] {
      assert s + t == s;
    } else {
      TermsAddUp(s, t[..|t| - 1], totals);
      assert (s + t)[..|s + t| - 1] == s + t[..|t| - 1];
    }
  }

  lemma KnownTermCounts(term: Json, totals: Totals)
    ensures SumTerms([term], totals) == if Known(term, totals) then totals[term.fields["claim_id"].s] else 0
  {
    assert SumTerms([term], totals) == SumTerms([], totals) + Part(term, totals);
  }

  lemma TermIdMeans(term: Json, totals: Totals)
    ensures TermId(term).Some? <==> NamesClaim(term)
    ensures TermId(term).Some? && TermId(term).value in totals <==> Known(term, totals)
  {
  }

  lemma TermsMean(terms: seq<Json>, totals: Totals)
    ensures (exists i :: 0 <= i < |terms| && TermId(terms[i]).None?) <==> exists t :: t in terms && !NamesClaim(t)
    ensures (forall i :: 0 <= i < |terms| && TermId(terms[i]).Some? ==> TermId(terms[i]).value in totals) <==>
            forall t :: t in terms && NamesClaim(t) ==> Known(t, totals)
  {
    hide TermId, NamesClaim, Known;
    forall t
      ensures TermId(t).Some? <==> NamesClaim(t)
      ensures TermId(t).Some? && TermId(t).value in totals <==> Known(t, totals)
    {
      TermIdMeans(t, totals);
    }
    assert forall i :: 0 <= i < |terms| ==> terms[i] in terms;
    if t :| t in terms && !NamesClaim(t) {
      var i :| 0 <= i < |terms| && terms[i] == t;
    }
    if forall i :: 0 <= i < |terms| && TermId(terms[i]).Some? ==> TermId(terms[i]).value in totals {
      forall t | t in terms && NamesClaim(t)
        ensures Known(t, totals)
      {
        var i :| 0 <= i < |terms| && terms[i] == t;
      }
    }
  }

  // The loop over the terms: whether one is malformed, which are unknown, how many identifiers, and the sum.
  method SumClaims(terms: seq<Json>, totals: Totals)
    returns (malformed: bool, missing: seq<string>, ids: seq<string>, sum: int)
    ensures malformed <==> exists i :: 0 <= i < |terms| && TermId(terms[i]).None?
    ensures missing == [] <==>
              forall i :: 0 <= i < |terms| && TermId(terms[i]).Some? ==> TermId(terms[i]).value in totals
    ensures !malformed ==> |ids| == |terms|
    ensures sum == SumTerms(terms, totals)
  {
    malformed, missing, ids, sum := false, [], [], 0;
    for i := 0 to |terms|
      invariant malformed <==> exists j :: 0 <= j < i && TermId(terms[j]).None?
      invariant missing == [] <==> forall j :: 0 <= j < i && TermId(terms[j]).Some? ==> TermId(terms[j]).value in totals
      invariant !malformed ==> |ids| == i
      invariant sum == SumTerms(terms[..i], totals)
    {
      assert terms[..i + 1][..i] == terms[..i];
      var id := TermId(terms[i]);
      if id.None? {
        malformed := true;
      } else {
        ids := ids + [id.value];
        if id.value !in totals {
          missing := missing + [id.value];
        } else {
          sum := sum + totals[id.value];
        }
      }
    }
    assert terms[..|terms|] == terms;
  }

  // One reconciliation: the first fault found, if it has one.
  method CheckReconciliation(r: Json, totals: Totals) returns (fault: Option<Fault>)
    ensures fault.None? <==> Sound(r, totals)
    ensures forall f :: fault == Some(f) <==> Wrong(r, totals, f)
  {
    hide SumTerms, TermId, NamesClaim;
    TermsMean(TermsOf(r), totals);
    if !r.Obj? {
      return Some(Malformed);
    }
    var target := TargetOf(r);
    if target.None? {
      return Some(MissingTarget);
    }
    if Get(r.fields, "operation") != Str("sum") {
      return Some(UnsupportedOperation);
    }
    if target.value !in totals {
      return Some(UnknownTarget);
    }
    var malformed, missing, ids, sum := SumClaims(TermsOf(r), totals);
    if malformed {
      return Some(MalformedTerm);
    }
    if missing != [] {
      return Some(UnknownTerm);
    }
    if ids == [] {
      return Some(MissingTerms);
    }
    if sum != totals[target.value] {
      return Some(ArithmeticMismatch);
    }
    return None;
  }

  datatype Status = NotApplicable | Complete | Incomplete

  datatype Summary = Summary(status: Status, total: nat, verified: nat, failed: int, faults: seq<Fault>)

  ghost function SoundAmong(rs: seq<Json>, totals: Totals): set<nat> {
    set i | 0 <= i < |rs| && Sound(rs[i], totals)
  }

  ghost function WrongUpTo(rs: seq<Json>, totals: Totals, fault: Fault, n: nat): set<nat>
    requires n <= |rs|
  {
    set i | 0 <= i < n && Wrong(rs[i], totals, fault)
  }

  lemma WrongStep(rs: seq<Json>, totals: Totals, fault: Fault, n: nat)
    requires n < |rs|
    ensures |WrongUpTo(rs, totals, fault, n + 1)| ==
            |WrongUpTo(rs, totals, fault, n)| + if Wrong(rs[n], totals, fault) then 1 else 0
  {
    hide Wrong;
    var before := WrongUpTo(rs, totals, fault, n);
    assert WrongUpTo(rs, totals, fault, n + 1) == if Wrong(rs[n], totals, fault) then before + {n} else before;
  }

  lemma NoneWrongYet(rs: seq<Json>, totals: Totals)
    ensures forall f :: WrongUpTo(rs, totals, f, 0) == {}
  {
  }

  lemma AllWrong(rs: seq<Json>, totals: Totals)
    ensures forall f :: WrongUpTo(rs, totals, f, |rs|) == set i | 0 <= i < |rs| && Wrong(rs[i], totals, f)
  {
    hide Wrong;
  }

  /** aggregate_reconciliation_summary: complete exactly if there are reconciliations and all are sound. */
  method AggregateReconciliation(catalog: Dict) returns (s: Summary)
    ensures var rs := ItemsOf(Get(catalog, "aggregate_reconciliations"));
            var totals := TotalsOf(ItemsOf(Get(catalog, "aggregate_claims")));
            && s.total == |rs| && s.verified == |SoundAmong(rs, totals)| && s.failed == |s.faults| == |rs| - s.verified
            && (forall f :: multiset(s.faults)[f] == |set i | 0 <= i < |rs| && Wrong(rs[i], totals, f)|)
            && (s.status.NotApplicable? <==> rs == [])
            && (s.status.Complete? <==> rs != [] && forall i :: 0 <= i < |rs| ==> Sound(rs[i], totals))
  {
    hide Sound, Wrong, WrongUpTo;
    var rs := ItemsOf(Get(catalog, "aggregate_reconciliations"));
    var totals := AggregateClaimTotals(ItemsOf(Get(catalog, "aggregate_claims")));
    var verified, faults := 0, [];
    ghost var sound: set<nat> := {};
    NoneWrongYet(rs, totals);
    for i := 0 to |rs|
      invariant verified + |faults| == i && |sound| == verified
      invariant forall j :: j in sound <==> 0 <= j < i && Sound(rs[j], totals)
      invariant faults == [] <==> forall j :: 0 <= j < i ==> Sound(rs[j], totals)
      invariant forall f :: multiset(faults)[f] == |WrongUpTo(rs, totals, f, i)|
    {
      var fault := CheckReconciliation(rs[i], totals);
      forall f
        ensures |WrongUpTo(rs, totals, f, i + 1)| == |WrongUpTo(rs, totals, f, i)| + if fault == Some(f) then 1 else 0
      {
        WrongStep(rs, totals, f, i);
      }
      if fault.Some? {
        faults := faults + [fault.value];
      } else {
        verified, sound := verified + 1, sound + {i};
      }
    }
    assert sound == SoundAmong(rs, totals);
    AllWrong(rs, totals);
    var failed := |rs| - verified;
    var status := if |rs| == 0 then NotApplicable else if failed == 0 then Complete else Incomplete;
    s := Summary(status, |rs|, verified, failed, faults);
  }

  // A claim has a total exactly if some claim with its identifier gives a number.
  lemma {:induction false} ClaimedTotals(claims: seq<Json>)
    ensures forall id :: id in TotalsOf(claims) <==>
              exists c :: c in claims && IsClaim(c) && Get(c.fields, "claim_id") == Str(id)
  {
    if claims != [] {
      var t, c := claims[..|claims| - 1], claims[|claims| - 1];
      ClaimedTotals(t);
      assert forall x :: x in claims <==> x in t || x == c;
    }
  }

  ghost predicate IsClaim(c: Json) {
    c.Obj? && Get(c.fields, "claim_id").Str? && Get(c.fields, "claimed_total").Num?
  }

  lemma {:induction false} LatestClaim(claims: seq<Json>, k: nat)
    requires k < |claims| && IsClaim(claims[k])
    requires forall j :: k < j < |claims| && IsClaim(claims[j]) ==>
               Get(claims[j].fields, "claim_id") != Get(claims[k].fields, "claim_id")
    ensures var id := Get(claims[k].fields, "claim_id").s;
            id in TotalsOf(claims) && TotalsOf(claims)[id] == Get(claims[k].fields, "claimed_total").n
  {
    var last := claims[|claims| - 1];
    if k < |claims| - 1 {
      LatestClaim(claims[..|claims| - 1], k);
    }
  }
}
