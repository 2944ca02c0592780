/**
 * What main.py and main_v4.py share in `search_with_constraints` and `explain_match`:
 * the walk over the ranked oversample returned by the vector index, the rent annotation and
 * the pieces of the explanation.
 */
module Retrieval {
  import opened Wrappers
  import opened Seqs
  import opened DataModel
  import opened Prefs

  /** One result of `collection.query`: the document id, its metadata and its distance. */
  datatype Hit = Hit(id: string, metadata: Metadata, distance: real)

  /** The vector index's answer: a ranked list of hits, or an exception. */
  datatype IndexResult = IndexError | Results(hits: seq<Hit>)

  /** One call `collection.query(query_texts=[text], n_results=k)`. */
  datatype Query = Query(text: string, k: int)

  /** The cap on the oversample: `n_results=min(50, len(self.df))`. */
  const OversampleCap: int := 50

  function OversampleSize(catalogSize: nat): (k: int)
    ensures k <= OversampleCap && k <= catalogSize
    ensures k == OversampleCap || k == catalogSize
  {
    if OversampleCap < catalogSize then OversampleCap else catalogSize
  }

  /** `filtered_df['Mahalle'].tolist()`. */
  function Mahalles(rows: seq<Row>): (r: seq<string>)
    ensures |r| == |rows| && forall i :: 0 <= i < |rows| ==> r[i] == rows[i].mahalle
  {
    seq(|rows|, i requires 0 <= i < |rows| => rows[i].mahalle)
  }

  /** `filtered_df['İlçe'].tolist()`. */
  function Ilces(rows: seq<Row>): (r: seq<string>)
    ensures |r| == |rows| && forall i :: 0 <= i < |rows| ==> r[i] == rows[i].ilce
  {
    seq(|rows|, i requires 0 <= i < |rows| => rows[i].ilce)
  }

  /** The post-filter test: the hit's `mahalle` is in the candidate mahalle list and its `ilce`
      is in the candidate ilce list, each looked up on its own. */
  predicate Admitted(h: Hit, mahalles: seq<string>, ilces: seq<string>) {
    h.metadata.mahalle in mahalles && h.metadata.ilce in ilces
  }

  /** The admitted hits, in rank order. */
  function AdmittedHits(hits: seq<Hit>, mahalles: seq<string>, ilces: seq<string>): seq<Hit> {
    if hits == [] then []
    else (if Admitted(hits[0], mahalles, ilces) then [hits[0]] else []) + AdmittedHits(hits[1..], mahalles, ilces)
  }

  /** How many admitted hits the walk collects before it breaks: the check
      `len(kept) >= n_results` runs after each append, so at least one is taken. */
  function Quota(n: int): (q: int)
    ensures q >= 1
    ensures n >= 1 ==> q == n
  {
    if n >= 1 then n else 1
  }

  /** The hits the walk keeps. */
  function KeptHits(hits: seq<Hit>, mahalles: seq<string>, ilces: seq<string>, n: int): seq<Hit> {
    Take(AdmittedHits(hits, mahalles, ilces), Quota(n))
  }

  lemma {:induction false} AdmittedHitsAppend(a: seq<Hit>, b: seq<Hit>, mahalles: seq<string>, ilces: seq<string>)
    ensures AdmittedHits(a + b, mahalles, ilces) == AdmittedHits(a, mahalles, ilces) + AdmittedHits(b, mahalles, ilces)
  {
    if a == [] {
      assert a + b == b;
    } else {
      assert (a + b)[0] == a[0] && (a + b)[1..] == a[1..] + b;
      AdmittedHitsAppend(a[1..], b, mahalles, ilces);
    }
  }

  /** The post-filter loop of `search_with_constraints`: walk the ranked hits, keep the
      admitted ones, stop once `n_results` are kept. */
  method PostFilter(hits: seq<Hit>, mahalles: seq<string>, ilces: seq<string>, n: int)
    returns (kept: seq<Hit>)
    ensures kept == KeptHits(hits, mahalles, ilces, n)
  {
    kept := [];
    var i := 0;
    while i < |hits|
      invariant 0 <= i <= |hits|
      invariant kept == AdmittedHits(hits[..i], mahalles, ilces)
      invariant |kept| < Quota(n)
    {
      var h := hits[i];
      AdmittedHitsAppend(hits[..i], [h], mahalles, ilces);
      assert hits[..i + 1] == hits[..i] + [h];
      if Admitted(h, mahalles, ilces) {
        kept := kept + [h];
        if |kept| >= n {
          assert hits == hits[..i + 1] + hits[i + 1..];
          AdmittedHitsAppend(hits[..i + 1], hits[i + 1..], mahalles, ilces);
          assert |kept| == Quota(n);
          return;
        }
      }
      i := i + 1;
    }
    assert hits[..i] == hits;
  }

  lemma {:induction false} AdmittedHitsShape(hits: seq<Hit>, mahalles: seq<string>, ilces: seq<string>)
    ensures IsSubsequence(AdmittedHits(hits, mahalles, ilces), hits)
    ensures forall h :: h in AdmittedHits(hits, mahalles, ilces) <==> h in hits && Admitted(h, mahalles, ilces)
  {
    if hits != [] {
      AdmittedHitsShape(hits[1..], mahalles, ilces);
      var rest := AdmittedHits(hits[1..], mahalles, ilces);
      if Admitted(hits[0], mahalles, ilces) {
        assert ([hits[0]] + rest)[1..] == rest;
      } else if rest != [] {
        assert AdmittedHits(hits, mahalles, ilces) == rest;
      }
      forall h ensures h in AdmittedHits(hits, mahalles, ilces) <==> h in hits && Admitted(h, mahalles, ilces) {
        assert h in hits <==> h == hits[0] || h in hits[1..];
      }
    }
  }

  /** The walk's output is an order-preserving subsequence of the ranked hits, every kept hit
      passes the per-column membership test, there are at most `n_results` of them (at most one
      when `n_results < 1`), and when fewer were kept every admitted hit was kept. */
  lemma PostFilterShape(hits: seq<Hit>, mahalles: seq<string>, ilces: seq<string>, n: int)
    ensures var kept := KeptHits(hits, mahalles, ilces, n);
      && IsSubsequence(kept, hits)
      && (forall h :: h in kept ==> Admitted(h, mahalles, ilces))
      && |kept| <= Quota(n)
      && (|kept| < Quota(n) ==> kept == AdmittedHits(hits, mahalles, ilces))
  {
    var all := AdmittedHits(hits, mahalles, ilces);
    var kept := KeptHits(hits, mahalles, ilces, n);
    AdmittedHitsShape(hits, mahalles, ilces);
    PrefixIsSubsequence(kept, all);
    SubsequenceTrans(kept, all, hits);
    SubsequenceElements(kept, all);
  }

  /** Membership is decided column by column: a hit is admitted when some candidate has its
      mahalle and some (possibly other) candidate has its ilce. */
  lemma AdmittedPerColumn(h: Hit, candidates: seq<Row>)
    ensures Admitted(h, Mahalles(candidates), Ilces(candidates)) <==>
      (exists i :: 0 <= i < |candidates| && candidates[i].mahalle == h.metadata.mahalle) &&
      (exists j :: 0 <= j < |candidates| && candidates[j].ilce == h.metadata.ilce)
  {
    var ms, ils := Mahalles(candidates), Ilces(candidates);
    if h.metadata.mahalle in ms {
      var i :| 0 <= i < |ms| && ms[i] == h.metadata.mahalle;
      assert candidates[i].mahalle == h.metadata.mahalle;
    }
    if h.metadata.ilce in ils {
      var j :| 0 <= j < |ils| && ils[j] == h.metadata.ilce;
      assert candidates[j].ilce == h.metadata.ilce;
    }
  }

  /** The financial fields of a recommendation. */
  datatype Finance = Finance(monthlyRent: Num, budgetRemaining: Num)

  /** One recommendation: the names, the similarity, the metadata and the optional rent fields. */
  datatype Recommendation = Recommendation(
    mahalle: string,
    ilce: string,
    similarity: real,
    metadata: Metadata,
    finance: Option<Finance>)

  /** The rent annotation for a neighborhood with rent per square meter `rate`: present exactly
      when `monthly_budget` is truthy, with the rent for the effective size and the remainder
      of the budget (which may be negative; nothing checks it). */
  function Annotate(p: Preferences, rate: Num): (f: Option<Finance>)
    ensures f.Some? <==> Truthy(p.monthlyBudget)
    ensures f.Some? ==> f.value.monthlyRent == Scale(rate, EffectiveSize(p))
    ensures f.Some? ==> f.value.budgetRemaining == Minus(p.monthlyBudget.value, f.value.monthlyRent)
    ensures f.Some? && rate.Real? ==>
      f.value.budgetRemaining.Real? && f.value.budgetRemaining.v == p.monthlyBudget.value - rate.v * EffectiveSize(p)
  {
    if Truthy(p.monthlyBudget) then
      var rent := Scale(rate, EffectiveSize(p));
      Some(Finance(rent, Minus(p.monthlyBudget.value, rent)))
    else None
  }

  /** The rent fields for the rate `rate`, written out: present exactly when `monthly_budget`
      is truthy; then the rent for the apartment size (the given one when truthy, else 80)
      and the budget less that rent, both NaN for a NaN rate. */
  predicate RentFields(f: Option<Finance>, p: Preferences, rate: Num) {
    var size := if Truthy(p.apartmentSizeSqm) then p.apartmentSizeSqm.value else 80.0;
    && (f.Some? <==> Truthy(p.monthlyBudget))
    && (f.Some? && rate.Real? ==>
          f.value == Finance(Real(rate.v * size), Real(p.monthlyBudget.value - rate.v * size)))
    && (f.Some? && rate.NaN? ==> f.value == Finance(NaN, NaN))
  }

  /** The annotation has these rent fields. */
  lemma AnnotateRentFields(p: Preferences, rate: Num)
    ensures RentFields(Annotate(p, rate), p, rate)
  {
  }

  /** The recommendation built from a kept hit: similarity `1 - distance`, and the rent read as
      `metadata.get('avg_rent_per_sqm', 0)`. */
  function SemanticRec(h: Hit, p: Preferences): (r: Recommendation)
    ensures r.mahalle == h.metadata.mahalle && r.ilce == h.metadata.ilce && r.metadata == h.metadata
    ensures r.similarity == 1.0 - h.distance
    ensures r.finance == Annotate(p, Lookup(h.metadata, AvgRentPerSqm, 0.0))
  {
    Recommendation(h.metadata.mahalle, h.metadata.ilce, 1.0 - h.distance, h.metadata,
      Annotate(p, Lookup(h.metadata, AvgRentPerSqm, 0.0)))
  }

  /** The "parse results" loop of `search_with_constraints`. */
  method ParseResults(kept: seq<Hit>, p: Preferences) returns (recs: seq<Recommendation>)
    ensures |recs| == |kept|
    ensures forall k :: 0 <= k < |kept| ==> recs[k] == SemanticRec(kept[k], p)
  {
    recs := [];
    for i := 0 to |kept|
      invariant |recs| == i
      invariant forall k :: 0 <= k < i ==> recs[k] == SemanticRec(kept[k], p)
    {
      var h := kept[i];
      var rec := Recommendation(h.metadata.mahalle, h.metadata.ilce, 1.0 - h.distance, h.metadata, None);
      if Truthy(p.monthlyBudget) {
        var size := EffectiveSize(p);
        var rentPerSqm := Lookup(h.metadata, AvgRentPerSqm, 0.0);
        var monthlyRent := Scale(rentPerSqm, size);
        rec := rec.(finance := Some(Finance(monthlyRent, Minus(p.monthlyBudget.value, monthlyRent))));
      }
      recs := recs + [rec];
    }
  }

  /** One reason of `explain_match`; the numbers are those its message shows. */
  datatype Reason =
    | WellUnderBudget(saves: real)
    | WithinBudget(saves: real)
    | MeetsGreenSpace(index: real)
    | HasSchools(schools: int)
    | HasParks(parks: int)
    | GoodTransport(stations: int)
    | ExcellentQuakeSafety
    | GoodQuakeSafety(casualties: int)
    | ModerateQuakeSafety(casualties: int)

  /** The position of a reason's kind in the fixed order budget, green, schools, parks,
      transport, earthquake. */
  function Category(r: Reason): nat {
    match r
    case WellUnderBudget(_) => 0
    case WithinBudget(_) => 0
    case MeetsGreenSpace(_) => 1
    case HasSchools(_) => 2
    case HasParks(_) => 3
    case GoodTransport(_) => 4
    case _ => 5
  }

  /** The outcome of `explain_match`: the reasons, or the `KeyError` raised by `meta[key]`. */
  datatype Explanation = Reasons(reasons: seq<Reason>) | MissingKey(key: MetaKey)

  /** The outcome of one step that reads `meta[key]`. */
  datatype Step = Emit(reasons: seq<Reason>) | Raise(key: MetaKey)

  /** The budget reason, tiered by `budget_remaining`: above 5000 "well under", above 0
      "within", otherwise none; none when there is no finance or the remainder is NaN. */
  function BudgetReasons(rec: Recommendation): (rs: seq<Reason>)
    ensures |rs| <= 1
    ensures rec.finance.None? ==> rs == []
    ensures rec.finance.Some? ==> var b := rec.finance.value.budgetRemaining;
      && (b.Real? && b.v > 5000.0 ==> rs == [WellUnderBudget(b.v)])
      && (b.Real? && 0.0 < b.v <= 5000.0 ==> rs == [WithinBudget(b.v)])
      && (b.NaN? || b.v <= 0.0 ==> rs == [])
  {
    if rec.finance.Some? && NumTruthy(rec.finance.value.budgetRemaining) then
      var b := rec.finance.value.budgetRemaining;
      if b.Real? && b.v > 5000.0 then [WellUnderBudget(b.v)]
      else if b.Real? && b.v > 0.0 then [WithinBudget(b.v)]
      else []
    else []
  }

  /** The green-space reason: when `min_green_index` is truthy and
      `meta.get('green_index', 0) >= min_green_index`; the message then reads `meta['green_index']`. */
  function GreenStep(meta: Metadata, p: Preferences): Step {
    if Truthy(p.minGreenIndex) && AtLeast(Lookup(meta, GreenIndexKey, 0.0), p.minGreenIndex.value) then
      if GreenIndexKey in meta.values then Emit([MeetsGreenSpace(meta.values[GreenIndexKey].v)])
      else Raise(GreenIndexKey)
    else Emit([])
  }

  /** The schools reason, read as `int(meta['school'])`. */
  function SchoolStep(meta: Metadata, p: Preferences): Step {
    if Truthy(p.minSchools) && AtLeast(Lookup(meta, SchoolKey, 0.0), p.minSchools.value) then
      if SchoolKey in meta.values then Emit([HasSchools(Trunc(meta.values[SchoolKey].v))])
      else Raise(SchoolKey)
    else Emit([])
  }

  /** The parks reason, read as `int(meta['park'])`. */
  function ParkStep(meta: Metadata, p: Preferences): Step {
    if Truthy(p.minParks) && AtLeast(Lookup(meta, ParkKey, 0.0), p.minParks.value) then
      if ParkKey in meta.values then Emit([HasParks(Trunc(meta.values[ParkKey].v))])
      else Raise(ParkKey)
    else Emit([])
  }

  /** The transport reason (main.py only): `meta.get('total_stations', 0) >= min_total_stations`. */
  function TransportReasons(meta: Metadata, p: Preferences): (rs: seq<Reason>)
    ensures rs != [] <==> Truthy(p.minTotalStations) && AtLeast(Lookup(meta, TotalStationsKey, 0.0), p.minTotalStations.value)
    ensures rs != [] ==> rs == [GoodTransport(Trunc(Lookup(meta, TotalStationsKey, 0.0).v))]
  {
    if Truthy(p.minTotalStations) then
      var total := Lookup(meta, TotalStationsKey, 0.0);
      if AtLeast(total, p.minTotalStations.value) then [GoodTransport(Trunc(total.v))] else []
    else []
  }

  /** Whether the earthquake branch of `explain_match` runs. */
  predicate QuakeConcern(p: Preferences) {
    FlagTruthy(p.earthquakeSafe) || p.maxCasualties.Some?
  }

  /** The earthquake reason (main.py only), tiered by `meta.get('can_kaybi_sayisi', 0)`:
      0 "excellent", at most 5 "good", at most 10 "moderate", nothing above 10 or for NaN. */
  function QuakeReasons(meta: Metadata, p: Preferences): (rs: seq<Reason>)
    ensures var c := Lookup(meta, CanKaybiSayisiKey, 0.0);
      && (!QuakeConcern(p) ==> rs == [])
      && (QuakeConcern(p) ==>
            && (c == Real(0.0) ==> rs == [ExcellentQuakeSafety])
            && (c.Real? && c.v != 0.0 && c.v <= 5.0 ==> rs == [GoodQuakeSafety(Trunc(c.v))])
            && (c.Real? && 5.0 < c.v <= 10.0 ==> rs == [ModerateQuakeSafety(Trunc(c.v))])
            && (c.NaN? || c.v > 10.0 ==> rs == []))
  {
    if QuakeConcern(p) then
      var casualties := Lookup(meta, CanKaybiSayisiKey, 0.0);
      if casualties == Real(0.0) then [ExcellentQuakeSafety]
      else if AtMost(casualties, 5.0) then [GoodQuakeSafety(Trunc(casualties.v))]
      else if AtMost(casualties, 10.0) then [ModerateQuakeSafety(Trunc(casualties.v))]
      else []
    else []
  }
}
