/**
 * `NeighborhoodAgent` of main.py: the table clean-up done at start-up, the constraint filter,
 * the search with its fallback, the conversion of table rows to recommendations and the
 * explanation of a match. The vector index is the parameter `collection`.
 */
module Agent {
  import opened Wrappers
  import opened Seqs
  import opened DataModel
  import opened Prefs
  import opened Constraints
  import opened Ranking
  import opened Retrieval

  const UnknownName: string := "Unknown"

  /** `self.df[self.df['Mahalle'] != 'Unknown']`. */
  function DropUnknown(raw: seq<Row>): seq<Row> {
    if raw == [] then []
    else (if raw[0].mahalle != UnknownName then [raw[0]] else []) + DropUnknown(raw[1..])
  }

  /** `total_stations = bus_station.fillna(0) + train_station.fillna(0) + transit_station.fillna(0)`. */
  function StationSum(r: Row): real {
    FillZero(Get(r, BusStation)) + FillZero(Get(r, TrainStation)) + FillZero(Get(r, TransitStation))
  }

  function WithTotalStations(r: Row): Row {
    r.(nums := r.nums[TotalStations := StationSum(r)])
  }

  /** `Mahalle_ID = (İlçe + '_' + Mahalle).str.replace(' ', '_')`. */
  function WithMahalleId(r: Row): Row {
    r.(mahalleId := Some(BaseId(r.ilce, r.mahalle)))
  }

  /** The columns `__init__` adds to one kept row; the id only when the CSV has no `Mahalle_ID`. */
  function Derive(r: Row, hasIdColumn: bool): Row {
    var t := WithTotalStations(r);
    if hasIdColumn then t else WithMahalleId(t)
  }

  /** The table after `__init__`. */
  function Load(raw: seq<Row>, hasIdColumn: bool): seq<Row> {
    var kept := DropUnknown(raw);
    seq(|kept|, i requires 0 <= i < |kept| => Derive(kept[i], hasIdColumn))
  }

  lemma {:induction false} DropUnknownExact(raw: seq<Row>)
    ensures forall r :: r in DropUnknown(raw) <==> r in raw && r.mahalle != UnknownName
    ensures IsSubsequence(DropUnknown(raw), raw)
    ensures |DropUnknown(raw)| <= |raw|
  {
    if raw != [] {
      DropUnknownExact(raw[1..]);
      var rest := DropUnknown(raw[1..]);
      if raw[0].mahalle != UnknownName {
        assert ([raw[0]] + rest)[1..] == rest;
      } else if rest != [] {
        assert DropUnknown(raw) == rest;
      }
      forall r ensures r in DropUnknown(raw) <==> r in raw && r.mahalle != UnknownName {
        assert r in raw <==> r == raw[0] || r in raw[1..];
      }
    }
  }

  /** The derived row keeps the names and every other column of the CSV row. */
  lemma DeriveKeepsColumns(r: Row, hasIdColumn: bool)
    ensures var d := Derive(r, hasIdColumn);
      && d.mahalle == r.mahalle && d.ilce == r.ilce && d.description == r.description
      && (forall c :: c != TotalStations ==> Get(d, c) == Get(r, c))
  {
    var t := WithTotalStations(r);
    assert t.nums == r.nums[TotalStations := StationSum(r)];
    assert Derive(r, hasIdColumn).nums == t.nums;
  }

  /** The derived row holds the station total of its own three station counts, and the
      generated id when the CSV lacks one. */
  lemma DeriveSpec(r: Row, hasIdColumn: bool)
    ensures var d := Derive(r, hasIdColumn);
      && Get(d, TotalStations) == Real(FillZero(Get(d, BusStation)) + FillZero(Get(d, TrainStation)) + FillZero(Get(d, TransitStation)))
      && d.mahalleId == (if hasIdColumn then r.mahalleId else Some(BaseId(r.ilce, r.mahalle)))
  {
    var d := Derive(r, hasIdColumn);
    DeriveKeepsColumns(r, hasIdColumn);
    assert Get(d, BusStation) == Get(r, BusStation);
    assert Get(d, TrainStation) == Get(r, TrainStation);
    assert Get(d, TransitStation) == Get(r, TransitStation);
  }

  /** Every loaded row is the derived form of a CSV row not named 'Unknown'. */
  lemma LoadFrom(raw: seq<Row>, hasIdColumn: bool)
    ensures forall d :: d in Load(raw, hasIdColumn) ==>
      exists r :: r in raw && r.mahalle != UnknownName && d == Derive(r, hasIdColumn)
    ensures |Load(raw, hasIdColumn)| <= |raw|
  {
    var kept := DropUnknown(raw);
    DropUnknownExact(raw);
    var loaded := Load(raw, hasIdColumn);
    forall d | d in loaded ensures exists r :: r in raw && r.mahalle != UnknownName && d == Derive(r, hasIdColumn) {
      var i :| 0 <= i < |loaded| && loaded[i] == d;
      assert kept[i] in kept;
    }
  }

  /** Every CSV row not named 'Unknown' is loaded, in its derived form. */
  lemma LoadKeeps(raw: seq<Row>, hasIdColumn: bool)
    ensures forall r :: r in raw && r.mahalle != UnknownName ==> Derive(r, hasIdColumn) in Load(raw, hasIdColumn)
  {
    var kept := DropUnknown(raw);
    DropUnknownExact(raw);
    var loaded := Load(raw, hasIdColumn);
    forall r | r in raw && r.mahalle != UnknownName ensures Derive(r, hasIdColumn) in loaded {
      var i :| 0 <= i < |kept| && kept[i] == r;
      assert loaded[i] == Derive(r, hasIdColumn);
    }
  }

  /** The loaded row at position `i` is the derived form of a CSV row not named 'Unknown'. */
  lemma LoadAt(raw: seq<Row>, hasIdColumn: bool, i: int)
    requires 0 <= i < |Load(raw, hasIdColumn)|
    ensures var r := DropUnknown(raw)[i];
      r in raw && r.mahalle != UnknownName && Load(raw, hasIdColumn)[i] == Derive(r, hasIdColumn)
  {
    DropUnknownExact(raw);
    assert DropUnknown(raw)[i] in DropUnknown(raw);
  }

  /** After loading, no row is named 'Unknown'. */
  lemma LoadDropsUnknown(raw: seq<Row>, hasIdColumn: bool)
    ensures forall d :: d in Load(raw, hasIdColumn) ==> d.mahalle != UnknownName
  {
    var loaded := Load(raw, hasIdColumn);
    forall d | d in loaded ensures d.mahalle != UnknownName {
      var i :| 0 <= i < |loaded| && loaded[i] == d;
      LoadAt(raw, hasIdColumn, i);
      DeriveKeepsColumns(DropUnknown(raw)[i], hasIdColumn);
    }
  }

  /** After loading, each row's `total_stations` is the sum of its three station counts with
      NaN read as 0. */
  lemma LoadStationTotals(raw: seq<Row>, hasIdColumn: bool)
    ensures forall d :: d in Load(raw, hasIdColumn) ==>
      Get(d, TotalStations) == Real(FillZero(Get(d, BusStation)) + FillZero(Get(d, TrainStation)) + FillZero(Get(d, TransitStation)))
  {
    var loaded := Load(raw, hasIdColumn);
    forall d | d in loaded
      ensures Get(d, TotalStations) == Real(FillZero(Get(d, BusStation)) + FillZero(Get(d, TrainStation)) + FillZero(Get(d, TransitStation)))
    {
      var i :| 0 <= i < |loaded| && loaded[i] == d;
      LoadAt(raw, hasIdColumn, i);
      DeriveSpec(DropUnknown(raw)[i], hasIdColumn);
    }
  }

  /** When the CSV has no `Mahalle_ID`, each loaded row's id is `ilce_mahalle` with spaces
      turned into `_`. */
  lemma LoadIds(raw: seq<Row>)
    ensures forall d :: d in Load(raw, false) ==> d.mahalleId == Some(BaseId(d.ilce, d.mahalle))
  {
    var loaded := Load(raw, false);
    forall d | d in loaded ensures d.mahalleId == Some(BaseId(d.ilce, d.mahalle)) {
      var i :| 0 <= i < |loaded| && loaded[i] == d;
      var r := DropUnknown(raw)[i];
      LoadAt(raw, false, i);
      DeriveSpec(r, false);
      DeriveKeepsColumns(r, false);
    }
  }

  /** The metadata `_dataframe_to_recommendations` builds from a row: the two names and twelve
      numeric entries, NaN cells kept as NaN. */
  function FallbackMetadata(r: Row): Metadata {
    Metadata(r.mahalle, r.ilce, map[
      GreenIndexKey := Get(r, GreenIndex),
      SocietyWelfareIndexKey := Get(r, SocietyWelfareIndex),
      AvgRentPerSqm := Get(r, AvgRentPerSqM),
      RestaurantKey := Get(r, Restaurant),
      SchoolKey := Get(r, School),
      ParkKey := Get(r, Park),
      CafeKey := Get(r, Cafe),
      NufusKey := Get(r, Nufus),
      BusStationKey := Get(r, BusStation),
      TrainStationKey := Get(r, TrainStation),
      TransitStationKey := Get(r, TransitStation),
      TotalStationsKey := Get(r, TotalStations)])
  }

  /** The fallback recommendation for a row: similarity 0.5 and the rent annotation. */
  function FallbackRec(r: Row, p: Preferences): Recommendation {
    Recommendation(r.mahalle, r.ilce, 0.5, FallbackMetadata(r), Annotate(p, Get(r, AvgRentPerSqM)))
  }

  function FallbackRecs(rows: seq<Row>, p: Preferences): (recs: seq<Recommendation>)
    ensures |recs| == |rows|
  {
    seq(|rows|, k requires 0 <= k < |rows| => FallbackRec(rows[k], p))
  }

  function SemanticRecs(kept: seq<Hit>, p: Preferences): (recs: seq<Recommendation>)
    ensures |recs| == |kept|
  {
    seq(|kept|, k requires 0 <= k < |kept| => SemanticRec(kept[k], p))
  }

  /** What `search_with_constraints(preferences, n)` returns on table `df` when the index
      answers `response`: nothing for an empty candidate set; the kept hits when the index
      answers; the welfare top-n of the candidates when the index call raises. */
  function SearchOutcome(df: seq<Row>, p: Preferences, n: int, response: IndexResult): seq<Recommendation> {
    var c := Candidates(df, p, MainOrder);
    if |c| == 0 then []
    else match response
      case IndexError => FallbackRecs(NLargest(c, n), p)
      case Results(hits) => SemanticRecs(KeptHits(hits, Mahalles(c), Ilces(c), n), p)
  }

  /** What `explain_match(rec, preferences)` returns. */
  function Explain(rec: Recommendation, p: Preferences): Explanation {
    var g := GreenStep(rec.metadata, p);
    var s := SchoolStep(rec.metadata, p);
    var k := ParkStep(rec.metadata, p);
    if g.Raise? then MissingKey(g.key)
    else if s.Raise? then MissingKey(s.key)
    else if k.Raise? then MissingKey(k.key)
    else Reasons(BudgetReasons(rec) + g.reasons + s.reasons + k.reasons
                 + TransportReasons(rec.metadata, p) + QuakeReasons(rec.metadata, p))
  }

  class NeighborhoodAgent {
    /** The cleaned table. */
    var df: seq<Row>

    /** `__init__` from the rows of the CSV; `hasIdColumn` says whether it has `Mahalle_ID`. */
    constructor (raw: seq<Row>, hasIdColumn: bool)
      ensures df == Load(raw, hasIdColumn)
    {
      var kept: seq<Row> := [];
      for i := 0 to |raw|
        invariant kept == DropUnknown(raw[..i])
      {
        DropUnknownAppend(raw[..i], [raw[i]]);
        assert raw[..i + 1] == raw[..i] + [raw[i]];
        if raw[i].mahalle != UnknownName {
          kept := kept + [raw[i]];
        }
      }
      assert raw[..|raw|] == raw;
      var rows := kept;
      for i := 0 to |rows|
        invariant |rows| == |kept|
        invariant forall j :: 0 <= j < i ==> rows[j] == WithTotalStations(kept[j])
        invariant forall j :: i <= j < |rows| ==> rows[j] == kept[j]
      {
        rows := rows[i := WithTotalStations(rows[i])];
      }
      if !hasIdColumn {
        for i := 0 to |rows|
          invariant |rows| == |kept|
          invariant forall j :: 0 <= j < i ==> rows[j] == WithMahalleId(WithTotalStations(kept[j]))
          invariant forall j :: i <= j < |rows| ==> rows[j] == WithTotalStations(kept[j])
        {
          rows := rows[i := WithMahalleId(rows[i])];
        }
      }
      df := rows;
    }

    /** `filter_by_constraints`: the rows of `df` passing every switched-on test, in table
        order, and one trace entry per switched-on test, in the order of the chain. */
    method FilterByConstraints(p: Preferences) returns (filtered: seq<Row>, applied: seq<Applied>)
      ensures filtered == Candidates(df, p, MainOrder)
      ensures applied == Trace(p, MainOrder)
    {
      filtered := df;
      applied := [];
      NoTestsKeepAll(df, p);

      // budget
      filtered, applied := MaskStep(df, p, [], Budget, [Budget], filtered, applied);
      // amenities
      filtered, applied := MaskStep(df, p, [Budget], Parks, [Budget, Parks], filtered, applied);
      filtered, applied := MaskStep(df, p, [Budget, Parks], Schools, [Budget, Parks, Schools], filtered, applied);
      filtered, applied := MaskStep(df, p, [Budget, Parks, Schools], Restaurants, [Budget, Parks, Schools, Restaurants], filtered, applied);
      filtered, applied := MaskStep(df, p, [Budget, Parks, Schools, Restaurants], Cafes, [Budget, Parks, Schools, Restaurants, Cafes], filtered, applied);
      // green index
      filtered, applied := MaskStep(df, p, [Budget, Parks, Schools, Restaurants, Cafes], Green, [Budget, Parks, Schools, Restaurants, Cafes, Green], filtered, applied);
      // population
      filtered, applied := MaskStep(df, p, [Budget, Parks, Schools, Restaurants, Cafes, Green], Population, [Budget, Parks, Schools, Restaurants, Cafes, Green, Population], filtered, applied);
      // public transport
      filtered, applied := MaskStep(df, p, [Budget, Parks, Schools, Restaurants, Cafes, Green, Population], Stations, [Budget, Parks, Schools, Restaurants, Cafes, Green, Population, Stations], filtered, applied);
      // earthquake safety
      filtered, applied := MaskStep(df, p, [Budget, Parks, Schools, Restaurants, Cafes, Green, Population, Stations], Casualties, [Budget, Parks, Schools, Restaurants, Cafes, Green, Population, Stations, Casualties], filtered, applied);
      filtered, applied := MaskStep(df, p, [Budget, Parks, Schools, Restaurants, Cafes, Green, Population, Stations, Casualties], Severely, [Budget, Parks, Schools, Restaurants, Cafes, Green, Population, Stations, Casualties, Severely], filtered, applied);
      filtered, applied := MaskStep(df, p, [Budget, Parks, Schools, Restaurants, Cafes, Green, Population, Stations, Casualties, Severely], Heavily, MainOrder, filtered, applied);
    }

    /** `search_with_constraints(preferences, n)` against the index `collection`; `queried` is
        the query it sends, None when the candidate set is empty and nothing is sent. */
    method SearchWithConstraints(p: Preferences, n: int, collection: Query -> IndexResult)
      returns (recs: seq<Recommendation>, queried: Option<Query>)
      ensures queried == if Candidates(df, p, MainOrder) == [] then None
                         else Some(Query(QueryText(p), OversampleSize(|df|)))
      ensures recs == SearchOutcome(df, p, n, collection(Query(QueryText(p), OversampleSize(|df|))))
    {
      var filtered, applied := FilterByConstraints(p);
      if |filtered| == 0 {
        return [], None;
      }
      var filteredMahalles := Mahalles(filtered);
      var filteredIlces := Ilces(filtered);
      var preferencesText := QueryText(p);
      var q := Query(preferencesText, if OversampleCap < |df| then OversampleCap else |df|);
      queried := Some(q);
      match collection(q)
      case IndexError =>
        var fallback := NLargest(filtered, n);
        recs := DataframeToRecommendations(fallback, p);
      case Results(hits) =>
        var kept := PostFilter(hits, filteredMahalles, filteredIlces, n);
        recs := ParseResults(kept, p);
    }

    /** `_dataframe_to_recommendations`: one fallback recommendation per row, in order. */
    method DataframeToRecommendations(rows: seq<Row>, p: Preferences) returns (recs: seq<Recommendation>)
      ensures recs == FallbackRecs(rows, p)
    {
      recs := [];
      var apartmentSize := EffectiveSize(p);
      for i := 0 to |rows|
        invariant recs == FallbackRecs(rows[..i], p)
      {
        var row := rows[i];
        var rec := Recommendation(row.mahalle, row.ilce, 0.5, FallbackMetadata(row), None);
        if Truthy(p.monthlyBudget) {
          var monthlyRent := Scale(Get(row, AvgRentPerSqM), apartmentSize);
          rec := rec.(finance := Some(Finance(monthlyRent, Minus(p.monthlyBudget.value, monthlyRent))));
        }
        recs := recs + [rec];
      }
      assert rows[..|rows|] == rows;
    }

    /** `explain_match(rec, preferences)`: the reasons appended in order, or the `KeyError`
        of the first message that reads a missing key. */
    method ExplainMatch(rec: Recommendation, p: Preferences) returns (e: Explanation)
      ensures e == Explain(rec, p)
    {
      var reasons := BudgetStep(rec);
      var meta := rec.metadata;
      ghost var g, s, k := GreenStep(meta, p), SchoolStep(meta, p), ParkStep(meta, p);
      if Truthy(p.minGreenIndex) && AtLeast(Lookup(meta, GreenIndexKey, 0.0), p.minGreenIndex.value) {
        if GreenIndexKey !in meta.values {
          return MissingKey(GreenIndexKey);
        }
        reasons := reasons + [MeetsGreenSpace(meta.values[GreenIndexKey].v)];
      }
      assert g.Emit? && reasons == BudgetReasons(rec) + g.reasons;
      if Truthy(p.minSchools) && AtLeast(Lookup(meta, SchoolKey, 0.0), p.minSchools.value) {
        if SchoolKey !in meta.values {
          return MissingKey(SchoolKey);
        }
        reasons := reasons + [HasSchools(Trunc(meta.values[SchoolKey].v))];
      }
      assert s.Emit? && reasons == BudgetReasons(rec) + g.reasons + s.reasons;
      if Truthy(p.minParks) && AtLeast(Lookup(meta, ParkKey, 0.0), p.minParks.value) {
        if ParkKey !in meta.values {
          return MissingKey(ParkKey);
        }
        reasons := reasons + [HasParks(Trunc(meta.values[ParkKey].v))];
      }
      assert k.Emit? && reasons == BudgetReasons(rec) + g.reasons + s.reasons + k.reasons;
      reasons := TransportStep(reasons, meta, p);
      reasons := QuakeStep(reasons, meta, p);
      return Reasons(reasons);
    }
  }

  /** The budget lines of `explain_match`. */
  method BudgetStep(rec: Recommendation) returns (reasons: seq<Reason>)
    ensures reasons == BudgetReasons(rec)
  {
    reasons := [];
    if rec.finance.Some? && NumTruthy(rec.finance.value.budgetRemaining) {
      var remaining := rec.finance.value.budgetRemaining;
      if remaining.Real? && remaining.v > 5000.0 {
        reasons := reasons + [WellUnderBudget(remaining.v)];
      } else if remaining.Real? && remaining.v > 0.0 {
        reasons := reasons + [WithinBudget(remaining.v)];
      }
    }
  }

  /** The transport lines of `explain_match`, appended to `reasons`. */
  method TransportStep(reasons: seq<Reason>, meta: Metadata, p: Preferences) returns (reasons': seq<Reason>)
    ensures reasons' == reasons + TransportReasons(meta, p)
  {
    reasons' := reasons;
    if Truthy(p.minTotalStations) {
      var totalStations := Lookup(meta, TotalStationsKey, 0.0);
      if AtLeast(totalStations, p.minTotalStations.value) {
        reasons' := reasons' + [GoodTransport(Trunc(totalStations.v))];
      }
    }
  }

  /** The earthquake lines of `explain_match`, appended to `reasons`. */
  method QuakeStep(reasons: seq<Reason>, meta: Metadata, p: Preferences) returns (reasons': seq<Reason>)
    ensures reasons' == reasons + QuakeReasons(meta, p)
  {
    reasons' := reasons;
    if FlagTruthy(p.earthquakeSafe) || p.maxCasualties.Some? {
      var casualties := Lookup(meta, CanKaybiSayisiKey, 0.0);
      if casualties == Real(0.0) {
        reasons' := reasons' + [ExcellentQuakeSafety];
      } else if AtMost(casualties, 5.0) {
        reasons' := reasons' + [GoodQuakeSafety(Trunc(casualties.v))];
      } else if AtMost(casualties, 10.0) {
        reasons' := reasons' + [ModerateQuakeSafety(Trunc(casualties.v))];
      }
    }
  }

  /** One `if` of `filter_by_constraints`: after the tests `done`, run test `k` when its
      condition holds (see `Threshold`), keeping the rows passing it and recording it; `next`
      is `done` followed by `k`. */
  method MaskStep(rows: seq<Row>, p: Preferences, ghost done: seq<Kind>, k: Kind, ghost next: seq<Kind>,
                   filtered: seq<Row>, applied: seq<Applied>)
    returns (filtered': seq<Row>, applied': seq<Applied>)
    requires next == done + [k]
    requires filtered == Candidates(rows, p, done) && applied == Trace(p, done)
    ensures filtered' == Candidates(rows, p, next) && applied' == Trace(p, next)
  {
    var threshold := Threshold(p, k);
    Advance(rows, p, done, k, filtered, applied, threshold.Some?, threshold.GetOr(0.0));
    filtered', applied' := filtered, applied;
    if threshold.Some? {
      filtered' := Narrow(filtered, p, k, threshold.value);
      applied' := applied + [Applied(k, threshold.value)];
    }
  }

  lemma {:induction false} DropUnknownAppend(a: seq<Row>, b: seq<Row>)
    ensures DropUnknown(a + b) == DropUnknown(a) + DropUnknown(b)
  {
    if a == [] {
      assert a + b == b;
    } else {
      var head := if a[0].mahalle != UnknownName then [a[0]] else [];
      assert (a + b)[0] == a[0] && (a + b)[1..] == a[1..] + b;
      assert DropUnknown(a + b) == head + DropUnknown(a[1..] + b);
      DropUnknownAppend(a[1..], b);
      assert DropUnknown(a) == head + DropUnknown(a[1..]);
      assert head + (DropUnknown(a[1..]) + DropUnknown(b)) == (head + DropUnknown(a[1..])) + DropUnknown(b);
    }
  }

  /** Every reason in `rs` has category `c`, and there is at most one. */
  predicate OneOf(rs: seq<Reason>, c: nat) {
    |rs| <= 1 && forall r :: r in rs ==> Category(r) == c
  }

  /** The reasons come in the fixed order budget, green space, schools, parks, transport,
      earthquake, at most one of each. */
  lemma ExplainOrdered(rec: Recommendation, p: Preferences)
    ensures Explain(rec, p).Reasons? ==> OrderedBelow(Explain(rec, p).reasons, 6)
  {
    var meta := rec.metadata;
    var g, s, k := GreenStep(meta, p), SchoolStep(meta, p), ParkStep(meta, p);
    if g.Emit? && s.Emit? && k.Emit? {
      StepGroups(rec, p);
      var rs := BudgetReasons(rec);
      OrderedAppend([], rs, 0);
      OrderedAppend(rs, g.reasons, 1);
      rs := rs + g.reasons;
      OrderedAppend(rs, s.reasons, 2);
      rs := rs + s.reasons;
      OrderedAppend(rs, k.reasons, 3);
      rs := rs + k.reasons;
      OrderedAppend(rs, TransportReasons(meta, p), 4);
      rs := rs + TransportReasons(meta, p);
      OrderedAppend(rs, QuakeReasons(meta, p), 5);
      rs := rs + QuakeReasons(meta, p);
      assert rs == Explain(rec, p).reasons;
    }
  }

  /** Each step of `explain_match` contributes at most one reason, of its own category. */
  lemma StepGroups(rec: Recommendation, p: Preferences)
    ensures OneOf(BudgetReasons(rec), 0)
    ensures GreenStep(rec.metadata, p).Emit? ==> OneOf(GreenStep(rec.metadata, p).reasons, 1)
    ensures SchoolStep(rec.metadata, p).Emit? ==> OneOf(SchoolStep(rec.metadata, p).reasons, 2)
    ensures ParkStep(rec.metadata, p).Emit? ==> OneOf(ParkStep(rec.metadata, p).reasons, 3)
    ensures OneOf(TransportReasons(rec.metadata, p), 4)
    ensures OneOf(QuakeReasons(rec.metadata, p), 5)
  {
  }

  /** Categories strictly increasing in `rs` and all below `c`, so at most `c` of them. */
  predicate OrderedBelow(rs: seq<Reason>, c: nat) {
    && |rs| <= c
    && (forall i :: 0 <= i < |rs| ==> Category(rs[i]) < c)
    && (forall i, j :: 0 <= i < j < |rs| ==> Category(rs[i]) < Category(rs[j]))
  }

  /** Appending the group of category `c` to reasons ordered below `c` keeps them ordered. */
  lemma OrderedAppend(rs: seq<Reason>, group: seq<Reason>, c: nat)
    requires OrderedBelow(rs, c) && OneOf(group, c)
    ensures OrderedBelow(rs + group, c + 1)
  {
    if group != [] {
      assert group[0] in group;
    }
  }

  /** Some reason in `rs` has category `c`. */
  predicate HasCategory(rs: seq<Reason>, c: nat) {
    exists i :: 0 <= i < |rs| && Category(rs[i]) == c
  }

  lemma HasCategoryAppend(a: seq<Reason>, b: seq<Reason>, c: nat)
    ensures HasCategory(a + b, c) <==> HasCategory(a, c) || HasCategory(b, c)
  {
    if HasCategory(a + b, c) {
      var i :| 0 <= i < |a + b| && Category((a + b)[i]) == c;
      if i >= |a| {
        assert b[i - |a|] == (a + b)[i];
      }
    }
    if HasCategory(a, c) {
      var i :| 0 <= i < |a| && Category(a[i]) == c;
      assert (a + b)[i] == a[i];
    }
    if HasCategory(b, c) {
      var i :| 0 <= i < |b| && Category(b[i]) == c;
      assert (a + b)[|a| + i] == b[i];
    }
  }

  lemma HasCategoryGroup(group: seq<Reason>, g: nat, c: nat)
    requires OneOf(group, g)
    ensures HasCategory(group, c) <==> group != [] && g == c
  {
    if group != [] {
      assert group[0] in group;
    }
  }

  /** A reason of each kind is given exactly when its test in `explain_match` passes: budget
      when the remainder is positive, green space, schools, parks and transport when the
      preference is truthy and the metadata value (0 when absent) reaches it, earthquake safety
      when the concern is raised and the casualties (0 when absent) are at most 10. */
  lemma ExplainReasonsIff(rec: Recommendation, p: Preferences)
    requires Explain(rec, p).Reasons?
    ensures var rs := Explain(rec, p).reasons;
      var meta := rec.metadata;
      && (HasCategory(rs, 0) <==>
            rec.finance.Some? && rec.finance.value.budgetRemaining.Real? && rec.finance.value.budgetRemaining.v > 0.0)
      && (HasCategory(rs, 1) <==>
            Truthy(p.minGreenIndex) && AtLeast(Lookup(meta, GreenIndexKey, 0.0), p.minGreenIndex.value))
      && (HasCategory(rs, 2) <==>
            Truthy(p.minSchools) && AtLeast(Lookup(meta, SchoolKey, 0.0), p.minSchools.value))
      && (HasCategory(rs, 3) <==>
            Truthy(p.minParks) && AtLeast(Lookup(meta, ParkKey, 0.0), p.minParks.value))
      && (HasCategory(rs, 4) <==>
            Truthy(p.minTotalStations) && AtLeast(Lookup(meta, TotalStationsKey, 0.0), p.minTotalStations.value))
      && (HasCategory(rs, 5) <==> QuakeConcern(p) && AtMost(Lookup(meta, CanKaybiSayisiKey, 0.0), 10.0))
  {
    var meta := rec.metadata;
    var g, s, k := GreenStep(meta, p), SchoolStep(meta, p), ParkStep(meta, p);
    StepGroups(rec, p);
    var rs := Explain(rec, p).reasons;
    assert rs == BudgetReasons(rec) + g.reasons + s.reasons + k.reasons + TransportReasons(meta, p) + QuakeReasons(meta, p);
    forall c: nat | c < 6
      ensures HasCategory(rs, c) <==>
        [BudgetReasons(rec), g.reasons, s.reasons, k.reasons, TransportReasons(meta, p), QuakeReasons(meta, p)][c] != []
    {
      HasCategoryOfGroups(BudgetReasons(rec), g.reasons, s.reasons, k.reasons, TransportReasons(meta, p), QuakeReasons(meta, p), c);
    }
  }

  /** In the concatenation of six groups, the group at position `c` holding reasons of
      category `c`, a reason of category `c` is present exactly when group `c` is non-empty. */
  lemma HasCategoryOfGroups(g0: seq<Reason>, g1: seq<Reason>, g2: seq<Reason>, g3: seq<Reason>,
                            g4: seq<Reason>, g5: seq<Reason>, c: nat)
    requires OneOf(g0, 0) && OneOf(g1, 1) && OneOf(g2, 2) && OneOf(g3, 3) && OneOf(g4, 4) && OneOf(g5, 5)
    requires c < 6
    ensures HasCategory(g0 + g1 + g2 + g3 + g4 + g5, c) <==> [g0, g1, g2, g3, g4, g5][c] != []
  {
    HasCategoryAppend(g0 + g1 + g2 + g3 + g4, g5, c);
    HasCategoryAppend(g0 + g1 + g2 + g3, g4, c);
    HasCategoryAppend(g0 + g1 + g2, g3, c);
    HasCategoryAppend(g0 + g1, g2, c);
    HasCategoryAppend(g0, g1, c);
    HasCategoryGroup(g0, 0, c);
    HasCategoryGroup(g1, 1, c);
    HasCategoryGroup(g2, 2, c);
    HasCategoryGroup(g3, 3, c);
    HasCategoryGroup(g4, 4, c);
    HasCategoryGroup(g5, 5, c);
  }

  /** What each reason of `explain_match` claims, in terms of the recommendation and the
      preferences. */
  predicate Justified(rec: Recommendation, p: Preferences, r: Reason) {
    var meta := rec.metadata;
    var casualties := Lookup(meta, CanKaybiSayisiKey, 0.0);
    match r
    case WellUnderBudget(saves) =>
      rec.finance.Some? && rec.finance.value.budgetRemaining == Real(saves) && saves > 5000.0
    case WithinBudget(saves) =>
      rec.finance.Some? && rec.finance.value.budgetRemaining == Real(saves) && 0.0 < saves <= 5000.0
    case MeetsGreenSpace(index) =>
      Truthy(p.minGreenIndex) && GreenIndexKey in meta.values && meta.values[GreenIndexKey] == Real(index)
      && index >= p.minGreenIndex.value
    case HasSchools(schools) =>
      Truthy(p.minSchools) && SchoolKey in meta.values && meta.values[SchoolKey].Real?
      && meta.values[SchoolKey].v >= p.minSchools.value && schools == Trunc(meta.values[SchoolKey].v)
    case HasParks(parks) =>
      Truthy(p.minParks) && ParkKey in meta.values && meta.values[ParkKey].Real?
      && meta.values[ParkKey].v >= p.minParks.value && parks == Trunc(meta.values[ParkKey].v)
    case GoodTransport(stations) =>
      var total := Lookup(meta, TotalStationsKey, 0.0);
      Truthy(p.minTotalStations) && total.Real? && total.v >= p.minTotalStations.value && stations == Trunc(total.v)
    case ExcellentQuakeSafety =>
      QuakeConcern(p) && casualties == Real(0.0)
    case GoodQuakeSafety(n) =>
      QuakeConcern(p) && casualties.Real? && casualties.v != 0.0 && casualties.v <= 5.0 && n == Trunc(casualties.v)
    case ModerateQuakeSafety(n) =>
      QuakeConcern(p) && casualties.Real? && 5.0 < casualties.v <= 10.0 && n == Trunc(casualties.v)
  }

  /** Every reason given is true of the recommendation: the numbers it shows are the metadata
      values (or the remainder) it is about, and they meet the thresholds. */
  lemma ExplainReasonsJustified(rec: Recommendation, p: Preferences)
    ensures Explain(rec, p).Reasons? ==> forall r :: r in Explain(rec, p).reasons ==> Justified(rec, p, r)
  {
    var meta := rec.metadata;
    var g, s, k := GreenStep(meta, p), SchoolStep(meta, p), ParkStep(meta, p);
    if g.Emit? && s.Emit? && k.Emit? {
      var rs := Explain(rec, p).reasons;
      assert rs == BudgetReasons(rec) + g.reasons + s.reasons + k.reasons + TransportReasons(meta, p) + QuakeReasons(meta, p);
      forall r | r in rs ensures Justified(rec, p, r) {
        if r in BudgetReasons(rec) {
          assert rec.finance.Some?;
        } else if r in g.reasons {
          assert r == MeetsGreenSpace(meta.values[GreenIndexKey].v);
        } else if r in s.reasons {
          assert r == HasSchools(Trunc(meta.values[SchoolKey].v));
        } else if r in k.reasons {
          assert r == HasParks(Trunc(meta.values[ParkKey].v));
        } else if r in TransportReasons(meta, p) {
        } else {
          assert r in QuakeReasons(meta, p);
        }
      }
    }
  }

  /** Reading `meta[key]` fails: the key is absent and its threshold passed `.get(key, 0)`,
      which a truthy threshold does only when it is negative. */
  predicate RaisesOn(meta: Metadata, key: MetaKey, threshold: Option<real>) {
    key !in meta.values && threshold.Some? && threshold.value < 0.0
  }

  /** `explain_match` raises `KeyError` exactly when a green-space, school or park threshold is
      negative and that key is absent from the metadata; the first of the three in that order
      is the one reported. */
  lemma ExplainRaisesIff(rec: Recommendation, p: Preferences)
    ensures var meta := rec.metadata;
      var green := RaisesOn(meta, GreenIndexKey, p.minGreenIndex);
      var school := RaisesOn(meta, SchoolKey, p.minSchools);
      var park := RaisesOn(meta, ParkKey, p.minParks);
      && (Explain(rec, p) == MissingKey(GreenIndexKey) <==> green)
      && (Explain(rec, p) == MissingKey(SchoolKey) <==> !green && school)
      && (Explain(rec, p) == MissingKey(ParkKey) <==> !green && !school && park)
      && (Explain(rec, p).MissingKey? <==> green || school || park)
  {
  }

  /** With no earthquake casualties in the metadata, asking for earthquake safety always ends
      the explanation with "excellent earthquake safety", whatever the neighborhood's data. */
  lemma QuakeClaimWithoutCasualtyData(rec: Recommendation, p: Preferences)
    requires CanKaybiSayisiKey !in rec.metadata.values && QuakeConcern(p)
    ensures Explain(rec, p).Reasons? ==>
      var rs := Explain(rec, p).reasons;
      |rs| > 0 && rs[|rs| - 1] == ExcellentQuakeSafety
  {
  }

  /** A fallback recommendation never makes `explain_match` raise (its metadata has every key
      read), and since it carries no casualty figure, an earthquake concern always gets the
      "excellent" reason. */
  lemma FallbackExplanation(r: Row, p: Preferences)
    ensures Explain(FallbackRec(r, p), p).Reasons?
    ensures QuakeConcern(p) ==>
      var rs := Explain(FallbackRec(r, p), p).reasons;
      |rs| > 0 && rs[|rs| - 1] == ExcellentQuakeSafety
  {
    var meta := FallbackMetadata(r);
    assert GreenIndexKey in meta.values && SchoolKey in meta.values && ParkKey in meta.values;
    assert CanKaybiSayisiKey !in meta.values;
    if QuakeConcern(p) {
      QuakeClaimWithoutCasualtyData(FallbackRec(r, p), p);
    }
  }

  /** The fallback path (the index call raised): `min(n, |c|)` candidates with similarity 0.5.
      The rows with a welfare index come first, by descending welfare; rows whose welfare
      index is NaN come only after all of them. */
  lemma FallbackOutcome(df: seq<Row>, p: Preferences, n: int)
    requires Candidates(df, p, MainOrder) != []
    ensures var c := Candidates(df, p, MainOrder);
      var top := NLargest(c, n);
      var recs := SearchOutcome(df, p, n, IndexError);
      && |recs| == |top| == (if n <= 0 then 0 else if n < |c| then n else |c|)
      && (forall k :: 0 <= k < |recs| ==>
            && top[k] in c && recs[k] == FallbackRec(top[k], p) && recs[k].similarity == 0.5)
      && (forall k :: 0 <= k < |top| ==> (Welfare(top[k]).Real? <==> k < |Eligible(c)|))
      && (forall i, j :: 0 <= i < j < |top| && Welfare(top[j]).Real? ==>
            Welfare(top[i]).Real? && Welfare(top[i]).v >= Welfare(top[j]).v)
  {
    NLargestShape(Candidates(df, p, MainOrder), n);
    NLargestDescending(Candidates(df, p, MainOrder), n);
  }

  /** A row within the budget gets a remainder that is a number and not negative. */
  lemma FallbackRecWithinBudget(r: Row, p: Preferences)
    requires Truthy(p.monthlyBudget) && Passes(p, Budget, r)
    ensures var f := FallbackRec(r, p).finance;
      f.Some? && f.value.budgetRemaining.Real? && f.value.budgetRemaining.v >= 0.0
  {
  }

  /** Every row `nlargest` returns is a row of its input. */
  lemma NLargestRowsFromInput(rows: seq<Row>, n: int)
    ensures forall r :: r in NLargest(rows, n) ==> r in rows
  {
    var top := NLargest(rows, n);
    var ps := TopPositions(rows, n);
    NLargestAt(rows, n);
    forall r | r in top ensures r in rows {
      var k :| 0 <= k < |top| && top[k] == r;
      assert top[k] == rows[ps[k]];
    }
  }

  /** On the fallback path every recommendation is a candidate, so when a budget is given its
      remainder is a number and never negative. */
  lemma FallbackWithinBudget(df: seq<Row>, p: Preferences, n: int)
    requires Candidates(df, p, MainOrder) != [] && Truthy(p.monthlyBudget)
    ensures forall rec :: rec in SearchOutcome(df, p, n, IndexError) ==>
      rec.finance.Some? && rec.finance.value.budgetRemaining.Real? && rec.finance.value.budgetRemaining.v >= 0.0
  {
    var c := Candidates(df, p, MainOrder);
    var top := NLargest(c, n);
    var recs := FallbackRecs(top, p);
    assert SearchOutcome(df, p, n, IndexError) == recs;
    NLargestRowsFromInput(c, n);
    CandidatesExact(df, p, MainOrder);
    forall rec | rec in recs
      ensures rec.finance.Some? && rec.finance.value.budgetRemaining.Real? && rec.finance.value.budgetRemaining.v >= 0.0
    {
      var k :| 0 <= k < |recs| && recs[k] == rec;
      assert top[k] in top && SatisfiesAll(p, MainOrder, top[k]);
      FallbackRecWithinBudget(top[k], p);
    }
  }

  /** The semantic path (the index answered with `hits`): the recommendations are the first
      `Quota(n)` hits whose mahalle is some candidate's mahalle and whose ilce is some
      candidate's ilce (checked column by column), in the index's order; fewer only when the
      hits run out, and none when no hit is admitted — the fallback is not taken then. */
  lemma SemanticOutcome(df: seq<Row>, p: Preferences, n: int, hits: seq<Hit>)
    requires Candidates(df, p, MainOrder) != []
    ensures var c := Candidates(df, p, MainOrder);
      var admitted := AdmittedHits(hits, Mahalles(c), Ilces(c));
      var kept := KeptHits(hits, Mahalles(c), Ilces(c), n);
      var recs := SearchOutcome(df, p, n, Results(hits));
      && |recs| == |kept| <= Quota(n)
      && IsSubsequence(kept, hits)
      && (|kept| < Quota(n) ==> kept == admitted)
      && (admitted == [] ==> recs == [])
      && (forall k :: 0 <= k < |recs| ==>
            && recs[k] == SemanticRec(kept[k], p)
            && recs[k].similarity == 1.0 - kept[k].distance && recs[k].metadata == kept[k].metadata
            && (exists i :: 0 <= i < |c| && c[i].mahalle == recs[k].mahalle)
            && (exists j :: 0 <= j < |c| && c[j].ilce == recs[k].ilce))
  {
    var c := Candidates(df, p, MainOrder);
    var kept := KeptHits(hits, Mahalles(c), Ilces(c), n);
    PostFilterShape(hits, Mahalles(c), Ilces(c), n);
    forall k | 0 <= k < |kept|
      ensures (exists i :: 0 <= i < |c| && c[i].mahalle == kept[k].metadata.mahalle)
      ensures (exists j :: 0 <= j < |c| && c[j].ilce == kept[k].metadata.ilce)
    {
      assert kept[k] in kept;
      AdmittedPerColumn(kept[k], c);
    }
  }

  /** On the semantic path each recommendation carries the rent fields for the rate in its
      metadata, read as 0 when the key is missing. */
  lemma SemanticOutcomeRent(df: seq<Row>, p: Preferences, n: int, hits: seq<Hit>)
    requires Candidates(df, p, MainOrder) != []
    ensures var c := Candidates(df, p, MainOrder);
      var kept := KeptHits(hits, Mahalles(c), Ilces(c), n);
      var recs := SearchOutcome(df, p, n, Results(hits));
      |recs| == |kept| &&
      forall k :: 0 <= k < |recs| ==>
        var m := kept[k].metadata.values;
        RentFields(recs[k].finance, p, if AvgRentPerSqm in m then m[AvgRentPerSqm] else Real(0.0))
  {
    var c := Candidates(df, p, MainOrder);
    var kept := KeptHits(hits, Mahalles(c), Ilces(c), n);
    forall k | 0 <= k < |kept|
      ensures var m := kept[k].metadata.values;
        RentFields(SemanticRec(kept[k], p).finance, p, if AvgRentPerSqm in m then m[AvgRentPerSqm] else Real(0.0))
    {
      AnnotateRentFields(p, Lookup(kept[k].metadata, AvgRentPerSqm, 0.0));
    }
  }

  /** On the fallback path each recommendation carries the rent fields for its row's
      `Avg_Rent_Per_SqM` cell. */
  lemma FallbackOutcomeRent(df: seq<Row>, p: Preferences, n: int)
    requires Candidates(df, p, MainOrder) != []
    ensures var top := NLargest(Candidates(df, p, MainOrder), n);
      var recs := SearchOutcome(df, p, n, IndexError);
      |recs| == |top| &&
      forall k :: 0 <= k < |recs| ==>
        RentFields(recs[k].finance, p, if AvgRentPerSqM in top[k].nums then Real(top[k].nums[AvgRentPerSqM]) else NaN)
  {
    var top := NLargest(Candidates(df, p, MainOrder), n);
    forall k | 0 <= k < |top|
      ensures RentFields(FallbackRec(top[k], p).finance, p,
        if AvgRentPerSqM in top[k].nums then Real(top[k].nums[AvgRentPerSqM]) else NaN)
    {
      AnnotateRentFields(p, Get(top[k], AvgRentPerSqM));
    }
  }

  /** No recommendation, on either path, is for a neighborhood named 'Unknown'. */
  lemma NoUnknownRecommended(raw: seq<Row>, hasIdColumn: bool, p: Preferences, n: int, response: IndexResult)
    ensures forall rec :: rec in SearchOutcome(Load(raw, hasIdColumn), p, n, response) ==> rec.mahalle != UnknownName
  {
    var df := Load(raw, hasIdColumn);
    LoadDropsUnknown(raw, hasIdColumn);
    match response
    case IndexError => NoUnknownFallback(df, p, n);
    case Results(hits) => NoUnknownSemantic(df, p, n, hits);
  }

  lemma NoUnknownFallback(df: seq<Row>, p: Preferences, n: int)
    requires forall d :: d in df ==> d.mahalle != UnknownName
    ensures forall rec :: rec in SearchOutcome(df, p, n, IndexError) ==> rec.mahalle != UnknownName
  {
    var c := Candidates(df, p, MainOrder);
    var recs := SearchOutcome(df, p, n, IndexError);
    CandidatesExact(df, p, MainOrder);
    if c != [] {
      NLargestRowsFromInput(c, n);
      forall rec | rec in recs ensures rec.mahalle != UnknownName {
        var k :| 0 <= k < |recs| && recs[k] == rec;
        assert NLargest(c, n)[k] in NLargest(c, n);
      }
    }
  }

  lemma NoUnknownSemantic(df: seq<Row>, p: Preferences, n: int, hits: seq<Hit>)
    requires forall d :: d in df ==> d.mahalle != UnknownName
    ensures forall rec :: rec in SearchOutcome(df, p, n, Results(hits)) ==> rec.mahalle != UnknownName
  {
    var c := Candidates(df, p, MainOrder);
    var recs := SearchOutcome(df, p, n, Results(hits));
    CandidatesExact(df, p, MainOrder);
    if c != [] {
      SemanticOutcome(df, p, n, hits);
      forall rec | rec in recs ensures rec.mahalle != UnknownName {
        var k :| 0 <= k < |recs| && recs[k] == rec;
        var i :| 0 <= i < |c| && c[i].mahalle == rec.mahalle;
        assert c[i] in c;
      }
    }
  }

  /** On the semantic path the remainder can be negative: the post-filter checks mahalle and
      ilce separately, so "A" in district "Y" is admitted when "A" in "X" and "B" in "Y" are
      candidates, although "A" in "Y" itself failed the budget test. */
  lemma SemanticBudgetCanGoNegative()
    ensures var inX := Row("A", "X", None, None, map[AvgRentPerSqM := 100.0]);
      var inY := Row("B", "Y", None, None, map[AvgRentPerSqM := 100.0]);
      var costly := Row("A", "Y", None, None, map[AvgRentPerSqM := 1000.0]);
      var p := Empty().(monthlyBudget := Some(10000.0));
      var hit := Hit("Y_A", Metadata("A", "Y", map[AvgRentPerSqm := Real(1000.0)]), 0.25);
      var recs := SearchOutcome([inX, inY, costly], p, 3, Results([hit]));
      && Candidates([inX, inY, costly], p, MainOrder) == [inX, inY]
      && |recs| == 1
      && recs[0].finance == Some(Finance(Real(80000.0), Real(-70000.0)))
  {
    var inX := Row("A", "X", None, None, map[AvgRentPerSqM := 100.0]);
    var inY := Row("B", "Y", None, None, map[AvgRentPerSqM := 100.0]);
    var costly := Row("A", "Y", None, None, map[AvgRentPerSqM := 1000.0]);
    var p := Empty().(monthlyBudget := Some(10000.0));
    var df := [inX, inY, costly];
    assert forall k :: k != Budget ==> Threshold(p, k).None?;
    assert SatisfiesAll(p, MainOrder, inX) && SatisfiesAll(p, MainOrder, inY);
    assert !Passes(p, Budget, costly);
    assert Candidates(df[2..], p, MainOrder) == [];
    assert Candidates(df[1..], p, MainOrder) == [inY];
    assert Candidates(df, p, MainOrder) == [inX, inY];
    var hit := Hit("Y_A", Metadata("A", "Y", map[AvgRentPerSqm := Real(1000.0)]), 0.25);
    var c := [inX, inY];
    assert Mahalles(c) == ["A", "B"] && Ilces(c) == ["X", "Y"];
    assert Admitted(hit, Mahalles(c), Ilces(c));
    assert AdmittedHits([hit], Mahalles(c), Ilces(c)) == [hit];
  }
}
