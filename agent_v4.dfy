/**
 * `NeighborhoodAgent` of main_v4.py, the earlier version of the agent: no station total at
 * start-up, a chain of seven tests, fallback metadata without the station counts and an
 * explanation limited to budget, green space, schools and parks. Everything the two versions
 * share comes from `Agent` and `Retrieval`; the lemmas at the end relate the two versions.
 */
module AgentV4 {
  import opened Wrappers
  import opened Seqs
  import opened DataModel
  import opened Prefs
  import opened Constraints
  import opened Ranking
  import opened Retrieval
  import Agent

  /** The columns `__init__` adds to one kept row: only the id, when the CSV has no `Mahalle_ID`. */
  function DeriveV4(r: Row, hasIdColumn: bool): Row {
    if hasIdColumn then r else Agent.WithMahalleId(r)
  }

  /** The table after `__init__`. */
  function LoadV4(raw: seq<Row>, hasIdColumn: bool): seq<Row> {
    var kept := Agent.DropUnknown(raw);
    seq(|kept|, i requires 0 <= i < |kept| => DeriveV4(kept[i], hasIdColumn))
  }

  /** The metadata `_dataframe_to_recommendations` builds from a row: the two names and eight
      numeric entries, NaN cells kept as NaN. */
  function FallbackMetadataV4(r: Row): Metadata {
    Metadata(r.mahalle, r.ilce, map[
      GreenIndexKey := Get(r, GreenIndex),
      SocietyWelfareIndexKey := Get(r, SocietyWelfareIndex),
      AvgRentPerSqm := Get(r, AvgRentPerSqM),
      RestaurantKey := Get(r, Restaurant),
      SchoolKey := Get(r, School),
      ParkKey := Get(r, Park),
      CafeKey := Get(r, Cafe),
      NufusKey := Get(r, Nufus)])
  }

  function FallbackRecV4(r: Row, p: Preferences): Recommendation {
    Recommendation(r.mahalle, r.ilce, 0.5, FallbackMetadataV4(r), Annotate(p, Get(r, AvgRentPerSqM)))
  }

  function FallbackRecsV4(rows: seq<Row>, p: Preferences): (recs: seq<Recommendation>)
    ensures |recs| == |rows|
  {
    seq(|rows|, k requires 0 <= k < |rows| => FallbackRecV4(rows[k], p))
  }

  /** What `search_with_constraints(preferences, n)` returns on table `df` when the index
      answers `response`. */
  function SearchOutcomeV4(df: seq<Row>, p: Preferences, n: int, response: IndexResult): seq<Recommendation> {
    var c := Candidates(df, p, V4Order);
    if |c| == 0 then []
    else match response
      case IndexError => FallbackRecsV4(NLargest(c, n), p)
      case Results(hits) => Agent.SemanticRecs(KeptHits(hits, Mahalles(c), Ilces(c), n), p)
  }

  /** What `explain_match(rec, preferences)` returns: the reasons list, or the `KeyError`. */
  function ExplainV4(rec: Recommendation, p: Preferences): Explanation {
    var g := GreenStep(rec.metadata, p);
    var s := SchoolStep(rec.metadata, p);
    var k := ParkStep(rec.metadata, p);
    if g.Raise? then MissingKey(g.key)
    else if s.Raise? then MissingKey(s.key)
    else if k.Raise? then MissingKey(k.key)
    else Reasons(BudgetReasons(rec) + g.reasons + s.reasons + k.reasons)
  }

  class NeighborhoodAgent {
    /** The cleaned table. */
    var df: seq<Row>

    /** `__init__` from the rows of the CSV; `hasIdColumn` says whether it has `Mahalle_ID`. */
    constructor (raw: seq<Row>, hasIdColumn: bool)
      ensures df == LoadV4(raw, hasIdColumn)
    {
      var kept: seq<Row> := [];
      for i := 0 to |raw|
        invariant kept == Agent.DropUnknown(raw[..i])
      {
        Agent.DropUnknownAppend(raw[..i], [raw[i]]);
        assert raw[..i + 1] == raw[..i] + [raw[i]];
        if raw[i].mahalle != Agent.UnknownName {
          kept := kept + [raw[i]];
        }
      }
      assert raw[..|raw|] == raw;
      var rows := kept;
      if !hasIdColumn {
        for i := 0 to |rows|
          invariant |rows| == |kept|
          invariant forall j :: 0 <= j < i ==> rows[j] == Agent.WithMahalleId(kept[j])
          invariant forall j :: i <= j < |rows| ==> rows[j] == kept[j]
        {
          rows := rows[i := Agent.WithMahalleId(rows[i])];
        }
      }
      df := rows;
    }

    /** `filter_by_constraints`: the rows of `df` passing every switched-on test of the
        seven, in table order, and one trace entry per switched-on test. */
    method FilterByConstraints(p: Preferences) returns (filtered: seq<Row>, applied: seq<Applied>)
      ensures filtered == Candidates(df, p, V4Order)
      ensures applied == Trace(p, V4Order)
    {
      filtered := df;
      applied := [];
      NoTestsKeepAll(df, p);

      // budget
      filtered, applied := Agent.MaskStep(df, p, [], Budget, [Budget], filtered, applied);
      // amenities
      filtered, applied := Agent.MaskStep(df, p, [Budget], Parks, [Budget, Parks], filtered, applied);
      filtered, applied := Agent.MaskStep(df, p, [Budget, Parks], Schools, [Budget, Parks, Schools], filtered, applied);
      filtered, applied := Agent.MaskStep(df, p, [Budget, Parks, Schools], Restaurants, [Budget, Parks, Schools, Restaurants], filtered, applied);
      filtered, applied := Agent.MaskStep(df, p, [Budget, Parks, Schools, Restaurants], Cafes, [Budget, Parks, Schools, Restaurants, Cafes], filtered, applied);
      // green index
      filtered, applied := Agent.MaskStep(df, p, [Budget, Parks, Schools, Restaurants, Cafes], Green, [Budget, Parks, Schools, Restaurants, Cafes, Green], filtered, applied);
      // population
      filtered, applied := Agent.MaskStep(df, p, [Budget, Parks, Schools, Restaurants, Cafes, Green], Population, V4Order, filtered, applied);
    }

    /** `search_with_constraints(preferences, n)` against the index `collection`; `queried` is
        the query it sends, None when the candidate set is empty. */
    method SearchWithConstraints(p: Preferences, n: int, collection: Query -> IndexResult)
      returns (recs: seq<Recommendation>, queried: Option<Query>)
      ensures queried == if Candidates(df, p, V4Order) == [] then None
                         else Some(Query(QueryText(p), OversampleSize(|df|)))
      ensures recs == SearchOutcomeV4(df, p, n, collection(Query(QueryText(p), OversampleSize(|df|))))
    {
      var filtered, applied := FilterByConstraints(p);
      if |filtered| == 0 {
        return [], None;
      }
      var filteredMahalles := Mahalles(filtered);
      var filteredIlces := Ilces(filtered);
      var preferencesText := QueryText(p);
      var q := Query(preferencesText, if OversampleCap < |df| then OversampleCap else |df|);
      queried := Some(q);
      match collection(q)
      case IndexError =>
        var fallback := NLargest(filtered, n);
        recs := DataframeToRecommendations(fallback, p);
      case Results(hits) =>
        var kept := PostFilter(hits, filteredMahalles, filteredIlces, n);
        recs := ParseResults(kept, p);
    }

    /** `_dataframe_to_recommendations`: one fallback recommendation per row, in order. */
    method DataframeToRecommendations(rows: seq<Row>, p: Preferences) returns (recs: seq<Recommendation>)
      ensures recs == FallbackRecsV4(rows, p)
    {
      recs := [];
      var apartmentSize := EffectiveSize(p);
      for i := 0 to |rows|
        invariant recs == FallbackRecsV4(rows[..i], p)
      {
        var row := rows[i];
        var rec := Recommendation(row.mahalle, row.ilce, 0.5, FallbackMetadataV4(row), None);
        if Truthy(p.monthlyBudget) {
          var monthlyRent := Scale(Get(row, AvgRentPerSqM), apartmentSize);
          rec := rec.(finance := Some(Finance(monthlyRent, Minus(p.monthlyBudget.value, monthlyRent))));
        }
        recs := recs + [rec];
      }
      assert rows[..|rows|] == rows;
    }

    /** `explain_match(rec, preferences)`: the reasons appended in order, or the `KeyError`
        of the first message that reads a missing key. */
    method ExplainMatch(rec: Recommendation, p: Preferences) returns (e: Explanation)
      ensures e == ExplainV4(rec, p)
    {
      var reasons: seq<Reason> := [];
      var meta := rec.metadata;
      if rec.finance.Some? && NumTruthy(rec.finance.value.budgetRemaining) {
        var remaining := rec.finance.value.budgetRemaining;
        if remaining.Real? && remaining.v > 5000.0 {
          reasons := reasons + [WellUnderBudget(remaining.v)];
        } else if remaining.Real? && remaining.v > 0.0 {
          reasons := reasons + [WithinBudget(remaining.v)];
        }
      }
      assert reasons == BudgetReasons(rec);
      ghost var g, s, k := GreenStep(meta, p), SchoolStep(meta, p), ParkStep(meta, p);
      if Truthy(p.minGreenIndex) && AtLeast(Lookup(meta, GreenIndexKey, 0.0), p.minGreenIndex.value) {
        if GreenIndexKey !in meta.values {
          return MissingKey(GreenIndexKey);
        }
        reasons := reasons + [MeetsGreenSpace(meta.values[GreenIndexKey].v)];
      }
      assert g.Emit? && reasons == BudgetReasons(rec) + g.reasons;
      if Truthy(p.minSchools) && AtLeast(Lookup(meta, SchoolKey, 0.0), p.minSchools.value) {
        if SchoolKey !in meta.values {
          return MissingKey(SchoolKey);
        }
        reasons := reasons + [HasSchools(Trunc(meta.values[SchoolKey].v))];
      }
      assert s.Emit? && reasons == BudgetReasons(rec) + g.reasons + s.reasons;
      if Truthy(p.minParks) && AtLeast(Lookup(meta, ParkKey, 0.0), p.minParks.value) {
        if ParkKey !in meta.values {
          return MissingKey(ParkKey);
        }
        reasons := reasons + [HasParks(Trunc(meta.values[ParkKey].v))];
      }
      return Reasons(reasons);
    }
  }

  /** Row `a` of one version's table is row `b` of the other's but for `total_stations`. */
  predicate SameButStations(a: Row, b: Row) {
    && a.mahalle == b.mahalle && a.ilce == b.ilce
    && a.description == b.description && a.mahalleId == b.mahalleId
    && (forall c :: c != TotalStations ==> Get(a, c) == Get(b, c))
  }

  /** With a `Mahalle_ID` column the table is the CSV without its 'Unknown' rows. */
  lemma LoadV4WithIds(raw: seq<Row>)
    ensures LoadV4(raw, true) == Agent.DropUnknown(raw)
    ensures forall d :: d in LoadV4(raw, true) <==> d in raw && d.mahalle != Agent.UnknownName
  {
    Agent.DropUnknownExact(raw);
  }

  /** Both versions load the same neighborhoods, in the same order, with the same names,
      ids and columns; only main.py adds the station total. */
  lemma LoadsAgree(raw: seq<Row>, hasIdColumn: bool)
    ensures var old4, cur := LoadV4(raw, hasIdColumn), Agent.Load(raw, hasIdColumn);
      && |old4| == |cur|
      && forall i :: 0 <= i < |old4| ==> SameButStations(old4[i], cur[i])
  {
    var old4, cur := LoadV4(raw, hasIdColumn), Agent.Load(raw, hasIdColumn);
    forall i | 0 <= i < |old4| ensures SameButStations(old4[i], cur[i]) {
      DeriveAgrees(Agent.DropUnknown(raw)[i], hasIdColumn);
    }
  }

  /** One row as loaded by both versions. */
  lemma DeriveAgrees(r: Row, hasIdColumn: bool)
    ensures SameButStations(DeriveV4(r, hasIdColumn), Agent.Derive(r, hasIdColumn))
  {
    Agent.DeriveKeepsColumns(r, hasIdColumn);
    Agent.DeriveSpec(r, hasIdColumn);
  }

  /** None of the seven tests reads `total_stations`, so rows that differ only there pass
      the same tests. */
  lemma V4TestsIgnoreStations(p: Preferences, a: Row, b: Row)
    requires SameButStations(a, b)
    ensures SatisfiesAll(p, V4Order, a) == SatisfiesAll(p, V4Order, b)
  {
    forall k | k in V4Order ensures Passes(p, k, a) == Passes(p, k, b) {
      assert Get(a, Attribute(k)) == Get(b, Attribute(k));
      assert Get(a, AvgRentPerSqM) == Get(b, AvgRentPerSqM);
      assert Get(a, Nufus) == Get(b, Nufus);
    }
  }

  /** The four tests main.py adds over main_v4.py are switched off. */
  predicate ExtraTestsOff(p: Preferences) {
    && Threshold(p, Stations).None? && Threshold(p, Casualties).None?
    && Threshold(p, Severely).None? && Threshold(p, Heavily).None?
  }

  /** With the extra tests off, main.py's chain of eleven lets through what the first seven do. */
  lemma ChainsAgree(p: Preferences, r: Row)
    requires ExtraTestsOff(p)
    ensures SatisfiesAll(p, MainOrder, r) == SatisfiesAll(p, V4Order, r)
  {
    assert forall k :: k in MainOrder ==> k in V4Order || Threshold(p, k).None?;
    assert forall k :: k in V4Order ==> k in MainOrder;
  }

  /** Two tables matched row by row, where the tests let a row through on one side exactly
      when they do on the other, give candidate sets matched row by row. */
  lemma {:induction false} CandidatesAgree(rows4: seq<Row>, rows: seq<Row>, p: Preferences)
    requires ExtraTestsOff(p)
    requires |rows4| == |rows|
    requires forall i :: 0 <= i < |rows| ==> SameButStations(rows4[i], rows[i])
    ensures var c4, c := Candidates(rows4, p, V4Order), Candidates(rows, p, MainOrder);
      |c4| == |c| && forall i :: 0 <= i < |c| ==> SameButStations(c4[i], c[i])
  {
    if rows != [] {
      CandidatesAgree(rows4[1..], rows[1..], p);
      V4TestsIgnoreStations(p, rows4[0], rows[0]);
      ChainsAgree(p, rows[0]);
      var t4, t := Candidates(rows4[1..], p, V4Order), Candidates(rows[1..], p, MainOrder);
      if SatisfiesAll(p, MainOrder, rows[0]) {
        assert Candidates(rows4, p, V4Order) == [rows4[0]] + t4;
        assert Candidates(rows, p, MainOrder) == [rows[0]] + t;
      } else {
        assert Candidates(rows4, p, V4Order) == t4;
        assert Candidates(rows, p, MainOrder) == t;
      }
    }
  }

  /** Rows matched position by position with the same welfare index rank the same way. */
  lemma {:induction false} EligibleAgree(rows4: seq<Row>, rows: seq<Row>, start: nat)
    requires |rows4| == |rows|
    requires forall i :: 0 <= i < |rows| ==> Welfare(rows4[i]) == Welfare(rows[i])
    ensures EligibleFrom(rows4, start) == EligibleFrom(rows, start)
    decreases |rows| - start
  {
    if start < |rows| {
      EligibleAgree(rows4, rows, start + 1);
    }
  }

  /** Rows matched position by position with the same welfare index have the same NaN positions. */
  lemma {:induction false} UnrankedAgree(rows4: seq<Row>, rows: seq<Row>, start: nat)
    requires |rows4| == |rows|
    requires forall i :: 0 <= i < |rows| ==> Welfare(rows4[i]) == Welfare(rows[i])
    ensures UnrankedFrom(rows4, start) == UnrankedFrom(rows, start)
    decreases |rows| - start
  {
    if start < |rows| {
      UnrankedAgree(rows4, rows, start + 1);
    }
  }

  /** With the extra tests off, both versions send the same query and, when the index
      answers, return exactly the same recommendations. */
  lemma SemanticOutcomesAgree(raw: seq<Row>, hasIdColumn: bool, p: Preferences, n: int, hits: seq<Hit>)
    requires ExtraTestsOff(p)
    ensures |LoadV4(raw, hasIdColumn)| == |Agent.Load(raw, hasIdColumn)|
    ensures SearchOutcomeV4(LoadV4(raw, hasIdColumn), p, n, Results(hits))
         == Agent.SearchOutcome(Agent.Load(raw, hasIdColumn), p, n, Results(hits))
  {
    var rows4, rows := LoadV4(raw, hasIdColumn), Agent.Load(raw, hasIdColumn);
    LoadsAgree(raw, hasIdColumn);
    CandidatesAgree(rows4, rows, p);
    var c4, c := Candidates(rows4, p, V4Order), Candidates(rows, p, MainOrder);
    assert Mahalles(c4) == Mahalles(c);
    assert Ilces(c4) == Ilces(c);
  }

  /** A fallback recommendation of main_v4.py against main.py's for the same neighborhood:
      the same names, similarity and rent figures, and main.py's metadata without the four
      station entries. */
  predicate FallbackRecsMatch(rec4: Recommendation, rec: Recommendation) {
    && rec4.mahalle == rec.mahalle && rec4.ilce == rec.ilce
    && rec4.similarity == rec.similarity && rec4.finance == rec.finance
    && rec4.metadata.values.Keys == rec.metadata.values.Keys - StationKeys
    && forall key :: key in rec4.metadata.values ==> rec4.metadata.values[key] == rec.metadata.values[key]
  }

  /** With the extra tests off, when the index call raises both versions fall back to the same
      neighborhoods in the same order. */
  lemma FallbackOutcomesAgree(raw: seq<Row>, hasIdColumn: bool, p: Preferences, n: int)
    requires ExtraTestsOff(p)
    ensures var recs4 := SearchOutcomeV4(LoadV4(raw, hasIdColumn), p, n, IndexError);
      var recs := Agent.SearchOutcome(Agent.Load(raw, hasIdColumn), p, n, IndexError);
      |recs4| == |recs| && forall k :: 0 <= k < |recs| ==> FallbackRecsMatch(recs4[k], recs[k])
  {
    var rows4, rows := LoadV4(raw, hasIdColumn), Agent.Load(raw, hasIdColumn);
    LoadsAgree(raw, hasIdColumn);
    CandidatesAgree(rows4, rows, p);
    var c4, c := Candidates(rows4, p, V4Order), Candidates(rows, p, MainOrder);
    if c != [] {
      NLargestAgree(c4, c, n);
      FallbackRecsAgree(NLargest(c4, n), NLargest(c, n), p);
    }
  }

  /** `nlargest` on tables matched row by row picks matching rows. */
  lemma NLargestAgree(rows4: seq<Row>, rows: seq<Row>, n: int)
    requires |rows4| == |rows|
    requires forall i :: 0 <= i < |rows| ==> SameButStations(rows4[i], rows[i])
    ensures var top4, top := NLargest(rows4, n), NLargest(rows, n);
      |top4| == |top| && forall k :: 0 <= k < |top| ==> SameButStations(top4[k], top[k])
  {
    EligibleAgree(rows4, rows, 0);
    UnrankedAgree(rows4, rows, 0);
    assert TopRanked(rows4, n) == TopRanked(rows, n);
    var ps := TopPositions(rows, n);
    assert TopPositions(rows4, n) == ps;
    NLargestAt(rows4, n);
    NLargestAt(rows, n);
  }

  lemma FallbackRecsAgree(rows4: seq<Row>, rows: seq<Row>, p: Preferences)
    requires |rows4| == |rows|
    requires forall i :: 0 <= i < |rows| ==> SameButStations(rows4[i], rows[i])
    ensures var recs4, recs := FallbackRecsV4(rows4, p), Agent.FallbackRecs(rows, p);
      forall k :: 0 <= k < |recs| ==> FallbackRecsMatch(recs4[k], recs[k])
  {
    forall k | 0 <= k < |rows| ensures FallbackRecsMatch(FallbackRecV4(rows4[k], p), Agent.FallbackRec(rows[k], p)) {
      FallbackMetadataNarrower(rows4[k], rows[k]);
    }
  }

  /** The entries of main.py's fallback metadata that main_v4.py lacks. */
  const StationKeys: set<MetaKey> := {BusStationKey, TrainStationKey, TransitStationKey, TotalStationsKey}

  predicate FallbackMetadataAgree(r4: Row, r: Row) {
    var m4, m := FallbackMetadataV4(r4).values, Agent.FallbackMetadata(r).values;
    forall key :: (key in m4 <==> key in m && key !in StationKeys) && (key in m4 ==> m4[key] == m[key])
  }

  /** main_v4.py's fallback metadata is main.py's without the station entries. */
  lemma FallbackMetadataNarrower(r4: Row, r: Row)
    requires SameButStations(r4, r)
    ensures FallbackMetadataAgree(r4, r)
  {
    FallbackMetadataKeys(r4, r);
    FallbackCellsAgree(r4, r);
    FallbackMetadataValues(r4, r);
  }

  /** The keys of main_v4.py's fallback metadata are main.py's less the four station keys. */
  lemma FallbackMetadataKeys(r4: Row, r: Row)
    ensures var m4, m := FallbackMetadataV4(r4).values, Agent.FallbackMetadata(r).values;
      forall key :: key in m4 <==> key in m && key !in StationKeys
  {
  }

  /** Rows that differ only in the station total have the same cells in the columns the
      fallback metadata of main_v4.py reads. */
  lemma FallbackCellsAgree(r4: Row, r: Row)
    requires SameButStations(r4, r)
    ensures forall key :: Get(r4, FallbackColumn(key)) == Get(r, FallbackColumn(key))
  {
  }

  /** On the keys they share, the two fallback metadata agree when those cells agree. */
  lemma FallbackMetadataValues(r4: Row, r: Row)
    requires forall key :: Get(r4, FallbackColumn(key)) == Get(r, FallbackColumn(key))
    ensures var m4, m := FallbackMetadataV4(r4).values, Agent.FallbackMetadata(r).values;
      forall key :: key in m4 && key in m ==> m4[key] == m[key]
  {
    FallbackColumnsV4(r4);
    FallbackColumns(r);
    FallbackMetadataKeys(r4, r);
  }

  /** Each entry of main_v4.py's fallback metadata is its column's cell. */
  lemma FallbackColumnsV4(r: Row)
    ensures var m := FallbackMetadataV4(r).values;
      forall key :: key in m ==> m[key] == Get(r, FallbackColumn(key))
  {
  }

  /** Each non-station entry of main.py's fallback metadata is the same column's cell. */
  lemma FallbackColumns(r: Row)
    ensures var m := Agent.FallbackMetadata(r).values;
      forall key :: key in m && key !in StationKeys ==> m[key] == Get(r, FallbackColumn(key))
  {
  }

  /** The column behind each key of main_v4.py's fallback metadata. */
  function FallbackColumn(key: MetaKey): Column {
    match key
    case GreenIndexKey => GreenIndex
    case SocietyWelfareIndexKey => SocietyWelfareIndex
    case AvgRentPerSqm => AvgRentPerSqM
    case RestaurantKey => Restaurant
    case SchoolKey => School
    case ParkKey => Park
    case CafeKey => Cafe
    case _ => Nufus
  }

  /** main_v4.py's explanation raises exactly when main.py's does, on the same key; otherwise
      its reasons are the first of main.py's, which adds only transport and earthquake
      reasons, and the two agree when neither of those is asked for. */
  lemma ExplanationsAgree(rec: Recommendation, p: Preferences)
    ensures ExplainV4(rec, p).MissingKey? <==> Agent.Explain(rec, p).MissingKey?
    ensures ExplainV4(rec, p).MissingKey? ==> ExplainV4(rec, p) == Agent.Explain(rec, p)
    ensures ExplainV4(rec, p).Reasons? ==>
      Agent.Explain(rec, p).reasons
        == ExplainV4(rec, p).reasons + TransportReasons(rec.metadata, p) + QuakeReasons(rec.metadata, p)
    ensures ExplainV4(rec, p).Reasons? && !Truthy(p.minTotalStations) && !QuakeConcern(p) ==>
      ExplainV4(rec, p) == Agent.Explain(rec, p)
  {
    if ExplainV4(rec, p).Reasons? && !Truthy(p.minTotalStations) && !QuakeConcern(p) {
      assert TransportReasons(rec.metadata, p) == [] && QuakeReasons(rec.metadata, p) == [];
      assert Agent.Explain(rec, p).reasons == ExplainV4(rec, p).reasons + [] + [];
    }
  }

  /** main_v4.py's reasons come in the order budget, green space, schools, parks, at most one
      of each, and each one is true of the recommendation. */
  lemma ExplainV4OrderedAndJustified(rec: Recommendation, p: Preferences)
    ensures ExplainV4(rec, p).Reasons? ==>
      && Agent.OrderedBelow(ExplainV4(rec, p).reasons, 4)
      && forall r :: r in ExplainV4(rec, p).reasons ==> Agent.Justified(rec, p, r)
  {
    if ExplainV4(rec, p).Reasons? {
      var meta := rec.metadata;
      var g, s, k := GreenStep(meta, p), SchoolStep(meta, p), ParkStep(meta, p);
      Agent.StepGroups(rec, p);
      var rs := BudgetReasons(rec);
      Agent.OrderedAppend([], rs, 0);
      Agent.OrderedAppend(rs, g.reasons, 1);
      rs := rs + g.reasons;
      Agent.OrderedAppend(rs, s.reasons, 2);
      rs := rs + s.reasons;
      Agent.OrderedAppend(rs, k.reasons, 3);
      rs := rs + k.reasons;
      assert rs == ExplainV4(rec, p).reasons;
      ExplanationsAgree(rec, p);
      Agent.ExplainReasonsJustified(rec, p);
      assert forall r :: r in rs ==> r in Agent.Explain(rec, p).reasons;
    }
  }

  /** A fallback recommendation never makes `explain_match` raise: its metadata has every
      key the messages read. */
  lemma FallbackExplanationV4(r: Row, p: Preferences)
    ensures ExplainV4(FallbackRecV4(r, p), p).Reasons?
  {
    var meta := FallbackMetadataV4(r);
    assert GreenIndexKey in meta.values && SchoolKey in meta.values && ParkKey in meta.values;
  }
}
