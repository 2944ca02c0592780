/**
 * The constraint filter of `filter_by_constraints`: a fixed chain of per-row threshold
 * tests, each switched on or off by one preference field. The chain narrows the table
 * test by test and records one trace entry per test that is switched on.
 */
module Constraints {
  import opened Wrappers
  import opened Seqs
  import opened DataModel
  import opened Prefs

  /** The tests, named after the preference that drives them. */
  datatype Kind =
    | Budget | Parks | Schools | Restaurants | Cafes | Green | Population | Stations
    | Casualties | Severely | Heavily

  /** The order of the chain in main.py. */
  const MainOrder: seq<Kind> :=
    [Budget, Parks, Schools, Restaurants, Cafes, Green, Population, Stations, Casualties, Severely, Heavily]

  /** The order of the chain in main_v4.py: the first seven tests. */
  const V4Order: seq<Kind> := [Budget, Parks, Schools, Restaurants, Cafes, Green, Population]

  /** The three earthquake maxima, which are tested against `is not None` rather than truthiness. */
  predicate IsEarthquakeKind(k: Kind) {
    k == Casualties || k == Severely || k == Heavily
  }

  /** The preference field that holds the threshold of test `k`. */
  function Field(p: Preferences, k: Kind): Option<real> {
    match k
    case Budget => p.monthlyBudget
    case Parks => p.minParks
    case Schools => p.minSchools
    case Restaurants => p.minRestaurants
    case Cafes => p.minCafes
    case Green => p.minGreenIndex
    case Population => p.maxPopulation
    case Stations => p.minTotalStations
    case Casualties => p.maxCasualties
    case Severely => p.maxSeverelyDamaged
    case Heavily => p.maxHeavilyDamaged
  }

  /** The column test `k` compares (for the budget: the rent per square meter). */
  function Attribute(k: Kind): Column {
    match k
    case Budget => AvgRentPerSqM
    case Parks => Park
    case Schools => School
    case Restaurants => Restaurant
    case Cafes => Cafe
    case Green => GreenIndex
    case Population => Nufus
    case Stations => TotalStations
    case Casualties => CanKaybiSayisi
    case Severely => CokAgirHasarliBinaSayisi
    case Heavily => AgirHasarliBinaSayisi
  }

  /** The threshold of test `k` when the preferences switch it on. The first eight tests
      run when their field is truthy; the casualty test sits inside
      `if earthquake_safe or max_casualties is not None` and runs when `max_casualties is not None`;
      the two damage tests run when their field is not None. */
  function Threshold(p: Preferences, k: Kind): Option<real> {
    match k
    case Casualties =>
      if FlagTruthy(p.earthquakeSafe) || p.maxCasualties.Some? then
        (if p.maxCasualties.Some? then p.maxCasualties else None)
      else None
    case Severely => p.maxSeverelyDamaged
    case Heavily => p.maxHeavilyDamaged
    case _ => if Truthy(Field(p, k)) then Field(p, k) else None
  }

  /** Whether row `r` passes test `k` with threshold `t`; a NaN cell fails every comparison. */
  predicate Holds(p: Preferences, k: Kind, t: real, r: Row) {
    match k
    case Budget => AtMost(Scale(Get(r, AvgRentPerSqM), EffectiveSize(p)), t)
    case Population => AtMost(Get(r, Nufus), t)
    case Casualties => AtMost(Get(r, CanKaybiSayisi), t)
    case Severely => AtMost(Get(r, CokAgirHasarliBinaSayisi), t)
    case Heavily => AtMost(Get(r, AgirHasarliBinaSayisi), t)
    case _ => AtLeast(Get(r, Attribute(k)), t)
  }

  /** Row `r` is not removed by test `k`: the test is off, or it holds. */
  predicate Passes(p: Preferences, k: Kind, r: Row) {
    Threshold(p, k).None? || Holds(p, k, Threshold(p, k).value, r)
  }

  /** Row `r` passes every test named in `ks`. */
  predicate SatisfiesAll(p: Preferences, ks: seq<Kind>, r: Row) {
    forall k :: k in ks ==> Passes(p, k, r)
  }

  /** One boolean mask: the rows of `rows` that pass test `k` with threshold `t`, in order. */
  function Narrow(rows: seq<Row>, p: Preferences, k: Kind, t: real): seq<Row> {
    if rows == [] then []
    else (if Holds(p, k, t, rows[0]) then [rows[0]] else []) + Narrow(rows[1..], p, k, t)
  }

  /** The candidate set: the rows passing every test in `ks`, in table order. */
  function Candidates(rows: seq<Row>, p: Preferences, ks: seq<Kind>): seq<Row> {
    if rows == [] then []
    else (if SatisfiesAll(p, ks, rows[0]) then [rows[0]] else []) + Candidates(rows[1..], p, ks)
  }

  /** One entry of `filters_applied`: which test ran and with which threshold. */
  datatype Applied = Applied(kind: Kind, threshold: real)

  /** The trace of running the tests `ks` in order. */
  function Trace(p: Preferences, ks: seq<Kind>): seq<Applied> {
    if ks == [] then []
    else
      var k := ks[|ks| - 1];
      Trace(p, ks[..|ks| - 1]) + (if Threshold(p, k).Some? then [Applied(k, Threshold(p, k).value)] else [])
  }

  function Kinds(trace: seq<Applied>): (r: seq<Kind>)
    ensures |r| == |trace|
    ensures forall i :: 0 <= i < |trace| ==> r[i] == trace[i].kind
  {
    if trace == [] then [] else [trace[0].kind] + Kinds(trace[1..])
  }

  /** Applying test `k` after the tests `ks` is one more mask on their candidates, or nothing
      when `k` is off. */
  lemma {:induction false} CandidatesStep(rows: seq<Row>, p: Preferences, ks: seq<Kind>, k: Kind)
    ensures Threshold(p, k).Some? ==>
      Candidates(rows, p, ks + [k]) == Narrow(Candidates(rows, p, ks), p, k, Threshold(p, k).value)
    ensures Threshold(p, k).None? ==> Candidates(rows, p, ks + [k]) == Candidates(rows, p, ks)
  {
    if rows != [] {
      CandidatesStep(rows[1..], p, ks, k);
      var r := rows[0];
      assert SatisfiesAll(p, ks + [k], r) == (SatisfiesAll(p, ks, r) && Passes(p, k, r));
      var rest := Candidates(rows[1..], p, ks);
      if Threshold(p, k).Some? {
        var t := Threshold(p, k).value;
        if SatisfiesAll(p, ks, r) {
          assert Candidates(rows, p, ks) == [r] + rest;
          assert ([r] + rest)[1..] == rest;
        } else {
          assert Candidates(rows, p, ks) == rest;
        }
      }
    }
  }

  /** With no tests, every row is a candidate and the trace is empty. */
  lemma {:induction false} NoTestsKeepAll(rows: seq<Row>, p: Preferences)
    ensures Candidates(rows, p, []) == rows
    ensures Trace(p, []) == []
  {
    if rows != [] {
      NoTestsKeepAll(rows[1..], p);
      assert [rows[0]] + rows[1..] == rows;
    }
  }

  /** One step of the chain as `filter_by_constraints` runs it: from the candidates and trace
      of the tests `done`, test `k` (switched on when `on`, with threshold `t`) applies its
      mask and appends its entry. */
  lemma Advance(rows: seq<Row>, p: Preferences, done: seq<Kind>, k: Kind, filtered: seq<Row>, applied: seq<Applied>, on: bool, t: real)
    requires filtered == Candidates(rows, p, done) && applied == Trace(p, done)
    requires on == Threshold(p, k).Some? && (on ==> t == Threshold(p, k).value)
    ensures on ==> Candidates(rows, p, done + [k]) == Narrow(filtered, p, k, t)
    ensures on ==> Trace(p, done + [k]) == applied + [Applied(k, t)]
    ensures !on ==> Candidates(rows, p, done + [k]) == filtered && Trace(p, done + [k]) == applied
  {
    CandidatesStep(rows, p, done, k);
    TraceStep(p, done, k);
  }

  /** Applying test `k` after the tests `ks` adds one trace entry when `k` is on, none otherwise. */
  lemma TraceStep(p: Preferences, ks: seq<Kind>, k: Kind)
    ensures Trace(p, ks + [k]) ==
      Trace(p, ks) + (if Threshold(p, k).Some? then [Applied(k, Threshold(p, k).value)] else [])
  {
    assert (ks + [k])[..|ks|] == ks;
  }

  /** The candidate set is exactly the rows satisfying the conjunction of the active tests,
      kept in table order. */
  lemma {:induction false} CandidatesExact(rows: seq<Row>, p: Preferences, ks: seq<Kind>)
    ensures forall r :: r in Candidates(rows, p, ks) <==> r in rows && SatisfiesAll(p, ks, r)
    ensures IsSubsequence(Candidates(rows, p, ks), rows)
  {
    if rows != [] {
      CandidatesExact(rows[1..], p, ks);
      var rest := Candidates(rows[1..], p, ks);
      if SatisfiesAll(p, ks, rows[0]) {
        assert Candidates(rows, p, ks) == [rows[0]] + rest;
        assert ([rows[0]] + rest)[1..] == rest;
      } else {
        assert Candidates(rows, p, ks) == rest;
        if rest != [] {
          assert IsSubsequence(rest, rows[1..]);
        }
      }
      forall r ensures r in Candidates(rows, p, ks) <==> r in rows && SatisfiesAll(p, ks, r) {
        assert r in rows <==> r == rows[0] || r in rows[1..];
      }
    }
  }

  /** Only the set of tests matters, not their order: the tests commute. */
  lemma {:induction false} CandidatesOrderIndependent(rows: seq<Row>, p: Preferences, ks1: seq<Kind>, ks2: seq<Kind>)
    requires forall k :: k in ks1 <==> k in ks2
    ensures Candidates(rows, p, ks1) == Candidates(rows, p, ks2)
  {
    if rows != [] {
      CandidatesOrderIndependent(rows[1..], p, ks1, ks2);
      assert SatisfiesAll(p, ks1, rows[0]) == SatisfiesAll(p, ks2, rows[0]);
    }
  }

  /** The trace holds an entry for a test exactly when that test is switched on, with its
      threshold, and the entries follow the order of `ks`. */
  lemma {:induction false} TraceContents(p: Preferences, ks: seq<Kind>)
    ensures forall a :: a in Trace(p, ks) <==> a.kind in ks && Threshold(p, a.kind) == Some(a.threshold)
    ensures IsSubsequence(Kinds(Trace(p, ks)), ks)
    ensures |Trace(p, ks)| <= |ks|
    decreases |ks|
  {
    if ks != [] {
      var init, k := ks[..|ks| - 1], ks[|ks| - 1];
      assert ks == init + [k];
      TraceContents(p, init);
      var e: seq<Applied> := if Threshold(p, k).Some? then [Applied(k, Threshold(p, k).value)] else [];
      assert Trace(p, ks) == Trace(p, init) + e;
      forall a ensures a in Trace(p, ks) <==> a.kind in ks && Threshold(p, a.kind) == Some(a.threshold) {
        assert a in Trace(p, ks) <==> a in Trace(p, init) || a in e;
        assert a.kind in ks <==> a.kind in init || a.kind == k;
      }
      KindsAppend(Trace(p, init), e);
      SubsequenceAppend(Kinds(Trace(p, init)), init, Kinds(e), [k]);
    }
  }

  lemma {:induction false} KindsAppend(a: seq<Applied>, b: seq<Applied>)
    ensures Kinds(a + b) == Kinds(a) + Kinds(b)
  {
  }

  lemma {:induction false} SubsequenceAppend<T>(a: seq<T>, b: seq<T>, c: seq<T>, d: seq<T>)
    requires IsSubsequence(a, b) && IsSubsequence(c, d)
    ensures IsSubsequence(a + c, b + d)
    decreases |b|
  {
    if b == [] {
      assert a == [];
      assert a + c == c && b + d == d;
    } else if a != [] && a[0] == b[0] && IsSubsequence(a[1..], b[1..]) {
      SubsequenceAppend(a[1..], b[1..], c, d);
      assert (a + c)[1..] == a[1..] + c;
      assert (b + d)[1..] == b[1..] + d;
    } else if a != [] {
      SubsequenceAppend(a, b[1..], c, d);
      assert (b + d)[1..] == b[1..] + d;
    } else {
      SubsequenceAppend(a, b[1..], c, d);
      assert (b + d)[1..] == b[1..] + d;
      assert a + c == c;
      if c != [] {
        assert IsSubsequence(a + c, (b + d)[1..]);
      }
    }
  }

  /** The empty preference record switches every test off: the whole table survives and the
      trace is empty. */
  lemma {:induction false} EmptyPreferencesKeepAll(rows: seq<Row>, ks: seq<Kind>)
    ensures Candidates(rows, Empty(), ks) == rows
    ensures Trace(Empty(), ks) == []
    decreases |rows| + |ks|
  {
    if rows != [] {
      EmptyPreferencesKeepAll(rows[1..], ks);
      assert SatisfiesAll(Empty(), ks, rows[0]);
    }
    if ks != [] {
      EmptyPreferencesKeepAll([], ks[..|ks| - 1]);
    }
  }

  /** Two preference records that switch on the same tests with the same thresholds (and the
      same apartment size) give the same candidates and the same trace. */
  lemma {:induction false} ThresholdsDecide(rows: seq<Row>, p: Preferences, q: Preferences, ks: seq<Kind>)
    requires forall k :: Threshold(p, k) == Threshold(q, k)
    requires EffectiveSize(p) == EffectiveSize(q)
    ensures Candidates(rows, p, ks) == Candidates(rows, q, ks)
    ensures Trace(p, ks) == Trace(q, ks)
    decreases |rows| + |ks|
  {
    if rows != [] {
      ThresholdsDecide(rows[1..], p, q, ks);
      assert SatisfiesAll(p, ks, rows[0]) == SatisfiesAll(q, ks, rows[0]);
    }
    if ks != [] {
      ThresholdsDecide([], p, q, ks[..|ks| - 1]);
    }
  }

  /** Activation: the first eight tests are on exactly when their field is truthy, so 0 and None
      switch them off; the three earthquake maxima are on exactly when their field is present, so
      a maximum of 0 is enforced. */
  lemma ActivationRules(p: Preferences, k: Kind)
    ensures !IsEarthquakeKind(k) ==> (Threshold(p, k).Some? <==> Truthy(Field(p, k)))
    ensures IsEarthquakeKind(k) ==> Threshold(p, k) == Field(p, k)
    ensures Threshold(p, k).Some? ==> Threshold(p, k) == Field(p, k)
  {
  }

  /** `earthquake_safe = true` without any numeric earthquake maximum adds no test. */
  lemma EarthquakeSafeAloneIsNoop(rows: seq<Row>, p: Preferences, ks: seq<Kind>)
    requires p.maxCasualties.None? && p.maxSeverelyDamaged.None? && p.maxHeavilyDamaged.None?
    ensures Candidates(rows, p, ks) == Candidates(rows, p.(earthquakeSafe := None), ks)
    ensures Trace(p, ks) == Trace(p.(earthquakeSafe := None), ks)
  {
    var q := p.(earthquakeSafe := None);
    assert forall k :: Threshold(p, k) == Threshold(q, k);
    ThresholdsDecide(rows, p, q, ks);
  }

  /** A falsy threshold (0 or None) on one of the first eight tests filters nothing: it gives the
      same candidates and trace as leaving the field out. */
  lemma FalsyThresholdIsNoop(rows: seq<Row>, p: Preferences, ks: seq<Kind>)
    requires !Truthy(p.minParks)
    ensures Candidates(rows, p, ks) == Candidates(rows, p.(minParks := None), ks)
    ensures Trace(p, ks) == Trace(p.(minParks := None), ks)
  {
    var q := p.(minParks := None);
    assert forall k :: Threshold(p, k) == Threshold(q, k);
    ThresholdsDecide(rows, p, q, ks);
  }

  /** A row whose column is NaN never survives a test on that column that is switched on. */
  lemma NaNFailsActiveTest(rows: seq<Row>, p: Preferences, ks: seq<Kind>, k: Kind)
    requires k in ks && Threshold(p, k).Some?
    ensures forall r :: r in Candidates(rows, p, ks) ==> Get(r, Attribute(k)).Real?
  {
    CandidatesExact(rows, p, ks);
    forall r | r in Candidates(rows, p, ks) ensures Get(r, Attribute(k)).Real? {
      assert Passes(p, k, r);
    }
  }

  /** An earthquake maximum of 0 is enforced: every candidate has the value 0 or less. */
  lemma ZeroEarthquakeMaximumEnforced(rows: seq<Row>, p: Preferences, ks: seq<Kind>, k: Kind)
    requires IsEarthquakeKind(k) && k in ks && Field(p, k) == Some(0.0)
    ensures forall r :: r in Candidates(rows, p, ks) ==> AtMost(Get(r, Attribute(k)), 0.0)
  {
    CandidatesExact(rows, p, ks);
    forall r | r in Candidates(rows, p, ks) ensures AtMost(Get(r, Attribute(k)), 0.0) {
      assert Passes(p, k, r);
    }
  }

  /** When a budget is given, every candidate's rent for the effective size is within it. */
  lemma CandidatesWithinBudget(rows: seq<Row>, p: Preferences, ks: seq<Kind>)
    requires Budget in ks && Truthy(p.monthlyBudget)
    ensures forall r :: r in Candidates(rows, p, ks) ==>
      AvgRentPerSqM in r.nums && r.nums[AvgRentPerSqM] * EffectiveSize(p) <= p.monthlyBudget.value
  {
    CandidatesExact(rows, p, ks);
    forall r | r in Candidates(rows, p, ks)
      ensures AvgRentPerSqM in r.nums && r.nums[AvgRentPerSqM] * EffectiveSize(p) <= p.monthlyBudget.value
    {
      assert Passes(p, Budget, r);
    }
  }

  /** More tests can only remove rows: the result for the longer chain is a subsequence of the
      result for the shorter one. */
  lemma {:induction false} MoreTestsNarrower(rows: seq<Row>, p: Preferences, ks1: seq<Kind>, ks2: seq<Kind>)
    requires forall k :: k in ks1 ==> k in ks2
    ensures IsSubsequence(Candidates(rows, p, ks2), Candidates(rows, p, ks1))
  {
    if rows != [] {
      MoreTestsNarrower(rows[1..], p, ks1, ks2);
      var a, b := Candidates(rows[1..], p, ks2), Candidates(rows[1..], p, ks1);
      if SatisfiesAll(p, ks2, rows[0]) {
        assert SatisfiesAll(p, ks1, rows[0]);
        assert ([rows[0]] + a)[1..] == a && ([rows[0]] + b)[1..] == b;
      } else if SatisfiesAll(p, ks1, rows[0]) {
        assert Candidates(rows, p, ks2) == a;
        assert Candidates(rows, p, ks1) == [rows[0]] + b;
        assert ([rows[0]] + b)[1..] == b;
        if a != [] {
          assert IsSubsequence(a, ([rows[0]] + b)[1..]);
        }
      } else {
        assert Candidates(rows, p, ks2) == a;
        assert Candidates(rows, p, ks1) == b;
      }
    }
  }

  /** The main.py chain narrows at least as much as the main_v4.py chain, and they agree when
      the station and earthquake tests are off. */
  lemma MainChainRefinesV4(rows: seq<Row>, p: Preferences)
    ensures IsSubsequence(Candidates(rows, p, MainOrder), Candidates(rows, p, V4Order))
    ensures Threshold(p, Stations).None? && Threshold(p, Casualties).None? &&
            Threshold(p, Severely).None? && Threshold(p, Heavily).None? ==>
      Candidates(rows, p, MainOrder) == Candidates(rows, p, V4Order)
  {
    MoreTestsNarrower(rows, p, V4Order, MainOrder);
    if Threshold(p, Stations).None? && Threshold(p, Casualties).None? &&
       Threshold(p, Severely).None? && Threshold(p, Heavily).None? {
      SameCandidatesWhenExtraOff(rows, p);
    }
  }

  lemma {:induction false} SameCandidatesWhenExtraOff(rows: seq<Row>, p: Preferences)
    requires Threshold(p, Stations).None? && Threshold(p, Casualties).None?
    requires Threshold(p, Severely).None? && Threshold(p, Heavily).None?
    ensures Candidates(rows, p, MainOrder) == Candidates(rows, p, V4Order)
  {
    if rows != [] {
      SameCandidatesWhenExtraOff(rows[1..], p);
      var r := rows[0];
      assert SatisfiesAll(p, MainOrder, r) == SatisfiesAll(p, V4Order, r) by {
        forall k | k in MainOrder && k !in V4Order ensures Passes(p, k, r) {
          assert k == Stations || k == Casualties || k == Severely || k == Heavily;
        }
      }
    }
  }
}
