/**
 * The fallback ranking `filtered_df.nlargest(n, 'Society_Welfare_Index')`: the rows with a
 * welfare index come first, highest first and ties in table order (pandas' `keep='first'`);
 * when fewer than `n` rows have one, the rows whose welfare index is NaN follow in table
 * order; the first `n` of these are returned (none when `n <= 0`).
 */
module Ranking {
  import opened Seqs
  import opened DataModel

  /** A row's welfare index `w` and its position `i` in the table. */
  datatype Ranked = Ranked(w: real, i: nat)

  /** `a` is ranked before `b`: higher welfare, or equal welfare and earlier in the table. */
  predicate Before(a: Ranked, b: Ranked) {
    a.w > b.w || (a.w == b.w && a.i < b.i)
  }

  predicate StrictlySorted(s: seq<Ranked>) {
    forall x, y :: 0 <= x < y < |s| ==> Before(s[x], s[y])
  }

  /** Insertion of one entry into a ranked list. */
  function Insert(x: Ranked, s: seq<Ranked>): (r: seq<Ranked>)
    ensures |r| == |s| + 1
    ensures forall y :: y in r <==> y == x || y in s
    ensures StrictlySorted(s) && x !in s ==> StrictlySorted(r)
  {
    if s == [] then [x]
    else if Before(x, s[0]) then
      assert StrictlySorted(s) ==> forall y :: y in s ==> y == s[0] || Before(s[0], y);
      [x] + s
    else
      var rest := Insert(x, s[1..]);
      assert forall y :: y in s <==> y == s[0] || y in s[1..];
      assert StrictlySorted(s) && x !in s ==> StrictlySorted(rest) && forall y :: y in rest ==> Before(s[0], y) by {
        if StrictlySorted(s) && x !in s {
          assert StrictlySorted(s[1..]);
          forall y | y in rest ensures Before(s[0], y) {
            if y != x {
              var k :| 0 <= k < |s[1..]| && s[1..][k] == y;
              assert Before(s[0], s[k + 1]);
            }
          }
        }
      }
      [s[0]] + rest
  }

  predicate NoDuplicates(s: seq<Ranked>) {
    forall x, y :: 0 <= x < y < |s| ==> s[x] != s[y]
  }

  /** Insertion sort of entries that are pairwise distinct. */
  function Sort(s: seq<Ranked>): (r: seq<Ranked>)
    requires NoDuplicates(s)
    ensures |r| == |s|
    ensures forall y :: y in r <==> y in s
    ensures StrictlySorted(r)
  {
    if s == [] then []
    else
      assert NoDuplicates(s[1..]);
      assert s[0] !in s[1..];
      Insert(s[0], Sort(s[1..]))
  }

  function Welfare(r: Row): Num {
    Get(r, SocietyWelfareIndex)
  }

  /** The rows from position `start` on that have a welfare index, in table order. */
  function EligibleFrom(rows: seq<Row>, start: nat): (r: seq<Ranked>)
    ensures forall e :: e in r ==> start <= e.i < |rows| && Welfare(rows[e.i]) == Real(e.w)
    ensures forall j :: start <= j < |rows| && Welfare(rows[j]).Real? ==> Ranked(Welfare(rows[j]).v, j) in r
    ensures forall x, y :: 0 <= x < y < |r| ==> r[x].i < r[y].i
    decreases |rows| - start
  {
    if start >= |rows| then []
    else
      var rest := EligibleFrom(rows, start + 1);
      (if Welfare(rows[start]).Real? then [Ranked(Welfare(rows[start]).v, start)] else []) + rest
  }

  function Eligible(rows: seq<Row>): (r: seq<Ranked>)
    ensures NoDuplicates(r)
  {
    EligibleFrom(rows, 0)
  }

  /** The entries `nlargest` keeps, in the order it returns them. */
  function TopRanked(rows: seq<Row>, n: int): seq<Ranked> {
    Take(Sort(Eligible(rows)), n)
  }

  /** The positions from `start` on whose welfare index is NaN, in table order. */
  function UnrankedFrom(rows: seq<Row>, start: nat): (r: seq<nat>)
    ensures forall k :: 0 <= k < |r| ==> start <= r[k] < |rows| && Welfare(rows[r[k]]).NaN?
    ensures forall j :: start <= j < |rows| && Welfare(rows[j]).NaN? ==> j in r
    ensures forall x, y :: 0 <= x < y < |r| ==> r[x] < r[y]
    decreases |rows| - start
  {
    if start >= |rows| then []
    else
      var rest := UnrankedFrom(rows, start + 1);
      (if Welfare(rows[start]).NaN? then [start] else []) + rest
  }

  function Unranked(rows: seq<Row>): seq<nat> {
    UnrankedFrom(rows, 0)
  }

  /** Every position is either ranked or NaN. */
  lemma {:induction false} UnrankedCount(rows: seq<Row>, start: nat)
    requires start <= |rows|
    ensures |UnrankedFrom(rows, start)| + |EligibleFrom(rows, start)| == |rows| - start
    decreases |rows| - start
  {
    if start < |rows| {
      UnrankedCount(rows, start + 1);
      var one := if Welfare(rows[start]).NaN? then 1 else 0;
      assert |UnrankedFrom(rows, start)| == one + |UnrankedFrom(rows, start + 1)|;
      assert |EligibleFrom(rows, start)| == 1 - one + |EligibleFrom(rows, start + 1)|;
    }
  }

  /** The table positions `nlargest` returns, in order: the ranked positions, then the
      positions with a NaN welfare index, cut to `n` together. */
  function TopPositions(rows: seq<Row>, n: int): (ps: seq<nat>)
    ensures forall k :: 0 <= k < |ps| ==> ps[k] < |rows|
  {
    TopRankedRows(rows, n);
    Arrange(TopRanked(rows, n), Unranked(rows), n)
  }

  /** The positions of the ranked entries `top`, followed by as many of `unranked` as fit in `n`. */
  function Arrange(top: seq<Ranked>, unranked: seq<nat>, n: int): (ps: seq<nat>)
    ensures |ps| == |top| + (if n - |top| <= 0 then 0 else if n - |top| < |unranked| then n - |top| else |unranked|)
    ensures forall k :: 0 <= k < |top| ==> ps[k] == top[k].i
    ensures forall k :: |top| <= k < |ps| ==> ps[k] == unranked[k - |top|]
  {
    var rest := Take(unranked, n - |top|);
    assert forall k :: 0 <= k < |rest| ==> rest[k] == unranked[k];
    Positions(top) + rest
  }

  function Positions(s: seq<Ranked>): (ps: seq<nat>)
    ensures |ps| == |s| && forall k :: 0 <= k < |s| ==> ps[k] == s[k].i
  {
    seq(|s|, k requires 0 <= k < |s| => s[k].i)
  }

  /** `nlargest(n, 'Society_Welfare_Index')` on the table `rows`. */
  function NLargest(rows: seq<Row>, n: int): seq<Row> {
    var ps := TopPositions(rows, n);
    seq(|ps|, k requires 0 <= k < |ps| => rows[ps[k]])
  }

  /** The rows `nlargest` returns are the rows at `TopPositions`. */
  lemma NLargestAt(rows: seq<Row>, n: int)
    ensures var ps, r := TopPositions(rows, n), NLargest(rows, n);
      |r| == |ps| && forall k :: 0 <= k < |r| ==> r[k] == rows[ps[k]]
  {
  }

  /** In a strictly sorted list, every entry of a prefix ranks before every entry outside it. */
  lemma PrefixRanksFirst(all: seq<Ranked>, top: seq<Ranked>, e: Ranked)
    requires StrictlySorted(all) && top <= all && e in all && e !in top
    ensures forall x :: x in top ==> Before(x, e)
  {
    var q :| 0 <= q < |all| && all[q] == e;
    forall x | x in top ensures Before(x, e) {
      var p :| 0 <= p < |top| && top[p] == x;
      assert all[p] == x;
      assert p < q;
    }
  }

  /** `min(n, |rows|)` positions are returned: the `min(n, #rows with a welfare index)` ranked
      positions first, then positions with a NaN welfare index in table order, which only
      appear once every ranked position is taken. */
  lemma NLargestSize(rows: seq<Row>, n: int)
    ensures var top := TopRanked(rows, n);
      var ps := TopPositions(rows, n);
      var u := Unranked(rows);
      && |top| == (if n <= 0 then 0 else if n < |Eligible(rows)| then n else |Eligible(rows)|)
      && |ps| == (if n <= 0 then 0 else if n < |rows| then n else |rows|)
      && (|ps| > |top| ==> |top| == |Eligible(rows)|)
      && (forall k :: 0 <= k < |top| ==> ps[k] == top[k].i)
      && (forall k :: |top| <= k < |ps| ==> k - |top| < |u| && ps[k] == u[k - |top|])
  {
    UnrankedCount(rows, 0);
    var top := TopRanked(rows, n);
    assert |top| <= |Eligible(rows)|;
  }

  /** A returned position carries a welfare index exactly when it is among the first
      `#rows with a welfare index`. */
  lemma PositionsValued(rows: seq<Row>, n: int)
    ensures var ps := TopPositions(rows, n);
      forall k :: 0 <= k < |ps| ==> (Welfare(rows[ps[k]]).Real? <==> k < |Eligible(rows)|)
  {
    var top := TopRanked(rows, n);
    var ps := TopPositions(rows, n);
    var u := Unranked(rows);
    NLargestSize(rows, n);
    TopRankedRows(rows, n);
    forall k | 0 <= k < |ps| ensures Welfare(rows[ps[k]]).Real? <==> k < |Eligible(rows)| {
      if k < |top| {
        assert Welfare(rows[top[k].i]) == Real(top[k].w);
      } else {
        assert Welfare(rows[u[k - |top|]]).NaN?;
      }
    }
  }

  /** The fallback keeps `min(n, |rows|)` rows. The first `min(n, #rows with a welfare index)`
      of them are the ranked rows, each with its welfare index, highest welfare first and
      ties in table order. */
  lemma NLargestOrder(rows: seq<Row>, n: int)
    ensures var top := TopRanked(rows, n);
      var r := NLargest(rows, n);
      && |top| == (if n <= 0 then 0 else if n < |Eligible(rows)| then n else |Eligible(rows)|)
      && |r| == (if n <= 0 then 0 else if n < |rows| then n else |rows|)
      && (forall k :: 0 <= k < |top| ==>
            top[k].i < |rows| && r[k] == rows[top[k].i] && Welfare(rows[top[k].i]) == Real(top[k].w))
      && (forall a, b :: 0 <= a < b < |top| ==> top[a].w >= top[b].w)
      && (forall a, b :: 0 <= a < b < |top| && top[a].w == top[b].w ==> top[a].i < top[b].i)
  {
    TopRankedRows(rows, n);
    TopRankedSorted(rows, n);
    NLargestSize(rows, n);
    NLargestAt(rows, n);
  }

  /** After the ranked rows come the rows whose welfare index is NaN, in table order, and only
      once every ranked row is taken. */
  lemma NLargestUnrankedTail(rows: seq<Row>, n: int)
    ensures var top := TopRanked(rows, n);
      var u := Unranked(rows);
      var r := NLargest(rows, n);
      && (|r| > |top| ==> |top| == |Eligible(rows)|)
      && (forall k :: |top| <= k < |r| ==> k - |top| < |u| && r[k] == rows[u[k - |top|]])
      && (forall k :: 0 <= k < |u| ==> u[k] < |rows| && Welfare(rows[u[k]]).NaN?)
      && (forall x, y :: 0 <= x < y < |u| ==> u[x] < u[y])
  {
    NLargestSize(rows, n);
    NLargestAt(rows, n);
  }

  /** What `nlargest` returns, stated on rows: `min(n, |rows|)` rows of the table; those with
      a welfare index come first, and those whose welfare index is NaN only after all of
      them. */
  lemma NLargestShape(rows: seq<Row>, n: int)
    ensures var r := NLargest(rows, n);
      && |r| == (if n <= 0 then 0 else if n < |rows| then n else |rows|)
      && (forall k :: 0 <= k < |r| ==> r[k] in rows)
      && (forall k :: 0 <= k < |r| ==> (Welfare(r[k]).Real? <==> k < |Eligible(rows)|))
  {
    var ps := TopPositions(rows, n);
    NLargestSize(rows, n);
    NLargestAt(rows, n);
    PositionsValued(rows, n);
    assert forall k :: 0 <= k < |ps| ==> rows[ps[k]] in rows;
  }

  /** The rows with a welfare index come by descending welfare, with no NaN row before any of
      them. */
  lemma NLargestDescending(rows: seq<Row>, n: int)
    ensures var r := NLargest(rows, n);
      forall i, j :: 0 <= i < j < |r| && Welfare(r[j]).Real? ==>
        Welfare(r[i]).Real? && Welfare(r[i]).v >= Welfare(r[j]).v
  {
    var r := NLargest(rows, n);
    var top := TopRanked(rows, n);
    NLargestOrder(rows, n);
    NLargestShape(rows, n);
    assert forall k :: 0 <= k < |top| ==> Welfare(r[k]) == Real(top[k].w);
  }

  /** Every kept entry is an eligible row of the table. */
  lemma TopRankedRows(rows: seq<Row>, n: int)
    ensures var top := TopRanked(rows, n);
      forall k :: 0 <= k < |top| ==> top[k].i < |rows| && Welfare(rows[top[k].i]) == Real(top[k].w)
  {
    var all := Sort(Eligible(rows));
    var top := TopRanked(rows, n);
    assert top <= all;
    assert forall k :: 0 <= k < |top| ==> top[k] == all[k] && top[k] in Eligible(rows);
  }

  /** The kept entries are by welfare, highest first, ties in table order. */
  lemma TopRankedSorted(rows: seq<Row>, n: int)
    ensures var top := TopRanked(rows, n);
      && (forall a, b :: 0 <= a < b < |top| ==> top[a].w >= top[b].w)
      && (forall a, b :: 0 <= a < b < |top| && top[a].w == top[b].w ==> top[a].i < top[b].i)
  {
    var all := Sort(Eligible(rows));
    var top := TopRanked(rows, n);
    assert top <= all;
    assert forall a, b :: 0 <= a < b < |top| ==> Before(all[a], all[b]);
  }


  /** Every row with a welfare index that the fallback does not keep ranks after every row it
      keeps. */
  lemma {:induction false} NLargestIsTopN(rows: seq<Row>, n: int)
    ensures var top := TopRanked(rows, n);
      forall j :: 0 <= j < |rows| && Welfare(rows[j]).Real? && Ranked(Welfare(rows[j]).v, j) !in top ==>
        forall x :: x in top ==> Before(x, Ranked(Welfare(rows[j]).v, j))
  {
    var all := Sort(Eligible(rows));
    var top := TopRanked(rows, n);
    forall j | 0 <= j < |rows| && Welfare(rows[j]).Real? && Ranked(Welfare(rows[j]).v, j) !in top
      ensures forall x :: x in top ==> Before(x, Ranked(Welfare(rows[j]).v, j))
    {
      PrefixRanksFirst(all, top, Ranked(Welfare(rows[j]).v, j));
    }
  }
}
