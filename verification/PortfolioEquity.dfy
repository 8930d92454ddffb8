/** The equal-weight portfolio curve: equity curves with different dates, filled forward in place
    in a matrix, against its simple meaning date by date. None is a missing value (NaN). */
module PortfolioEquity {
  import opened Collections
  import opened Wrappers

  /** (date, equity in money) in the order of the series. */
  type Curve = seq<(int, Option<real>)>

  /** Before its first value a curve counts as uninvested cash. */
  const CASH_LEVEL := 1.0

  // ----- the simple meaning -----

  /** The value a curve has on a date; of repeated dates the last one counts. */
  function ValueOn(curve: Curve, date: int): Option<real> {
    if curve == [] then None
    else
      var (d, v) := curve[|curve| - 1];
      if d == date then v else ValueOn(curve[..|curve| - 1], date)
  }

  function Dates(curve: Curve): set<int> {
    set i | 0 <= i < |curve| :: curve[i].0
  }

  /** The curve has a value on d, and d is not after the date. */
  predicate Known(curve: Curve, date: int, d: int) {
    d <= date && ValueOn(curve, d).Some?
  }

  /** Of the first n dates of the curve, the latest that has a value and is not after the date. */
  function LatestDate(curve: Curve, date: int, n: nat): (r: Option<int>)
    requires n <= |curve|
    ensures r.Some? ==> Known(curve, date, r.value)
    ensures forall i :: 0 <= i < n && Known(curve, date, curve[i].0) ==> r.Some? && curve[i].0 <= r.value
  {
    if n == 0 then None
    else
      var before, d := LatestDate(curve, date, n - 1), curve[n - 1].0;
      if Known(curve, date, d) && (before.None? || before.value < d) then Some(d) else before
  }

  /** The last value at or before the date as a share of the initial cash; the cash level if none. */
  function Level(curve: Curve, cash: real, date: int): real
    requires cash > 0.0
  {
    match LatestDate(curve, date, |curve|)
    case Some(d) => ValueOn(curve, d).value / cash
    case None => CASH_LEVEL
  }

  /** The level is the value of a date that has one and that no later date at or before the given
      one replaces. */
  lemma LevelIsLatest(curve: Curve, cash: real, date: int, d: int)
    requires cash > 0.0 && Known(curve, date, d)
    requires forall later: int :: d < later ==> !Known(curve, date, later)
    ensures Level(curve, cash, date) == ValueOn(curve, d).value / cash
  {
    ValueMeansDate(curve, d);
    var i :| 0 <= i < |curve| && curve[i].0 == d;
  }

  lemma LevelIsCash(curve: Curve, cash: real, date: int)
    requires cash > 0.0 && forall d: int :: !Known(curve, date, d)
    ensures Level(curve, cash, date) == CASH_LEVEL
  {
  }

  function SumOfLevels(curves: seq<Curve>, cash: real, date: int, n: nat): real
    requires cash > 0.0 && n <= |curves|
  {
    if n == 0 then 0.0 else SumOfLevels(curves, cash, date, n - 1) + Level(curves[n - 1], cash, date)
  }

  function MeanLevel(curves: seq<Curve>, cash: real, date: int): real
    requires cash > 0.0 && |curves| > 0
  {
    SumOfLevels(curves, cash, date, |curves|) / |curves| as real
  }

  /** What the levels of the first n curves exceed a level by, in sum. */
  function ExcessOfLevels(curves: seq<Curve>, cash: real, date: int, n: nat, level: real): real
    requires cash > 0.0 && n <= |curves|
  {
    if n == 0 then 0.0
    else ExcessOfLevels(curves, cash, date, n - 1, level) + (Level(curves[n - 1], cash, date) - level)
  }

  lemma {:induction false} ExcessIsSum(curves: seq<Curve>, cash: real, date: int, n: nat, level: real)
    requires cash > 0.0 && n <= |curves|
    ensures ExcessOfLevels(curves, cash, date, n, level) == SumOfLevels(curves, cash, date, n) - n as real * level
  {
    hide Level;
    if n > 0 {
      var m := n - 1;
      ExcessIsSum(curves, cash, date, m, level);
      OnceMore(m, level);
    }
  }

  lemma OnceMore(n: nat, x: real)
    ensures (n + 1) as real * x == n as real * x + x
  {
  }

  /** The mean level is the one around which the levels of all the curves balance. */
  lemma MeanBalances(curves: seq<Curve>, cash: real, date: int)
    requires cash > 0.0 && |curves| > 0
    ensures ExcessOfLevels(curves, cash, date, |curves|, MeanLevel(curves, cash, date)) == 0.0
  {
    hide Level, SumOfLevels;
    ExcessIsSum(curves, cash, date, |curves|, MeanLevel(curves, cash, date));
    QuotientTimes(SumOfLevels(curves, cash, date, |curves|), |curves| as real);
  }

  lemma QuotientTimes(x: real, n: real)
    requires n != 0.0
    ensures n * (x / n) == x
  {
  }

  /** Of repeated dates the last one counts. */
  lemma {:induction false} LastOfDateCounts(curve: Curve, i: nat)
    requires i < |curve| && forall j :: i < j < |curve| ==> curve[j].0 != curve[i].0
    ensures ValueOn(curve, curve[i].0) == curve[i].1
  {
    if i < |curve| - 1 {
      var shorter := curve[..|curve| - 1];
      assert forall j :: 0 <= j < |shorter| ==> shorter[j] == curve[j];
      LastOfDateCounts(shorter, i);
    }
  }

  // ----- dates -----

  function InsertDate(s: seq<int>, d: int): (r: seq<int>)
    requires Ascending(s)
    ensures Ascending(r)
    ensures forall x :: x in r <==> x == d || x in s
  {
    if s == [] then [d]
    else if d < s[0] then [d] + s
    else if d == s[0] then s
    else
      var rest := InsertDate(s[1..], d);
      assert forall i :: 0 <= i < |rest| ==> rest[i] in rest;
      [s[0]] + rest
  }

  function InsertDates(s: seq<int>, curve: Curve): (r: seq<int>)
    requires Ascending(s)
    ensures Ascending(r)
    ensures forall x :: x in r <==> x in s || x in Dates(curve)
  {
    if curve == [] then s
    else
      var shorter := curve[..|curve| - 1];
      assert Dates(curve) == Dates(shorter) + {curve[|curve| - 1].0} by {
        assert forall i :: 0 <= i < |shorter| ==> shorter[i] == curve[i];
      }
      InsertDate(InsertDates(s, shorter), curve[|curve| - 1].0)
  }

  /** All dates of all curves, each once, in order. */
  function AllDates(curves: seq<Curve>): (r: seq<int>)
    ensures Ascending(r)
    ensures forall x :: x in r <==> exists j :: 0 <= j < |curves| && x in Dates(curves[j])
  {
    if curves == [] then []
    else
      var shorter := curves[..|curves| - 1];
      assert forall j :: 0 <= j < |shorter| ==> shorter[j] == curves[j];
      InsertDates(AllDates(shorter), curves[|curves| - 1])
  }

  function RowOf(index: seq<int>, date: int): (r: nat)
    requires date in index
    ensures r < |index| && index[r] == date
  {
    if index[0] == date then 0 else 1 + RowOf(index[1..], date)
  }

  // ----- the matrix -----

  function Cell(curve: Curve, cash: real, date: int): Option<real>
    requires cash > 0.0
  {
    match ValueOn(curve, date)
    case Some(v) => Some(v / cash)
    case None => None
  }

  /** Write one curve into its column. */
  method WriteColumn(matrix: array2<Option<real>>, index: seq<int>, j: nat, curve: Curve, cash: real)
    requires cash > 0.0 && matrix.Length0 == |index| && j < matrix.Length1 && Ascending(index)
    requires forall x :: x in Dates(curve) ==> x in index
    requires forall r :: 0 <= r < |index| ==> matrix[r, j] == None
    modifies matrix
    ensures forall r :: 0 <= r < |index| ==> matrix[r, j] == Cell(curve, cash, index[r])
    ensures forall r, i :: 0 <= r < |index| && 0 <= i < matrix.Length1 && i != j ==> matrix[r, i] == old(matrix[r, i])
  {
    for n := 0 to |curve|
      invariant forall r :: 0 <= r < |index| ==> matrix[r, j] == Cell(curve[..n], cash, index[r])
      invariant forall r, i ::
                0 <= r < |index| && 0 <= i < matrix.Length1 && i != j ==> matrix[r, i] == old(matrix[r, i])
    {
      var (date, value) := curve[n];
      assert date in Dates(curve);
      var row := RowOf(index, date);
      assert curve[..n + 1][..n] == curve[..n];
      matrix[row, j] := if value.Some? then Some(value.value / cash) else None;
    }
    assert curve[..|curve|] == curve;
  }

  /** Row by row, the last row so far that has a value, by a running maximum in place; then the cell
      of that row, and the cash level where there is none. */
  method FillColumn(matrix: array2<Option<real>>, lastValid: array2<int>, filled: array2<real>, index: seq<int>,
                    j: nat, curve: Curve, cash: real)
    requires cash > 0.0 && Ascending(index) && Dates(curve) <= (set x | x in index)
    requires matrix.Length0 == lastValid.Length0 == filled.Length0 == |index|
    requires matrix.Length1 == lastValid.Length1 == filled.Length1 && j < matrix.Length1
    requires forall r :: 0 <= r < |index| ==> matrix[r, j] == Cell(curve, cash, index[r])
    modifies lastValid, filled
    ensures forall r :: 0 <= r < |index| ==> filled[r, j] == Level(curve, cash, index[r])
    ensures forall r, i :: 0 <= r < |index| && 0 <= i < filled.Length1 && i != j ==> filled[r, i] == old(filled[r, i])
  {
    for r := 0 to |index|
      modifies lastValid
      invariant forall q :: 0 <= q < r ==> lastValid[q, j] == if matrix[q, j].Some? then q else -1
    {
      lastValid[r, j] := if matrix[r, j].Some? then r else -1;
    }
    for r := 0 to |index|
      modifies lastValid
      invariant forall q :: r <= q < |index| ==> lastValid[q, j] == if matrix[q, j].Some? then q else -1
      invariant forall q :: 0 <= q < r ==> IsLastRow(matrix, j, q, lastValid[q, j])
    {
      if r > 0 && lastValid[r - 1, j] > lastValid[r, j] {
        lastValid[r, j] := lastValid[r - 1, j];
      }
    }
    for r := 0 to |index|
      modifies filled
      invariant forall q :: 0 <= q < r ==> filled[q, j] == Level(curve, cash, index[q])
      invariant forall q, i ::
                0 <= q < |index| && 0 <= i < filled.Length1 && i != j ==> filled[q, i] == old(filled[q, i])
    {
      var last := lastValid[r, j];
      RowIsLevel(matrix, index, j, curve, cash, r, last);
      filled[r, j] := if last < 0 then CASH_LEVEL else matrix[last, j].value;
    }
  }

  /** `last` is the greatest row up to r with a value in column j, or -1. */
  ghost predicate IsLastRow(matrix: array2<Option<real>>, j: nat, r: nat, last: int)
    requires r < matrix.Length0 && j < matrix.Length1
    reads matrix
  {
    && -1 <= last <= r
    && (last >= 0 ==> matrix[last, j].Some?)
    && forall q :: last < q <= r ==> matrix[q, j].None?
  }

  /** The last row with a value holds the last value at or before the row's date. */
  lemma RowIsLevel(matrix: array2<Option<real>>, index: seq<int>, j: nat, curve: Curve, cash: real, r: nat, last: int)
    requires cash > 0.0 && Ascending(index) && matrix.Length0 == |index| && j < matrix.Length1 && r < |index|
    requires Dates(curve) <= (set x | x in index)
    requires forall q :: 0 <= q < |index| ==> matrix[q, j] == Cell(curve, cash, index[q])
    requires IsLastRow(matrix, j, r, last)
    ensures Level(curve, cash, index[r]) == if last < 0 then CASH_LEVEL else matrix[last, j].value
  {
    forall d: int | Known(curve, index[r], d)
      ensures last >= 0 && d <= index[last]
    {
      ValueMeansDate(curve, d);
      assert d in (set x | x in index);
      var q :| 0 <= q < |index| && index[q] == d;
      assert matrix[q, j].Some?;
      assert q <= last;
    }
    if last < 0 {
      LevelIsCash(curve, cash, index[r]);
    } else {
      LevelIsLatest(curve, cash, index[r], index[last]);
    }
  }

  lemma {:induction false} ValueMeansDate(curve: Curve, date: int)
    ensures ValueOn(curve, date).Some? ==> date in Dates(curve)
  {
    if curve != [] && curve[|curve| - 1].0 != date {
      var shorter := curve[..|curve| - 1];
      ValueMeansDate(shorter, date);
      if date in Dates(shorter) {
        var i :| 0 <= i < |shorter| && shorter[i].0 == date;
        assert curve[i].0 == date;
      }
    }
  }

  /** Rows to means: the sum of each row over the number of curves. */
  method RowMeans(filled: array2<real>, index: seq<int>, curves: seq<Curve>, cash: real) returns (equity: seq<real>)
    requires cash > 0.0 && |curves| > 0 && filled.Length0 == |index| && filled.Length1 == |curves|
    requires forall r, j :: 0 <= r < |index| && 0 <= j < |curves| ==> filled[r, j] == Level(curves[j], cash, index[r])
    ensures |equity| == |index|
    ensures forall r :: 0 <= r < |index| ==> equity[r] == MeanLevel(curves, cash, index[r])
  {
    equity := [];
    for r := 0 to |index|
      invariant |equity| == r
      invariant forall q :: 0 <= q < r ==> equity[q] == MeanLevel(curves, cash, index[q])
    {
      var sum := 0.0;
      for j := 0 to |curves|
        invariant sum == SumOfLevels(curves, cash, index[r], j)
      {
        sum := sum + filled[r, j];
      }
      equity := equity + [sum / |curves| as real];
    }
  }

  // ----- the fast path -----

  function DateColumn(curve: Curve): (r: seq<int>)
    ensures |r| == |curve|
  {
    seq(|curve|, i requires 0 <= i < |curve| => curve[i].0)
  }

  /** All curves have one ascending list of dates and no missing value. */
  predicate SharedIndex(curves: seq<Curve>)
    requires |curves| > 0
  {
    && Ascending(DateColumn(curves[0]))
    && (forall j :: 0 <= j < |curves| ==> DateColumn(curves[j]) == DateColumn(curves[0]))
    && forall j, i :: 0 <= j < |curves| && 0 <= i < |curves[j]| ==> curves[j][i].1.Some?
  }

  /** On a shared index every curve has its own value on every date. */
  lemma {:induction false} OwnValue(curve: Curve, i: nat)
    requires i < |curve| && Ascending(DateColumn(curve))
    ensures ValueOn(curve, curve[i].0) == curve[i].1
  {
    var column := DateColumn(curve);
    if i < |curve| - 1 {
      var shorter := curve[..|curve| - 1];
      assert DateColumn(shorter) == column[..|curve| - 1];
      assert column[i] < column[|curve| - 1];
      OwnValue(shorter, i);
      assert shorter[i] == curve[i];
    }
  }

  lemma OwnLevel(curve: Curve, cash: real, i: nat)
    requires cash > 0.0 && i < |curve| && Ascending(DateColumn(curve)) && curve[i].1.Some?
    ensures Level(curve, cash, curve[i].0) == curve[i].1.value / cash
  {
    OwnValue(curve, i);
    LevelIsLatest(curve, cash, curve[i].0, curve[i].0);
  }

  // ----- the portfolio -----

  function Usable(curves: seq<Curve>): (r: seq<Curve>)
    ensures forall j :: 0 <= j < |r| ==> r[j] != []
    ensures forall c :: c in r <==> c in curves && c != []
  {
    if curves == [] then []
    else
      var rest := Usable(curves[..|curves| - 1]);
      var last := curves[|curves| - 1];
      assert curves == curves[..|curves| - 1] + [last];
      if last == [] then rest else rest + [last]
  }

  /** The portfolio curve. Whichever path computes it, its dates are all dates of the usable curves,
      and its value on a date is the mean level of the curves on that date. */
  method BuildPortfolioEquity(curves: seq<Curve>, initialCash: real) returns (index: seq<int>, equity: seq<real>)
    ensures |index| == |equity|
    ensures Usable(curves) == [] || initialCash <= 0.0 ==> index == []
    ensures Usable(curves) != [] && initialCash > 0.0 ==>
              && index == AllDates(Usable(curves))
              && forall r :: 0 <= r < |index| ==> equity[r] == MeanLevel(Usable(curves), initialCash, index[r])
  {
    var usable := Usable(curves);
    if usable == [] || initialCash <= 0.0 {
      return [], [];
    }
    if SharedIndex(usable) {
      index := DateColumn(usable[0]);
      equity := SharedMeans(usable, initialCash);
      SharedDates(usable);
      return;
    }
    index := AllDates(usable);
    var matrix := new Option<real>[|index|, |usable|]((_, _) => None);
    var lastValid := new int[|index|, |usable|]((_, _) => -1);
    var filled := new real[|index|, |usable|]((_, _) => CASH_LEVEL);
    for j := 0 to |usable|
      invariant forall r, i :: 0 <= r < |index| && 0 <= i < j ==> matrix[r, i] == Cell(usable[i], initialCash, index[r])
      invariant forall r, i :: 0 <= r < |index| && j <= i < |usable| ==> matrix[r, i] == None
    {
      WriteColumn(matrix, index, j, usable[j], initialCash);
    }
    for j := 0 to |usable|
      invariant forall r, i ::
                0 <= r < |index| && 0 <= i < j ==> filled[r, i] == Level(usable[i], initialCash, index[r])
      invariant forall r, i ::
                0 <= r < |index| && 0 <= i < |usable| ==> matrix[r, i] == Cell(usable[i], initialCash, index[r])
    {
      FillColumn(matrix, lastValid, filled, index, j, usable[j], initialCash);
    }
    equity := RowMeans(filled, index, usable, initialCash);
  }

  method SharedMeans(usable: seq<Curve>, cash: real) returns (equity: seq<real>)
    requires cash > 0.0 && |usable| > 0 && SharedIndex(usable)
    ensures |equity| == |usable[0]|
    ensures forall r :: 0 <= r < |equity| ==> equity[r] == MeanLevel(usable, cash, DateColumn(usable[0])[r])
  {
    equity := [];
    for r := 0 to |usable[0]|
      invariant |equity| == r
      invariant forall q :: 0 <= q < r ==> equity[q] == MeanLevel(usable, cash, DateColumn(usable[0])[q])
    {
      var date := DateColumn(usable[0])[r];
      var sum := 0.0;
      for j := 0 to |usable|
        invariant sum == SumOfLevels(usable, cash, date, j)
      {
        assert DateColumn(usable[j]) == DateColumn(usable[0]);
        assert |usable[j]| == |usable[0]| && DateColumn(usable[j])[r] == usable[j][r].0;
        OwnLevel(usable[j], cash, r);
        sum := sum + usable[j][r].1.value / cash;
      }
      equity := equity + [sum / |usable| as real];
    }
  }

  /** The shared dates are all dates. */
  lemma SharedDates(usable: seq<Curve>)
    requires |usable| > 0 && SharedIndex(usable)
    ensures AllDates(usable) == DateColumn(usable[0])
  {
    var column := DateColumn(usable[0]);
    forall x
      ensures x in AllDates(usable) <==> x in column
    {
      if x in column {
        var i :| 0 <= i < |column| && column[i] == x;
        assert usable[0][i].0 == x;
        assert x in Dates(usable[0]);
      }
      if x in AllDates(usable) {
        var j :| 0 <= j < |usable| && x in Dates(usable[j]);
        var i :| 0 <= i < |usable[j]| && usable[j][i].0 == x;
        assert DateColumn(usable[j])[i] == x;
        assert DateColumn(usable[j]) == column;
      }
    }
    AscendingUnique(AllDates(usable), column);
  }

  /** An ascending list is determined by its members. */
  lemma {:induction false} AscendingUnique(s: seq<int>, r: seq<int>)
    requires Ascending(s) && Ascending(r) && forall x :: x in s <==> x in r
    ensures s == r
  {
    if s == [] {
      assert forall i :: 0 <= i < |r| ==> r[i] in r;
    } else {
      assert s[0] in r && r != [];
      assert r[0] in s;
      assert s[0] == r[0];
      TailMembers(s);
      TailMembers(r);
      AscendingUnique(s[1..], r[1..]);
      assert s == [s[0]] + s[1..] && r == [r[0]] + r[1..];
    }
  }

  lemma TailMembers(s: seq<int>)
    requires Ascending(s) && s != []
    ensures forall x :: x in s[1..] <==> x in s && x > s[0]
  {
    forall x
      ensures x in s[1..] <==> x in s && x > s[0]
    {
      if x in s[1..] {
        var i :| 0 <= i < |s[1..]| && s[1..][i] == x;
        assert s[i + 1] == x;
      }
      if x in s && x > s[0] {
        var i :| 0 <= i < |s| && s[i] == x;
        assert s[1..][i - 1] == x;
      }
    }
  }
}
