/** Lag features: the full builder that shifts every feature column, and the shortcut that builds the
    latest row alone by parsing the lag column names. */
module LagFeatures {
  import opened Wrappers

  type Column = seq<Option<real>>

  const LAG_MARK := "_lag"
  const EARNINGS_FLAG := "earnings_flag"
  const TARGET := "target"
  const CLOSE := "Close"

  /** A table of named columns of one length. */
  datatype Table = Table(columns: map<string, Column>, rows: nat) {
    predicate Valid() {
      forall name :: name in columns ==> |columns[name]| == rows
    }
  }

  // ----- column names -----

  function Digit(d: nat): char
    requires d < 10
  {
    "0123456789"[d]
  }

  function Decimal(n: nat): (s: string)
    ensures s != [] && forall i :: 0 <= i < |s| ==> IsDigit(s[i])
  {
    if n < 10 then [Digit(n)] else Decimal(n / 10) + [Digit(n % 10)]
  }

  predicate IsDigit(c: char) {
    '0' <= c <= '9'
  }

  function DigitValue(c: char): nat
    requires IsDigit(c)
  {
    c as int - '0' as int
  }

  predicate AllDigits(s: string) {
    s != [] && forall i :: 0 <= i < |s| ==> IsDigit(s[i])
  }

  function ParseDecimal(s: string): nat
    requires forall i :: 0 <= i < |s| ==> IsDigit(s[i])
  {
    if s == [] then 0 else 10 * ParseDecimal(s[..|s| - 1]) + DigitValue(s[|s| - 1])
  }

  lemma {:induction false} DecimalRoundTrip(n: nat)
    ensures ParseDecimal(Decimal(n)) == n
  {
    if n < 10 {
      assert Decimal(n)[..0] == [];
    } else {
      DecimalRoundTrip(n / 10);
      assert Decimal(n)[..|Decimal(n)| - 1] == Decimal(n / 10);
    }
  }

  function LagName(col: string, lag: nat): string {
    col + LAG_MARK + Decimal(lag)
  }

  /** The last position, at or below `from`, at which the mark stands in the name. */
  function LastMark(name: string, from: int): (r: int)
    requires from + |LAG_MARK| <= |name|
    ensures -1 <= r
    decreases from
  {
    if from < 0 then -1
    else if name[from..from + |LAG_MARK|] == LAG_MARK then from
    else LastMark(name, from - 1)
  }

  /** Split at the last mark; without one the whole name is the last part. */
  function SplitAtMark(name: string): (string, string) {
    var i := if |name| < |LAG_MARK| then -1 else LastMark(name, |name| - |LAG_MARK|);
    if i >= 0 && i + |LAG_MARK| <= |name| then (name[..i], name[i + |LAG_MARK|..]) else ("", name)
  }

  /** From any position after the mark of a lag name, the search comes down to that mark: neither the
      rest of the mark nor a digit can begin another one, whatever the column is called. */
  lemma {:induction false} MarkFound(col: string, digits: string, from: int)
    requires forall i :: 0 <= i < |digits| ==> IsDigit(digits[i])
    requires |col| <= from && from + |LAG_MARK| <= |col + LAG_MARK + digits|
    ensures LastMark(col + LAG_MARK + digits, from) == |col|
    decreases from
  {
    var name := col + LAG_MARK + digits;
    if from == |col| {
      assert name[from..from + |LAG_MARK|] == LAG_MARK;
    } else {
      if from < |col| + |LAG_MARK| {
        assert name[from] == LAG_MARK[from - |col|];
      } else {
        assert name[from] == digits[from - |col| - |LAG_MARK|];
      }
      assert name[from..from + |LAG_MARK|][0] == name[from] != LAG_MARK[0];
      MarkFound(col, digits, from - 1);
    }
  }

  /** Every lag name parses back to its column and lag. */
  lemma LagNameParses(col: string, lag: nat)
    ensures SplitAtMark(LagName(col, lag)) == (col, Decimal(lag))
    ensures AllDigits(Decimal(lag)) && ParseDecimal(Decimal(lag)) == lag
  {
    var digits := Decimal(lag);
    var name := LagName(col, lag);
    MarkFound(col, digits, |name| - |LAG_MARK|);
    assert name[..|col|] == col;
    assert name[|col| + |LAG_MARK|..] == digits;
    DecimalRoundTrip(lag);
  }

  // ----- the full builder -----

  /** The lag columns of the builder, feature by feature, lag by lag. */
  function LagPairs(featureCols: seq<string>, nLags: nat): (r: seq<(string, nat)>)
    ensures |r| == |featureCols| * nLags
    ensures forall p :: p in r <==> p.0 in featureCols && 1 <= p.1 <= nLags
  {
    if featureCols == [] then []
    else
      var rest, last := LagPairs(featureCols[..|featureCols| - 1], nLags), featureCols[|featureCols| - 1];
      assert featureCols == featureCols[..|featureCols| - 1] + [last];
      rest + LagsOf(last, nLags)
  }

  function LagsOf(col: string, n: nat): (r: seq<(string, nat)>)
    ensures |r| == n
    ensures forall p :: p in r <==> p.0 == col && 1 <= p.1 <= n
  {
    if n == 0 then [] else LagsOf(col, n - 1) + [(col, n)]
  }

  function Names(pairs: seq<(string, nat)>): (r: seq<string>)
    ensures |r| == |pairs| && forall i :: 0 <= i < |r| ==> r[i] == LagName(pairs[i].0, pairs[i].1)
  {
    seq(|pairs|, i requires 0 <= i < |pairs| => LagName(pairs[i].0, pairs[i].1))
  }

  /** The feature columns that get lags: the earnings flag is never one of them. */
  function LaggedColumns(featureCols: seq<string>): (r: seq<string>)
    ensures forall c :: c in r <==> c in featureCols && c != EARNINGS_FLAG
  {
    if featureCols == [] then []
    else
      var front, last := featureCols[..|featureCols| - 1], featureCols[|featureCols| - 1];
      assert featureCols == front + [last];
      LaggedColumns(front) + if last == EARNINGS_FLAG then [] else [last]
  }

  /** Every column of the table has a value in the row, and the row is not near earnings. */
  predicate RowUsable(t: Table, row: nat)
    requires t.Valid() && row < t.rows
  {
    && (forall name :: name in t.columns ==> t.columns[name][row].Some?)
    && (EARNINGS_FLAG in t.columns ==> t.columns[EARNINGS_FLAG][row] == Some(0.0))
  }

  /** The row stays after the rows with a missing value outside the target, and those near earnings,
      are dropped. */
  predicate Survives(t: Table, lagCols: map<string, Column>, row: nat)
    requires t.Valid() && row < t.rows && forall name :: name in lagCols ==> |lagCols[name]| == t.rows
  {
    RowUsable(t, row) && forall name :: name in lagCols ==> lagCols[name][row].Some?
  }

  /** A relative change: unknown, a share, or a division of something by nothing. */
  datatype Change = Unknown | By(share: real) | Infinite(up: bool)

  /** The target: the change of the close over the horizon. */
  function ChangeAt(t: Table, horizon: nat, row: nat): Change
    requires t.Valid() && CLOSE in t.columns && row < t.rows
  {
    var closes := t.columns[CLOSE];
    if row + horizon >= t.rows || closes[row].None? || closes[row + horizon].None? then Unknown
    else
      var now, later := closes[row].value, closes[row + horizon].value;
      if now != 0.0 then By((later - now) / now)
      else if later == 0.0 then Unknown
      else Infinite(later > 0.0)
  }

  /** A share as target is the growth from the close of the row to the one the horizon later, both of
      the table; there is no target exactly when either is missing or both are zero. */
  lemma TargetIsGrowth(t: Table, horizon: nat, row: nat)
    requires t.Valid() && CLOSE in t.columns && row < t.rows
    ensures
      var closes, target := t.columns[CLOSE], ChangeAt(t, horizon, row);
      && (target != Unknown <==>
            && row + horizon < t.rows && closes[row].Some? && closes[row + horizon].Some?
            && !(closes[row].value == 0.0 && closes[row + horizon].value == 0.0))
      && (target.By? ==>
            closes[row].value != 0.0 && closes[row + horizon].value == closes[row].value * (1.0 + target.share))
  {
    var closes, target := t.columns[CLOSE], ChangeAt(t, horizon, row);
    if target.By? { GrowthOf(closes[row].value, closes[row + horizon].value); }
  }

  lemma GrowthOf(now: real, later: real)
    requires now != 0.0
    ensures later == now * (1.0 + (later - now) / now)
  {
    var share := (later - now) / now;
    assert share * now == later - now;
    assert now * (1.0 + share) == now + share * now;
  }

  /** The row stays in the result: for training also its target must be known. */
  predicate Stays(t: Table, lagCols: map<string, Column>, horizon: nat, dropMissingTarget: bool, row: nat)
    requires t.Valid() && CLOSE in t.columns && row < t.rows
              && forall name :: name in lagCols ==> |lagCols[name]| == t.rows
  {
    Survives(t, lagCols, row) && (dropMissingTarget ==> ChangeAt(t, horizon, row) != Unknown)
  }

  /** Of the first rows: those that stay in order, each with its target. */
  ghost predicate StayingRows(t: Table, lagCols: map<string, Column>, horizon: nat, dropMissingTarget: bool, upTo: nat,
                              kept: seq<nat>, targets: seq<Change>)
    requires t.Valid() && CLOSE in t.columns && upTo <= t.rows
              && forall name :: name in lagCols ==> |lagCols[name]| == t.rows
  {
    && (forall i, j :: 0 <= i < j < |kept| ==> kept[i] < kept[j])
    && (forall row: nat :: row in kept <==> row < upTo && Stays(t, lagCols, horizon, dropMissingTarget, row))
    && |targets| == |kept|
    && forall i :: 0 <= i < |kept| ==> kept[i] < upTo && targets[i] == ChangeAt(t, horizon, kept[i])
  }

  lemma NoRows(t: Table, lagCols: map<string, Column>, horizon: nat, dropMissingTarget: bool)
    requires t.Valid() && CLOSE in t.columns && forall name :: name in lagCols ==> |lagCols[name]| == t.rows
    ensures StayingRows(t, lagCols, horizon, dropMissingTarget, 0, [], [])
  {
  }

  lemma TargetWithinTable(t: Table, lagCols: map<string, Column>, horizon: nat, kept: seq<nat>, targets: seq<Change>)
    requires t.Valid() && CLOSE in t.columns && forall name :: name in lagCols ==> |lagCols[name]| == t.rows
    requires StayingRows(t, lagCols, horizon, true, t.rows, kept, targets)
    ensures forall row: nat :: row in kept ==> row + horizon < t.rows
  {
    hide Survives;
  }

  lemma OneMoreRow(t: Table, lagCols: map<string, Column>, horizon: nat, dropMissingTarget: bool, row: nat,
                   kept: seq<nat>, targets: seq<Change>)
    requires t.Valid() && CLOSE in t.columns && row < t.rows
              && forall name :: name in lagCols ==> |lagCols[name]| == t.rows
    requires StayingRows(t, lagCols, horizon, dropMissingTarget, row, kept, targets)
    ensures
      var stays := Stays(t, lagCols, horizon, dropMissingTarget, row);
      StayingRows(t, lagCols, horizon, dropMissingTarget, row + 1, if stays then kept + [row] else kept,
                  if stays then targets + [ChangeAt(t, horizon, row)] else targets)
  {
    hide Stays, ChangeAt;
    assert forall i :: 0 <= i < |kept| ==> kept[i] in kept;
  }

  /** No column of the table has the name of the target or of a lag column to be added. */
  ghost predicate NoCollision(t: Table, cols: seq<string>, nLags: nat) {
    TARGET !in t.columns && forall p :: p in LagPairs(cols, nLags) ==> LagName(p.0, p.1) !in t.columns
  }

  lemma NoColumns(t: Table, nLags: nat)
    requires t.Valid()
    ensures LagColumns(t, [], nLags, map[])
  {
  }

  lemma ColumnsFit(t: Table, cols: seq<string>, nLags: nat, lagCols: map<string, Column>)
    requires t.Valid() && LagColumns(t, cols, nLags, lagCols)
    ensures forall name :: name in lagCols ==> |lagCols[name]| == t.rows
  {
  }

  lemma PartlyAtEnds(t: Table, cols: seq<string>, nLags: nat, col: string, lagCols: map<string, Column>)
    requires t.Valid() && col in t.columns
    ensures LagColumns(t, cols, nLags, lagCols) ==> LagColumnsPartly(t, cols, nLags, col, 0, lagCols)
    ensures LagColumnsPartly(t, cols, nLags, col, nLags, lagCols) ==> LagColumns(t, cols + [col], nLags, lagCols)
  {
    hide LagName, Shift;
  }

  /** The builder: the shifted columns of the named columns, or of all of them, the rows that stay, and
      their targets. For training the rows without a target go, and with them the last ones of the
      table; for a forecast they are kept. */
  method CreateBasicLagFeatures(t: Table, named: Option<seq<string>>, numeric: seq<string>, nLags: nat,
                                targetHorizon: nat, dropMissingTarget: bool)
    returns (lagCols: map<string, Column>, kept: seq<nat>, targets: seq<Change>)
    requires t.Valid() && CLOSE in t.columns && forall c :: c in numeric <==> c in t.columns
    requires forall c :: c in named.GetOr(numeric) ==> c in t.columns
    requires NoCollision(t, LaggedColumns(named.GetOr(numeric)), nLags)
    ensures LagColumns(t, LaggedColumns(named.GetOr(numeric)), nLags, lagCols)
    ensures StayingRows(t, lagCols, targetHorizon, dropMissingTarget, t.rows, kept, targets)
    ensures dropMissingTarget ==> forall row: nat :: row in kept ==> row + targetHorizon < t.rows
  {
    hide LagName, Shift, LagColumns, LagColumnsPartly, StayingRows, Stays;
    var cols := LaggedColumns(named.GetOr(numeric));
    lagCols := map[];
    NoColumns(t, nLags);
    for i := 0 to |cols|
      invariant LagColumns(t, cols[..i], nLags, lagCols)
    {
      PartlyAtEnds(t, cols[..i], nLags, cols[i], lagCols);
      for lag := 1 to nLags + 1
        invariant LagColumnsPartly(t, cols[..i], nLags, cols[i], lag - 1, lagCols)
      {
        AddLagColumn(t, cols[..i], nLags, cols[i], lag, lagCols);
        lagCols := lagCols[LagName(cols[i], lag) := Shift(t.columns[cols[i]], lag)];
      }
      PartlyAtEnds(t, cols[..i], nLags, cols[i], lagCols);
      assert cols[..i + 1] == cols[..i] + [cols[i]];
    }
    assert cols[..|cols|] == cols;
    ColumnsFit(t, cols, nLags, lagCols);
    kept, targets := [], [];
    NoRows(t, lagCols, targetHorizon, dropMissingTarget);
    for row := 0 to t.rows
      invariant StayingRows(t, lagCols, targetHorizon, dropMissingTarget, row, kept, targets)
    {
      OneMoreRow(t, lagCols, targetHorizon, dropMissingTarget, row, kept, targets);
      if Stays(t, lagCols, targetHorizon, dropMissingTarget, row) {
        kept, targets := kept + [row], targets + [ChangeAt(t, targetHorizon, row)];
      }
    }
    if dropMissingTarget { TargetWithinTable(t, lagCols, targetHorizon, kept, targets); }
  }

  /** The columns are the shifted ones of each feature at each lag, and no others. */
  ghost predicate LagColumns(t: Table, cols: seq<string>, nLags: nat, lagCols: map<string, Column>)
    requires t.Valid()
  {
    && (forall c :: c in cols ==> c in t.columns)
    && (forall name :: name in lagCols <==> exists c, n: nat :: c in cols && 1 <= n <= nLags && name == LagName(c, n))
    && (forall c, n: nat :: c in cols && 1 <= n <= nLags ==> lagCols[LagName(c, n)] == Shift(t.columns[c], n))
    && (forall name :: name in lagCols ==> |lagCols[name]| == t.rows)
  }

  ghost predicate LagColumnsPartly(t: Table, cols: seq<string>, nLags: nat, col: string, upTo: nat,
                                   lagCols: map<string, Column>)
    requires t.Valid()
  {
    && col in t.columns && (forall c :: c in cols ==> c in t.columns)
    && (forall name :: name in lagCols <==>
          exists c, n: nat :: name == LagName(c, n) && 1 <= n && ((c in cols && n <= nLags) || (c == col && n <= upTo)))
    && (forall c, n: nat :: 1 <= n && ((c in cols && n <= nLags) || (c == col && n <= upTo)) ==>
          lagCols[LagName(c, n)] == Shift(t.columns[c], n))
    && (forall name :: name in lagCols ==> |lagCols[name]| == t.rows)
  }

  /** Names of different columns or lags differ, so no shifted column overwrites another. */
  lemma LagNameInjective(c1: string, n1: nat, c2: string, n2: nat)
    requires LagName(c1, n1) == LagName(c2, n2)
    ensures c1 == c2 && n1 == n2
  {
    LagNameParses(c1, n1);
    LagNameParses(c2, n2);
  }

  lemma AddLagColumn(t: Table, cols: seq<string>, nLags: nat, col: string, lag: nat, lagCols: map<string, Column>)
    requires t.Valid() && lag >= 1 && LagColumnsPartly(t, cols, nLags, col, lag - 1, lagCols)
    ensures LagColumnsPartly(t, cols, nLags, col, lag, lagCols[LagName(col, lag) := Shift(t.columns[col], lag)])
  {
    hide LagName, Shift;
    var added := LagName(col, lag);
    forall c: string, n: nat | LagName(c, n) == added
      ensures c == col && n == lag
    {
      LagNameInjective(c, n, col, lag);
    }
  }

  // ----- the latest row -----

  /** The value a lag column name asks for in the last row, if the name and the table allow it. */
  function LatestValue(t: Table, name: string): Option<real>
    requires t.Valid() && t.rows > 0
  {
    var (col, lag) := SplitAtMark(name);
    if col !in t.columns || !AllDigits(lag) || ParseDecimal(lag) >= t.rows then None
    else t.columns[col][t.rows - 1 - ParseDecimal(lag)]
  }

  predicate AllKnown(t: Table, lagNames: seq<string>)
    requires t.Valid() && t.rows > 0
  {
    forall i :: 0 <= i < |lagNames| ==> LatestValue(t, lagNames[i]).Some?
  }

  /** The shortcut: early returns for a missing value or an earnings date, then one value per name. */
  method BuildLatestFeatureRow(t: Table, lagNames: seq<string>) returns (row: Option<map<string, real>>)
    requires t.Valid()
    ensures row.Some? <==>
              && t.rows > 0 && lagNames != []
              && (forall name :: name in t.columns ==> t.columns[name][t.rows - 1].Some?)
              && (EARNINGS_FLAG in t.columns ==> t.columns[EARNINGS_FLAG][t.rows - 1] == Some(0.0))
              && AllKnown(t, lagNames)
    ensures row.Some? ==>
              && (forall name :: name in row.value <==> name in lagNames)
              && forall name :: name in row.value ==> Some(row.value[name]) == LatestValue(t, name)
  {
    if t.rows == 0 || lagNames == [] {
      return None;
    }
    if exists name | name in t.columns :: t.columns[name][t.rows - 1].None? {
      return None;
    }
    if EARNINGS_FLAG in t.columns && t.columns[EARNINGS_FLAG][t.rows - 1] != Some(0.0) {
      return None;
    }
    var values: map<string, real> := map[];
    for i := 0 to |lagNames|
      invariant forall name :: name in values <==> name in lagNames[..i]
      invariant forall k :: 0 <= k < i ==> LatestValue(t, lagNames[k]).Some?
      invariant forall name :: name in values ==> Some(values[name]) == LatestValue(t, name)
    {
      var value := LatestValue(t, lagNames[i]);
      if value.None? {
        return None;
      }
      values := values[lagNames[i] := value.value];
    }
    assert lagNames[..|lagNames|] == lagNames;
    row := Some(values);
  }

  // ----- the two agree -----

  lemma NamesAreColumns(t: Table, cols: seq<string>, nLags: nat, lagCols: map<string, Column>, name: string)
    requires t.Valid() && LagColumns(t, cols, nLags, lagCols)
    ensures name in Names(LagPairs(cols, nLags)) <==> name in lagCols
  {
    hide LagName, Shift;
    var pairs := LagPairs(cols, nLags);
    if name in Names(pairs) {
      var i :| 0 <= i < |pairs| && Names(pairs)[i] == name;
      assert pairs[i] in pairs;
    }
    if name in lagCols {
      var c, n: nat :| c in cols && 1 <= n <= nLags && name == LagName(c, n);
      assert (c, n) in pairs;
      var i :| 0 <= i < |pairs| && pairs[i] == (c, n);
      assert Names(pairs)[i] == name;
    }
  }

  /** A name of the builder asks for the last cell of its shifted column. */
  lemma LatestIsShiftedCell(t: Table, cols: seq<string>, nLags: nat, lagCols: map<string, Column>, name: string)
    requires t.Valid() && t.rows > 0 && LagColumns(t, cols, nLags, lagCols) && name in lagCols
    ensures LatestValue(t, name) == lagCols[name][t.rows - 1]
  {
    var c, n: nat :| c in cols && 1 <= n <= nLags && name == LagName(c, n);
    LagNameParses(c, n);
  }

  lemma AllKnownIffPresent(t: Table, cols: seq<string>, nLags: nat, lagCols: map<string, Column>)
    requires t.Valid() && t.rows > 0 && LagColumns(t, cols, nLags, lagCols)
    ensures AllKnown(t, Names(LagPairs(cols, nLags))) <==>
              forall name :: name in lagCols ==> lagCols[name][t.rows - 1].Some?
  {
    var names := Names(LagPairs(cols, nLags));
    forall name | name in lagCols
      ensures name in names && LatestValue(t, name) == lagCols[name][t.rows - 1]
    {
      NamesAreColumns(t, cols, nLags, lagCols, name);
      LatestIsShiftedCell(t, cols, nLags, lagCols, name);
    }
    forall i | 0 <= i < |names|
      ensures names[i] in lagCols
    {
      NamesAreColumns(t, cols, nLags, lagCols, names[i]);
    }
  }

  /** The shortcut agrees with the builder on every table without colliding names: given the builder's
      list of lag columns it returns a row exactly when that list is not empty and the builder keeps
      the last row, and then the builder's values in it, name for name. */
  method LatestRowAgrees(t: Table, named: Option<seq<string>>, numeric: seq<string>, nLags: nat,
                         targetHorizon: nat)
    returns (row: Option<map<string, real>>, lagCols: map<string, Column>, kept: seq<nat>)
    requires t.Valid() && CLOSE in t.columns && forall c :: c in numeric <==> c in t.columns
    requires forall c :: c in named.GetOr(numeric) ==> c in t.columns
    requires NoCollision(t, LaggedColumns(named.GetOr(numeric)), nLags)
    ensures LagColumns(t, LaggedColumns(named.GetOr(numeric)), nLags, lagCols)
    ensures row.Some? <==>
              LagPairs(LaggedColumns(named.GetOr(numeric)), nLags) != [] && t.rows > 0 && t.rows - 1 in kept
    ensures row.Some? ==> t.rows > 0 && row.value.Keys == lagCols.Keys
    ensures row.Some? ==> forall name :: name in lagCols ==>
              name in row.value && |lagCols[name]| == t.rows && Some(row.value[name]) == lagCols[name][t.rows - 1]
  {
    var cols := LaggedColumns(named.GetOr(numeric));
    var targets;
    lagCols, kept, targets := CreateBasicLagFeatures(t, named, numeric, nLags, targetHorizon, false);
    row := BuildLatestFeatureRow(t, Names(LagPairs(cols, nLags)));
    if t.rows > 0 {
      AllKnownIffPresent(t, cols, nLags, lagCols);
      forall name
        ensures name in Names(LagPairs(cols, nLags)) <==> name in lagCols
      {
        NamesAreColumns(t, cols, nLags, lagCols, name);
      }
      forall name | name in lagCols
        ensures LatestValue(t, name) == lagCols[name][t.rows - 1]
      {
        LatestIsShiftedCell(t, cols, nLags, lagCols, name);
      }
    }
  }
}
