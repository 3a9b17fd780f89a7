/** `MeasVar`: a date-indexed table of station readings for one measured variable. Its data
    is the caller's frame left-joined onto the calibration dates, and its WEAP export puts
    the dates in a `$Columns = Date` column, suffixes every column name with the unit when
    one is known, and stacks the two WEAP directive rows above the column names. */
module MeasVar {

  /** A reading, or pandas' NaN where the source has none. */
  datatype Cell = Value(v: real) | Missing

  /** A pandas frame with a string index: `rows[i]` is labelled `index[i]`. */
  datatype Frame = Frame(columns: seq<string>, index: seq<string>, rows: seq<seq<Cell>>)

  predicate WellFormed(f: Frame) {
    |f.index| == |f.rows| && forall i | 0 <= i < |f.rows| :: |f.rows[i]| == |f.columns|
  }

  predicate NoDuplicates(s: seq<string>) {
    forall i, j | 0 <= i < j < |s| :: s[i] != s[j]
  }

  function MissingRow(n: nat): (r: seq<Cell>)
    ensures |r| == n && forall k | 0 <= k < n :: r[k] == Missing
  {
    seq(n, k => Missing)
  }

  /** The rows labelled `key`, in frame order. */
  function Matches(key: string, index: seq<string>, rows: seq<seq<Cell>>): (r: seq<seq<Cell>>)
    requires |index| == |rows|
    ensures forall k | 0 <= k < |r| :: exists i | 0 <= i < |rows| :: index[i] == key && r[k] == rows[i]
    ensures key in index <==> |r| > 0
    decreases |index|
  {
    if |index| == 0 then []
    else
      var rest := Matches(key, index[1..], rows[1..]);
      assert forall k | 0 <= k < |rest| :: exists i | 0 <= i < |rows| :: index[i] == key && rest[k] == rows[i] by {
        forall k | 0 <= k < |rest| ensures exists i | 0 <= i < |rows| :: index[i] == key && rest[k] == rows[i] {
          var i :| 0 <= i < |rows| - 1 && index[1..][i] == key && rest[k] == rows[1..][i];
          assert index[i + 1] == key && rest[k] == rows[i + 1];
        }
      }
      assert key in index <==> index[0] == key || key in index[1..];
      (if index[0] == key then [rows[0]] else []) + rest
  }

  /** With distinct labels, a key that occurs matches exactly its own row. */
  lemma {:induction false} MatchesUnique(j: int, index: seq<string>, rows: seq<seq<Cell>>)
    requires |index| == |rows| && NoDuplicates(index)
    requires 0 <= j < |index|
    ensures Matches(index[j], index, rows) == [rows[j]]
    decreases j
  {
    if j == 0 {
      assert index[0] !in index[1..];
    } else {
      assert NoDuplicates(index[1..]);
      assert index[1..][j - 1] == index[j];
      MatchesUnique(j - 1, index[1..], rows[1..]);
    }
  }

  /** The row a left join attaches to `key`: its first match, or a row of NaN. */
  function Lookup(f: Frame, key: string): (r: seq<Cell>)
    requires WellFormed(f)
    ensures |r| == |f.columns|
    ensures key !in f.index ==> r == MissingRow(|f.columns|)
    ensures key in f.index ==> exists i | 0 <= i < |f.index| :: f.index[i] == key && r == f.rows[i]
  {
    var ms := Matches(key, f.index, f.rows);
    if |ms| == 0 then MissingRow(|f.columns|) else ms[0]
  }

  lemma LookupAt(f: Frame, i: int)
    requires WellFormed(f) && NoDuplicates(f.index) && 0 <= i < |f.index|
    ensures Lookup(f, f.index[i]) == f.rows[i]
  {
    MatchesUnique(i, f.index, f.rows);
  }

  /** The rows that one left row turns into: one per match, or one padded with NaN. */
  function JoinRow(key: string, cells: seq<Cell>, right: Frame): (r: (seq<string>, seq<seq<Cell>>))
    requires WellFormed(right)
    ensures |r.0| == |r.1| >= 1
    ensures forall k | 0 <= k < |r.0| :: r.0[k] == key
    ensures forall k | 0 <= k < |r.1| :: |r.1[k]| == |cells| + |right.columns|
  {
    var ms := Matches(key, right.index, right.rows);
    if |ms| == 0 then ([key], [cells + MissingRow(|right.columns|)])
    else
      assert forall k | 0 <= k < |ms| :: |ms[k]| == |right.columns|;
      (seq(|ms|, k => key), seq(|ms|, k requires 0 <= k < |ms| => cells + ms[k]))
  }

  /** With distinct right labels, every left row yields exactly one row. */
  lemma JoinRowUnique(key: string, cells: seq<Cell>, right: Frame)
    requires WellFormed(right) && NoDuplicates(right.index)
    ensures JoinRow(key, cells, right) == ([key], [cells + Lookup(right, key)])
  {
    var ms := Matches(key, right.index, right.rows);
    if key in right.index {
      var j :| 0 <= j < |right.index| && right.index[j] == key;
      MatchesUnique(j, right.index, right.rows);
      var joined := JoinRow(key, cells, right);
      assert joined.0 == [key];
      assert joined.1 == [cells + Lookup(right, key)];
    }
  }

  /** The names of one side of a merge: a name the other side also has gets the side's
      suffix. */
  function Suffixed(names: seq<string>, others: seq<string>, suffix: string): (r: seq<string>)
    ensures |r| == |names|
    ensures forall k | 0 <= k < |names| :: names[k] !in others ==> r[k] == names[k]
    ensures forall k | 0 <= k < |names| :: names[k] in others ==> r[k] == names[k] + suffix
  {
    seq(|names|, k requires 0 <= k < |names| => if names[k] in others then names[k] + suffix else names[k])
  }

  /** The columns of a merge under pandas' default `suffixes=('_x', '_y')`. */
  function MergedColumns(left: seq<string>, right: seq<string>): (r: seq<string>)
    ensures |r| == |left| + |right|
  {
    Suffixed(left, right, "_x") + Suffixed(right, left, "_y")
  }

  /** Without a shared name the merged columns are the left ones followed by the right ones. */
  lemma DisjointColumns(left: seq<string>, right: seq<string>)
    requires forall k | 0 <= k < |left| :: left[k] !in right
    ensures MergedColumns(left, right) == left + right
  {
    assert forall k | 0 <= k < |right| :: right[k] !in left;
  }

  /** A name on both sides comes out twice, suffixed `_x` on the left and `_y` on the right. */
  lemma SharedColumnSuffixed()
    ensures MergedColumns(["A"], ["A"]) == ["A_x", "A_y"]
  {
    assert "A" + "_x" == "A_x" && "A" + "_y" == "A_y";
    assert ["A"][0] in ["A"];
    assert Suffixed(["A"], ["A"], "_x") == ["A_x"];
    assert Suffixed(["A"], ["A"], "_y") == ["A_y"];
  }

  /** `left.merge(right, left_index=True, right_index=True, how='left')`. */
  function MergeLeft(left: Frame, right: Frame): (r: Frame)
    requires WellFormed(left) && WellFormed(right)
    ensures WellFormed(r)
    ensures r.columns == MergedColumns(left.columns, right.columns)
    ensures |r.rows| >= |left.rows|
    decreases |left.rows|
  {
    if |left.rows| == 0 then Frame(MergedColumns(left.columns, right.columns), [], [])
    else
      var head := JoinRow(left.index[0], left.rows[0], right);
      var rest := MergeLeft(Frame(left.columns, left.index[1..], left.rows[1..]), right);
      Frame(rest.columns, head.0 + rest.index, head.1 + rest.rows)
  }

  /** When the right frame's labels are distinct, the merge keeps the left index as it is and
      extends each left row with the right row of the same key, or with NaN. */
  lemma {:induction false} MergeLeftUnique(left: Frame, right: Frame)
    requires WellFormed(left) && WellFormed(right) && NoDuplicates(right.index)
    ensures MergeLeft(left, right).index == left.index
    ensures forall i | 0 <= i < |left.rows| ::
      MergeLeft(left, right).rows[i] == left.rows[i] + Lookup(right, left.index[i])
    decreases |left.rows|
  {
    if |left.rows| > 0 {
      var tail := Frame(left.columns, left.index[1..], left.rows[1..]);
      MergeLeftUnique(tail, right);
      var key := left.index[0];
      JoinRowUnique(key, left.rows[0], right);
      var rest := MergeLeft(tail, right);
      var r := MergeLeft(left, right);
      assert r.index == [key] + rest.index;
      assert r.rows == [left.rows[0] + Lookup(right, key)] + rest.rows;
      assert left.index == [key] + tail.index;
      forall i | 1 <= i < |left.rows|
        ensures r.rows[i] == left.rows[i] + Lookup(right, left.index[i])
      {
        assert r.rows[i] == rest.rows[i - 1];
        assert tail.index[i - 1] == left.index[i] && tail.rows[i - 1] == left.rows[i];
      }
    }
  }

  /** A frame with only an index: `pd.DataFrame(index=dates)`. */
  function DateFrame(dates: seq<string>): (f: Frame)
    ensures WellFormed(f) && f.columns == [] && f.index == dates
  {
    Frame([], dates, seq(|dates|, i => []))
  }

  /** The constructor's join of a station frame onto the calibration dates. */
  function LeftJoin(dates: seq<string>, f: Frame): (r: Frame)
    requires WellFormed(f)
    ensures WellFormed(r) && r.columns == f.columns
    ensures |r.rows| >= |dates|
  {
    DisjointColumns([], f.columns);
    MergeLeft(DateFrame(dates), f)
  }

  /** With distinct source dates the join has one row per calibration date, in order, holding
      that date's readings or NaN where the source has no such date. */
  lemma {:induction false} LeftJoinOneRowPerDate(dates: seq<string>, f: Frame)
    requires WellFormed(f) && NoDuplicates(f.index)
    ensures LeftJoin(dates, f).index == dates
    ensures forall i | 0 <= i < |dates| :: LeftJoin(dates, f).rows[i] == Lookup(f, dates[i])
    ensures forall i | 0 <= i < |dates| :: dates[i] !in f.index ==> LeftJoin(dates, f).rows[i] == MissingRow(|f.columns|)
  {
    MergeLeftUnique(DateFrame(dates), f);
  }

  /** Joining onto the same distinct dates a second time changes nothing. */
  lemma {:induction false} LeftJoinIdempotent(dates: seq<string>, f: Frame)
    requires WellFormed(f) && NoDuplicates(f.index) && NoDuplicates(dates)
    ensures LeftJoin(dates, LeftJoin(dates, f)) == LeftJoin(dates, f)
  {
    var g := LeftJoin(dates, f);
    LeftJoinOneRowPerDate(dates, f);
    LeftJoinOneRowPerDate(dates, g);
    var h := LeftJoin(dates, g);
    forall i | 0 <= i < |dates| ensures h.rows[i] == g.rows[i] {
      LookupAt(g, i);
    }
  }

  const Unspecified := "Unspecified"
  const DateColumn := "$Columns = Date"
  const ListSeparator := "$ListSeparator = ,"
  const DecimalSymbol := "$DecimalSymbol = ."

  /** A stored measured variable. */
  datatype MeasVarData = MeasVarData(
    measure: string,
    dateRange: seq<string>,
    unit: string,
    skippedRows: nat,
    baseData: Frame)

  /** `MeasVar.__init__`. */
  function NewMeasVar(frame: Frame, measure: string, dateRange: seq<string>, unit: string, skippedRows: nat)
    : (m: MeasVarData)
    requires WellFormed(frame)
    ensures WellFormed(m.baseData) && m.baseData.columns == frame.columns
    ensures m.measure == measure && m.dateRange == dateRange && m.unit == unit && m.skippedRows == skippedRows
    ensures NoDuplicates(frame.index) ==> m.baseData.index == dateRange
    ensures NoDuplicates(frame.index) ==>
      forall i | 0 <= i < |dateRange| :: m.baseData.rows[i] == Lookup(frame, dateRange[i])
  {
    assert NoDuplicates(frame.index) ==>
      (LeftJoin(dateRange, frame).index == dateRange
       && forall i | 0 <= i < |dateRange| :: LeftJoin(dateRange, frame).rows[i] == Lookup(frame, dateRange[i])) by {
      if NoDuplicates(frame.index) {
        LeftJoinOneRowPerDate(dateRange, frame);
      }
    }
    MeasVarData(measure, dateRange, unit, skippedRows, LeftJoin(dateRange, frame))
  }

  /** A column name as written to the WEAP file. */
  function WithUnit(name: string, unit: string): (r: string)
    ensures unit == Unspecified ==> r == name
    ensures unit != Unspecified ==> |r| == |name| + |unit| + 3
    ensures unit != Unspecified ==> r[..|name|] == name && r[|name|..] == " [" + unit + "]"
  {
    if unit != Unspecified then name + " [" + unit + "]" else name
  }

  function WeapColumnNames(columns: seq<string>, unit: string): (r: seq<string>)
    ensures |r| == |columns| + 1
    ensures r[0] == WithUnit(DateColumn, unit)
    ensures forall k | 0 <= k < |columns| :: r[k + 1] == WithUnit(columns[k], unit)
  {
    seq(|columns| + 1, k requires 0 <= k <= |columns| =>
      WithUnit(if k == 0 then DateColumn else columns[k - 1], unit))
  }

  /** The table handed to the CSV writer: three header rows, then one row per date. */
  datatype WeapSheet = WeapSheet(header: seq<seq<string>>, dates: seq<string>, rows: seq<seq<Cell>>)

  /** `MeasVar.to_weap_data`, short of writing the file. */
  function ToWeapData(m: MeasVarData): (w: WeapSheet)
    ensures |w.header| == 3
    ensures forall h | 0 <= h < 3 :: |w.header[h]| == |m.baseData.columns| + 1
    ensures w.header[0][0] == ListSeparator && w.header[1][0] == DecimalSymbol
    ensures forall h, k | 0 <= h < 2 && 1 <= k <= |m.baseData.columns| :: w.header[h][k] == ""
    ensures w.header[2][0] == WithUnit(DateColumn, m.unit)
    ensures forall k | 0 <= k < |m.baseData.columns| :: w.header[2][k + 1] == WithUnit(m.baseData.columns[k], m.unit)
    ensures w.dates == m.baseData.index && w.rows == m.baseData.rows
  {
    var names := WeapColumnNames(m.baseData.columns, m.unit);
    var blanks := seq(|m.baseData.columns|, k => "");
    WeapSheet([[ListSeparator] + blanks, [DecimalSymbol] + blanks, names], m.baseData.index, m.baseData.rows)
  }

  /** Without a unit the WEAP column names are the frame's own, behind the date column. */
  lemma UnspecifiedKeepsNames(m: MeasVarData)
    requires m.unit == Unspecified
    ensures ToWeapData(m).header[2] == [DateColumn] + m.baseData.columns
  {
    var w := ToWeapData(m);
    assert forall k | 0 <= k < |m.baseData.columns| :: w.header[2][k + 1] == m.baseData.columns[k];
  }

  /** With a unit, stripping the ` [unit]` suffix from every WEAP column name gives back the
      date column and the frame's own names. */
  lemma UnitSuffixStrips(m: MeasVarData)
    requires m.unit != Unspecified
    ensures var names := ToWeapData(m).header[2];
      && names[0][..|DateColumn|] == DateColumn
      && forall k | 0 <= k < |m.baseData.columns| ::
           names[k + 1][..|m.baseData.columns[k]|] == m.baseData.columns[k]
           && names[k + 1][|m.baseData.columns[k]|..] == " [" + m.unit + "]"
  {
  }

  /** The streamflow export of two stations: `$Columns = Date [m3/s]` heads the date column. */
  lemma StreamflowHeaderExample(rows: seq<seq<Cell>>, dates: seq<string>)
    ensures var w := ToWeapData(MeasVarData("Streamflow", dates, "m3/s", 0, Frame(["A", "B"], dates, rows)));
      && w.header[0] == [ListSeparator, "", ""]
      && w.header[1] == [DecimalSymbol, "", ""]
      && w.header[2] == ["$Columns = Date [m3/s]", "A [m3/s]", "B [m3/s]"]
  {
    assert WithUnit(DateColumn, "m3/s") == "$Columns = Date [m3/s]";
    assert WithUnit("A", "m3/s") == "A [m3/s]";
    assert WithUnit("B", "m3/s") == "B [m3/s]";
  }
}
