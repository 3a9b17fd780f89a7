/** Merging of one-column station frames onto a date index, one after another, as the
    hydrological loader does for the stations of a workbook. */
module StationMerge {
  import opened MeasVar

  /** Merging a one-column frame with distinct dates onto a date-indexed frame keeps the
      index and the existing cells, and appends the column's reading for each date. */
  lemma MergeStationColumn(base: Frame, right: Frame, dateRange: seq<string>)
    requires WellFormed(base) && WellFormed(right) && NoDuplicates(right.index)
    requires base.index == dateRange && |right.columns| == 1
    ensures MergeLeft(base, right).index == dateRange
    ensures forall i, j | 0 <= i < |dateRange| && 0 <= j < |base.columns| ::
      MergeLeft(base, right).rows[i][j] == base.rows[i][j]
    ensures forall i | 0 <= i < |dateRange| ::
      MergeLeft(base, right).rows[i][|base.columns|] == Lookup(right, dateRange[i])[0]
  {
    MergeLeftUnique(base, right);
  }

  /** The final join onto distinct calibration dates leaves a frame indexed by exactly those
      dates as it is. */
  lemma JoinOntoOwnDates(base: Frame, dateRange: seq<string>)
    requires WellFormed(base) && base.index == dateRange && NoDuplicates(dateRange)
    ensures forall i | 0 <= i < |dateRange| :: LeftJoin(dateRange, base).rows[i] == base.rows[i]
  {
    LeftJoinOneRowPerDate(dateRange, base);
    forall i | 0 <= i < |dateRange| ensures LeftJoin(dateRange, base).rows[i] == base.rows[i] {
      LookupAt(base, i);
    }
  }

  predicate OneColumnFrames(frames: seq<Frame>) {
    forall j | 0 <= j < |frames| :: WellFormed(frames[j]) && |frames[j].columns| == 1
  }

  /** The name of each one-column frame, in order. */
  function FrameNames(frames: seq<Frame>): (names: seq<string>)
    requires OneColumnFrames(frames)
    ensures |names| == |frames| && forall j | 0 <= j < |frames| :: names[j] == frames[j].columns[0]
  {
    seq(|frames|, j requires 0 <= j < |frames| => frames[j].columns[0])
  }

  /** The station frames merged onto `base` one after another, in order. While no name
      repeats, the columns are the base's followed by the frames' names; a repeated name is
      suffixed by the merge that meets it twice. */
  function MergeAll(base: Frame, frames: seq<Frame>): (r: Frame)
    requires WellFormed(base) && OneColumnFrames(frames)
    ensures WellFormed(r) && |r.columns| == |base.columns| + |frames|
    ensures NoDuplicates(base.columns + FrameNames(frames)) ==> r.columns == base.columns + FrameNames(frames)
    decreases |frames|
  {
    if |frames| == 0 then base
    else
      var n := |frames| - 1;
      var prev := MergeAll(base, frames[..n]);
      assert NoDuplicates(base.columns + FrameNames(frames)) ==>
        MergedColumns(prev.columns, frames[n].columns) == base.columns + FrameNames(frames) by {
        var all := base.columns + FrameNames(frames);
        if NoDuplicates(all) {
          assert base.columns + FrameNames(frames[..n]) == all[..|all| - 1];
          assert NoDuplicates(all[..|all| - 1]);
          assert prev.columns == all[..|all| - 1];
          assert frames[n].columns == [all[|all| - 1]];
          DisjointColumns(prev.columns, frames[n].columns);
          assert all == all[..|all| - 1] + [all[|all| - 1]];
        }
      }
      MergeLeft(prev, frames[n])
  }

  /** Merging one more frame onto the prefix merged so far extends the merge by that frame. */
  lemma MergeAllStep(base: Frame, frames: seq<Frame>, k: nat)
    requires WellFormed(base) && OneColumnFrames(frames) && k < |frames|
    ensures MergeAll(base, frames[..k + 1]) == MergeLeft(MergeAll(base, frames[..k]), frames[k])
  {
    assert frames[..k + 1][..k] == frames[..k];
  }

  /** Merged onto the calibration dates, the frames give one column each, named after the
      frames' own columns while no name repeats. */
  lemma MergedNames(dateRange: seq<string>, frames: seq<Frame>, names: seq<string>)
    requires OneColumnFrames(frames) && FrameNames(frames) == names
    ensures var merged := MergeAll(DateFrame(dateRange), frames);
      && |merged.columns| == |names|
      && (NoDuplicates(names) ==> merged.columns == names)
  {
    assert DateFrame(dateRange).columns + FrameNames(frames) == names;
  }

  /** A station listed twice comes out as two columns, `_x` and `_y`. */
  lemma RepeatedStationSuffixed(dateRange: seq<string>, first: Frame, second: Frame)
    requires OneColumnFrames([first, second]) && first.columns == ["A"] && second.columns == ["A"]
    ensures MergeAll(DateFrame(dateRange), [first, second]).columns == ["A_x", "A_y"]
  {
    var frames := [first, second];
    assert frames[..1] == [first] && frames[..1][..0] == [];
    DisjointColumns([], ["A"]);
    assert MergeAll(DateFrame(dateRange), frames[..1]).columns == ["A"];
    SharedColumnSuffixed();
  }

  /** Merging one more station frame with distinct dates keeps the readings of the earlier
      stations and adds its own as the last column. */
  lemma {:induction false} ReadingsStep(dateRange: seq<string>, frames: seq<Frame>)
    requires |frames| > 0 && OneColumnFrames(frames)
    requires NoDuplicates(frames[|frames| - 1].index)
    requires MergeAll(DateFrame(dateRange), frames[..|frames| - 1]).index == dateRange
    requires forall i, j | 0 <= i < |dateRange| && 0 <= j < |frames| - 1 ::
      MergeAll(DateFrame(dateRange), frames[..|frames| - 1]).rows[i][j] == Lookup(frames[j], dateRange[i])[0]
    ensures MergeAll(DateFrame(dateRange), frames).index == dateRange
    ensures forall i, j | 0 <= i < |dateRange| && 0 <= j < |frames| ::
      MergeAll(DateFrame(dateRange), frames).rows[i][j] == Lookup(frames[j], dateRange[i])[0]
  {
    var n := |frames| - 1;
    var base := MergeAll(DateFrame(dateRange), frames[..n]);
    assert MergeAll(DateFrame(dateRange), frames) == MergeLeft(base, frames[n]);
    AppendReadings(dateRange, base, frames);
  }

  /** The column step of `ReadingsStep`, stated of the merged frame directly: a frame whose
      column `j` holds frame `j`'s readings gains the last frame's readings as its last column. */
  lemma AppendReadings(dateRange: seq<string>, base: Frame, frames: seq<Frame>)
    requires |frames| > 0 && OneColumnFrames(frames) && NoDuplicates(frames[|frames| - 1].index)
    requires WellFormed(base) && base.index == dateRange && |base.columns| == |frames| - 1
    requires forall i, j | 0 <= i < |dateRange| && 0 <= j < |frames| - 1 ::
      base.rows[i][j] == Lookup(frames[j], dateRange[i])[0]
    ensures MergeLeft(base, frames[|frames| - 1]).index == dateRange
    ensures forall i, j | 0 <= i < |dateRange| && 0 <= j < |frames| ::
      MergeLeft(base, frames[|frames| - 1]).rows[i][j] == Lookup(frames[j], dateRange[i])[0]
  {
    var n := |frames| - 1;
    MergeStationColumn(base, frames[n], dateRange);
    forall i, j | 0 <= i < |dateRange| && 0 <= j < |frames|
      ensures MergeLeft(base, frames[n]).rows[i][j] == Lookup(frames[j], dateRange[i])[0]
    {
      if j < n {
        assert MergeLeft(base, frames[n]).rows[i][j] == base.rows[i][j];
      }
    }
  }

  /** Merging frames with distinct dates onto the calibration dates gives one row per date,
      whose column `j` is the reading of frame `j` for that date, or NaN. */
  lemma {:induction false} MergeAllReadings(dateRange: seq<string>, frames: seq<Frame>)
    requires OneColumnFrames(frames)
    requires forall j | 0 <= j < |frames| :: NoDuplicates(frames[j].index)
    ensures MergeAll(DateFrame(dateRange), frames).index == dateRange
    ensures forall i, j | 0 <= i < |dateRange| && 0 <= j < |frames| ::
      MergeAll(DateFrame(dateRange), frames).rows[i][j] == Lookup(frames[j], dateRange[i])[0]
    decreases |frames|
  {
    if |frames| > 0 {
      var init := frames[..|frames| - 1];
      MergeAllReadings(dateRange, init);
      assert forall j | 0 <= j < |init| :: init[j] == frames[j];
      ReadingsStep(dateRange, frames);
    }
  }
}
