/**
 * The figures `updateStats` shows: the number of waiting items, the number of
 * rows marked completed, and the estimated remaining time at a fixed two
 * minutes per waiting file.
 */
module Stats {
  import opened JsString
  import opened Jobs
  import opened QueueSpec

  /** The page's fixed estimate of minutes per file. */
  const AvgMinutesPerFile: nat := 2

  datatype Figures = Figures(queueCount: nat, completedCount: nat, estimatedTime: string)

  /** The number of rows whose status is `completed`. */
  function CountCompleted(rows: seq<Item>): nat {
    if rows == [] then 0
    else CountCompleted(rows[..|rows| - 1]) + (if rows[|rows| - 1].status == Completed then 1 else 0)
  }

  /** The number of outcomes in which the conversion succeeded. */
  function CountConverted(outcomes: seq<Outcome>): nat {
    if outcomes == [] then 0
    else CountConverted(outcomes[..|outcomes| - 1]) + (if outcomes[|outcomes| - 1].Converted? then 1 else 0)
  }

  /**
   * The estimated-time text: `--:--` for an empty queue, otherwise the
   * remaining minutes in decimal followed by `min`.
   */
  function EstimatedTime(queueLength: nat): (t: string)
    ensures t == "--:--" <==> queueLength == 0
    ensures queueLength > 0 ==> EndsWith(t, "min") && ParseDecimal(t[..|t| - 3]) == AvgMinutesPerFile * queueLength
    ensures queueLength > 0 ==>
              && |t| > 3
              && (forall i :: 0 <= i < |t| - 3 ==> IsDigit(t[i]))
              && (|t| > 4 ==> t[0] != '0')
  {
    var remaining := queueLength * AvgMinutesPerFile;
    if remaining > 0 then
      var t := Decimal(remaining) + "min";
      DecimalRoundTrip(remaining);
      assert t[..|t| - 3] == Decimal(remaining);
      assert IsDigit(t[0]);
      t
    else "--:--"
  }

  /** The figures of `updateStats`, read off the whole page: waiting items and all rows. */
  function StatsOf(s: State): (f: Figures)
    ensures f.queueCount == |s.queue|
    ensures f.completedCount <= |Rows(s)|
    ensures f.estimatedTime == "--:--" <==> s.queue == []
    ensures Inv(s) ==> f.completedCount == CountCompleted(s.settled)
  {
    CompletedAtMostRows(Rows(s));
    OnlySettledRowsComplete(s);
    Figures(|s.queue|, CountCompleted(Rows(s)), EstimatedTime(|s.queue|))
  }

  /** Waiting rows are never completed, so the completed rows are all settled ones. */
  lemma OnlySettledRowsComplete(s: State)
    ensures Inv(s) ==> CountCompleted(Rows(s)) == CountCompleted(s.settled)
  {
    if Inv(s) {
      WaitingNotCompleted(s.queue);
      CountCompletedAppend(s.settled, s.queue);
    }
  }

  lemma {:induction false} CompletedAtMostRows(rows: seq<Item>)
    ensures CountCompleted(rows) <= |rows|
  {
    if rows != [] {
      CompletedAtMostRows(rows[..|rows| - 1]);
    }
  }

  lemma {:induction false} CountCompletedAppend(a: seq<Item>, b: seq<Item>)
    ensures CountCompleted(a + b) == CountCompleted(a) + CountCompleted(b)
  {
    if b != [] {
      assert (a + b)[..|a + b| - 1] == a + b[..|b| - 1];
      CountCompletedAppend(a, b[..|b| - 1]);
    } else {
      assert a + b == a;
    }
  }

  /** Rows completed one for one with successful outcomes number as many as those outcomes. */
  lemma {:induction false} CompletedMatchesOutcomes(rows: seq<Item>, outcomes: seq<Outcome>)
    requires |rows| == |outcomes|
    requires forall k :: 0 <= k < |rows| ==> (rows[k].status == Completed <==> outcomes[k].Converted?)
    ensures CountCompleted(rows) == CountConverted(outcomes)
  {
    if rows != [] {
      CompletedMatchesOutcomes(rows[..|rows| - 1], outcomes[..|outcomes| - 1]);
    }
  }

  /** Waiting items are never completed, so only settled rows count as completed. */
  lemma {:induction false} WaitingNotCompleted(q: seq<Item>)
    requires forall k :: 0 <= k < |q| ==> q[k].status != Completed
    ensures CountCompleted(q) == 0
  {
    if q != [] {
      WaitingNotCompleted(q[..|q| - 1]);
    }
  }

  /**
   * After the queue drains, no item waits, no time remains, and the completed
   * count has grown by exactly the number of successful conversions.
   */
  lemma DrainFigures(s: State, outcomes: seq<Outcome>)
    requires Inv(s) && s.loaded && |outcomes| >= |s.queue|
    ensures StatsOf(Drain(s, outcomes)).queueCount == 0
    ensures StatsOf(Drain(s, outcomes)).estimatedTime == "--:--"
    ensures StatsOf(Drain(s, outcomes)).completedCount ==
              StatsOf(s).completedCount + CountConverted(outcomes[..|s.queue|])
  {
    assert Running(s);
    DrainSpec(s, outcomes);
    var d := Drain(s, outcomes);
    assert Rows(d) == s.settled + SettleAll(s.queue, outcomes);
    WaitingNotCompleted(s.queue);
    CountCompletedAppend(s.settled, s.queue);
    assert StatsOf(s).completedCount == CountCompleted(s.settled);
    DrainedFigures(s.settled, s.queue, outcomes);
  }

  /** The completed count of the settled rows plus a drained queue. */
  lemma DrainedFigures(settled: seq<Item>, q: seq<Item>, outcomes: seq<Outcome>)
    requires |outcomes| >= |q|
    ensures CountCompleted(settled + SettleAll(q, outcomes)) == CountCompleted(settled) + CountConverted(outcomes[..|q|])
  {
    var drained := SettleAll(q, outcomes);
    CountCompletedAppend(settled, drained);
    CompletedMatchesOutcomes(drained, outcomes[..|q|]);
  }
}
