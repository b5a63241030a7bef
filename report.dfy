/**
 * What the PDF report and the terminal view derive from the history: the mean
 * glucose of the last seven days and the most recent rows.
 */
module Report {

  import opened Options
  import opened History

  const SECONDS_PER_DAY: real := 86400.0

  /** The span of the weekly mean: timedelta(days=7). */
  const WEEK: real := 7.0 * SECONDS_PER_DAY

  /** Rows in the PDF report's table. */
  const TABLE_ROWS: nat := 15

  /** Rows in the terminal view. */
  const TERMINAL_ROWS: nat := 10

  /** The entries stamped at or after `since`, in stored order. */
  function Window(rs: seq<Entry>, since: Time): (w: seq<Entry>)
    ensures |w| <= |rs|
    ensures forall e :: e in w <==> e in rs && e.time >= since
  {
    if rs == [] then []
    else
      assert rs == [rs[0]] + rs[1..];
      (if rs[0].time >= since then [rs[0]] else []) + Window(rs[1..], since)
  }

  /** Filtering a log extended at the end extends the window at the end, or leaves it. */
  lemma {:induction false} WindowAppend(rs: seq<Entry>, e: Entry, since: Time)
    ensures Window(rs + [e], since) == Window(rs, since) + (if e.time >= since then [e] else [])
  {
    if rs != [] {
      assert (rs + [e])[1..] == rs[1..] + [e];
      WindowAppend(rs[1..], e, since);
    }
  }

  /** The total of the Glicemia column. */
  function SumGlucose(rs: seq<Entry>): real
  {
    if rs == [] then 0.0 else rs[0].glucose + SumGlucose(rs[1..])
  }

  /** A row added at the end adds its glucose to the total. */
  lemma {:induction false} SumGlucoseAppend(rs: seq<Entry>, e: Entry)
    ensures SumGlucose(rs + [e]) == SumGlucose(rs) + e.glucose
  {
    if rs != [] {
      assert (rs + [e])[1..] == rs[1..] + [e];
      SumGlucoseAppend(rs[1..], e);
    }
  }

  /** The lowest glucose of a non-empty run of entries. */
  function MinGlucose(rs: seq<Entry>): (lo: real)
    requires rs != []
    ensures forall i :: 0 <= i < |rs| ==> lo <= rs[i].glucose
    ensures exists i :: 0 <= i < |rs| && rs[i].glucose == lo
  {
    if |rs| == 1 then rs[0].glucose
    else
      var rest := MinGlucose(rs[1..]);
      if rs[0].glucose <= rest then rs[0].glucose else rest
  }

  /** The highest glucose of a non-empty run of entries. */
  function MaxGlucose(rs: seq<Entry>): (hi: real)
    requires rs != []
    ensures forall i :: 0 <= i < |rs| ==> rs[i].glucose <= hi
    ensures exists i :: 0 <= i < |rs| && rs[i].glucose == hi
  {
    if |rs| == 1 then rs[0].glucose
    else
      var rest := MaxGlucose(rs[1..]);
      if rs[0].glucose >= rest then rs[0].glucose else rest
  }

  /** A lower bound on every glucose bounds the sum from below, count times over. */
  lemma {:induction false} SumGlucoseAtLeast(rs: seq<Entry>, lo: real)
    requires forall i :: 0 <= i < |rs| ==> lo <= rs[i].glucose
    ensures |rs| as real * lo <= SumGlucose(rs)
  {
    if rs != [] {
      var k := |rs| - 1;
      SumGlucoseAtLeast(rs[1..], lo);
      assert k as real * lo + lo == |rs| as real * lo;
    }
  }

  /** An upper bound on every glucose bounds the sum from above, count times over. */
  lemma {:induction false} SumGlucoseAtMost(rs: seq<Entry>, hi: real)
    requires forall i :: 0 <= i < |rs| ==> rs[i].glucose <= hi
    ensures SumGlucose(rs) <= |rs| as real * hi
  {
    if rs != [] {
      var k := |rs| - 1;
      SumGlucoseAtMost(rs[1..], hi);
      assert k as real * hi + hi == |rs| as real * hi;
    }
  }

  /** A dividend of at least n * lo, divided by n > 0, is at least lo. */
  lemma QuotientAtLeast(sum: real, n: real, lo: real)
    requires n > 0.0 && n * lo <= sum
    ensures lo <= sum / n
  {
  }

  /** A dividend of at most n * hi, divided by n > 0, is at most hi. */
  lemma QuotientAtMost(sum: real, n: real, hi: real)
    requires n > 0.0 && sum <= n * hi
    ensures sum / n <= hi
  {
  }

  /** A lower bound on every glucose of a non-empty run bounds its mean from below. */
  lemma MeanAtLeast(rs: seq<Entry>, lo: real)
    requires rs != []
    requires forall i :: 0 <= i < |rs| ==> lo <= rs[i].glucose
    ensures lo <= SumGlucose(rs) / |rs| as real
  {
    SumGlucoseAtLeast(rs, lo);
    QuotientAtLeast(SumGlucose(rs), |rs| as real, lo);
  }

  /** An upper bound on every glucose of a non-empty run bounds its mean from above. */
  lemma MeanAtMost(rs: seq<Entry>, hi: real)
    requires rs != []
    requires forall i :: 0 <= i < |rs| ==> rs[i].glucose <= hi
    ensures SumGlucose(rs) / |rs| as real <= hi
  {
    SumGlucoseAtMost(rs, hi);
    QuotientAtMost(SumGlucose(rs), |rs| as real, hi);
  }

  /** pandas' mean of the Glicemia column of a non-empty frame. */
  function Mean(rs: seq<Entry>): (m: real)
    requires rs != []
    ensures m == SumGlucose(rs) / |rs| as real
    ensures MinGlucose(rs) <= m <= MaxGlucose(rs)
  {
    MeanAtLeast(rs, MinGlucose(rs));
    MeanAtMost(rs, MaxGlucose(rs));
    SumGlucose(rs) / |rs| as real
  }

  /**
   * The weekly mean printed on the report: the mean glucose of the entries stamped at
   * or after seven days before `now`, or 0 when there are none.
   */
  function WeeklyMean(rs: seq<Entry>, now: Time): (m: real)
    ensures Window(rs, now - WEEK) == [] ==> m == 0.0
    ensures Window(rs, now - WEEK) != [] ==> m == Mean(Window(rs, now - WEEK))
    ensures Window(rs, now - WEEK) != [] ==>
      MinGlucose(Window(rs, now - WEEK)) <= m <= MaxGlucose(Window(rs, now - WEEK))
  {
    var week := Window(rs, now - WEEK);
    if week == [] then 0.0 else Mean(week)
  }

  /** pandas' tail(n): the last n elements, or all of them when there are fewer. */
  function Tail<T>(s: seq<T>, n: nat): (t: seq<T>)
    ensures |t| == if |s| < n then |s| else n
    ensures forall i :: 0 <= i < |t| ==> t[i] == s[|s| - |t| + i]
  {
    if |s| <= n then s else s[|s| - n..]
  }

  /** After a save the newest row ends every tail of positive length. */
  lemma TailEndsWithLatest<T>(s: seq<T>, x: T, n: nat)
    requires n > 0
    ensures Tail(s + [x], n) != [] && Tail(s + [x], n)[|Tail(s + [x], n)| - 1] == x
  {
  }

  /** The terminal view is the last ten rows of the report's table. */
  lemma TailOfTail<T>(s: seq<T>, m: nat, n: nat)
    requires n <= m
    ensures Tail(Tail(s, m), n) == Tail(s, n)
  {
  }

  /** The figures of the PDF report: the highlighted weekly mean and the table rows. */
  datatype Summary = Summary(weeklyMean: real, table: seq<Entry>)

  /**
   * exportar_pdf without the layout: nothing when there is no history file; otherwise
   * the weekly mean and the last fifteen rows in stored order.
   */
  function ExportSummary(h: HistoryFile, now: Time): (r: Option<Summary>)
    reads h
    requires h.Valid()
    ensures r.None? <==> !h.onDisk
    ensures r.Some? ==> r.value.weeklyMean == WeeklyMean(h.Records(), now)
    ensures r.Some? ==> |r.value.table| == if |h.Records()| < TABLE_ROWS then |h.Records()| else TABLE_ROWS
    ensures r.Some? ==> h.Records() == h.Records()[..|h.Records()| - |r.value.table|] + r.value.table
  {
    if !h.onDisk then None
    else Some(Summary(WeeklyMean(h.Records(), now), Tail(h.Records(), TABLE_ROWS)))
  }

  /** Menu option 2: nothing when there is no file, else the last ten rows in stored order. */
  function TerminalView(h: HistoryFile): (r: Option<seq<Entry>>)
    reads h
    requires h.Valid()
    ensures r.None? <==> !h.onDisk
    ensures r.Some? ==> |r.value| == if |h.Records()| < TERMINAL_ROWS then |h.Records()| else TERMINAL_ROWS
    ensures r.Some? ==> h.Records() == h.Records()[..|h.Records()| - |r.value|] + r.value
  {
    if !h.onDisk then None else Some(Tail(h.Records(), TERMINAL_ROWS))
  }

}
