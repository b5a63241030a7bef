/**
 * The history file: a CSV whose first line names the columns and whose every later
 * line is one saved calculation. Saving appends one row; the header is written only
 * by the save that creates the file.
 */
module History {

  import opened Dosing

  /**
   * A wall-clock instant in seconds, with the fractional part datetime.now() carries;
   * only its order and arithmetic are used.
   */
  type Time = real

  const SECONDS_PER_MINUTE: real := 60.0

  /**
   * The instant a stored timestamp denotes: the "%d/%m/%Y %H:%M" text keeps the
   * minute and drops the seconds and their fraction.
   */
  function TruncateToMinute(t: Time): (m: Time)
    ensures m <= t < m + SECONDS_PER_MINUTE
    ensures (m / SECONDS_PER_MINUTE).Floor as real * SECONDS_PER_MINUTE == m
  {
    (t / SECONDS_PER_MINUTE).Floor as real * SECONDS_PER_MINUTE
  }

  /** One saved calculation: the columns Data, Glicemia, Carbos, ICR, Dose_Total. */
  datatype Entry = Entry(time: Time, glucose: real, carbs: real, ratio: Ratio, dose: int)

  /** The column names of the header line. */
  const COLUMNS: seq<string> := ["Data", "Glicemia", "Carbos", "ICR", "Dose_Total"]

  datatype Line = Header(names: seq<string>) | Row(entry: Entry)

  /** The entries of the row lines, in file order. */
  function RowEntries(lines: seq<Line>): (es: seq<Entry>)
    ensures |es| <= |lines|
  {
    if lines == [] then []
    else (if lines[0].Row? then [lines[0].entry] else []) + RowEntries(lines[1..])
  }

  /** A row line added at the end adds its entry at the end. */
  lemma {:induction false} RowEntriesAppend(lines: seq<Line>, e: Entry)
    ensures RowEntries(lines + [Row(e)]) == RowEntries(lines) + [e]
  {
    if lines != [] {
      assert (lines + [Row(e)])[1..] == lines[1..] + [Row(e)];
      RowEntriesAppend(lines[1..], e);
    }
  }

  /** Lines that are all rows give exactly their entries, one per line. */
  lemma {:induction false} RowEntriesOfRows(lines: seq<Line>)
    requires forall i :: 0 <= i < |lines| ==> lines[i].Row?
    ensures |RowEntries(lines)| == |lines|
    ensures forall i :: 0 <= i < |lines| ==> RowEntries(lines)[i] == lines[i].entry
  {
    if lines != [] {
      RowEntriesOfRows(lines[1..]);
    }
  }

  class HistoryFile {

    /** Whether the file is on disk (os.path.isfile). */
    var onDisk: bool
    /** The file's lines, header included. */
    var lines: seq<Line>

    /** A file that onDisk starts with the one header line and holds only rows after it. */
    ghost predicate Valid()
      reads this
    {
      && (onDisk <==> lines != [])
      && (onDisk ==> lines[0] == Header(COLUMNS))
      && (forall i :: 0 < i < |lines| ==> lines[i].Row?)
    }

    /** What reading the file yields: one entry per line after the header, none when there is no file. */
    function Records(): (rs: seq<Entry>)
      reads this
      requires Valid()
      ensures |rs| == if onDisk then |lines| - 1 else 0
      ensures forall i :: 0 <= i < |rs| ==> lines[i + 1] == Row(rs[i])
    {
      if onDisk then
        RowEntriesOfRows(lines[1..]);
        RowEntries(lines[1..])
      else []
    }

    /** Before the first save there is no file. */
    constructor ()
      ensures Valid()
      ensures !onDisk && lines == [] && Records() == []
    {
      onDisk := false;
      lines := [];
    }

    /**
     * salvar_dados: stamps the entry with the current minute and appends it as one row;
     * a missing file is created with the header first, an existing one is only extended.
     */
    method Append(now: Time, glucose: real, carbs: real, ratio: Ratio, dose: int)
      requires Valid()
      modifies this
      ensures Valid() && onDisk
      ensures Records() == old(Records()) + [Entry(TruncateToMinute(now), glucose, carbs, ratio, dose)]
      ensures old(onDisk) ==> lines == old(lines) + [Row(Entry(TruncateToMinute(now), glucose, carbs, ratio, dose))]
      ensures !old(onDisk) ==> lines == [Header(COLUMNS), Row(Entry(TruncateToMinute(now), glucose, carbs, ratio, dose))]
    {
      var row := Row(Entry(TruncateToMinute(now), glucose, carbs, ratio, dose));
      if !onDisk {
        lines := [Header(COLUMNS), row];
        onDisk := true;
      } else {
        assert (lines + [row])[1..] == lines[1..] + [row];
        RowEntriesAppend(lines[1..], row.entry);
        lines := lines + [row];
      }
    }
  }

}
