/**
 The append-only prediction log of `save_prediction`. The file is abstract:
 None while it does not exist, otherwise its lines in order.
 */
module PredictionLog {

  import opened Wrappers
  import opened Records

  /** A line of the log: the header row or one record. */
  datatype Line = Header(columns: seq<string>) | Data(record: Record)

  /** The log file: absent, or its lines. */
  type Log = Option<seq<Line>>

  /** The records of the data lines, in file order. */
  function DataRecords(lines: seq<Line>): (recs: seq<Record>)
    ensures |recs| <= |lines|
  {
    if |lines| == 0 then []
    else
      var last := lines[|lines| - 1];
      DataRecords(lines[..|lines| - 1]) + (if last.Data? then [last.record] else [])
  }

  /** The number of header lines. */
  function HeaderCount(lines: seq<Line>): nat
  {
    if |lines| == 0 then 0
    else HeaderCount(lines[..|lines| - 1]) + (if lines[|lines| - 1].Header? then 1 else 0)
  }

  /** The records held by the log; none while the file is absent. */
  function LoggedRecords(log: Log): seq<Record>
  {
    if log.None? then [] else DataRecords(log.value)
  }

  /** A log written only by this module: the header first, then data lines only. */
  ghost predicate WellFormed(log: Log)
  {
    log.Some? ==>
      && |log.value| >= 1
      && log.value[0] == Header(FieldNames)
      && forall i :: 1 <= i < |log.value| ==> log.value[i].Data?
  }

  /** A well-formed log that exists holds exactly one header line. */
  lemma {:induction false} WellFormedHasOneHeader(lines: seq<Line>)
    requires WellFormed(Some(lines))
    ensures HeaderCount(lines) == 1
    decreases |lines|
  {
    if |lines| > 1 {
      var init := lines[..|lines| - 1];
      assert WellFormed(Some(init));
      WellFormedHasOneHeader(init);
    } else {
      assert lines[..0] == [];
    }
  }

  /** `save_prediction`: create the file with header and row, or append the row only. */
  function Save(log: Log, rec: Record): (log': Log)
    ensures log'.Some?
    ensures log.Some? ==> log.value <= log'.value && |log'.value| == |log.value| + 1
    ensures LoggedRecords(log') == LoggedRecords(log) + [rec]
    ensures HeaderCount(log'.value) == (if log.None? then 1 else HeaderCount(log.value))
    ensures WellFormed(log) ==> WellFormed(log')
  {
    if log.None? then
      var lines := [Header(FieldNames), Data(rec)];
      assert lines[..1] == [Header(FieldNames)] && lines[..1][..0] == [];
      assert DataRecords(lines[..1]) == [] && HeaderCount(lines[..1]) == 1;
      Some(lines)
    else
      var lines := log.value + [Data(rec)];
      assert lines[..|lines| - 1] == log.value;
      Some(lines)
  }

  /** A series of saves, in call order. */
  function SaveAll(log: Log, recs: seq<Record>): (log': Log)
    ensures |recs| == 0 ==> log' == log
    ensures |recs| > 0 ==> log'.Some?
    ensures LoggedRecords(log') == LoggedRecords(log) + recs
    ensures WellFormed(log) ==> WellFormed(log')
    ensures log.Some? ==> log'.Some? && log.value <= log'.value
    ensures log.Some? ==> |log'.value| == |log.value| + |recs|
    decreases |recs|
  {
    if |recs| == 0 then log
    else
      var init := recs[..|recs| - 1];
      assert init + [recs[|recs| - 1]] == recs;
      Save(SaveAll(log, init), recs[|recs| - 1])
  }

  /** One more record saves after the earlier ones. */
  lemma SaveAllSnoc(log: Log, recs: seq<Record>, rec: Record)
    ensures SaveAll(log, recs + [rec]) == Save(SaveAll(log, recs), rec)
  {
    assert (recs + [rec])[..|recs|] == recs;
  }

  /** One data line per record, in order. */
  function DataLines(recs: seq<Record>): (lines: seq<Line>)
    ensures |lines| == |recs|
    ensures forall i :: 0 <= i < |recs| ==> lines[i] == Data(recs[i])
  {
    if |recs| == 0 then [] else DataLines(recs[..|recs| - 1]) + [Data(recs[|recs| - 1])]
  }

  /** Starting from no file, any non-empty series of saves leaves exactly
      the header followed by one data line per record, in call order. */
  lemma {:induction false} SaveAllFromAbsent(recs: seq<Record>)
    requires |recs| > 0
    ensures SaveAll(None, recs) == Some([Header(FieldNames)] + DataLines(recs))
    ensures HeaderCount(SaveAll(None, recs).value) == 1
    decreases |recs|
  {
    var init, last := recs[..|recs| - 1], recs[|recs| - 1];
    assert SaveAll(None, recs) == Save(SaveAll(None, init), last);
    if |recs| > 1 {
      SaveAllFromAbsent(init);
      assert [Header(FieldNames)] + DataLines(recs)
          == [Header(FieldNames)] + DataLines(init) + [Data(last)];
    } else {
      assert init == [] && DataLines(init) == [];
      assert SaveAll(None, init) == None;
      assert [Header(FieldNames)] + DataLines(recs) == [Header(FieldNames), Data(last)];
    }
    WellFormedHasOneHeader(SaveAll(None, recs).value);
  }

  /** An existing file without a header never gets one: later saves only append rows. */
  lemma {:induction false} ExistingFileIsNeverGivenHeader(lines: seq<Line>, recs: seq<Record>)
    requires HeaderCount(lines) == 0
    ensures HeaderCount(SaveAll(Some(lines), recs).value) == 0
    decreases |recs|
  {
    if |recs| > 0 {
      ExistingFileIsNeverGivenHeader(lines, recs[..|recs| - 1]);
    }
  }
}
