/** AttendanceController: the reader's attendance log, newest record first. Both actions talk
    to the reader directly. A record whose date fields do not form a DateTime makes the
    constructor throw inside the loop, which ends the whole request with 500. */
module AttendanceController {
  import opened Common
  import opened Calendar
  import opened Sorting
  import opened Reader

  const ReadLogFailedMessage: string := "Nie udało się odczytać logów z urządzenia"
  const ServerErrorPrefix: string := "Błąd podczas pobierania logów: "

  /** An AttendanceLog. The enum casts of verify mode and in/out mode accept every int, so the
      reader's codes are kept as they are. */
  datatype AttendanceLog = AttendanceLog(userId: string, logTime: DateTime, verifyMode: int, inOutMode: int, workCode: int)

  function ToAttendanceLog(rec: GeneralLogRecord): AttendanceLog
    requires IsRepresentable(rec.time)
  {
    AttendanceLog(rec.enrollNumber, rec.time, rec.verifyMode, rec.inOutMode, rec.workCode)
  }

  /** The position of the first record whose time the DateTime constructor rejects. */
  function FirstBadTime(recs: seq<GeneralLogRecord>): (r: Option<nat>)
    ensures r.None? <==> forall i | 0 <= i < |recs| :: IsRepresentable(recs[i].time)
    ensures r.Some? ==> r.value < |recs| && !IsRepresentable(recs[r.value].time)
                        && forall i | 0 <= i < r.value :: IsRepresentable(recs[i].time)
  {
    if recs == [] then None
    else if !IsRepresentable(recs[0].time) then Some(0)
    else
      var r := FirstBadTime(recs[1..]);
      if r.Some? then Some(r.value + 1) else None
  }

  function ToAttendanceLogs(recs: seq<GeneralLogRecord>): (logs: seq<AttendanceLog>)
    requires forall i | 0 <= i < |recs| :: IsRepresentable(recs[i].time)
    ensures |logs| == |recs|
  {
    if recs == [] then [] else ToAttendanceLogs(recs[..|recs| - 1]) + [ToAttendanceLog(recs[|recs| - 1])]
  }

  /** Each log is its record: user, time, modes and work code carried over unchanged. */
  lemma {:induction false} ToAttendanceLogsElements(recs: seq<GeneralLogRecord>, i: int)
    requires forall k | 0 <= k < |recs| :: IsRepresentable(recs[k].time)
    requires 0 <= i < |recs|
    ensures var l := ToAttendanceLogs(recs)[i];
      l.userId == recs[i].enrollNumber && l.logTime == recs[i].time && l.verifyMode == recs[i].verifyMode
      && l.inOutMode == recs[i].inOutMode && l.workCode == recs[i].workCode
  {
    var p := recs[..|recs| - 1];
    if i < |p| {
      ToAttendanceLogsElements(p, i);
    }
  }

  lemma ToAttendanceLogsSnoc(recs: seq<GeneralLogRecord>, rec: GeneralLogRecord)
    requires forall i | 0 <= i < |recs| :: IsRepresentable(recs[i].time)
    requires IsRepresentable(rec.time)
    ensures forall i | 0 <= i < |recs + [rec]| :: IsRepresentable((recs + [rec])[i].time)
    ensures ToAttendanceLogs(recs + [rec]) == ToAttendanceLogs(recs) + [ToAttendanceLog(rec)]
  {
    assert (recs + [rec])[..|recs|] == recs;
  }

  /** What the while loop produces from the records the iterator hands out. */
  function CollectLogs(recs: seq<GeneralLogRecord>): Outcome<seq<AttendanceLog>> {
    match FirstBadTime(recs)
    case Some(k) => Throws(ArgumentOutOfRange(ConstructorMessage(recs[k].time)))
    case None => Returns(ToAttendanceLogs(recs))
  }

  /** The loop: one log per record, in the reader's order; the first record with a bad time
      ends it with the constructor's exception, leaving the iterator after that record. */
  method ReadLogs(d: Device) returns (r: Outcome<seq<AttendanceLog>>)
    modifies d`logBuffer
    ensures r == CollectLogs(old(d.logBuffer))
    ensures d.logBuffer == match FirstBadTime(old(d.logBuffer))
                           case None => []
                           case Some(k) => old(d.logBuffer)[k + 1..]
  {
    var logs: seq<AttendanceLog> := [];
    ghost var done: seq<GeneralLogRecord> := [];
    while true
      invariant done + d.logBuffer == old(d.logBuffer)
      invariant forall i | 0 <= i < |done| :: IsRepresentable(done[i].time)
      invariant logs == ToAttendanceLogs(done)
      decreases |d.logBuffer|
    {
      ghost var before := d.logBuffer;
      var next := d.GetGeneralLogData();
      if next.None? {
        break;
      }
      var rec := next.value;
      assert before == [rec] + d.logBuffer;
      AppendOne(done, rec, d.logBuffer);
      assert old(d.logBuffer)[|done|] == rec;
      if !IsRepresentable(rec.time) {
        BadRecordEndsLoop(old(d.logBuffer), done, rec, d.logBuffer);
        return Throws(ArgumentOutOfRange(ConstructorMessage(rec.time)));
      }
      ToAttendanceLogsSnoc(done, rec);
      logs := logs + [ToAttendanceLog(rec)];
      done := done + [rec];
    }
    assert done == old(d.logBuffer);
    r := Returns(logs);
  }

  /** The first record with a bad time is the one the loop stops at, and the iterator then
      stands right after it. */
  lemma BadRecordEndsLoop(recs: seq<GeneralLogRecord>, done: seq<GeneralLogRecord>, rec: GeneralLogRecord,
                          rest: seq<GeneralLogRecord>)
    requires recs == done + [rec] + rest
    requires forall i | 0 <= i < |done| :: IsRepresentable(done[i].time)
    requires !IsRepresentable(rec.time)
    ensures FirstBadTime(recs) == Some(|done|)
    ensures recs[|done| + 1..] == rest
  {
    FirstBadTimeAt(recs, |done|);
  }

  lemma {:induction false} FirstBadTimeAt(recs: seq<GeneralLogRecord>, i: nat)
    requires i < |recs| && !IsRepresentable(recs[i].time)
    requires forall k | 0 <= k < i :: IsRepresentable(recs[k].time)
    ensures FirstBadTime(recs) == Some(i)
  {
    if i > 0 {
      FirstBadTimeAt(recs[1..], i - 1);
    }
  }

  /** OrderByDescending(x => x.LogTime), as OrderBy on the negated ticks. */
  function NewestFirstKey(l: AttendanceLog): int {
    -Ticks(l.logTime)
  }

  /** The response holds the same logs, newest first; logs with the same time keep the
      reader's order. */
  lemma NewestFirstOrder(logs: seq<AttendanceLog>, k: int)
    ensures var r := SortBy(logs, NewestFirstKey);
      multiset(r) == multiset(logs)
      && (forall i, j | 0 <= i < j < |r| :: !Before(r[i].logTime, r[j].logTime))
      && Matching(r, NewestFirstKey, k) == Matching(logs, NewestFirstKey, k)
  {
    var r := SortBy(logs, NewestFirstKey);
    SortByIsSortedPermutation(logs, NewestFirstKey);
    SortByIsStable(logs, NewestFirstKey, k);
    forall i, j | 0 <= i < j < |r| ensures !Before(r[i].logTime, r[j].logTime) {
      assert NewestFirstKey(r[i]) <= NewestFirstKey(r[j]);
      TicksOrder(r[i].logTime, r[j].logTime);
    }
  }

  /** The response for the loop's outcome: 200 with the sorted logs, or 500 with the
      constructor's message. */
  function LogsResponse(o: Outcome<seq<AttendanceLog>>): (r: Response<seq<AttendanceLog>>)
    ensures r.Ok? <==> o.Returns?
    ensures r.Ok? ==> r.data == SortBy(o.value, NewestFirstKey)
    ensures r.ServerError? ==> r.message == ServerErrorPrefix + o.error.Message()
  {
    match o
    case Returns(logs) => Ok(SortBy(logs, NewestFirstKey))
    case Throws(e) => ServerError(ServerErrorPrefix + e.Message())
  }

  /** What GetAttendanceLogs does once connected: disable, prepare the iterator and read it,
      then re-enable and disconnect. */
  method AttendanceConnected(d: Device) returns (r: Response<seq<AttendanceLog>>)
    requires d.connected
    modifies d`connected, d`enabled, d`trace, d`logBuffer
    ensures d.trace == old(d.trace) + [Enabled(false)] + [Enabled(true)] + [Disconnected]
    ensures d.enabled && !d.connected
    ensures ReadGeneralLog in d.refuses ==> r == BadRequest(ReadLogFailedMessage)
    ensures ReadGeneralLog !in d.refuses ==> r == LogsResponse(CollectLogs(d.generalLog))
  {
    var _ := d.EnableDevice(false);
    var ok := d.ReadGeneralLogData();
    if !ok {
      r := BadRequest(ReadLogFailedMessage);
    } else {
      var logs := ReadLogs(d);
      r := LogsResponse(logs);
    }
    var _ := d.EnableDevice(true);
    d.Disconnect();
  }

  /** GetAttendanceLogs: ReadGeneralLogData prepares the iterator; its failure is 400. */
  method GetAttendanceLogs(d: Device, ip: string, port: int) returns (r: Response<seq<AttendanceLog>>)
    modifies d`connected, d`enabled, d`trace, d`logBuffer
    ensures Connect in d.refuses ==> r == BadRequest(ConnectFailedMessage) && d.trace == old(d.trace) + [Connected(false)]
    ensures Connect !in d.refuses ==> d.trace == old(d.trace) + Bracket(true, []) && d.enabled && !d.connected
    ensures Connect !in d.refuses && ReadGeneralLog in d.refuses ==> r == BadRequest(ReadLogFailedMessage)
    ensures Connect !in d.refuses && ReadGeneralLog !in d.refuses ==> r == LogsResponse(CollectLogs(d.generalLog))
  {
    var connected := d.ConnectNet(ip, port);
    if !connected {
      return BadRequest(ConnectFailedMessage);
    }
    r := AttendanceConnected(d);
    BracketTraceEmpty(old(d.trace));
  }

  /** GetAllAttendanceLogs: the same loop without ReadGeneralLogData, so it reads from wherever
      the iterator stands. */
  method GetAllAttendanceLogs(d: Device, ip: string, port: int) returns (r: Response<seq<AttendanceLog>>)
    modifies d`connected, d`enabled, d`trace, d`logBuffer
    ensures Connect in d.refuses ==>
      r == BadRequest(ConnectFailedMessage) && d.trace == old(d.trace) + [Connected(false)] && d.logBuffer == old(d.logBuffer)
    ensures Connect !in d.refuses ==>
      r == LogsResponse(CollectLogs(old(d.logBuffer)))
      && d.trace == old(d.trace) + Bracket(true, []) && d.enabled && !d.connected
  {
    var connected := d.ConnectNet(ip, port);
    if !connected {
      return BadRequest(ConnectFailedMessage);
    }
    var _ := d.EnableDevice(false);
    var logs := ReadLogs(d);
    r := LogsResponse(logs);
    var _ := d.EnableDevice(true);
    d.Disconnect();
    BracketTraceEmpty(old(d.trace));
  }
}
