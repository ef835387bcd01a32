/** LogController: the reader's administrative operation log. The controller clamps each
    record's date fields into range, builds a DateTime from them, and falls back to the current
    time (keeping the clamped values in the work code) when the constructor still throws. */
module LogController {
  import opened Common
  import opened Text
  import opened Calendar
  import opened Reader

  datatype OperationLog = OperationLog(index: int, adminId: int, operation: int, operationName: string,
                                       dateTime: DateTime, workCode: string)

  /** Math.Max(lo, Math.Min(hi, x)). */
  function Clamp(lo: int, hi: int, x: int): (r: int)
    requires lo <= hi
    ensures lo <= r <= hi
    ensures lo <= x <= hi ==> r == x
    ensures x < lo ==> r == lo
    ensures x > hi ==> r == hi
  {
    if x > hi then hi else if x < lo then lo else x
  }

  /** The controller's date correction: a year below 2000 is taken as a two-digit year, and the
      other fields are clamped to their widest range. Days are clamped to 31 whatever the month. */
  function Normalize(t: RawTime): (n: RawTime)
    ensures 1 <= n.month <= 12 && 1 <= n.day <= 31 && 0 <= n.hour <= 23 && 0 <= n.minute <= 59 && 0 <= n.second <= 59
    ensures n.year == if t.year < 2000 then 2000 + t.year else t.year
  {
    RawTime(if t.year < 2000 then 2000 + t.year else t.year,
            Clamp(1, 12, t.month), Clamp(1, 31, t.day), Clamp(0, 23, t.hour), Clamp(0, 59, t.minute), Clamp(0, 59, t.second))
  }

  /** A time the reader reports correctly from the year 2000 on passes through unchanged. */
  lemma NormalizeKeepsValidTimes(t: RawTime)
    requires IsRepresentable(t) && t.year >= 2000
    ensures Normalize(t) == t
  {
  }

  /** After the correction the DateTime constructor fails exactly when the year leaves
      1..9999 or the day is past the end of its month. */
  lemma NormalizeFailsExactly(t: RawTime)
    ensures var n := Normalize(t);
      !IsRepresentable(n) <==> n.year < 1 || n.year > 9999 || n.day > DaysInMonth(n.year, n.month)
  {
  }

  /** A four-digit year before 2000 is shifted as well: 1999 becomes 3999. */
  lemma NormalizeShiftsFourDigitYears(t: RawTime)
    requires t.year == 1999
    ensures Normalize(t).year == 3999
  {
  }

  /** The names GetOperationName gives the operation codes 0 to 19, in code order. */
  const OperationNames: seq<string> := [
    "Uruchomienie urządzenia",
    "Wyłączenie urządzenia",
    "Wejście w menu",
    "Zmiana ustawień systemowych",
    "Zmiana ustawień zaawansowanych",
    "Zmiana ustawień komunikacji",
    "Zmiana ustawień personalizacji",
    "Zmiana ustawień zarządzania użytkownikami",
    "Zmiana ustawień kontroli dostępu",
    "Aktualizacja firmware",
    "Przeglądanie logów systemowych",
    "Backup danych",
    "Przywrócenie danych",
    "Formatowanie urządzenia",
    "Dodanie użytkownika",
    "Usunięcie użytkownika",
    "Zmiana danych użytkownika",
    "Dodanie karty",
    "Usunięcie karty",
    "Czyszczenie logów"
  ]

  /** GetOperationName: a known code's name, or a name that carries the unknown code. */
  function OperationName(operation: int): (name: string)
    ensures |name| > 0
    ensures (operation < 0 || operation > 19) <==> name[0] == 'N'
    ensures 0 <= operation < |OperationNames| ==> name == OperationNames[operation]
  {
    if 0 <= operation < |OperationNames| then OperationNames[operation] else UnknownOperationName(operation)
  }

  /** $"Nieznana operacja ({operation})". */
  function UnknownOperationName(operation: int): (name: string)
    ensures |name| > 0 && name[0] == 'N'
  {
    "Nieznana operacja (" + IntToString(operation) + ")"
  }

  /** Unknown codes keep their number in the name: two unknown codes never share a name. */
  lemma UnknownOperationNamesDiffer(a: int, b: int)
    requires (a < 0 || a > 19) && (b < 0 || b > 19) && a != b
    ensures OperationName(a) != OperationName(b)
  {
    UnknownNamesDiffer(a, b);
  }

  lemma UnknownNamesDiffer(a: int, b: int)
    requires a != b
    ensures UnknownOperationName(a) != UnknownOperationName(b)
  {
    var pa := "Nieznana operacja (";
    var sa, sb := IntToString(a) + ")", IntToString(b) + ")";
    assert UnknownOperationName(a) == pa + sa && UnknownOperationName(b) == pa + sb;
    if pa + sa == pa + sb {
      assert sa == (pa + sa)[|pa|..];
      assert sb == (pa + sb)[|pa|..];
      assert IntToString(a) == sa[..|sa| - 1];
      assert IntToString(b) == sb[..|sb| - 1];
      IntToStringInjective(a, b);
    }
  }

  /** $"{param1},{param2},{param3}". */
  function Params(rec: SuperLogRecord): string {
    IntToString(rec.param1) + "," + IntToString(rec.param2) + "," + IntToString(rec.param3)
  }

  /** One iteration of the loop: the record with its corrected time, or with `now` and the
      corrected fields appended to the work code when they still do not form a date. */
  function ToOperationLog(rec: SuperLogRecord, now: DateTime): OperationLog {
    var n := Normalize(rec.time);
    if IsRepresentable(n) then
      OperationLog(rec.index, rec.adminId, rec.operation, OperationName(rec.operation), n, Params(rec))
    else
      OperationLog(rec.index, rec.adminId, rec.operation, OperationName(rec.operation), now,
                   Params(rec) + BadDateNote(n))
  }

  /** $" (Błędna data: {year}-{month}-{day} {hour}:{minute}:{second})". */
  function BadDateNote(n: RawTime): (note: string)
    ensures |note| > 0
  {
    " (Błędna data: " + Format(n) + ")"
  }

  /** The entry keeps the record's identity and parameters; its time is the corrected reader
      time exactly when that forms a date, and otherwise `now`, with the corrected fields
      appended to the work code. */
  lemma ToOperationLogSpec(rec: SuperLogRecord, now: DateTime)
    ensures var log := ToOperationLog(rec, now);
      log.index == rec.index && log.adminId == rec.adminId && log.operation == rec.operation
      && log.operationName == OperationName(rec.operation)
      && |log.workCode| >= |Params(rec)| && log.workCode[..|Params(rec)|] == Params(rec)
      && (IsRepresentable(Normalize(rec.time)) <==> log.workCode == Params(rec))
      && (IsRepresentable(Normalize(rec.time)) ==> log.dateTime == Normalize(rec.time))
      && (!IsRepresentable(Normalize(rec.time)) ==> log.dateTime == now)
  {
    var p := Params(rec);
    if !IsRepresentable(Normalize(rec.time)) {
      var tail := BadDateNote(Normalize(rec.time));
      PrefixOfConcat(p, tail);
    }
  }

  lemma PrefixOfConcat(p: string, tail: string)
    ensures |p + tail| >= |p| && (p + tail)[..|p|] == p
    ensures |tail| > 0 ==> p + tail != p
  {
    assert |p + tail| == |p| + |tail|;
  }

  function ToOperationLogs(recs: seq<SuperLogRecord>, now: DateTime): (logs: seq<OperationLog>) {
    MapSeq(rec => ToOperationLog(rec, now), recs)
  }

  /** One log entry per record, in the reader's order. */
  lemma ToOperationLogsElements(recs: seq<SuperLogRecord>, now: DateTime, i: int)
    requires 0 <= i < |recs|
    ensures |ToOperationLogs(recs, now)| == |recs|
    ensures ToOperationLogs(recs, now)[i] == ToOperationLog(recs[i], now)
  {
    MapSeqElements(rec => ToOperationLog(rec, now), recs, i);
  }

  lemma ToOperationLogsSnoc(done: seq<SuperLogRecord>, rec: SuperLogRecord, now: DateTime)
    ensures ToOperationLogs(done + [rec], now) == ToOperationLogs(done, now) + [ToOperationLog(rec, now)]
  {
    MapSeqSnoc(rec => ToOperationLog(rec, now), done, rec);
  }

  /** One iteration of the while loop: the next record, converted. */
  method ReadNextLog(d: Device, now: DateTime, ghost done: seq<SuperLogRecord>, logs: seq<OperationLog>)
    returns (more: bool, ghost done': seq<SuperLogRecord>, logs': seq<OperationLog>)
    requires logs == ToOperationLogs(done, now)
    modifies d`superBuffer
    ensures done' + d.superBuffer == done + old(d.superBuffer)
    ensures logs' == ToOperationLogs(done', now)
    ensures more ==> |d.superBuffer| < |old(d.superBuffer)|
    ensures !more ==> d.superBuffer == [] && done' == done
  {
    var next := d.GetSuperLogData();
    if next.None? {
      return false, done, logs;
    }
    var rec := next.value;
    ConsumeOne(done, old(d.superBuffer));
    ToOperationLogsSnoc(done, rec, now);
    more, done', logs' := true, done + [rec], logs + [ToOperationLog(rec, now)];
  }

  /** The while loop over GetSuperLogData. */
  method ReadOperationLogs(d: Device, now: DateTime) returns (logs: seq<OperationLog>)
    modifies d`superBuffer
    ensures logs == ToOperationLogs(old(d.superBuffer), now) && d.superBuffer == []
  {
    logs := [];
    ghost var done: seq<SuperLogRecord> := [];
    var more := true;
    while more
      invariant done + d.superBuffer == old(d.superBuffer)
      invariant logs == ToOperationLogs(done, now)
      invariant !more ==> d.superBuffer == []
      decreases |d.superBuffer| + (if more then 1 else 0)
    {
      more, done, logs := ReadNextLog(d, now, done, logs);
    }
    assert done == old(d.superBuffer);
  }

  /** GetOperationLogs: every record the iterator hands out, converted in order; a record with
      a bad date is kept, never dropped. `now` is DateTime.Now. */
  method GetOperationLogs(d: Device, ip: string, port: int, now: DateTime) returns (r: Response<seq<OperationLog>>)
    modifies d`connected, d`enabled, d`trace, d`superBuffer
    ensures Connect in d.refuses ==>
      r == BadRequest(ConnectFailedMessage) && d.trace == old(d.trace) + [Connected(false)] && d.superBuffer == old(d.superBuffer)
    ensures Connect !in d.refuses ==>
      r == Ok(ToOperationLogs(old(d.superBuffer), now)) && d.superBuffer == []
      && d.trace == old(d.trace) + Bracket(true, []) && d.enabled && !d.connected
  {
    var connected := d.ConnectNet(ip, port);
    if !connected {
      return BadRequest(ConnectFailedMessage);
    }
    var _ := d.EnableDevice(false);
    var logs := ReadOperationLogs(d, now);
    r := Ok(logs);
    var _ := d.EnableDevice(true);
    d.Disconnect();
    BracketTraceEmpty(old(d.trace));
  }
}
