/** A biometric reader behind the IZkemDevice interface, as the controllers use it: a user
    table, a fingerprint template table, the attendance and operation logs, the clock, the
    enabled and connected flags, and the SDK's read buffers (the card-number buffer and the
    record iterators that ReadAllUserID / ReadGeneralLogData prepare).

    Which calls fail is fixed per reader: `refuses` lists the calls that report failure, and
    `raises` the enroll numbers whose SSR_GetUserInfo throws (the one call whose wrapper does
    not catch the SDK's exceptions). Everything else follows from the tables. */
module Reader {
  import opened Common
  import opened Calendar

  datatype UserInfo = UserInfo(enrollNumber: string, name: string, cardNumber: string,
                               password: string, privilege: int, enabled: bool)

  datatype Template = Template(flag: int, data: string)

  /** One record of SSR_GetGeneralLogData. */
  datatype GeneralLogRecord = GeneralLogRecord(enrollNumber: string, verifyMode: int, inOutMode: int,
                                               time: RawTime, workCode: int)

  /** One record of GetSuperLogData. */
  datatype SuperLogRecord = SuperLogRecord(index: int, adminId: int, operation: int,
                                           param1: int, param2: int, param3: int, time: RawTime)

  /** The reader calls that can report failure. */
  datatype Call =
    | Connect | ReadAllUsers | LookupUser(enroll: string) | ReadCard | WriteCard(card: string)
    | SaveUser(enroll: string) | DeleteUser(enroll: string) | ClearUsers
    | ReadTemplates | ReadTemplate(enroll: string, finger: int) | WriteTemplate(enroll: string, finger: int)
    | ReadGeneralLog | ReadTime | WriteTime

  /** The calls whose order the controllers promise; recorded in the reader's trace. */
  datatype Event =
    | Connected(ok: bool) | Enabled(on: bool) | Disconnected
    | TemplatesLoaded | TemplateRead(enroll: string, finger: int) | TemplateWritten(enroll: string, finger: int, ok: bool)

  /** The message of the COM exception a failing SSR_GetUserInfo throws. */
  const LookupFaultMessage: string := "Error HRESULT E_FAIL has been returned from a call to a COM component."

  /** Every action opens with Connect_Net. When it fails nothing else is called; otherwise the
      device is disabled, the action's own calls follow, and the finally block re-enables it
      and disconnects. */
  function Bracket(connected: bool, middle: seq<Event>): seq<Event> {
    if connected then [Connected(true), Enabled(false)] + middle + [Enabled(true), Disconnected]
    else [Connected(false)]
  }

  /** The trace of an action that connects, disables the reader, and re-enables and
      disconnects without a reader call in between. */
  lemma BracketTraceEmpty(t0: seq<Event>)
    ensures t0 + [Connected(true)] + [Enabled(false)] + [Enabled(true)] + [Disconnected] == t0 + Bracket(true, [])
  {
    BracketTrace(t0, []);
    assert t0 + [Connected(true)] + [Enabled(false)] + [] == t0 + [Connected(true)] + [Enabled(false)];
  }

  /** The trace of an action that connects, disables the reader, does `middle`, and then
      re-enables and disconnects in finally. */
  lemma BracketTrace(t0: seq<Event>, middle: seq<Event>)
    ensures t0 + [Connected(true)] + [Enabled(false)] + middle + [Enabled(true)] + [Disconnected] == t0 + Bracket(true, middle)
  {
    var b := [Connected(true), Enabled(false)] + middle + [Enabled(true), Disconnected];
    assert |t0 + [Connected(true)] + [Enabled(false)] + middle + [Enabled(true)] + [Disconnected]| == |t0 + b|;
    forall k | 0 <= k < |t0 + b|
      ensures (t0 + [Connected(true)] + [Enabled(false)] + middle + [Enabled(true)] + [Disconnected])[k] == (t0 + b)[k]
    {
    }
  }

  // ---------------------------------------------------------------------------------------
  // The user table

  predicate UniqueEnrolls(users: seq<UserInfo>) {
    forall i, j | 0 <= i < j < |users| :: users[i].enrollNumber != users[j].enrollNumber
  }

  /** The record stored under an enroll number. */
  function Find(users: seq<UserInfo>, enroll: string): (r: Option<UserInfo>)
    ensures r.Some? ==> r.value in users && r.value.enrollNumber == enroll
    ensures r.None? ==> forall i | 0 <= i < |users| :: users[i].enrollNumber != enroll
  {
    if users == [] then None
    else if users[0].enrollNumber == enroll then Some(users[0])
    else Find(users[1..], enroll)
  }

  /** Store a record: it replaces the record with the same enroll number, in place, or is
      appended at the end. */
  function Upsert(users: seq<UserInfo>, u: UserInfo): (r: seq<UserInfo>)
    ensures |r| == |users| + (if Find(users, u.enrollNumber).Some? then 0 else 1)
  {
    if users == [] then [u]
    else if users[0].enrollNumber == u.enrollNumber then [u] + users[1..]
    else [users[0]] + Upsert(users[1..], u)
  }

  /** Remove the record stored under an enroll number. */
  function Remove(users: seq<UserInfo>, enroll: string): (r: seq<UserInfo>)
    ensures |r| <= |users|
  {
    if users == [] then []
    else (if users[0].enrollNumber == enroll then [] else [users[0]]) + Remove(users[1..], enroll)
  }

  /** After storing u, looking up its enroll number gives u and every other lookup is unchanged. */
  lemma {:induction false} UpsertFind(users: seq<UserInfo>, u: UserInfo, enroll: string)
    ensures Find(Upsert(users, u), enroll) == if enroll == u.enrollNumber then Some(u) else Find(users, enroll)
  {
    if users != [] && users[0].enrollNumber != u.enrollNumber {
      UpsertFind(users[1..], u, enroll);
      assert ([users[0]] + Upsert(users[1..], u))[1..] == Upsert(users[1..], u);
    } else if users != [] {
      assert ([u] + users[1..])[1..] == users[1..];
    }
  }

  /** After removing an enroll number it is not found, and every other lookup is unchanged. */
  lemma {:induction false} RemoveFind(users: seq<UserInfo>, enroll: string, other: string)
    ensures Find(Remove(users, enroll), other) == if other == enroll then None else Find(users, other)
  {
    if users != [] {
      RemoveFind(users[1..], enroll, other);
      var rest := Remove(users[1..], enroll);
      if users[0].enrollNumber != enroll {
        assert ([users[0]] + rest)[0] == users[0];
        assert ([users[0]] + rest)[1..] == rest;
      } else {
        assert [] + rest == rest;
      }
    }
  }

  lemma {:induction false} UpsertElements(users: seq<UserInfo>, u: UserInfo)
    ensures forall x | x in Upsert(users, u) :: x == u || x in users
  {
    if users != [] && users[0].enrollNumber != u.enrollNumber {
      UpsertElements(users[1..], u);
    }
  }

  lemma {:induction false} RemoveElements(users: seq<UserInfo>, enroll: string)
    ensures forall x | x in Remove(users, enroll) :: x in users && x.enrollNumber != enroll
  {
    if users != [] {
      RemoveElements(users[1..], enroll);
    }
  }

  /** Storing and removing keep enroll numbers unique. */
  lemma {:induction false} UpsertKeepsUnique(users: seq<UserInfo>, u: UserInfo)
    requires UniqueEnrolls(users)
    ensures UniqueEnrolls(Upsert(users, u))
  {
    if users != [] && users[0].enrollNumber != u.enrollNumber {
      UpsertKeepsUnique(users[1..], u);
      UpsertElements(users[1..], u);
      var r := Upsert(users[1..], u);
      forall x | x in r ensures x.enrollNumber != users[0].enrollNumber {
        if x != u {
          var k :| 0 <= k < |users[1..]| && users[1..][k] == x;
          assert users[k + 1] == x;
        }
      }
    } else if users != [] {
      forall i, j | 0 <= i < j < |[u] + users[1..]|
        ensures ([u] + users[1..])[i].enrollNumber != ([u] + users[1..])[j].enrollNumber
      {
        if i > 0 {
          assert ([u] + users[1..])[i] == users[i];
        }
        assert ([u] + users[1..])[j] == users[j];
      }
    }
  }

  lemma {:induction false} RemoveKeepsUnique(users: seq<UserInfo>, enroll: string)
    requires UniqueEnrolls(users)
    ensures UniqueEnrolls(Remove(users, enroll))
  {
    if users != [] {
      RemoveKeepsUnique(users[1..], enroll);
      RemoveElements(users[1..], enroll);
      var rest := Remove(users[1..], enroll);
      if users[0].enrollNumber != enroll {
        forall x | x in rest ensures x.enrollNumber != users[0].enrollNumber {
          var k :| 0 <= k < |users[1..]| && users[1..][k] == x;
          assert users[k + 1] == x;
        }
      } else {
        assert [] + rest == rest;
      }
    }
  }

  /** The templates that remain when every finger of an enroll number is deleted. */
  function WithoutTemplatesOf(templates: map<(string, int), Template>, enroll: string): (r: map<(string, int), Template>)
    ensures forall k | k in r :: k in templates && r[k] == templates[k] && k.0 != enroll
    ensures forall k | k in templates && k.0 != enroll :: k in r
  {
    map k | k in templates && k.0 != enroll :: templates[k]
  }

  /** SSR_SetUserInfo as the SDK wrapper performs it: a non-empty card number is written to
      the card buffer first, and a failure there ends the call with false; the SDK then stores
      the record with whatever card number the buffer holds. Returns (ok, users, buffer). */
  function SaveOutcome(refuses: set<Call>, users: seq<UserInfo>, buffer: string, enroll: string, name: string,
                       password: string, privilege: int, enabled: bool, card: string): (string, bool, seq<UserInfo>)
  {
    if card != [] && WriteCard(card) in refuses then (buffer, false, users)
    else
      var buffer' := if card != [] then card else buffer;
      if SaveUser(enroll) in refuses then (buffer', false, users)
      else (buffer', true, Upsert(users, UserInfo(enroll, name, buffer', password, privilege, enabled)))
  }

  /** A successful save stores exactly the requested fields under the enroll number, with the
      requested card when one was given; a failed save stores nothing. */
  lemma SaveOutcomeStores(refuses: set<Call>, users: seq<UserInfo>, buffer: string, enroll: string, name: string,
                          password: string, privilege: int, enabled: bool, card: string, other: string)
    ensures var (buffer', ok, users') := SaveOutcome(refuses, users, buffer, enroll, name, password, privilege, enabled, card);
      (ok <==> (card == [] || WriteCard(card) !in refuses) && SaveUser(enroll) !in refuses)
      && (!ok ==> users' == users)
      && (ok ==> Find(users', enroll) == Some(UserInfo(enroll, name, if card != [] then card else buffer, password, privilege, enabled)))
      && (other != enroll ==> Find(users', other) == Find(users, other))
  {
    var (buffer', ok, users') := SaveOutcome(refuses, users, buffer, enroll, name, password, privilege, enabled, card);
    if ok {
      UpsertFind(users, UserInfo(enroll, name, buffer', password, privilege, enabled), enroll);
      UpsertFind(users, UserInfo(enroll, name, buffer', password, privilege, enabled), other);
    }
  }

  // ---------------------------------------------------------------------------------------
  // The reader

  class Device {
    const refuses: set<Call>
    const raises: set<string>
    var users: seq<UserInfo>
    var templates: map<(string, int), Template>
    var generalLog: seq<GeneralLogRecord>
    var superLog: seq<SuperLogRecord>
    var clock: RawTime
    var connected: bool
    var enabled: bool
    /** The card number GetStrCardNumber reports and SSR_SetUserInfo stores. */
    var cardBuffer: string
    /** The records SSR_GetAllUserInfo, SSR_GetGeneralLogData and GetSuperLogData still have to hand out. */
    var userBuffer: seq<UserInfo>
    var logBuffer: seq<GeneralLogRecord>
    var superBuffer: seq<SuperLogRecord>
    ghost var trace: seq<Event>

    ghost predicate Valid()
      reads this
    {
      UniqueEnrolls(users)
    }

    /** A reader with the given tables, disconnected and enabled; its log iterators start at
        the first stored record. */
    constructor(refuses: set<Call>, raises: set<string>, users: seq<UserInfo>, templates: map<(string, int), Template>,
                generalLog: seq<GeneralLogRecord>, superLog: seq<SuperLogRecord>, clock: RawTime)
      requires UniqueEnrolls(users)
      ensures Valid() && !connected && enabled && trace == []
      ensures this.refuses == refuses && this.raises == raises && this.users == users
      ensures this.templates == templates && this.generalLog == generalLog && this.superLog == superLog
      ensures this.clock == clock && cardBuffer == [] && userBuffer == []
      ensures logBuffer == generalLog && superBuffer == superLog
    {
      this.refuses := refuses;
      this.raises := raises;
      this.users := users;
      this.templates := templates;
      this.generalLog := generalLog;
      this.superLog := superLog;
      this.clock := clock;
      connected := false;
      enabled := true;
      cardBuffer := [];
      userBuffer := [];
      logBuffer := generalLog;
      superBuffer := superLog;
      trace := [];
    }

    /** Connect_Net(ip, port). */
    method ConnectNet(ip: string, port: int) returns (ok: bool)
      modifies this`connected, this`trace
      ensures ok == (Connect !in refuses) && connected == ok
      ensures trace == old(trace) + [Connected(ok)]
    {
      ok := Connect !in refuses;
      connected := ok;
      trace := trace + [Connected(ok)];
    }

    /** Disconnect(). */
    method Disconnect()
      modifies this`connected, this`trace
      ensures !connected && trace == old(trace) + [Disconnected]
    {
      connected := false;
      trace := trace + [Disconnected];
    }

    /** EnableDevice(machine, on): takes effect on a connected reader. */
    method EnableDevice(on: bool) returns (ok: bool)
      modifies this`enabled, this`trace
      ensures ok == connected
      ensures enabled == if connected then on else old(enabled)
      ensures trace == old(trace) + [Enabled(on)]
    {
      ok := connected;
      if connected {
        enabled := on;
      }
      trace := trace + [Enabled(on)];
    }

    /** SSR_GetUserInfo: the stored record, which also loads its card number into the buffer;
        None when there is no such record or the lookup fails. */
    method GetUserInfo(enroll: string) returns (r: Outcome<Option<UserInfo>>)
      modifies this`cardBuffer
      ensures enroll in raises ==> r == Throws(DeviceFault(LookupFaultMessage)) && cardBuffer == old(cardBuffer)
      ensures enroll !in raises ==>
        r == Returns(if LookupUser(enroll) in refuses then None else Find(users, enroll))
        && cardBuffer == if r.value.Some? then r.value.value.cardNumber else old(cardBuffer)
    {
      if enroll in raises {
        r := Throws(DeviceFault(LookupFaultMessage));
      } else if LookupUser(enroll) in refuses {
        r := Returns(None);
      } else {
        var u := Find(users, enroll);
        if u.Some? {
          cardBuffer := u.value.cardNumber;
        }
        r := Returns(u);
      }
    }

    /** GetStrCardNumber(out card): the buffered card number, or "" when the call fails. */
    method GetStrCardNumber() returns (ok: bool, card: string)
      ensures ok == (ReadCard !in refuses)
      ensures card == if ok then cardBuffer else []
    {
      ok := ReadCard !in refuses;
      card := if ok then cardBuffer else [];
    }

    /** SSR_SetUserInfo through the SDK wrapper, card number first. */
    method SetUserInfo(enroll: string, name: string, password: string, privilege: int, isEnabled: bool, card: string)
      returns (ok: bool)
      requires Valid()
      modifies this`users, this`cardBuffer
      ensures Valid()
      ensures (cardBuffer, ok, users)
           == SaveOutcome(refuses, old(users), old(cardBuffer), enroll, name, password, privilege, isEnabled, card)
    {
      if card != [] {
        if WriteCard(card) in refuses {
          return false;
        }
        cardBuffer := card;
      }
      if SaveUser(enroll) in refuses {
        return false;
      }
      UpsertKeepsUnique(users, UserInfo(enroll, name, cardBuffer, password, privilege, isEnabled));
      users := Upsert(users, UserInfo(enroll, name, cardBuffer, password, privilege, isEnabled));
      ok := true;
    }

    /** SSR_DeleteEnrollData: removes the record and its fingerprint templates. The backup
        number is not a parameter: the model takes both numbers the controllers pass (11 and 12)
        to delete the whole record, although the wrapper documents only 11 as all data. */
    method DeleteEnrollData(enroll: string) returns (ok: bool)
      requires Valid()
      modifies this`users, this`templates
      ensures Valid()
      ensures ok == (Find(old(users), enroll).Some? && DeleteUser(enroll) !in refuses)
      ensures users == if ok then Remove(old(users), enroll) else old(users)
      ensures templates == if ok then WithoutTemplatesOf(old(templates), enroll) else old(templates)
    {
      ok := Find(users, enroll).Some? && DeleteUser(enroll) !in refuses;
      if ok {
        RemoveKeepsUnique(users, enroll);
        users := Remove(users, enroll);
        templates := WithoutTemplatesOf(templates, enroll);
      }
    }

    /** ClearData(machine, 5): every user record and template is deleted. */
    method ClearData() returns (ok: bool)
      requires Valid()
      modifies this`users, this`templates
      ensures Valid()
      ensures ok == (ClearUsers !in refuses)
      ensures users == (if ok then [] else old(users)) && templates == (if ok then map[] else old(templates))
    {
      ok := ClearUsers !in refuses;
      if ok {
        users := [];
        templates := map[];
      }
    }

    /** ReadAllUserID: prepares SSR_GetAllUserInfo to hand out every stored record in order. */
    method ReadAllUserId() returns (ok: bool)
      modifies this`userBuffer
      ensures ok == (ReadAllUsers !in refuses)
      ensures userBuffer == if ok then users else old(userBuffer)
    {
      ok := ReadAllUsers !in refuses;
      if ok {
        userBuffer := users;
      }
    }

    /** SSR_GetAllUserInfo: the next prepared record, whose card number becomes the buffered one. */
    method GetAllUserInfo() returns (r: Option<UserInfo>)
      modifies this`userBuffer, this`cardBuffer
      ensures old(userBuffer) == [] ==> r == None && userBuffer == [] && cardBuffer == old(cardBuffer)
      ensures old(userBuffer) != [] ==>
        r == Some(old(userBuffer)[0]) && userBuffer == old(userBuffer)[1..] && cardBuffer == r.value.cardNumber
    {
      if userBuffer == [] {
        r := None;
      } else {
        r := Some(userBuffer[0]);
        cardBuffer := userBuffer[0].cardNumber;
        userBuffer := userBuffer[1..];
      }
    }

    /** ReadAllTemplate. */
    method ReadAllTemplate() returns (ok: bool)
      modifies this`trace
      ensures ok == (ReadTemplates !in refuses)
      ensures trace == old(trace) + [TemplatesLoaded]
    {
      ok := ReadTemplates !in refuses;
      trace := trace + [TemplatesLoaded];
    }

    /** GetUserTmpExStr: the stored template of one finger, when there is one and it can be read. */
    method GetUserTemplate(enroll: string, finger: int) returns (r: Option<Template>)
      modifies this`trace
      ensures r == if (enroll, finger) in templates && ReadTemplate(enroll, finger) !in refuses
                   then Some(templates[(enroll, finger)]) else None
      ensures trace == old(trace) + [TemplateRead(enroll, finger)]
    {
      r := if (enroll, finger) in templates && ReadTemplate(enroll, finger) !in refuses
           then Some(templates[(enroll, finger)]) else None;
      trace := trace + [TemplateRead(enroll, finger)];
    }

    /** SetUserTmpExStr: stores the template of one finger. */
    method SetUserTemplate(enroll: string, finger: int, flag: int, data: string) returns (ok: bool)
      modifies this`templates, this`trace
      ensures ok == (WriteTemplate(enroll, finger) !in refuses)
      ensures templates == if ok then old(templates)[(enroll, finger) := Template(flag, data)] else old(templates)
      ensures trace == old(trace) + [TemplateWritten(enroll, finger, ok)]
    {
      ok := WriteTemplate(enroll, finger) !in refuses;
      if ok {
        templates := templates[(enroll, finger) := Template(flag, data)];
      }
      trace := trace + [TemplateWritten(enroll, finger, ok)];
    }

    /** ReadGeneralLogData: prepares SSR_GetGeneralLogData to hand out every attendance record. */
    method ReadGeneralLogData() returns (ok: bool)
      modifies this`logBuffer
      ensures ok == (ReadGeneralLog !in refuses)
      ensures logBuffer == if ok then generalLog else old(logBuffer)
    {
      ok := ReadGeneralLog !in refuses;
      if ok {
        logBuffer := generalLog;
      }
    }

    /** SSR_GetGeneralLogData: the next attendance record. */
    method GetGeneralLogData() returns (r: Option<GeneralLogRecord>)
      modifies this`logBuffer
      ensures old(logBuffer) == [] ==> r == None && logBuffer == []
      ensures old(logBuffer) != [] ==> r == Some(old(logBuffer)[0]) && logBuffer == old(logBuffer)[1..]
    {
      if logBuffer == [] {
        r := None;
      } else {
        r := Some(logBuffer[0]);
        logBuffer := logBuffer[1..];
      }
    }

    /** GetSuperLogData: the next operation-log record. */
    method GetSuperLogData() returns (r: Option<SuperLogRecord>)
      modifies this`superBuffer
      ensures old(superBuffer) == [] ==> r == None && superBuffer == []
      ensures old(superBuffer) != [] ==> r == Some(old(superBuffer)[0]) && superBuffer == old(superBuffer)[1..]
    {
      if superBuffer == [] {
        r := None;
      } else {
        r := Some(superBuffer[0]);
        superBuffer := superBuffer[1..];
      }
    }

    /** GetDeviceTime: the reader's clock; on failure the caller's zero-initialised variables stay zero. */
    method GetDeviceTime() returns (ok: bool, t: RawTime)
      ensures ok == (ReadTime !in refuses)
      ensures t == if ok then clock else RawTime(0, 0, 0, 0, 0, 0)
    {
      ok := ReadTime !in refuses;
      t := if ok then clock else RawTime(0, 0, 0, 0, 0, 0);
    }

    /** SetDeviceTime2: sets the reader's clock. */
    method SetDeviceTime(t: RawTime) returns (ok: bool)
      modifies this`clock
      ensures ok == (WriteTime !in refuses)
      ensures clock == if ok then t else old(clock)
    {
      ok := WriteTime !in refuses;
      if ok {
        clock := t;
      }
    }
  }
}
