/** DeviceController: the connection test, disconnect, setting the reader's clock and the
    reader summary. All four talk to the reader directly. */
module DeviceController {
  import opened Common
  import opened Calendar
  import opened Reader

  const DefaultPort: int := 4370
  const ConnectedStatus: string := "Połączono"
  const NoDeviceTimeMessage: string := "Nie udało się pobrać czasu urządzenia"
  const TestConnectFailedMessage: string := "Nie udało się połączyć z urządzeniem"
  const DisconnectedMessage: string := "Rozłączono"
  const SetTimeFailedMessage: string := "Nie udało się ustawić czasu w czytniku"
  const TimeSetMessage: string := "Czas został ustawiony pomyślnie"

  datatype ConnectionStatus = ConnectionStatus(status: string, deviceTime: string)
  datatype SetTimeResult = SetTimeResult(message: string, setTime: DateTime, currentDeviceTime: Option<DateTime>)
  datatype DeviceInfo = DeviceInfo(deviceTime: DateTime, userCount: nat, managerCount: nat)

  // ---------------------------------------------------------------------------------------
  // connect and disconnect

  /** TestConnection: reads the clock over a fresh connection and leaves that connection
      open: the action neither re-enables nor disconnects. */
  method TestConnection(d: Device, ip: string, port: int) returns (r: Response<ConnectionStatus>)
    modifies d`connected, d`trace
    ensures d.trace == old(d.trace) + [Connected(Connect !in d.refuses)]
    ensures d.connected == (Connect !in d.refuses)
    ensures Connect in d.refuses ==> r == BadRequest(TestConnectFailedMessage)
    ensures Connect !in d.refuses ==>
      r == Ok(ConnectionStatus(ConnectedStatus,
                               if ReadTime in d.refuses then NoDeviceTimeMessage
                               else "Czas urządzenia: " + Format(d.clock)))
  {
    var connected := d.ConnectNet(ip, port);
    if connected {
      var timeOk, t := d.GetDeviceTime();
      var deviceTime := if timeOk then "Czas urządzenia: " + Format(t) else NoDeviceTimeMessage;
      return Ok(ConnectionStatus(ConnectedStatus, deviceTime));
    }
    r := BadRequest(TestConnectFailedMessage);
  }

  /** The disconnect action. */
  method DisconnectDevice(d: Device) returns (r: Response<string>)
    modifies d`connected, d`trace
    ensures !d.connected && d.trace == old(d.trace) + [Disconnected]
    ensures r == Ok(DisconnectedMessage)
  {
    d.Disconnect();
    r := Ok(DisconnectedMessage);
  }

  // ---------------------------------------------------------------------------------------
  // set-time

  /** The try block of SetDeviceTime: write the clock, then read it back. The read-back time is
      the one just written, so the DateTime built from it never throws. */
  method SetTimeBody(d: Device, newTime: DateTime) returns (r: Outcome<Option<SetTimeResult>>)
    modifies d`clock
    ensures WriteTime in d.refuses ==> r == Returns(None) && d.clock == old(d.clock)
    ensures WriteTime !in d.refuses ==>
      d.clock == newTime
      && r == Returns(Some(SetTimeResult(TimeSetMessage, newTime, if ReadTime in d.refuses then None else Some(newTime))))
  {
    var ok := d.SetDeviceTime(newTime);
    if !ok {
      return Returns(None);
    }
    var timeOk, t := d.GetDeviceTime();
    var current: Option<DateTime> := if timeOk then Some(t) else None;
    r := Returns(Some(SetTimeResult(TimeSetMessage, newTime, current)));
  }

  /** SetDeviceTime: the requested time, or `now` (DateTime.Now) when none is given. After a
      successful write the read-back time is the time just written, or null when the reader
      cannot report it. */
  method SetDeviceTime(d: Device, ip: string, port: int, requested: Option<DateTime>, now: DateTime)
    returns (r: Response<SetTimeResult>)
    modifies d`connected, d`enabled, d`trace, d`clock
    ensures Connect in d.refuses ==>
      r == BadRequest(ConnectFailedMessage) && d.trace == old(d.trace) + [Connected(false)] && d.clock == old(d.clock)
    ensures Connect !in d.refuses ==> d.trace == old(d.trace) + Bracket(true, []) && d.enabled && !d.connected
    ensures Connect !in d.refuses && WriteTime in d.refuses ==> r == BadRequest(SetTimeFailedMessage) && d.clock == old(d.clock)
    ensures Connect !in d.refuses && WriteTime !in d.refuses ==>
      var newTime := requested.GetOr(now);
      d.clock == newTime
      && r == Ok(SetTimeResult(TimeSetMessage, newTime, if ReadTime in d.refuses then None else Some(newTime)))
  {
    var connected := d.ConnectNet(ip, port);
    if !connected {
      return BadRequest(ConnectFailedMessage);
    }
    var _ := d.EnableDevice(false);
    var newTime := requested.GetOr(now);
    var body := SetTimeBody(d, newTime);
    r := match body
         case Returns(None) => BadRequest(SetTimeFailedMessage)
         case Returns(Some(result)) => Ok(result)
         case Throws(e) => ServerError("Błąd podczas ustawiania czasu: " + e.Message());
    var _ := d.EnableDevice(true);
    d.Disconnect();
    BracketTraceEmpty(old(d.trace));
  }

  // ---------------------------------------------------------------------------------------
  // get-info

  /** Records with a privilege above zero count as managers, all others as users. */
  function CountManagers(users: seq<UserInfo>): (n: nat)
    ensures n <= |users|
  {
    if users == [] then 0 else CountManagers(users[..|users| - 1]) + (if users[|users| - 1].privilege > 0 then 1 else 0)
  }

  function CountUsers(users: seq<UserInfo>): (n: nat)
    ensures n <= |users|
  {
    if users == [] then 0 else CountUsers(users[..|users| - 1]) + (if users[|users| - 1].privilege > 0 then 0 else 1)
  }

  /** Every record is counted exactly once, in one of the two statistics. */
  lemma {:induction false} CountsPartition(users: seq<UserInfo>)
    ensures CountUsers(users) + CountManagers(users) == |users|
  {
    if users != [] {
      CountsPartition(users[..|users| - 1]);
    }
  }

  /** The listing loop of GetDeviceInfo. */
  method CountRecords(d: Device) returns (userCount: nat, managerCount: nat)
    modifies d`userBuffer, d`cardBuffer
    ensures userCount == CountUsers(old(d.userBuffer)) && managerCount == CountManagers(old(d.userBuffer))
    ensures d.userBuffer == []
  {
    userCount, managerCount := 0, 0;
    ghost var done: seq<UserInfo> := [];
    while true
      invariant done + d.userBuffer == old(d.userBuffer)
      invariant userCount == CountUsers(done) && managerCount == CountManagers(done)
      decreases |d.userBuffer|
    {
      ghost var before := d.userBuffer;
      var next := d.GetAllUserInfo();
      if next.None? {
        break;
      }
      assert before == [next.value] + d.userBuffer;
      AppendOne(done, next.value, d.userBuffer);
      assert (done + [next.value])[..|done|] == done;
      if next.value.privilege > 0 {
        managerCount := managerCount + 1;
      } else {
        userCount := userCount + 1;
      }
      done := done + [next.value];
    }
    assert done == old(d.userBuffer);
  }

  const InfoErrorPrefix: string := "Błąd podczas pobierania informacji o czytniku: "

  /** What the try block of GetDeviceInfo computes. The clock call's result is ignored, so a
      failed call leaves the zeros, from which the DateTime constructor throws. */
  function InfoOutcome(refuses: set<Call>, clock: RawTime, users: seq<UserInfo>): Outcome<DeviceInfo> {
    var t := if ReadTime in refuses then RawTime(0, 0, 0, 0, 0, 0) else clock;
    if !IsRepresentable(t) then Throws(ArgumentOutOfRange(ConstructorMessage(t)))
    else if ReadAllUsers in refuses then Returns(DeviceInfo(t, 0, 0))
    else Returns(DeviceInfo(t, CountUsers(users), CountManagers(users)))
  }

  function InfoResponse(o: Outcome<DeviceInfo>): Response<DeviceInfo> {
    match o
    case Returns(info) => Ok(info)
    case Throws(e) => ServerError(InfoErrorPrefix + e.Message())
  }

  /** The summary is returned exactly when the reader reports a representable clock; it then
      holds that time and, when the user list can be read, counts every user once. A reader
      that cannot report its clock is answered with 500, never with a time of zeros. */
  lemma DeviceInfoMeaning(refuses: set<Call>, clock: RawTime, users: seq<UserInfo>)
    ensures var r := InfoResponse(InfoOutcome(refuses, clock, users));
      (r.Ok? <==> ReadTime !in refuses && IsRepresentable(clock))
      && (r.Ok? ==> r.data.deviceTime == clock)
      && (r.Ok? && ReadAllUsers !in refuses ==> r.data.userCount + r.data.managerCount == |users|)
      && (r.Ok? && ReadAllUsers in refuses ==> r.data.userCount == 0 && r.data.managerCount == 0)
      && (ReadTime in refuses ==> r == ServerError(InfoErrorPrefix + UnrepresentableMessage))
      && (r.ServerError? ==> r.message == InfoErrorPrefix + UnrepresentableMessage || r.message == InfoErrorPrefix + BadTimeMessage)
  {
    CountsPartition(users);
  }

  /** The try block of GetDeviceInfo. */
  method InfoBody(d: Device) returns (r: Outcome<DeviceInfo>)
    modifies d`userBuffer, d`cardBuffer
    ensures r == InfoOutcome(d.refuses, d.clock, d.users)
  {
    var timeOk, t := d.GetDeviceTime();
    var userCount, managerCount := 0, 0;
    var success := d.ReadAllUserId();
    if success {
      userCount, managerCount := CountRecords(d);
    }
    if !IsRepresentable(t) {
      return Throws(ArgumentOutOfRange(ConstructorMessage(t)));
    }
    r := Returns(DeviceInfo(t, userCount, managerCount));
  }

  /** GetDeviceInfo: the reader's clock and its user statistics. */
  method GetDeviceInfo(d: Device, ip: string, port: int) returns (r: Response<DeviceInfo>)
    modifies d`connected, d`enabled, d`trace, d`userBuffer, d`cardBuffer
    ensures Connect in d.refuses ==> r == BadRequest(ConnectFailedMessage) && d.trace == old(d.trace) + [Connected(false)]
    ensures Connect !in d.refuses ==>
      r == InfoResponse(InfoOutcome(d.refuses, d.clock, d.users))
      && d.trace == old(d.trace) + Bracket(true, []) && d.enabled && !d.connected
  {
    var connected := d.ConnectNet(ip, port);
    if !connected {
      return BadRequest(ConnectFailedMessage);
    }
    var _ := d.EnableDevice(false);
    var body := InfoBody(d);
    r := InfoResponse(body);
    var _ := d.EnableDevice(true);
    d.Disconnect();
    BracketTraceEmpty(old(d.trace));
  }
}
