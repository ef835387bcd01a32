/** DeviceStatusResponse: the status a reader can be in and the three factories that build a
    status report. */
module DeviceStatus {
  import opened Common
  import opened Calendar

  datatype Status = Online | Offline | Busy

  /** The enum's underlying values. */
  function StatusValue(s: Status): (v: int)
    ensures 0 <= v <= 2
  {
    match s
    case Online => 0
    case Offline => 1
    case Busy => 2
  }

  /** The inverse of StatusValue on 0..2; no status for any other integer. */
  function StatusOf(v: int): (s: Option<Status>)
    ensures s.Some? <==> 0 <= v <= 2
  {
    if v == 0 then Some(Online) else if v == 1 then Some(Offline) else if v == 2 then Some(Busy) else None
  }

  /** Each status has its own value, and the value gives the status back. */
  lemma StatusValueRoundTrip(s: Status, v: int)
    ensures StatusOf(StatusValue(s)) == Some(s)
    ensures StatusOf(v).Some? ==> StatusValue(StatusOf(v).value) == v
  {
  }

  const OnlineDescription: string := "Czytnik jest dostępny i gotowy do użycia"
  const OfflineDescription: string := "Czytnik jest niedostępny"
  const BusyDescription: string := "Czytnik jest zajęty - wykonuje operację. Spróbuj ponownie za chwilę."

  /** A DeviceStatusResponse. `checkedAt` is the DateTime.UtcNow the parameterless constructor
      reads; it is passed in. */
  datatype StatusResponse = StatusResponse(status: Status, ipAddress: string, port: int, description: string,
                                           checkedAt: DateTime, estimatedWaitTimeSeconds: Option<int>)
  {
    /** IsAvailable: the reader can be used straight away. */
    predicate IsAvailable() {
      status == Online
    }
  }

  function CreateOnline(ipAddress: string, port: int, checkedAt: DateTime): (r: StatusResponse)
    ensures r.IsAvailable() && r.ipAddress == ipAddress && r.port == port && r.checkedAt == checkedAt
    ensures r.estimatedWaitTimeSeconds == Some(0) && r.description == OnlineDescription
  {
    StatusResponse(Online, ipAddress, port, OnlineDescription, checkedAt, Some(0))
  }

  function CreateOffline(ipAddress: string, port: int, reason: Option<string>, checkedAt: DateTime): (r: StatusResponse)
    ensures !r.IsAvailable() && r.status == Offline && r.ipAddress == ipAddress && r.port == port && r.checkedAt == checkedAt
    ensures r.estimatedWaitTimeSeconds.None?
    ensures reason.Some? ==> r.description == reason.value
    ensures reason.None? ==> r.description == OfflineDescription
  {
    StatusResponse(Offline, ipAddress, port, reason.GetOr(OfflineDescription), checkedAt, None)
  }

  function CreateBusy(ipAddress: string, port: int, estimatedWaitTime: Option<int>, checkedAt: DateTime): (r: StatusResponse)
    ensures !r.IsAvailable() && r.status == Busy && r.ipAddress == ipAddress && r.port == port && r.checkedAt == checkedAt
    ensures r.estimatedWaitTimeSeconds == estimatedWaitTime && r.description == BusyDescription
  {
    StatusResponse(Busy, ipAddress, port, BusyDescription, checkedAt, estimatedWaitTime)
  }

  /** The three factories never produce the same report, and only CreateOnline's report is
      available; a wait estimate of zero is CreateOnline's or an explicit Busy estimate of zero. */
  lemma FactoriesAreDistinct(ip: string, port: int, reason: Option<string>, wait: Option<int>, at: DateTime)
    ensures var on, off, busy := CreateOnline(ip, port, at), CreateOffline(ip, port, reason, at), CreateBusy(ip, port, wait, at);
      on != off && on != busy && off != busy
      && on.IsAvailable() && !off.IsAvailable() && !busy.IsAvailable()
      && (busy.estimatedWaitTimeSeconds == Some(0) <==> wait == Some(0))
  {
  }
}
