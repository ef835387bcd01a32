/** The host check and the client-IP check of the web application's request pipeline: how each
    builds its allow-set at start-up and how it admits or rejects a request. The files are read
    outside the model; their parsed contents are inputs. */
module RequestFiltering {
  import opened Common
  import opened Text

  /** What a middleware does with a request: pass it to the next handler, or answer it itself. */
  datatype Decision = Next | Reject(statusCode: int, body: string)

  // ---------------------------------------------------------------------------------------
  // host filtering

  /** allowedHosts.json as the start-up code sees it: absent, present but failing to read or
      deserialize, or deserialized (its list may be null). */
  datatype HostsFile = Missing | Unreadable | Parsed(allowedHosts: Option<seq<string>>)

  const DefaultHosts: seq<string> := ["localhost", "127.0.0.1"]
  const InvalidHostMessage: string := "Invalid host header"

  /** The `allowedHosts` list the start-up code ends up with. */
  function EffectiveHosts(file: HostsFile): (hosts: seq<string>)
    ensures file.Parsed? && file.allowedHosts.Some? ==> hosts == file.allowedHosts.value
    ensures !(file.Parsed? && file.allowedHosts.Some?) ==> hosts == DefaultHosts
  {
    match file
    case Parsed(Some(h)) => h
    case _ => DefaultHosts
  }

  /** configuration["AllowedHosts"]: overwritten with the comma-joined list once the file is
      parsed, otherwise whatever the application's configuration holds. */
  function AllowedHostsSetting(file: HostsFile, configured: Option<string>): (setting: Option<string>)
    ensures file.Parsed? ==> setting == Some(Join(EffectiveHosts(file), ','))
    ensures !file.Parsed? ==> setting == configured
  {
    if file.Parsed? then Some(Join(EffectiveHosts(file), ',')) else configured
  }

  /** The host middleware's set: the setting split at commas without empty entries, or empty
      when the setting is null. */
  function HostAllowSet(setting: Option<string>): seq<string> {
    match setting
    case Some(s) => SplitRemoveEmpty(s, ',')
    case None => []
  }

  /** Contains under StringComparer.OrdinalIgnoreCase. */
  predicate ContainsIgnoreCase(hosts: seq<string>, host: string) {
    exists i | 0 <= i < |hosts| :: EqualsIgnoreCase(hosts[i], host)
  }

  /** CustomHostFilteringMiddleware.InvokeAsync: an empty set admits every host. */
  function HostDecision(hosts: seq<string>, host: string): (r: Decision)
    ensures r.Next? <==> hosts == [] || ContainsIgnoreCase(hosts, host)
    ensures r.Reject? ==> r == Reject(400, InvalidHostMessage)
  {
    if |hosts| > 0 && !ContainsIgnoreCase(hosts, host) then Reject(400, InvalidHostMessage) else Next
  }

  /** The decision does not depend on letter case. */
  lemma HostDecisionIgnoresCase(hosts: seq<string>, a: string, b: string)
    requires EqualsIgnoreCase(a, b)
    ensures HostDecision(hosts, a) == HostDecision(hosts, b)
  {
    if ContainsIgnoreCase(hosts, a) {
      var i :| 0 <= i < |hosts| && EqualsIgnoreCase(hosts[i], a);
      EqualsIgnoreCaseIsEquivalence(hosts[i], a, b);
    }
    if ContainsIgnoreCase(hosts, b) {
      var i :| 0 <= i < |hosts| && EqualsIgnoreCase(hosts[i], b);
      EqualsIgnoreCaseIsEquivalence(b, a, a);
      EqualsIgnoreCaseIsEquivalence(hosts[i], b, a);
    }
  }

  lemma {:induction false} NonEmptyKeepsNonEmpty(pieces: seq<string>)
    requires forall i | 0 <= i < |pieces| :: pieces[i] != []
    ensures NonEmpty(pieces) == pieces
  {
    if pieces != [] {
      NonEmptyKeepsNonEmpty(pieces[1..]);
    }
  }

  /** Writing a list into the setting and splitting it again gives the list back when its
      entries are non-empty and free of commas. */
  lemma SettingRoundTrip(hosts: seq<string>)
    requires forall i | 0 <= i < |hosts| :: hosts[i] != [] && ',' !in hosts[i]
    ensures HostAllowSet(Some(Join(hosts, ','))) == hosts
  {
    if hosts == [] {
      assert SplitOn([], ',') == [[]];
    } else {
      SplitJoinRoundTrip(hosts, ',');
      NonEmptyKeepsNonEmpty(hosts);
    }
  }

  /** Once allowedHosts.json is parsed, a non-empty list of plain host names admits exactly
      the hosts equal to one of them up to case, and an empty list admits every host. */
  lemma ParsedHostsDecide(file: HostsFile, configured: Option<string>, host: string)
    requires file.Parsed? && file.allowedHosts.Some?
    requires var h := file.allowedHosts.value; forall i | 0 <= i < |h| :: h[i] != [] && ',' !in h[i]
    ensures var h := file.allowedHosts.value;
      HostDecision(HostAllowSet(AllowedHostsSetting(file, configured)), host).Next?
      <==> h == [] || ContainsIgnoreCase(h, host)
  {
    SettingRoundTrip(file.allowedHosts.value);
  }

  /** A file whose list is null falls back to localhost and 127.0.0.1, in any letter case. */
  lemma NullListFallsBackToDefaults(configured: Option<string>, host: string)
    ensures var hosts := HostAllowSet(AllowedHostsSetting(Parsed(None), configured));
      hosts == DefaultHosts
      && (HostDecision(hosts, host).Next? <==> EqualsIgnoreCase(host, "localhost") || EqualsIgnoreCase(host, "127.0.0.1"))
  {
    SettingRoundTrip(DefaultHosts);
    EqualsIgnoreCaseIsEquivalence(host, "localhost", "localhost");
    EqualsIgnoreCaseIsEquivalence("localhost", host, host);
    EqualsIgnoreCaseIsEquivalence(host, "127.0.0.1", "127.0.0.1");
    EqualsIgnoreCaseIsEquivalence("127.0.0.1", host, host);
    if HostDecision(DefaultHosts, host).Next? {
      var i :| 0 <= i < |DefaultHosts| && EqualsIgnoreCase(DefaultHosts[i], host);
      assert i == 0 || i == 1;
    }
  }

  // ---------------------------------------------------------------------------------------
  // client-IP filtering

  /** allowedIps.json as the start-up code sees it. */
  datatype IpsFile = NoIpsFile | UnreadableIps | ParsedIps(allowedIps: Option<seq<string>>)

  const LoopbackIps: set<string> := {"127.0.0.1", "::1"}
  const AccessDeniedMessage: string := "Access denied. Your IP is not authorized."

  /** The addresses the file adds to the loopback pair. */
  function ListedIps(file: IpsFile): set<string> {
    match file
    case ParsedIps(Some(ips)) => set i | 0 <= i < |ips| :: ips[i]
    case _ => {}
  }

  /** The client-IP middleware's allow-set: the loopback pair, always, and every listed IP. */
  function AllowedIps(file: IpsFile): (ips: set<string>)
    ensures LoopbackIps <= ips && ListedIps(file) <= ips
    ensures forall ip | ip in ips :: ip in LoopbackIps || ip in ListedIps(file)
  {
    LoopbackIps + ListedIps(file)
  }

  /** ClientIpFilterMiddleware: the allow-set built by the constructor's foreach. */
  class ClientIpFilter {
    var allowedIps: set<string>

    constructor (file: IpsFile)
      ensures allowedIps == AllowedIps(file)
    {
      var loaded := LoopbackIps;
      if file.ParsedIps? && file.allowedIps.Some? {
        var ips := file.allowedIps.value;
        for i := 0 to |ips|
          invariant loaded == LoopbackIps + set k | 0 <= k < i :: ips[k]
        {
          loaded := loaded + {ips[i]};
        }
      }
      allowedIps := loaded;
    }

    /** InvokeAsync: a request without a remote address passes. */
    function Decide(clientIp: Option<string>): (r: Decision)
      reads this
      ensures r.Next? <==> clientIp.None? || clientIp.value in allowedIps
      ensures r.Reject? ==> r == Reject(403, AccessDeniedMessage)
    {
      if clientIp.Some? && clientIp.value !in allowedIps then Reject(403, AccessDeniedMessage) else Next
    }
  }

  /** Whatever the file holds, the loopback addresses, every listed address and a request
      without an address always pass; any other address is refused. */
  lemma ClientIpFilterAdmits(f: ClientIpFilter, file: IpsFile, ip: string)
    requires f.allowedIps == AllowedIps(file)
    ensures f.Decide(None).Next? && f.Decide(Some("127.0.0.1")).Next? && f.Decide(Some("::1")).Next?
    ensures ip in ListedIps(file) ==> f.Decide(Some(ip)).Next?
    ensures ip !in LoopbackIps && ip !in ListedIps(file) ==> f.Decide(Some(ip)) == Reject(403, AccessDeniedMessage)
  {
  }
}
