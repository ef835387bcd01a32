/** IpWhitelistMiddleware: admits only the addresses listed under IpSecurity:AllowedIPs,
    compared exactly. */
module IpWhitelist {
  import opened Common
  import opened RequestFiltering

  const DeniedPrefix: string := "Dostęp zabroniony dla IP: "

  /** The set built from the configuration section; a missing section gives the empty set. */
  function WhitelistSet(section: Option<seq<string>>): (ips: set<string>)
    ensures section.None? ==> ips == {}
    ensures section.Some? ==> forall ip :: ip in ips <==> ip in section.value
  {
    match section
    case Some(list) => set i | 0 <= i < |list| :: list[i]
    case None => {}
  }

  /** InvokeAsync: a request without a remote address is refused, and the refusal names the
      address (empty for a null one, as string interpolation writes null). */
  function WhitelistDecision(allowed: set<string>, remoteIp: Option<string>): (r: Decision)
    ensures r.Next? <==> remoteIp.Some? && remoteIp.value in allowed
    ensures r.Reject? ==> r.statusCode == 403 && r.body == DeniedPrefix + remoteIp.GetOr("")
  {
    if remoteIp.None? || remoteIp.value !in allowed then Reject(403, DeniedPrefix + remoteIp.GetOr(""))
    else Next
  }

  /** Without the configuration section every request is refused. */
  lemma MissingSectionDeniesAll(remoteIp: Option<string>)
    ensures WhitelistDecision(WhitelistSet(None), remoteIp).Reject?
  {
  }

  /** The two IP checks disagree on a request without a remote address: the pipeline's filter
      lets it through, this middleware refuses it. Loopback addresses get no special
      treatment here. */
  lemma NullAddressTreatedOppositely(f: ClientIpFilter, section: Option<seq<string>>)
    ensures f.Decide(None).Next? && WhitelistDecision(WhitelistSet(section), None).Reject?
    ensures section == Some([]) ==> WhitelistDecision(WhitelistSet(section), Some("127.0.0.1")).Reject?
  {
  }
}
