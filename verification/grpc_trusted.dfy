/**
 * internal/server/grpc_trusted_interceptor.go: TrustedSubnetInterceptor, the gRPC twin
 * of TrustedIPMiddleware. Incoming metadata maps lower-case keys to their values; the
 * handler's reply (response and error together) is the opaque value `reply`, returned
 * unchanged when the handler runs.
 */
module GrpcTrusted {
  import opened Wrappers
  import opened Errors
  import opened IpNet
  import opened TrustedMiddleware
  import HttpWire

  type Metadata = map<string, seq<string>>

  /** metadata.MD.Get: the values under a key, none when it is absent. */
  function MetadataGet(md: Metadata, key: string): seq<string> {
    if key in md then md[key] else []
  }

  /** The interceptor's result: the handler ran and this is its reply, or a status error. */
  datatype Reply<R> = Handled(reply: R) | Refused(err: Error)

  const Forbidden: Error := Status(PermissionDenied, "forbidden")
  const InternalServerError: Error := Status(Internal, "internal server error")

  /** The interceptor for a call whose incoming metadata is `md` (None when there is none). */
  function Intercept<R>(allowedSubnet: string, md: Option<Metadata>, reply: R, parseIP: ParseIP, parseCIDR: ParseCIDR): (r: Reply<R>)
    ensures allowedSubnet == "" ==> r == Handled(reply)
    ensures r.Handled? ==> r.reply == reply
    ensures r.Refused? ==> r.err == Forbidden || r.err == InternalServerError
    ensures allowedSubnet != "" && (md.None? || MetadataGet(md.value, "x-real-ip") == []) ==> r == Refused(Forbidden)
  {
    if allowedSubnet == "" then Handled(reply)
    else if md.None? then Refused(Forbidden)
    else
      var realIPHeaders := MetadataGet(md.value, "x-real-ip");
      if |realIPHeaders| == 0 then Refused(Forbidden)
      else
        match CheckAddress(realIPHeaders[0], allowedSubnet, parseIP, parseCIDR)
        case Admit => Handled(reply)
        case Refuse => Refused(Forbidden)
        case Misconfigured => Refused(InternalServerError)
  }

  /**
   * With an address present, the first x-real-ip value alone decides: the call goes
   * through iff it parses and lies in a subnet that parses; an unparsable subnet is an
   * Internal error only when the address itself parsed.
   */
  lemma FirstAddressDecides<R>(allowedSubnet: string, md: Metadata, reply: R, parseIP: ParseIP, parseCIDR: ParseCIDR)
    requires allowedSubnet != "" && |MetadataGet(md, "x-real-ip")| > 0
    ensures var ip := MetadataGet(md, "x-real-ip")[0];
      var r := Intercept(allowedSubnet, Some(md), reply, parseIP, parseCIDR);
      && (r == Handled(reply) <==>
            parseIP(ip).Some? && parseCIDR(allowedSubnet).Some? && Contains(parseCIDR(allowedSubnet).value, parseIP(ip).value))
      && (r == Refused(InternalServerError) <==> parseIP(ip).Some? && parseCIDR(allowedSubnet).None?)
  {
  }

  /** The HTTP and gRPC guards agree on every address and subnet. */
  lemma SameVerdictAsHttp<R>(allowedSubnet: string, md: Metadata, reply: R, parseIP: ParseIP, parseCIDR: ParseCIDR, r: HttpWire.Request)
    requires allowedSubnet != "" && |MetadataGet(md, "x-real-ip")| > 0
    requires HttpWire.Get(r.header, HttpWire.XRealIP) == MetadataGet(md, "x-real-ip")[0] != ""
    ensures Intercept(allowedSubnet, Some(md), reply, parseIP, parseCIDR).Handled? <==>
      Guard(r, allowedSubnet, parseIP, parseCIDR) == Admit
  {
  }
}
