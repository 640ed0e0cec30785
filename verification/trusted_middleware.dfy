/**
 * internal/server/trusted_middleware.go: TrustedIPMiddleware admits a request only when
 * its X-Real-IP address lies in the configured subnet. net.ParseIP and net.ParseCIDR
 * are the parameters `parseIP` and `parseCIDR` (None where Go returns nil or an error).
 */
module TrustedMiddleware {
  import opened Wrappers
  import opened Errors
  import opened HttpWire
  import opened IpNet

  type ParseIP = string -> Option<IP>
  type ParseCIDR = string -> Option<IPNet>

  /** How a guard decides once it holds an address: admit, refuse, or a bad subnet setting. */
  datatype Verdict = Admit | Refuse | Misconfigured

  /**
   * The part of the chain both guards share: the address is parsed before the subnet,
   * so an unparsable address is refused even when the subnet is unparsable too.
   */
  function CheckAddress(realIP: string, allowedSubnet: string, parseIP: ParseIP, parseCIDR: ParseCIDR): (v: Verdict)
    ensures v == Admit <==>
      parseIP(realIP).Some? && parseCIDR(allowedSubnet).Some? && Contains(parseCIDR(allowedSubnet).value, parseIP(realIP).value)
    ensures v == Misconfigured <==> parseIP(realIP).Some? && parseCIDR(allowedSubnet).None?
  {
    var ip := parseIP(realIP);
    if ip.None? then Refuse
    else
      var subnet := parseCIDR(allowedSubnet);
      if subnet.None? then Misconfigured
      else if !Contains(subnet.value, ip.value) then Refuse
      else Admit
  }

  /** The middleware's verdict on a request. */
  function Guard(r: Request, allowedSubnet: string, parseIP: ParseIP, parseCIDR: ParseCIDR): (v: Verdict)
    ensures allowedSubnet == "" ==> v == Admit
    ensures allowedSubnet != "" && Get(r.header, XRealIP) == "" ==> v == Refuse
    ensures allowedSubnet != "" && Get(r.header, XRealIP) != "" ==>
      v == CheckAddress(Get(r.header, XRealIP), allowedSubnet, parseIP, parseCIDR)
  {
    if allowedSubnet == "" then Admit
    else
      var realIP := Get(r.header, XRealIP);
      if realIP == "" then Refuse
      else CheckAddress(realIP, allowedSubnet, parseIP, parseCIDR)
  }

  /** The response: next's on Admit, 403 "Forbidden" on Refuse, 500 on a bad subnet. */
  function TrustedW(w0: Wire, r: Request, next: Handler, allowedSubnet: string, parseIP: ParseIP, parseCIDR: ParseCIDR): Wire {
    match Guard(r, allowedSubnet, parseIP, parseCIDR)
    case Admit => Run(w0, next(r))
    case Refuse => HttpErrorW(w0, "Forbidden", StatusForbidden)
    case Misconfigured => HttpErrorW(w0, "Internal Server Error", StatusInternalServerError)
  }

  /** TrustedIPMiddleware(allowedSubnet)(next).ServeHTTP(w, r). */
  method Trusted(w: ResponseWriter, r: Request, next: Handler, allowedSubnet: string, parseIP: ParseIP, parseCIDR: ParseCIDR)
    modifies w
    ensures w.State() == TrustedW(old(w.State()), r, next, allowedSubnet, parseIP, parseCIDR)
  {
    if allowedSubnet == "" {
      w.Serve(next(r));
      return;
    }
    var realIP := Get(r.header, XRealIP);
    if realIP == "" {
      HttpError(w, "Forbidden", StatusForbidden);
      return;
    }
    var ip := parseIP(realIP);
    if ip.None? {
      HttpError(w, "Forbidden", StatusForbidden);
      return;
    }
    var subnet := parseCIDR(allowedSubnet);
    if subnet.None? {
      HttpError(w, "Internal Server Error", StatusInternalServerError);
      return;
    }
    if !Contains(subnet.value, ip.value) {
      HttpError(w, "Forbidden", StatusForbidden);
      return;
    }
    w.Serve(next(r));
  }

  /**
   * On a fresh writer the client sees the handler's response exactly when the guard
   * admits the request; otherwise 403, or 500 for a subnet that does not parse, and the
   * handler's output appears nowhere.
   */
  lemma TrustedResponses(r: Request, next: Handler, allowedSubnet: string, parseIP: ParseIP, parseCIDR: ParseCIDR)
    ensures var w := TrustedW(Fresh, r, next, allowedSubnet, parseIP, parseCIDR);
      var v := Guard(r, allowedSubnet, parseIP, parseCIDR);
      && (v == Admit ==> w == Run(Fresh, next(r)))
      && (v == Refuse ==> w.status == 403 && w.body == Ascii("Forbidden\n"))
      && (v == Misconfigured ==> w.status == 500 && w.body == Ascii("Internal Server Error\n"))
  {
  }

  /** A host whose address is in the subnet is admitted; the same request from outside is not. */
  lemma AdmitsExactlyTheSubnet(r: Request, allowedSubnet: string, parseIP: ParseIP, parseCIDR: ParseCIDR)
    requires allowedSubnet != "" && Get(r.header, XRealIP) != ""
    requires parseIP(Get(r.header, XRealIP)).Some? && parseCIDR(allowedSubnet).Some?
    ensures Guard(r, allowedSubnet, parseIP, parseCIDR) == Admit <==>
      Contains(parseCIDR(allowedSubnet).value, parseIP(Get(r.header, XRealIP)).value)
    ensures Guard(r, allowedSubnet, parseIP, parseCIDR) != Misconfigured
  {
  }
}
