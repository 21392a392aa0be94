/**
 * The region gate of src/middleware/region_limit.js: requests from localhost pass,
 * any other request passes only when the geo lookup places its address in Indonesia.
 * The geo database is a parameter of the model.
 */
module RegionLimit {
  import opened Wrappers

  datatype Geo = Geo(country: string)

  datatype Decision = Next | Forbidden(message: string)

  const Restricted := "Access restricted: this service is not available in your country."

  /** The text before the first comma: `split(',')[0]`. */
  function FirstField(h: string): (f: string)
    ensures f <= h && ',' !in f
    ensures |f| < |h| ==> h[|f|] == ','
  {
    if h == [] || h[0] == ',' then [] else [h[0]] + FirstField(h[1..])
  }

  /**
   * `x-forwarded-for?.split(',')[0] || socket.remoteAddress`: an empty first field
   * is falsy, so it too falls back to the socket address.
   */
  function ClientIp(forwardedFor: Option<string>, remoteAddress: Option<string>): (ip: Option<string>)
    ensures forwardedFor.Some? && FirstField(forwardedFor.value) != "" ==> ip == Some(FirstField(forwardedFor.value))
    ensures forwardedFor.None? || FirstField(forwardedFor.value) == "" ==> ip == remoteAddress
  {
    if forwardedFor.Some? && FirstField(forwardedFor.value) != "" then Some(FirstField(forwardedFor.value))
    else remoteAddress
  }

  predicate IsLocalhost(ip: Option<string>) {
    ip == Some("::1") || ip == Some("127.0.0.1")
  }

  /** `restrictRegion`. A missing address has no geo record. */
  function RestrictRegion(forwardedFor: Option<string>, remoteAddress: Option<string>,
                          lookup: string -> Option<Geo>): (d: Decision)
    ensures var ip := ClientIp(forwardedFor, remoteAddress);
      var geo := if ip.Some? then lookup(ip.value) else None;
      && (d == Next <==> IsLocalhost(ip) || geo == Some(Geo("ID")))
      && (d != Next ==> d == Forbidden(Restricted))
  {
    var ip := ClientIp(forwardedFor, remoteAddress);
    var geo := if ip.Some? then lookup(ip.value) else None;
    if IsLocalhost(ip) then Next
    else if geo.None? || geo.value.country != "ID" then Forbidden(Restricted)
    else Next
  }

  /** A proxy chain is attributed to its first hop, the client. */
  lemma ForwardedChainUsesFirstHop(client: string, rest: string, remote: Option<string>)
    requires client != "" && ',' !in client
    ensures ClientIp(Some(client + "," + rest), remote) == Some(client)
  {
    FirstFieldOfJoin(client, rest);
  }

  lemma {:induction false} FirstFieldOfJoin(a: string, rest: string)
    requires ',' !in a
    ensures FirstField(a + "," + rest) == a
  {
    if a != [] {
      assert (a + "," + rest)[1..] == a[1..] + "," + rest;
      FirstFieldOfJoin(a[1..], rest);
    }
  }
}
