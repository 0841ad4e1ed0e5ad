/** The UPnP client (internal/portmapper/upnp/upnp.go): the cached control target,
    the defaulting of ports and lifetime, and the lease Map builds. SOAP calls are
    answers of the environment. */
module Upnp {
  import opened Prelude
  import opened Wire
  import opened Netip
  import opened Mapping
  import opened Strconv
  import Lifecycle

  type Target = string

  /** A search result: its descriptor, if it can be fetched and parsed. */
  type Found = Option<Target>

  datatype SoapCall =
    | AddPortMapping(externalPort: string, protocol: string, internalPort: string, internalClient: string,
        description: string, leaseDuration: string)
    | DeletePortMapping(externalPort: string, protocol: string)

  function ProtocolString(p: Protocol): Option<string> {
    if p == TCP then Some("TCP") else if p == UDP then Some("UDP") else None
  }

  /** A request without an external port maps the internal one. */
  function ExternalPortOf(r: Request): u16 {
    if r.externalPort == 0 then r.internalPort else r.externalPort
  }

  function AddCall(r: Request, internalClient: string): SoapCall
    requires ValidRequest(r)
  {
    AddPortMapping(Decimal(ExternalPortOf(r)), ProtocolString(r.protocol).value, Decimal(r.internalPort),
      internalClient, r.description, Decimal(LifetimeOf(r) / SECOND))
  }

  function DeleteCall(r: Request): SoapCall
    requires ValidRequest(r)
  {
    DeletePortMapping(Decimal(ExternalPortOf(r)), ProtocolString(r.protocol).value)
  }

  /** The lease of a successful Map. */
  function LeaseFor(r: Request, externalIP: Addr, now: Time): Lease
    requires ValidRequest(r)
  {
    Lease(r.protocol, r.internalPort, ExternalPortOf(r), externalIP, LifetimeOf(r), now)
  }

  /** A printed number. */
  predicate Prints(s: string, n: nat) { IsNumeral(s, 10) && Value(s, 10) == n }

  predicate PortAndProtocol(externalPort: string, protocol: string, r: Request) {
    && Prints(externalPort, if r.externalPort == 0 then r.internalPort else r.externalPort)
    && protocol == (if r.protocol == "tcp" then "TCP" else "UDP")
  }

  /** What an AddPortMapping call asks for: the request's ports, with the internal one
      outside if none is chosen, its description, and its lease or one hour. */
  predicate AddSays(call: SoapCall, r: Request, internalClient: string) {
    && call.AddPortMapping?
    && PortAndProtocol(call.externalPort, call.protocol, r)
    && Prints(call.internalPort, r.internalPort)
    && call.internalClient == internalClient && call.description == r.description
    && IsNumeral(call.leaseDuration, 10)
    && Value(call.leaseDuration, 10) * SECOND == if r.lease > 0 then r.lease else 3600 * SECOND
  }

  predicate DeleteSays(call: SoapCall, r: Request) {
    call.DeletePortMapping? && PortAndProtocol(call.externalPort, call.protocol, r)
  }

  lemma AddCallSays(r: Request, internalClient: string)
    requires ValidRequest(r)
    ensures AddSays(AddCall(r, internalClient), r, internalClient) && DeleteSays(DeleteCall(r), r)
  {
    var n := LifetimeOf(r);
    assert n == (n / SECOND) * SECOND && 1 <= n / SECOND;
    ValueOfDecimal(n / SECOND);
    ValueOfDecimal(ExternalPortOf(r));
    ValueOfDecimal(r.internalPort);
  }

  /** The first usable search result. */
  predicate FirstUsable(results: seq<Found>, i: nat) {
    i < |results| && results[i].Some? && forall j :: 0 <= j < i ==> results[j].None?
  }

  /** The target after resolving it: a cached one is kept; otherwise, if the search
      succeeded, it is the first usable result. */
  ghost predicate Resolves(before: Option<Target>, searchOk: bool, results: seq<Found>, after: Option<Target>) {
    if before.Some? then after == before
    else if !searchOk || (forall i :: 0 <= i < |results| ==> results[i].None?) then after == None
    else exists i: nat :: i < |results| && FirstUsable(results, i) && after == results[i]
  }

  /** The address SetInternalClient keeps of one. */
  function Usable(a: Addr): Addr {
    if !a.IsValid() || a.IsUnspecified() then Invalid else a
  }

  /** An address as a string, empty if there is none. */
  function Shown(a: Addr, show: Addr -> string): string {
    if a.IsValid() then show(a) else ""
  }

  /** The client address of a request: its own, or the advertised one. */
  function ClientFor(r: Request, internalClient: string, show: Addr -> string): string {
    if r.internalAddress.IsValid() then show(r.internalAddress) else internalClient
  }

  class Client {
    var target: Option<Target>
    var internalClient: string

    constructor ()
      ensures target == None && internalClient == ""
    {
      target, internalClient := None, "";
    }

    /** Searches only without a cached target, and caches the first usable one. */
    method ResolveTarget(searchOk: bool, results: seq<Found>) returns (t: Option<Target>)
      modifies this`target
      ensures t == target && Resolves(old(target), searchOk, results, target)
    {
      if target.Some? { return target; }
      if !searchOk { return None; }
      for i := 0 to |results|
        invariant forall j :: 0 <= j < i ==> results[j].None?
        invariant target == None
      {
        if results[i].None? { continue; }
        target := results[i];
        assert FirstUsable(results, i);
        return target;
      }
      return None;
    }

    method SetInternalClient(addr: Addr, show: Addr -> string)
      modifies this`internalClient
      ensures internalClient == Shown(Usable(addr), show)
      ensures internalClient == if addr.IsValid() && !addr.IsUnspecified() then show(addr) else ""
    {
      if !addr.IsValid() || addr.IsUnspecified() {
        internalClient := "";
        return;
      }
      internalClient := show(addr);
    }

    /** Map; call is the SOAP request it makes, if it gets that far. */
    method Map(r: Request, searchOk: bool, results: seq<Found>, show: Addr -> string, soapOk: bool,
        externalIP: Option<Addr>, now: Time)
      returns (lease: Result<Lease>, call: Option<SoapCall>)
      modifies this`target
      ensures if ValidRequest(r) then Resolves(old(target), searchOk, results, target) else target == old(target)
      ensures call == if ValidRequest(r) && target.Some? && ClientFor(r, internalClient, show) != ""
                      then Some(AddCall(r, ClientFor(r, internalClient, show))) else None
      ensures call.Some? ==>
        AddSays(call.value, r, if r.internalAddress.IsValid() then show(r.internalAddress) else internalClient)
      ensures lease == if call.Some? && soapOk && externalIP.Some?
                       then Ok(LeaseFor(r, externalIP.value, now)) else Err(ErrOther)
    {
      call := None;
      if !ValidRequest(r) { return Err(ErrOther), call; }
      var proto := ProtocolString(r.protocol);
      var t := ResolveTarget(searchOk, results);
      if t.None? { return Err(ErrOther), call; }
      var client := internalClient;
      if r.internalAddress.IsValid() { client := show(r.internalAddress); }
      if client == "" { return Err(ErrOther), call; }
      var lifetime := r.lease;
      if lifetime <= 0 { lifetime := HOUR; }
      var externalPort := r.externalPort;
      if externalPort == 0 { externalPort := r.internalPort; }
      AddCallSays(r, client);
      call := Some(AddPortMapping(Decimal(externalPort), proto.value, Decimal(r.internalPort), client, r.description,
        Decimal(lifetime / SECOND)));
      if !soapOk { return Err(ErrOther), call; }
      if externalIP.None? { return Err(ErrOther), call; }
      return Ok(Lease(r.protocol, r.internalPort, externalPort, externalIP.value, lifetime, now)), call;
    }

    method Unmap(r: Request, searchOk: bool, results: seq<Found>, soapOk: bool)
      returns (ok: bool, call: Option<SoapCall>)
      modifies this`target
      ensures if ValidRequest(r) then Resolves(old(target), searchOk, results, target) else target == old(target)
      ensures call == if ValidRequest(r) && target.Some? then Some(DeleteCall(r)) else None
      ensures call.Some? ==> DeleteSays(call.value, r)
      ensures ok <==> call.Some? && soapOk
    {
      if !ValidRequest(r) { return false, None; }
      var proto := ProtocolString(r.protocol);
      var t := ResolveTarget(searchOk, results);
      if t.None? { return false, None; }
      var externalPort := r.externalPort;
      if externalPort == 0 { externalPort := r.internalPort; }
      AddCallSays(r, "");
      return soapOk, Some(DeletePortMapping(Decimal(externalPort), proto.value));
    }
  }

  /** Client contract: the lease Map reports is one the daemon accepts for its
      request, with a lifetime between one second and the largest lease that is the
      one put into the call. */
  lemma LeaseContract(r: Request, internalClient: string, ip: Addr, now: Time)
    requires ValidRequest(r)
    ensures
      var l := LeaseFor(r, ip, now);
      && Lifecycle.ValidLease(r, l)
      && l.lifetime == (if r.lease > 0 then r.lease else 3600 * SECOND)
      && SECOND <= l.lifetime <= MAX_LEASE
      && Value(AddCall(r, internalClient).leaseDuration, 10) * SECOND == l.lifetime
      && Value(AddCall(r, internalClient).externalPort, 10) == l.externalPort
  {
    var n := LifetimeOf(r);
    assert n == (n / SECOND) * SECOND && 1 <= n / SECOND <= 0xFFFF_FFFF;
    ValueOfDecimal(n / SECOND);
    ValueOfDecimal(ExternalPortOf(r));
  }

  /** What the daemon releases is what Map added: the same external port and
      protocol, for the configured request and for any renewal of its lease. */
  lemma ReleaseDeletesWhatMapAdded(r: Request, internalClient: string, ip: Addr, now: Time)
    requires ValidRequest(r)
    ensures
      var l := LeaseFor(r, ip, now);
      var release := Lifecycle.ReleaseRequest(r, l);
      var renewal := Lifecycle.MapRequest(r, Some(l));
      && ValidRequest(release) && ValidRequest(renewal)
      && DeleteCall(release)
        == DeletePortMapping(AddCall(r, internalClient).externalPort, AddCall(r, internalClient).protocol)
      && AddCall(renewal, internalClient) == AddCall(r, internalClient)
  {
  }
}
