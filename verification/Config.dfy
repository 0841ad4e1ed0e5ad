/** Expansion and validation of the configuration (internal/config/config.go). */
module Config {
  import opened Prelude
  import opened Wire
  import opened Netip
  import opened Mapping
  import opened Strconv

  const BOTH: string := "both"

  datatype PortMapping = PortMapping(
    protocol: string,
    internalPort: u16,
    internalAddress: string,
    internalIface: string,
    externalPort: u16,
    description: string,
    lease: Duration,
    requireListener: bool)

  datatype Detection = Detection(order: seq<string>, timeout: Duration)

  datatype Configuration = Configuration(
    logLevel: string,
    internalAddress: string,
    internalIface: string,
    mappings: seq<PortMapping>,
    detect: Detection)

  /** What the host answers: address parsing, the usable address of an interface,
      the addresses bound to interfaces, and case folding of a log level. */
  datatype Host = Host(
    parseAddr: string -> Option<Addr>,
    ifaceAddr: string -> Option<Addr>,
    localAddrs: Option<seq<Addr>>,
    normalize: string -> string)

  // ---- Expansion into requests ----

  datatype Resolution = Unset | Resolved(addr: Addr) | Unresolvable

  function Resolve(address: string, iface: string, host: Host): Resolution {
    if address != "" then
      match host.parseAddr(address) case Some(a) => Resolved(a) case None => Unresolvable
    else if iface != "" then
      match host.ifaceAddr(iface) case Some(a) => Resolved(a) case None => Unresolvable
    else Unset
  }

  /** The address a mapping forwards to, or None if it cannot be resolved. */
  function MappingAddress(m: PortMapping, defaultAddr: Addr, host: Host): Option<Addr> {
    match Resolve(m.internalAddress, m.internalIface, host)
    case Unset => Some(defaultAddr)
    case Resolved(a) => Some(a)
    case Unresolvable => None
  }

  function DefaultAddress(c: Configuration, host: Host): Option<Addr> {
    match Resolve(c.internalAddress, c.internalIface, host)
    case Unset => Some(Invalid)
    case Resolved(a) => Some(a)
    case Unresolvable => None
  }

  /** An address whose resolution error is ignored. */
  function OrInvalid(a: Option<Addr>): Addr { if a.Some? then a.value else Invalid }

  function Protocols(m: PortMapping): (ps: seq<Protocol>)
    ensures 1 <= |ps| <= 2
  {
    if m.protocol == BOTH then [TCP, UDP] else [m.protocol]
  }

  function RequestFor(m: PortMapping, p: Protocol, addr: Addr): Request {
    Request(p, m.internalPort, addr, m.externalPort, m.description, m.lease, m.requireListener)
  }

  function MappingRequests(m: PortMapping, defaultAddr: Addr, host: Host): (rs: seq<Request>) {
    seq(|Protocols(m)|, i requires 0 <= i < |Protocols(m)| =>
      RequestFor(m, Protocols(m)[i], OrInvalid(MappingAddress(m, defaultAddr, host))))
  }

  /** The requests of all mappings, in order. */
  function Flatten(ms: seq<PortMapping>, defaultAddr: Addr, host: Host): seq<Request> {
    if ms == [] then []
    else Flatten(ms[..|ms| - 1], defaultAddr, host) + MappingRequests(ms[|ms| - 1], defaultAddr, host)
  }

  function Requests(c: Configuration, host: Host): seq<Request> {
    Flatten(c.mappings, OrInvalid(DefaultAddress(c, host)), host)
  }

  /** The transport protocols a mapping covers. */
  predicate Covers(m: PortMapping, p: Protocol) {
    if m.protocol == BOTH then p == TCP || p == UDP else p == m.protocol
  }

  /** Request r is what mapping m asks for on one of its protocols. */
  predicate Expands(m: PortMapping, r: Request, addr: Addr) {
    && Covers(m, r.protocol)
    && r.internalPort == m.internalPort && r.externalPort == m.externalPort
    && r.lease == m.lease && r.requireListener == m.requireListener && r.description == m.description
    && r.internalAddress == addr
  }

  lemma MappingRequestsExact(m: PortMapping, defaultAddr: Addr, host: Host, r: Request)
    ensures r in MappingRequests(m, defaultAddr, host) <==>
      Expands(m, r, OrInvalid(MappingAddress(m, defaultAddr, host)))
  {
    var rs, addr := MappingRequests(m, defaultAddr, host), OrInvalid(MappingAddress(m, defaultAddr, host));
    if Expands(m, r, addr) {
      var i := if m.protocol == BOTH && r.protocol == UDP then 1 else 0;
      assert Protocols(m)[i] == r.protocol;
      assert r == rs[i];
    }
  }

  /** The requests are exactly what the mappings ask for: one for each mapping and
      protocol it covers. */
  lemma {:induction false} RequestsExact(ms: seq<PortMapping>, defaultAddr: Addr, host: Host, r: Request)
    ensures r in Flatten(ms, defaultAddr, host) <==>
      exists m :: m in ms && Expands(m, r, OrInvalid(MappingAddress(m, defaultAddr, host)))
  {
    hide MappingAddress;
    hide Expands;
    hide MappingRequests;
    if ms != [] {
      var init, last := ms[..|ms| - 1], ms[|ms| - 1];
      assert ms == init + [last];
      RequestsExact(init, defaultAddr, host, r);
      MappingRequestsExact(last, defaultAddr, host, r);
    }
  }

  method ExpandRequests(c: Configuration, host: Host) returns (reqs: seq<Request>)
    ensures reqs == Requests(c, host)
  {
    hide MappingAddress;
    hide RequestFor;
    var defaultAddr := OrInvalid(DefaultAddress(c, host));
    reqs := [];
    for i := 0 to |c.mappings|
      invariant reqs == Flatten(c.mappings[..i], defaultAddr, host)
    {
      Grow(c.mappings, i);
      var m := c.mappings[i];
      var protocols := Protocols(m);
      var addr := OrInvalid(MappingAddress(m, defaultAddr, host));
      var requests: seq<Request> := [];
      for j := 0 to |protocols|
        invariant requests == MappingRequests(m, defaultAddr, host)[..j]
      {
        requests := requests + [RequestFor(m, protocols[j], addr)];
      }
      reqs := reqs + requests;
    }
    assert c.mappings[..|c.mappings|] == c.mappings;
  }

  // ---- What Validate accepts ----

  /** No two requests share a protocol and internal port. */
  predicate DistinctInternal(rs: seq<Request>) {
    forall i, j :: 0 <= i < j < |rs| && rs[i].protocol == rs[j].protocol ==>
      rs[i].internalPort != rs[j].internalPort
  }

  /** No two requests share a protocol and a chosen external port. */
  predicate DistinctExternal(rs: seq<Request>) {
    forall i, j :: 0 <= i < j < |rs| && rs[i].protocol == rs[j].protocol && rs[i].externalPort != 0 ==>
      rs[i].externalPort != rs[j].externalPort
  }

  predicate PortsAcceptable(rs: seq<Request>) {
    && (forall i :: 0 <= i < |rs| ==> ValidRequest(rs[i]))
    && DistinctInternal(rs)
    && DistinctExternal(rs)
  }

  predicate KnownLevel(level: string) {
    level in ["", "debug", "info", "warn", "warning", "error"]
  }

  predicate KnownProtocolName(name: string) {
    name in ["natpmp", "pcp", "upnp"]
  }

  predicate DetectAcceptable(d: Detection) {
    && d.timeout >= 0
    && (forall i :: 0 <= i < |d.order| ==> KnownProtocolName(d.order[i]))
    && (forall i, j :: 0 <= i < j < |d.order| ==> d.order[i] != d.order[j])
  }

  /** The literal addresses that must be bound to an interface: the top-level one
      and every valid one of a mapping. */
  ghost predicate IsLiteral(c: Configuration, host: Host, a: Addr) {
    || (c.internalAddress != "" && DefaultAddress(c, host) == Some(a))
    || (exists i :: 0 <= i < |c.mappings| && MappingLiteral(c.mappings[i], host, a))
  }

  predicate MappingLiteral(m: PortMapping, host: Host, a: Addr) {
    m.internalAddress != "" && host.parseAddr(m.internalAddress) == Some(a) && a.IsValid()
  }

  predicate MappingResolvable(m: PortMapping, host: Host) {
    && !(m.internalAddress != "" && m.internalIface != "")
    && !Resolve(m.internalAddress, m.internalIface, host).Unresolvable?
  }

  ghost predicate AddressesAcceptable(c: Configuration, host: Host) {
    && !(c.internalAddress != "" && c.internalIface != "")
    && DefaultAddress(c, host).Some?
    && (forall i :: 0 <= i < |c.mappings| ==> MappingResolvable(c.mappings[i], host))
    && (forall a :: IsLiteral(c, host, a) ==> host.localAddrs.Some? && a in host.localAddrs.value)
  }

  ghost predicate Acceptable(c: Configuration, host: Host) {
    && c.mappings != []
    && KnownLevel(host.normalize(c.logLevel))
    && DetectAcceptable(c.detect)
    && AddressesAcceptable(c, host)
    && PortsAcceptable(Requests(c, host))
  }

  // ---- Validation ----

  method ValidateDetect(d: Detection) returns (ok: bool)
    ensures ok <==> DetectAcceptable(d)
  {
    if d.timeout < 0 { return false; }
    var seen: set<string> := {};
    for i := 0 to |d.order|
      invariant forall k :: 0 <= k < i ==> KnownProtocolName(d.order[k])
      invariant forall j, k :: 0 <= j < k < i ==> d.order[j] != d.order[k]
      invariant seen == set k | 0 <= k < i :: d.order[k]
    {
      var name := d.order[i];
      if !KnownProtocolName(name) { return false; }
      if name in seen { return false; }
      seen := seen + {name};
    }
    return true;
  }

  /** Returns the resolved default address, or None when the addresses are
      rejected. */
  method ValidateInternalAddresses(c: Configuration, host: Host) returns (r: Option<Addr>)
    ensures r.Some? <==> AddressesAcceptable(c, host)
    ensures r.Some? ==> r == DefaultAddress(c, host)
  {
    if c.internalAddress != "" && c.internalIface != "" { return None; }
    var defaultAddr := DefaultAddress(c, host);
    if defaultAddr.None? { return None; }
    var resolved: seq<Addr> := [];
    if c.internalAddress != "" { resolved := [defaultAddr.value]; }
    for i := 0 to |c.mappings|
      invariant forall k :: 0 <= k < i ==> MappingResolvable(c.mappings[k], host)
      invariant forall a :: a in resolved <==>
        || (c.internalAddress != "" && defaultAddr == Some(a))
        || (exists k :: 0 <= k < i && MappingLiteral(c.mappings[k], host, a))
    {
      var m := c.mappings[i];
      if m.internalAddress != "" && m.internalIface != "" { return None; }
      var addr := MappingAddress(m, defaultAddr.value, host);
      if addr.None? { return None; }
      if m.internalAddress != "" && addr.value.IsValid() {
        resolved := resolved + [addr.value];
      }
    }
    assert forall a :: a in resolved <==> IsLiteral(c, host, a);
    if |resolved| == 0 { return defaultAddr; }
    assert IsLiteral(c, host, resolved[0]);
    if host.localAddrs.None? { return None; }
    var local := host.localAddrs.value;
    var localSet: set<Addr> := {};
    for i := 0 to |local|
      invariant localSet == set k | 0 <= k < i :: local[k]
    {
      localSet := localSet + {local[i]};
    }
    for i := 0 to |resolved|
      invariant forall k :: 0 <= k < i ==> resolved[k] in local
    {
      if resolved[i] !in localSet {
        assert IsLiteral(c, host, resolved[i]);
        return None;
      }
    }
    return defaultAddr;
  }

  /** The strings in seenInternal once the requests rs have been processed. */
  function InternalKeys(rs: seq<Request>): set<string> {
    if rs == [] then {}
    else
      var r := rs[|rs| - 1];
      InternalKeys(rs[..|rs| - 1]) + {KeyString(r.protocol, r.internalPort)}
  }

  /** The strings in seenExternal once the requests rs have been processed. */
  function ExternalKeys(rs: seq<Request>): set<string> {
    if rs == [] then {}
    else
      var r := rs[|rs| - 1];
      var before := ExternalKeys(rs[..|rs| - 1]);
      if r.externalPort == 0 then before else before + {KeyString(r.protocol, r.externalPort)}
  }

  /** A key string is in seenInternal exactly if some request has that protocol
      and internal port. */
  lemma {:induction false} InternalKeysMember(rs: seq<Request>, p: Protocol, n: nat)
    ensures KeyString(p, n) in InternalKeys(rs) <==>
      exists i :: 0 <= i < |rs| && rs[i].protocol == p && rs[i].internalPort == n
  {
    if rs != [] {
      var last := rs[|rs| - 1];
      InternalKeysMember(rs[..|rs| - 1], p, n);
      if KeyString(p, n) == KeyString(last.protocol, last.internalPort) {
        KeyStringInjective(p, n, last.protocol, last.internalPort);
      }
    }
  }

  lemma {:induction false} ExternalKeysMember(rs: seq<Request>, p: Protocol, n: nat)
    requires n != 0
    ensures KeyString(p, n) in ExternalKeys(rs) <==>
      exists i :: 0 <= i < |rs| && rs[i].protocol == p && rs[i].externalPort == n
  {
    if rs != [] {
      var last := rs[|rs| - 1];
      ExternalKeysMember(rs[..|rs| - 1], p, n);
      if KeyString(p, n) == KeyString(last.protocol, last.externalPort) {
        KeyStringInjective(p, n, last.protocol, last.externalPort);
      }
    }
  }

  /** The two set lookups decide exactly whether a valid request can be added. */
  lemma SeenKeysDecide(rs: seq<Request>, r: Request)
    requires PortsAcceptable(rs) && ValidRequest(r)
    ensures PortsAcceptable(rs + [r]) <==>
      && KeyString(r.protocol, r.internalPort) !in InternalKeys(rs)
      && (r.externalPort == 0 || KeyString(r.protocol, r.externalPort) !in ExternalKeys(rs))
  {
    var rs' := rs + [r];
    InternalKeysMember(rs, r.protocol, r.internalPort);
    if r.externalPort != 0 { ExternalKeysMember(rs, r.protocol, r.externalPort); }
    assert rs'[|rs|] == r && forall i :: 0 <= i < |rs| ==> rs'[i] == rs[i];
  }

  /** What the two inner loops of Validate check, one request after another. */
  predicate AcceptedSoFar(rs: seq<Request>) {
    rs == [] ||
    var before, r := rs[..|rs| - 1], rs[|rs| - 1];
    && AcceptedSoFar(before)
    && ValidRequest(r)
    && KeyString(r.protocol, r.internalPort) !in InternalKeys(before)
    && (r.externalPort == 0 || KeyString(r.protocol, r.externalPort) !in ExternalKeys(before))
  }

  /** The incremental check accepts exactly the acceptable request lists. */
  lemma {:induction false} AcceptedSoFarMeaning(rs: seq<Request>)
    ensures AcceptedSoFar(rs) <==> PortsAcceptable(rs)
  {
    if rs != [] {
      var before, r := rs[..|rs| - 1], rs[|rs| - 1];
      assert rs == before + [r];
      AcceptedSoFarMeaning(before);
      if PortsAcceptable(before) && ValidRequest(r) { SeenKeysDecide(before, r); }
    }
  }

  /** A rejected prefix stays rejected. */
  lemma {:induction false} PrefixAccepted(rs: seq<Request>, more: seq<Request>)
    requires AcceptedSoFar(rs + more)
    ensures AcceptedSoFar(rs)
  {
    if more == [] {
      assert rs + more == rs;
    } else {
      assert (rs + more)[..|rs + more| - 1] == rs + more[..|more| - 1];
      PrefixAccepted(rs, more[..|more| - 1]);
    }
  }

  /** Adding a request that is not valid is rejected. */
  lemma InvalidRejected(rs: seq<Request>, more: seq<Request>)
    requires exists i :: 0 <= i < |more| && !ValidRequest(more[i])
    ensures !AcceptedSoFar(rs + more)
  {
    var i :| 0 <= i < |more| && !ValidRequest(more[i]);
    Advance(rs, more, i);
    if AcceptedSoFar(rs + more) { PrefixAccepted(rs + more[..i] + [more[i]], more[i + 1..]); }
  }

  /** The first inner loop of Validate. */
  method AllValid(requests: seq<Request>) returns (ok: bool)
    ensures ok <==> forall k :: 0 <= k < |requests| ==> ValidRequest(requests[k])
  {
    for j := 0 to |requests|
      invariant forall k :: 0 <= k < j ==> ValidRequest(requests[k])
    {
      if !ValidRequest(requests[j]) { return false; }
    }
    return true;
  }

  /** The body of the second inner loop: one valid request after those seen. */
  method AddRequest(m: PortMapping, req: Request, ghost seen: seq<Request>,
      seenInternal: set<string>, seenExternal: set<string>)
    returns (ok: bool, internal: set<string>, external: set<string>)
    requires AcceptedSoFar(seen) && ValidRequest(req)
    requires req.internalPort == m.internalPort && req.externalPort == m.externalPort
    requires seenInternal == InternalKeys(seen) && seenExternal == ExternalKeys(seen)
    ensures ok <==> AcceptedSoFar(seen + [req])
    ensures ok ==> internal == InternalKeys(seen + [req]) && external == ExternalKeys(seen + [req])
  {
    ghost var next := seen + [req];
    assert next[..|next| - 1] == seen && next[|next| - 1] == req;
    internal, external := seenInternal, seenExternal;
    var internalKey := KeyString(req.protocol, m.internalPort);
    if internalKey in internal { return false, internal, external; }
    internal := internal + {internalKey};
    if m.externalPort == 0 { return true, internal, external; }
    var externalKey := KeyString(req.protocol, m.externalPort);
    if externalKey in external { return false, internal, external; }
    external := external + {externalKey};
    return true, internal, external;
  }

  /** The second inner loop of Validate: the valid requests of one mapping, after
      the requests seen so far. */
  method AddMapping(m: PortMapping, requests: seq<Request>, ghost seen: seq<Request>,
      seenInternal: set<string>, seenExternal: set<string>)
    returns (ok: bool, internal: set<string>, external: set<string>)
    requires AcceptedSoFar(seen)
    requires seenInternal == InternalKeys(seen) && seenExternal == ExternalKeys(seen)
    requires forall k :: 0 <= k < |requests| ==> ValidRequest(requests[k])
    requires forall k :: 0 <= k < |requests| ==>
      requests[k].internalPort == m.internalPort && requests[k].externalPort == m.externalPort
    ensures ok <==> AcceptedSoFar(seen + requests)
    ensures ok ==> internal == InternalKeys(seen + requests) && external == ExternalKeys(seen + requests)
  {
    internal, external := seenInternal, seenExternal;
    ghost var done := seen;
    assert seen + requests[..0] == seen;
    for j := 0 to |requests|
      invariant done == seen + requests[..j]
      invariant AcceptedSoFar(done)
      invariant internal == InternalKeys(done) && external == ExternalKeys(done)
    {
      Advance(seen, requests, j);
      ok, internal, external := AddRequest(m, requests[j], done, internal, external);
      done := done + [requests[j]];
      if !ok {
        if AcceptedSoFar(seen + requests) { PrefixAccepted(done, requests[j + 1..]); }
        return false, internal, external;
      }
    }
    assert requests[..|requests|] == requests;
    return true, internal, external;
  }

  lemma FlattenStep(ms: seq<PortMapping>, i: nat, defaultAddr: Addr, host: Host)
    requires i <= |ms|
    ensures Flatten(ms[..0], defaultAddr, host) == []
    ensures i < |ms| ==>
      Flatten(ms[..i + 1], defaultAddr, host) == Flatten(ms[..i], defaultAddr, host) + MappingRequests(ms[i], defaultAddr, host)
  {
    hide MappingRequests;
    if i < |ms| { Grow(ms, i); }
  }

  lemma NothingSeen()
    ensures AcceptedSoFar([]) && InternalKeys([]) == {} && ExternalKeys([]) == {}
  {
  }

  datatype Verdict = Accepted | BadMapping(index: nat)

  /** The port part of Validate. On failure it names the first mapping with which
      the requests stop being acceptable. */
  method ValidatePorts(c: Configuration, defaultAddr: Addr, host: Host) returns (v: Verdict)
    ensures v.Accepted? <==> PortsAcceptable(Flatten(c.mappings, defaultAddr, host))
    ensures v.BadMapping? ==>
      && v.index < |c.mappings|
      && PortsAcceptable(Flatten(c.mappings[..v.index], defaultAddr, host))
      && !PortsAcceptable(Flatten(c.mappings[..v.index + 1], defaultAddr, host))
  {
    hide AcceptedSoFar;
    hide PortsAcceptable;
    hide InternalKeys;
    hide ExternalKeys;
    hide ValidRequest;
    hide MappingAddress;
    hide Flatten;
    var ms := c.mappings;
    NothingSeen();
    FlattenStep(ms, 0, defaultAddr, host);
    var seenExternal: set<string> := {};
    var seenInternal: set<string> := {};
    for i := 0 to |ms|
      invariant AcceptedSoFar(Flatten(ms[..i], defaultAddr, host))
      invariant seenInternal == InternalKeys(Flatten(ms[..i], defaultAddr, host))
      invariant seenExternal == ExternalKeys(Flatten(ms[..i], defaultAddr, host))
    {
      FlattenStep(ms, i, defaultAddr, host);
      var requests := MappingRequests(ms[i], defaultAddr, host);
      var ok := AllValid(requests);
      if ok {
        ok, seenInternal, seenExternal :=
          AddMapping(ms[i], requests, Flatten(ms[..i], defaultAddr, host), seenInternal, seenExternal);
      } else {
        InvalidRejected(Flatten(ms[..i], defaultAddr, host), requests);
      }
      if !ok {
        Rejected(ms, i, defaultAddr, host);
        return BadMapping(i);
      }
    }
    assert ms[..|ms|] == ms;
    AcceptedSoFarMeaning(Flatten(ms, defaultAddr, host));
    return Accepted;
  }

  lemma Rejected(ms: seq<PortMapping>, i: nat, defaultAddr: Addr, host: Host)
    requires i < |ms|
    requires AcceptedSoFar(Flatten(ms[..i], defaultAddr, host))
    requires !AcceptedSoFar(Flatten(ms[..i + 1], defaultAddr, host))
    ensures PortsAcceptable(Flatten(ms[..i], defaultAddr, host))
    ensures !PortsAcceptable(Flatten(ms[..i + 1], defaultAddr, host))
    ensures !PortsAcceptable(Flatten(ms, defaultAddr, host))
  {
    AcceptedSoFarMeaning(Flatten(ms[..i], defaultAddr, host));
    AcceptedSoFarMeaning(Flatten(ms[..i + 1], defaultAddr, host));
    AcceptedSoFarMeaning(Flatten(ms, defaultAddr, host));
    FlattenPrefix(ms, i + 1, defaultAddr, host);
  }

  /** The requests of a prefix of the mappings are a prefix of the requests. */
  lemma {:induction false} FlattenPrefix(ms: seq<PortMapping>, n: nat, defaultAddr: Addr, host: Host)
    requires n <= |ms|
    ensures AcceptedSoFar(Flatten(ms, defaultAddr, host)) ==> AcceptedSoFar(Flatten(ms[..n], defaultAddr, host))
  {
    if n == |ms| {
      assert ms[..n] == ms;
    } else {
      var init := ms[..|ms| - 1];
      assert init[..n] == ms[..n];
      FlattenPrefix(init, n, defaultAddr, host);
      if AcceptedSoFar(Flatten(ms, defaultAddr, host)) {
        PrefixAccepted(Flatten(init, defaultAddr, host), MappingRequests(ms[|ms| - 1], defaultAddr, host));
      }
    }
  }

  /** Config.Validate returns nil. */
  method Validate(c: Configuration, host: Host) returns (ok: bool)
    ensures ok <==> Acceptable(c, host)
  {
    if |c.mappings| == 0 { return false; }
    if !KnownLevel(host.normalize(c.logLevel)) { return false; }
    var detectOk := ValidateDetect(c.detect);
    if !detectOk { return false; }
    var defaultAddr := ValidateInternalAddresses(c, host);
    if defaultAddr.None? { return false; }
    var v := ValidatePorts(c, defaultAddr.value, host);
    return v.Accepted?;
  }

  // ---- What a configuration asks for, spelled out ----

  /** A configured address or interface, as the host resolves it; without either, the
      given one. */
  function Configured(address: string, iface: string, host: Host, otherwise: Addr): Addr {
    if address != "" then (match host.parseAddr(address) case Some(a) => a case None => Invalid)
    else if iface != "" then (match host.ifaceAddr(iface) case Some(a) => a case None => Invalid)
    else otherwise
  }

  /** The request of a mapping for a protocol: its own address, or the top-level one. */
  function Wanted(c: Configuration, m: PortMapping, p: Protocol, host: Host): Request {
    var default := Configured(c.internalAddress, c.internalIface, host, Invalid);
    Request(p, m.internalPort, Configured(m.internalAddress, m.internalIface, host, default), m.externalPort,
      m.description, m.lease, m.requireListener)
  }

  /** The requests of one mapping: TCP and then UDP for "both". */
  function WantedOf(c: Configuration, m: PortMapping, host: Host): seq<Request> {
    if m.protocol == "both" then [Wanted(c, m, "tcp", host), Wanted(c, m, "udp", host)]
    else [Wanted(c, m, m.protocol, host)]
  }

  function AllWanted(c: Configuration, ms: seq<PortMapping>, host: Host): seq<Request> {
    if ms == [] then [] else WantedOf(c, ms[0], host) + AllWanted(c, ms[1..], host)
  }

  lemma WantedOfExact(c: Configuration, m: PortMapping, host: Host)
    ensures MappingRequests(m, OrInvalid(DefaultAddress(c, host)), host) == WantedOf(c, m, host)
  {
    var rs := MappingRequests(m, OrInvalid(DefaultAddress(c, host)), host);
    assert |rs| == |WantedOf(c, m, host)|;
    assert forall i :: 0 <= i < |rs| ==> rs[i] == WantedOf(c, m, host)[i];
  }

  lemma {:induction false} WantedSnoc(c: Configuration, ms: seq<PortMapping>, m: PortMapping, host: Host)
    ensures AllWanted(c, ms + [m], host) == AllWanted(c, ms, host) + WantedOf(c, m, host)
  {
    hide WantedOf;
    if ms == [] {
      assert ms + [m] == [m] && [m][1..] == [];
      assert AllWanted(c, [m], host) == WantedOf(c, m, host) + AllWanted(c, [m][1..], host);
    } else {
      assert (ms + [m])[1..] == ms[1..] + [m];
      WantedSnoc(c, ms[1..], m, host);
    }
  }

  lemma {:induction false} FlattenIsWanted(c: Configuration, ms: seq<PortMapping>, host: Host)
    ensures Flatten(ms, OrInvalid(DefaultAddress(c, host)), host) == AllWanted(c, ms, host)
  {
    hide WantedOf;
    hide MappingRequests;
    if ms != [] {
      var init, m := ms[..|ms| - 1], ms[|ms| - 1];
      assert ms == init + [m];
      FlattenIsWanted(c, init, host);
      WantedOfExact(c, m, host);
      WantedSnoc(c, init, m, host);
    }
  }

  /** The requests are, in configuration order, what each mapping wants. */
  lemma RequestsAreWanted(c: Configuration, host: Host)
    ensures Requests(c, host) == AllWanted(c, c.mappings, host)
  {
    FlattenIsWanted(c, c.mappings, host);
  }
}
