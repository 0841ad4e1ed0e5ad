/** The PCP client and a gateway that guards its mappings with nonces, over a
    network that loses datagrams (section 11.3 of RFC 6887).

    The gateway serves one client address, and no datagram outlives its exchange.
    Every copy of a request that is delivered is served; the client then gets the
    reply to any one of them, or none. Class Session runs the client itself on such
    a network, and every call on it is one step of the runs considered here. */
module PcpAgreement {
  import opened Prelude
  import opened Wire
  import opened Netip
  import opened Mapping
  import opened Exchange
  import opened PcpCodec
  import opened PcpClient

  /** A mapping is found by protocol number and internal port. */
  datatype Slot = Slot(protocol: byte, internalPort: u16)

  /** The nonce each existing mapping was created with. */
  type Table = map<Slot, Nonce>

  /** What the gateway is free to decide for a datagram. */
  datatype Policy = Policy(refusal: byte, port: u16, secs: u32, epoch: u32, address: Addr)

  function SlotOf(b: Received): Slot { Slot(b.protocol, b.internalPort) }

  /** Whether the gateway refuses a request for its nonce. */
  predicate Mismatch(t: Table, bytes: seq<byte>) {
    ParseRequest(bytes).Some? &&
    var b := ParseRequest(bytes).value;
    SlotOf(b) in t && t[SlotOf(b)] != b.nonce
  }

  /** Whether the gateway refuses a request because it names another client than the
      one it came from. */
  predicate WrongClient(source: Addr, bytes: seq<byte>) {
    ParseRequest(bytes).Some? && ParseRequest(bytes).value.client != source.Canonical()
  }

  /** Whether the gateway refuses a request whatever it would decide for it. */
  predicate Unwelcome(t: Table, source: Addr, bytes: seq<byte>) {
    WrongClient(source, bytes) || Mismatch(t, bytes)
  }

  /** The gateway: parse, check the client's address and the nonce, then refuse,
      delete or map. */
  function Serve(t: Table, source: Addr, bytes: seq<byte>, p: Policy): (Table, seq<byte>) {
    match ParseRequest(bytes)
    case None => (t, [])
    case Some(b) =>
      var k := SlotOf(b);
      var echo := MapResponse(p.secs, p.epoch, b.nonce, b.protocol, b.internalPort, p.port, p.address);
      if WrongClient(source, bytes) then (t, PrintResponse(ADDRESS_MISMATCH, echo))
      else if Mismatch(t, bytes) then (t, PrintResponse(NOT_AUTHORIZED, echo))
      else if p.refusal != 0 then (t, PrintResponse(p.refusal, echo))
      else if b.lifetimeSec == 0 then (t - {k}, PrintResponse(0, echo.(lifetimeSec := 0)))
      else (t[k := b.nonce], PrintResponse(0, echo))
  }

  /** The gateway serves one delivered copy per policy; the replies in order. */
  function ServeAll(t: Table, source: Addr, bytes: seq<byte>, ps: seq<Policy>): (Table, seq<seq<byte>>) {
    if ps == [] then (t, [])
    else
      var (t', replies) := ServeAll(t, source, bytes, ps[..|ps| - 1]);
      var (t'', reply) := Serve(t', source, bytes, ps[|ps| - 1]);
      (t'', replies + [reply])
  }

  datatype World = World(cache: Cache, table: Table)

  const START := World(map[], map[])

  /** A call of the client with what the environment answers, or the gateway
      forgetting a mapping that expired or was lost in a reboot. */
  datatype Action =
    | CallMap(r: Request, dialed: Option<Addr>, newNonce: Option<Nonce>, delivered: seq<Policy>, pick: nat)
    | CallUnmap(r: Request, dialed: Option<Addr>, newNonce: Option<Nonce>, delivered: seq<Policy>, pick: nat)
    | CallProbe(dialed: Option<Addr>, newNonce: Option<Nonce>, delivered: seq<Policy>)
    | Forget(slot: Slot)

  /** The address of the socket a call uses. */
  function Source(a: Action): Addr {
    match a
    case CallMap(_, Some(addr), _, _, _) => addr
    case CallUnmap(_, Some(addr), _, _, _) => addr
    case CallProbe(Some(addr), _, _) => addr
    case _ => Invalid
  }

  /** The request an action sends, and the cache when it does. */
  function Sent(w: World, a: Action): (sent: (Cache, Option<MapRequest>))
    ensures sent.1.Some? ==> Encodable(sent.1.value) && sent.1.value.clientAddr == Source(a)
  {
    match a
    case CallMap(r, dialed, newNonce, _, _) =>
      if !ValidRequest(r) then (w.cache, None) else Prepare(w.cache, r, WireSeconds(r), dialed, newNonce)
    case CallUnmap(r, dialed, newNonce, _, _) =>
      if !ValidRequest(r) then (w.cache, None) else Prepare(w.cache, r, 0, dialed, newNonce)
    case CallProbe(dialed, newNonce, _) =>
      (w.cache, PrepareProbe(dialed, newNonce))
    case Forget(_) => (w.cache, None)
  }

  function Step(w: World, a: Action): World {
    if a.Forget? then w.(table := w.table - {a.slot})
    else
      var (cache, q) := Sent(w, a);
      if q.None? then w.(cache := cache)
      else
        var (table, replies) := ServeAll(w.table, Source(a), PrintRequest(q.value), a.delivered);
        if a.CallUnmap? then World(AfterUnmap(cache, a.r, q.value, PickUp(replies, a.pick)), table)
        else World(cache, table)
  }

  function Reached(w: World, run: seq<Action>): World {
    if run == [] then w else Step(Reached(w, run[..|run| - 1]), run[|run| - 1])
  }

  /** The nonce the client would use for a slot. */
  function CachedFor(cache: Cache, s: Slot): Option<Nonce> {
    var p := if s.protocol == 6 then TCP else UDP;
    if s.protocol in {6, 17} && NonceKey(p, s.internalPort) in cache
    then Some(cache[NonceKey(p, s.internalPort)]) else None
  }

  /** Every mapping the gateway holds has its nonce in the client's cache. */
  ghost predicate Agrees(w: World) {
    && (forall s <- w.table :: CachedFor(w.cache, s) == Some(w.table[s]))
    && (forall k <- w.cache :: ValidProtocol(k.protocol) && k.internalPort != 0)
  }

  function SlotFor(q: MapRequest): Slot
    requires Encodable(q)
  {
    Slot(IpProtocol(q.protocol).value, q.internalPort)
  }

  /** A delivered copy changes at most its own slot; if that held no foreign nonce
      before, the copy is not refused for its nonce and the slot holds none after. */
  lemma ServeOne(t: Table, source: Addr, q: MapRequest, p: Policy)
    requires Encodable(q) && q.clientAddr == source
    requires SlotFor(q) in t ==> t[SlotFor(q)] == q.nonce
    ensures
      var (t', reply) := Serve(t, source, PrintRequest(q), p);
      && !Unwelcome(t, source, PrintRequest(q))
      && (SlotFor(q) in t' ==> t'[SlotFor(q)] == q.nonce)
      && t' - {SlotFor(q)} == t - {SlotFor(q)}
      && (q.lifetimeSec == 0 && SlotFor(q) !in t ==> SlotFor(q) !in t')
      && (q.lifetimeSec == 0 && DecodeMapResponse(reply).Ok? ==> SlotFor(q) !in t')
  {
    hide PrintResponse;
    hide ParseRequest;
    hide DecodeMapResponse;
    RequestRoundTrip(q);
    if q.lifetimeSec == 0 && p.refusal != 0 {
      var echo := MapResponse(p.secs, p.epoch, q.nonce, SlotFor(q).protocol, q.internalPort, p.port, p.address);
      RefusalReported(p.refusal, echo);
    }
  }

  lemma {:induction false} ServeCopies(t: Table, source: Addr, q: MapRequest, ps: seq<Policy>)
    requires Encodable(q) && q.clientAddr == source
    requires SlotFor(q) in t ==> t[SlotFor(q)] == q.nonce
    ensures
      var (t', replies) := ServeAll(t, source, PrintRequest(q), ps);
      && |replies| == |ps|
      && !Unwelcome(t', source, PrintRequest(q))
      && (SlotFor(q) in t' ==> t'[SlotFor(q)] == q.nonce)
      && t' - {SlotFor(q)} == t - {SlotFor(q)}
      && (q.lifetimeSec == 0 && SlotFor(q) !in t ==> SlotFor(q) !in t')
      && (q.lifetimeSec == 0 ==>
            forall i :: 0 <= i < |replies| && DecodeMapResponse(replies[i]).Ok? ==> SlotFor(q) !in t')
  {
    hide Serve;
    hide PrintRequest;
    hide DecodeMapResponse;
    hide Unwelcome;
    hide WrongClient;
    hide Mismatch;
    if ps == [] {
      Welcome(t, source, q);
    } else {
      ServeCopies(t, source, q, ps[..|ps| - 1]);
      var (t', replies) := ServeAll(t, source, PrintRequest(q), ps[..|ps| - 1]);
      ServeOne(t', source, q, ps[|ps| - 1]);
      Welcome(Serve(t', source, PrintRequest(q), ps[|ps| - 1]).0, source, q);
    }
  }

  lemma Welcome(t: Table, source: Addr, q: MapRequest)
    requires Encodable(q)
    ensures Mismatch(t, PrintRequest(q)) <==> SlotFor(q) in t && t[SlotFor(q)] != q.nonce
    ensures WrongClient(source, PrintRequest(q)) <==> q.clientAddr.Canonical() != source.Canonical()
    ensures Unwelcome(t, source, PrintRequest(q)) <==>
      WrongClient(source, PrintRequest(q)) || Mismatch(t, PrintRequest(q))
  {
    hide ParseRequest;
    RequestRoundTrip(q);
  }

  /** Caching a nonce for a key without one disturbs no slot. */
  lemma CachingAgrees(w: World, k: NonceKey, nonce: Nonce)
    requires Agrees(w) && k !in w.cache && ValidProtocol(k.protocol) && k.internalPort != 0
    ensures Agrees(World(w.cache[k := nonce], w.table))
  {
  }

  /** What Map and Unmap send carries the nonce the gateway expects, if it expects
      one, and that nonce is cached. */
  lemma PrepareMatches(w: World, r: Request, secs: u32, dialed: Option<Addr>, newNonce: Option<Nonce>)
    requires Agrees(w) && ValidRequest(r)
    ensures
      var (cache, q) := Prepare(w.cache, r, secs, dialed, newNonce);
      && Agrees(World(cache, w.table))
      && (q.Some? ==>
            && Encodable(q.value) && q.value.lifetimeSec == secs
            && NonceKeyOf(r) == NonceKey(q.value.protocol, q.value.internalPort)
            && CachedFor(cache, SlotFor(q.value)) == Some(q.value.nonce)
            && (SlotFor(q.value) in w.table ==> w.table[SlotFor(q.value)] == q.value.nonce))
  {
    hide Agrees;
    var k := NonceKeyOf(r);
    if k !in w.cache && newNonce.Some? { CachingAgrees(w, k, newNonce.value); }
    var (cache, q) := Prepare(w.cache, r, secs, dialed, newNonce);
    if q.Some? && SlotFor(q.value) in w.table { AgreesAt(World(cache, w.table), SlotFor(q.value)); }
  }

  lemma AgreesAt(w: World, s: Slot)
    requires Agrees(w) && s in w.table
    ensures CachedFor(w.cache, s) == Some(w.table[s]) && s.internalPort != 0
  {
    var p := if s.protocol == 6 then TCP else UDP;
    assert NonceKey(p, s.internalPort) in w.cache;
  }

  /** What a call sends, whichever call it is. */
  lemma SentMatches(w: World, a: Action)
    requires Agrees(w)
    ensures Agrees(World(Sent(w, a).0, w.table))
    ensures Sent(w, a).1.Some? ==>
      var (cache, q) := (Sent(w, a).0, Sent(w, a).1.value);
      && Encodable(q)
      && (SlotFor(q) in w.table ==> w.table[SlotFor(q)] == q.nonce)
      && (a.CallProbe? ==> SlotFor(q) !in w.table && q.lifetimeSec == 0)
      && (!a.CallProbe? ==>
            CachedFor(cache, SlotFor(q)) == Some(q.nonce) && NonceKeyOf(a.r) == NonceKey(q.protocol, q.internalPort))
      && (a.CallUnmap? ==> q.lifetimeSec == 0)
  {
    hide Agrees;
    hide Prepare;
    match a
    case CallMap(r, dialed, newNonce, _, _) =>
      if ValidRequest(r) { PrepareMatches(w, r, WireSeconds(r), dialed, newNonce); }
    case CallUnmap(r, dialed, newNonce, _, _) =>
      if ValidRequest(r) { PrepareMatches(w, r, 0, dialed, newNonce); }
    case CallProbe(_, _, _) =>
      if Slot(6, 0) in w.table { AgreesAt(w, Slot(6, 0)); }
    case Forget(_) =>
  }

  /** Agreement is kept by every call, delivered or not, answered or not, and by
      the gateway forgetting. */
  lemma StepAgrees(w: World, a: Action)
    requires Agrees(w)
    ensures Agrees(Step(w, a))
  {
    hide Prepare;
    hide ServeAll;
    hide PrintRequest;
    hide DecodeMapResponse;
    SentMatches(w, a);
    if !a.Forget? && Sent(w, a).1.Some? {
      var (cache, q) := (Sent(w, a).0, Sent(w, a).1.value);
      ServeCopies(w.table, Source(a), q, a.delivered);
      var (table, replies) := ServeAll(w.table, Source(a), PrintRequest(q), a.delivered);
      ServedAgrees(cache, w.table, table, q);
      if a.CallUnmap? && Echoed(q, PickUp(replies, a.pick)).Ok? {
        assert DecodeMapResponse(replies[a.pick]).Ok?;
        DroppingAgrees(cache, table, q, NonceKeyOf(a.r));
      }
    }
  }

  lemma ServedAgrees(cache: Cache, t: Table, t': Table, q: MapRequest)
    requires Encodable(q) && Agrees(World(cache, t))
    requires SlotFor(q) in t' ==> t'[SlotFor(q)] == q.nonce
    requires t' - {SlotFor(q)} == t - {SlotFor(q)}
    requires SlotFor(q) in t' ==> CachedFor(cache, SlotFor(q)) == Some(q.nonce)
    ensures Agrees(World(cache, t'))
  {
    forall s | s in t' ensures CachedFor(cache, s) == Some(t'[s]) {
      if s != SlotFor(q) { assert s in t' - {SlotFor(q)} && s in t; assert (t - {SlotFor(q)})[s] == t'[s]; }
    }
  }

  /** Forgetting the nonce of a mapping the gateway no longer holds is safe. */
  lemma DroppingAgrees(cache: Cache, t: Table, q: MapRequest, k: NonceKey)
    requires Agrees(World(cache, t)) && Encodable(q) && SlotFor(q) !in t
    requires k == NonceKey(q.protocol, q.internalPort)
    ensures Agrees(World(cache - {k}, t))
  {
  }

  /** Nonce agreement in every run that starts with no mapping. */
  lemma {:induction false} EveryRunAgrees(run: seq<Action>)
    ensures Agrees(Reached(START, run))
  {
    hide Step;
    if run != [] {
      EveryRunAgrees(run[..|run| - 1]);
      StepAgrees(Reached(START, run[..|run| - 1]), run[|run| - 1]);
    }
  }

  /** So, whatever was lost before, no copy of any request the client sends is ever
      refused for its nonce. */
  lemma NeverRefusedForNonce(run: seq<Action>, a: Action, n: nat)
    requires !a.Forget? && n < |a.delivered| && Sent(Reached(START, run), a).1.Some?
    ensures
      var w, q := Reached(START, run), Sent(Reached(START, run), a).1.value;
      && Encodable(q)
      && !Unwelcome(ServeAll(w.table, Source(a), PrintRequest(q), a.delivered[..n]).0, Source(a), PrintRequest(q))
  {
    hide Sent;
    hide ServeAll;
    hide Unwelcome;
    hide WrongClient;
    hide Mismatch;
    EveryRunAgrees(run);
    var w := Reached(START, run);
    SentMatches(w, a);
    ServeCopies(w.table, Source(a), Sent(w, a).1.value, a.delivered[..n]);
  }

  /** Agreement is exactly what this needs: in any world, the first copy of a Map
      escapes refusal whatever nonce would be drawn if and only if the gateway holds
      nothing for it or the client caches that nonce. After a restart of the client
      the cache is empty while the gateway may still hold the mapping. */
  lemma AgreementIsNeeded(w: World, r: Request, client: Addr)
    requires ValidRequest(r) && client.IsValid()
    ensures
      var s := Slot(IpProtocol(r.protocol).value, r.internalPort);
      (forall newNonce: Nonce ::
        var q := Prepare(w.cache, r, WireSeconds(r), Some(client), Some(newNonce)).1;
        q.Some? && Encodable(q.value) && !Unwelcome(w.table, client, PrintRequest(q.value)))
      <==> (s in w.table ==> CachedFor(w.cache, s) == Some(w.table[s]))
  {
    hide PrintRequest;
    hide Unwelcome;
    hide WrongClient;
    hide Mismatch;
    var s := Slot(IpProtocol(r.protocol).value, r.internalPort);
    forall newNonce: Nonce
      ensures
        var q := Prepare(w.cache, r, WireSeconds(r), Some(client), Some(newNonce)).1;
        && q.Some? && Encodable(q.value)
        && (!Unwelcome(w.table, client, PrintRequest(q.value)) <==>
              (s in w.table ==> w.table[s] == (if NonceKeyOf(r) in w.cache then w.cache[NonceKeyOf(r)] else newNonce)))
    {
      Welcome(w.table, client, Prepare(w.cache, r, WireSeconds(r), Some(client), Some(newNonce)).1.value);
    }
    if s in w.table && NonceKeyOf(r) !in w.cache {
      var other: Nonce := if w.table[s] == Zeros(12) then Zeros(11) + [1] else Zeros(12);
      assert other != w.table[s] by {
        if w.table[s] == Zeros(12) { assert other[11] != Zeros(12)[11]; }
      }
      assert !(var q := Prepare(w.cache, r, WireSeconds(r), Some(client), Some(other)).1;
        q.Some? && Encodable(q.value) && !Unwelcome(w.table, client, PrintRequest(q.value)));
    }
  }

  /** A client that starts afresh can meet a mapping the gateway made for an earlier
      one; its Map is then refused, unless it happens to draw the earlier nonce. */
  lemma RestartedClientIsRefused(r: Request, client: Addr, earlier: Nonce, drawn: Nonce, p: Policy)
    requires ValidRequest(r) && client.IsValid() && p.refusal == 0
    ensures
      var before := Reached(START, [CallMap(r, Some(client), Some(earlier), [p], 0)]);
      var s := Slot(IpProtocol(r.protocol).value, r.internalPort);
      var restarted := World(map[], before.table);
      var q := Prepare(restarted.cache, r, WireSeconds(r), Some(client), Some(drawn)).1;
      && before.table == map[s := earlier] && CachedFor(before.cache, s) == Some(earlier)
      && q.Some? && Encodable(q.value)
      && (Unwelcome(restarted.table, client, PrintRequest(q.value)) <==> drawn != earlier)
  {
    hide PrintRequest;
    hide PrintResponse;
    hide ParseRequest;
    hide Unwelcome;
    hide WrongClient;
    hide Mismatch;
    var a := CallMap(r, Some(client), Some(earlier), [p], 0);
    assert [a][..0] == [] && [p][..0] == [];
    assert Reached(START, [a][..0]) == START;
    assert Reached(START, [a]) == Step(START, a);
    var sent := Query(r, earlier, client, WireSeconds(r));
    CreateNeverSentAsDelete(r);
    RequestRoundTrip(sent);
    Welcome(map[], client, sent);
    assert Sent(START, a) == (map[NonceKeyOf(r) := earlier], Some(sent));
    assert ServeAll(map[], client, PrintRequest(sent), [p]).0 == Serve(map[], client, PrintRequest(sent), p).0;
    Welcome(map[SlotFor(sent) := earlier], client, Query(r, drawn, client, WireSeconds(r)));
  }

  // ---- The client itself, opposite the gateway ----

  /** A copy of the datagram of an attempt that reaches the gateway. */
  datatype Copy = Copy(attempt: nat, policy: Policy)

  function Policies(copies: seq<Copy>): seq<Policy> {
    seq(|copies|, i requires 0 <= i < |copies| => copies[i].policy)
  }

  /** The gateway serves the copies that reach it. */
  function ServeSent(t: Table, source: Addr, made: seq<Attempt>, copies: seq<Copy>): (Table, seq<seq<byte>>)
    requires forall x <- copies :: x.attempt < |made|
  {
    if copies == [] then (t, [])
    else
      var (t', replies) := ServeSent(t, source, made, copies[..|copies| - 1]);
      var x := copies[|copies| - 1];
      var (t'', reply) := Serve(t', source, made[x.attempt].sent, x.policy);
      (t'', replies + [reply])
  }

  lemma {:induction false} ServeSentIsServeAll(t: Table, source: Addr, made: seq<Attempt>, copies: seq<Copy>,
      bytes: seq<byte>)
    requires forall x <- copies :: x.attempt < |made|
    requires forall a <- made :: a.sent == bytes
    ensures ServeSent(t, source, made, copies) == ServeAll(t, source, bytes, Policies(copies))
  {
    hide Serve;
    if copies != [] {
      ServeSentIsServeAll(t, source, made, copies[..|copies| - 1], bytes);
      assert Policies(copies)[..|copies| - 1] == Policies(copies[..|copies| - 1]);
    }
  }

  lemma ReplyFits(t: Table, source: Addr, bytes: seq<byte>, p: Policy)
    ensures |Serve(t, source, bytes, p).1| <= MESSAGE
  {
    hide ParseRequest;
  }

  lemma {:induction false} RepliesFit(t: Table, source: Addr, bytes: seq<byte>, ps: seq<Policy>)
    ensures forall b <- ServeAll(t, source, bytes, ps).1 :: |b| <= MESSAGE
  {
    hide Serve;
    if ps != [] {
      RepliesFit(t, source, bytes, ps[..|ps| - 1]);
      ReplyFits(ServeAll(t, source, bytes, ps[..|ps| - 1]).0, source, bytes, ps[|ps| - 1]);
    }
  }

  /** The network carries a call's datagrams to the gateway in the given copies, and
      nothing from the gateway's address but its replies to them. */
  ghost predicate Carries(c: Client, w: World, a: Action, net: Net, start: Time, copies: seq<Copy>)
  {
    Sent(w, a).1.Some? ==>
      var made := c.Asked(Sent(w, a).1.value, net, start).attempts;
      && (forall x <- copies :: x.attempt < |made|)
      && Brings(net, Endpoint(c.gateway, PORT), ServeSent(w.table, Source(a), made, copies).1)
  }

  /** The table after a call whose datagrams the network carries. */
  ghost function TableAfter(c: Client, w: World, a: Action, net: Net, start: Time, copies: seq<Copy>): Table
    requires Carries(c, w, a, net, start, copies)
  {
    if Sent(w, a).1.None? then w.table
    else ServeSent(w.table, Source(a), c.Asked(Sent(w, a).1.value, net, start).attempts, copies).0
  }

  /** No copy of anything a call sends is refused for its nonce or its client address,
      whichever copies were served before it. */
  ghost predicate NeverRefused(c: Client, w: World, a: Action, net: Net, start: Time, copies: seq<Copy>) {
    Sent(w, a).1.Some? ==>
      var made := c.Asked(Sent(w, a).1.value, net, start).attempts;
      forall n, i :: 0 <= n <= |copies| && 0 <= i < |made| && (forall x <- copies[..n] :: x.attempt < |made|) ==>
        !Unwelcome(ServeSent(w.table, Source(a), made, copies[..n]).0, Source(a), made[i].sent)
  }

  lemma {:induction false} SomeCopies(t: Table, source: Addr, q: MapRequest, made: seq<Attempt>, copies: seq<Copy>,
      i: nat)
    requires Encodable(q) && q.clientAddr == source && (SlotFor(q) in t ==> t[SlotFor(q)] == q.nonce)
    requires forall x <- copies :: x.attempt < |made|
    requires forall a <- made :: a.sent == PrintRequest(q)
    requires i < |made|
    ensures !Unwelcome(ServeSent(t, source, made, copies).0, source, made[i].sent)
  {
    hide PrintRequest;
    hide Serve;
    hide Unwelcome;
    hide WrongClient;
    hide Mismatch;
    ServeSentIsServeAll(t, source, made, copies, PrintRequest(q));
    ServeCopies(t, source, q, Policies(copies));
  }

  lemma CallNeverRefused(c: Client, w: World, a: Action, net: Net, start: Time, copies: seq<Copy>)
    requires Agrees(w)
    ensures NeverRefused(c, w, a, net, start, copies)
  {
    hide Sent;
    hide ExchangeRun;
    hide ServeSent;
    hide Unwelcome;
    hide WrongClient;
    hide Mismatch;
    hide PrintRequest;
    hide Agrees;
    SentMatches(w, a);
    if Sent(w, a).1.Some? {
      var q := Sent(w, a).1.value;
      var made := c.Asked(q, net, start).attempts;
      AllSentAreTheRequest(net, ParamsOf(c.gateway, c.initial, c.maxAttempts, q), start);
      forall n, i | 0 <= n <= |copies| && 0 <= i < |made| && (forall x <- copies[..n] :: x.attempt < |made|)
        ensures !Unwelcome(ServeSent(w.table, Source(a), made, copies[..n]).0, Source(a), made[i].sent)
      {
        SomeCopies(w.table, Source(a), q, made, copies[..n], i);
      }
    }
  }

  /** What the client picks up on such a network is one of the gateway's replies. */
  lemma CallPicksUp(c: Client, w: World, a: Action, net: Net, start: Time, copies: seq<Copy>)
    requires Carries(c, w, a, net, start, copies) && Sent(w, a).1.Some?
    ensures
      var q := Sent(w, a).1.value;
      var (table, replies) := ServeAll(w.table, Source(a), PrintRequest(q), Policies(copies));
      && TableAfter(c, w, a, net, start, copies) == table
      && exists pick: nat :: Picked(AsResult(c.Asked(q, net, start).reply), replies, pick)
  {
    hide Sent;
    hide ExchangeRun;
    hide ServeSent;
    hide ServeAll;
    hide PrintRequest;
    var q := Sent(w, a).1.value;
    var p := ParamsOf(c.gateway, c.initial, c.maxAttempts, q);
    var made := c.Asked(q, net, start).attempts;
    AllSentAreTheRequest(net, p, start);
    ServeSentIsServeAll(w.table, Source(a), made, copies, PrintRequest(q));
    RepliesFit(w.table, Source(a), PrintRequest(q), Policies(copies));
    ExchangePicksUp(net, p, start, ServeAll(w.table, Source(a), PrintRequest(q), Policies(copies)).1);
  }

  /** A call with the copies the gateway serves and the reply picked up. */
  function Served(a: Action, ps: seq<Policy>, pick: nat): Action {
    match a
    case CallMap(r, dialed, newNonce, _, _) => CallMap(r, dialed, newNonce, ps, pick)
    case CallUnmap(r, dialed, newNonce, _, _) => CallUnmap(r, dialed, newNonce, ps, pick)
    case CallProbe(dialed, newNonce, _) => CallProbe(dialed, newNonce, ps)
    case Forget(_) => a
  }

  /** The cache after an Unmap on a network. */
  function UnmappedCache(c: Client, w: World, a: Action, net: Net, start: Time): Cache
    requires a.CallUnmap?
  {
    var (cache, q) := Sent(w, a);
    if q.None? then cache else AfterUnmap(cache, a.r, q.value, AsResult(c.Asked(q.value, net, start).reply))
  }

  lemma UnmapIsStep(c: Client, w: World, a: Action, net: Net, start: Time, copies: seq<Copy>)
    requires a.CallUnmap? && Carries(c, w, a, net, start, copies)
    ensures exists pick: nat ::
      Step(w, Served(a, Policies(copies), pick))
        == World(UnmappedCache(c, w, a, net, start), TableAfter(c, w, a, net, start, copies))
  {
    hide ExchangeRun;
    hide ServeSent;
    hide ServeAll;
    hide PrintRequest;
    hide Prepare;
    hide DecodeMapResponse;
    if Sent(w, a).1.Some? {
      CallPicksUp(c, w, a, net, start, copies);
      var q := Sent(w, a).1.value;
      var replies := ServeAll(w.table, Source(a), PrintRequest(q), Policies(copies)).1;
      var pick: nat :| Picked(AsResult(c.Asked(q, net, start).reply), replies, pick);
      assert Step(w, Served(a, Policies(copies), pick))
        == World(UnmappedCache(c, w, a, net, start), TableAfter(c, w, a, net, start, copies));
    } else {
      assert Step(w, Served(a, Policies(copies), 0))
        == World(UnmappedCache(c, w, a, net, start), TableAfter(c, w, a, net, start, copies));
    }
  }

  lemma OtherIsStep(c: Client, w: World, a: Action, net: Net, start: Time, copies: seq<Copy>)
    requires (a.CallMap? || a.CallProbe?) && Carries(c, w, a, net, start, copies)
    ensures Step(w, Served(a, Policies(copies), 0))
      == World(Sent(w, a).0, TableAfter(c, w, a, net, start, copies))
  {
    hide ExchangeRun;
    hide ServeSent;
    hide ServeAll;
    hide PrintRequest;
    hide Prepare;
    if Sent(w, a).1.Some? { CallPicksUp(c, w, a, net, start, copies); }
  }

  /** The PCP client and its gateway from the start. Each call on a network that
      carries it is one step of a run, so client and gateway always agree and no copy
      of anything the client sends is refused for its nonce. */
  class Session {
    const client: Client
    ghost var table: Table
    ghost var actions: seq<Action>

    ghost function Now(): World
      reads this, client
    {
      World(client.nonces, table)
    }

    ghost predicate Valid()
      reads this, client
    {
      Now() == Reached(START, actions)
    }

    constructor (gateway: Addr, initial: nat, maxAttempts: int)
      ensures Valid() && fresh(client)
    {
      client := new Client(gateway, initial, maxAttempts);
      table, actions := map[], [];
    }

    /** One more step of the run. */
    ghost method Extend(w: World, a: Action, t: Table)
      requires w == Reached(START, actions) && Step(w, a) == World(client.nonces, t)
      modifies this
      ensures Valid() && table == t && Agrees(w) && Agrees(Now())
    {
      EveryRunAgrees(actions);
      actions := actions + [a];
      assert actions[..|actions| - 1] == old(actions);
      table := t;
      EveryRunAgrees(actions);
    }

    method Map(r: Request, io: Io, start: Time, ghost copies: seq<Copy>) returns (lease: Result<Lease>)
      requires Valid() && Carries(client, Now(), CallMap(r, io.dialed, io.newNonce, [], 0), io.net, start, copies)
      modifies this, client
      ensures Valid() && Agrees(Now())
      ensures
        var a := CallMap(r, io.dialed, io.newNonce, [], 0);
        && table == TableAfter(client, old(Now()), a, io.net, start, copies)
        && NeverRefused(client, old(Now()), a, io.net, start, copies)
    {
      ghost var w, a := Now(), CallMap(r, io.dialed, io.newNonce, [], 0);
      lease := client.Map(r, io, start);
      OtherIsStep(client, w, a, io.net, start, copies);
      Extend(w, Served(a, Policies(copies), 0), TableAfter(client, w, a, io.net, start, copies));
      CallNeverRefused(client, w, a, io.net, start, copies);
    }

    method Unmap(r: Request, io: Io, start: Time, ghost copies: seq<Copy>) returns (error: Option<Error>)
      requires Valid() && Carries(client, Now(), CallUnmap(r, io.dialed, io.newNonce, [], 0), io.net, start, copies)
      modifies this, client
      ensures Valid() && Agrees(Now())
      ensures
        var a := CallUnmap(r, io.dialed, io.newNonce, [], 0);
        && table == TableAfter(client, old(Now()), a, io.net, start, copies)
        && NeverRefused(client, old(Now()), a, io.net, start, copies)
    {
      ghost var w, a := Now(), CallUnmap(r, io.dialed, io.newNonce, [], 0);
      error := client.Unmap(r, io, start);
      UnmapIsStep(client, w, a, io.net, start, copies);
      ghost var t := TableAfter(client, w, a, io.net, start, copies);
      ghost var pick: nat :| Step(w, Served(a, Policies(copies), pick)) == World(client.nonces, t);
      Extend(w, Served(a, Policies(copies), pick), t);
      CallNeverRefused(client, w, a, io.net, start, copies);
    }

    method ExternalIP(io: Io, start: Time, ghost copies: seq<Copy>) returns (addr: Result<Addr>)
      requires Valid() && Carries(client, Now(), CallProbe(io.dialed, io.newNonce, []), io.net, start, copies)
      modifies this
      ensures Valid() && Agrees(Now())
      ensures
        var a := CallProbe(io.dialed, io.newNonce, []);
        && table == TableAfter(client, old(Now()), a, io.net, start, copies)
        && NeverRefused(client, old(Now()), a, io.net, start, copies)
    {
      ghost var w, a := Now(), CallProbe(io.dialed, io.newNonce, []);
      addr := client.ExternalIP(io, start);
      OtherIsStep(client, w, a, io.net, start, copies);
      Extend(w, Served(a, Policies(copies), 0), TableAfter(client, w, a, io.net, start, copies));
      CallNeverRefused(client, w, a, io.net, start, copies);
    }

    /** The gateway forgets a mapping. */
    ghost method Forget(s: Slot)
      requires Valid()
      modifies this
      ensures Valid() && Agrees(Now()) && table == old(table) - {s}
    {
      Extend(Now(), Action.Forget(s), table - {s});
    }
  }
}
