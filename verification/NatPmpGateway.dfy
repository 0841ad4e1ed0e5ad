/** The daemon on a NAT-PMP gateway (sections 3.3 and 3.4 of RFC 6886), over a
    network that loses datagrams: what is left in the gateway's own table.

    The gateway serves one client address, keeps the external port of a mapping it
    holds, and drops nothing by itself. Every copy of a request that is delivered is
    served; the client then gets the reply to any one of them, or none. */
module NatPmpGateway {
  import opened Prelude
  import opened Wire
  import opened Mapping
  import opened Config
  import opened Lifecycle
  import opened Scheduler
  import opened Refinement
  import opened Shutdown
  import opened Conservation
  import Exchange
  import opened Example
  import Codec = NatPmpCodec
  import Client = NatPmpClient

  /** A mapping is found by opcode and internal port. */
  datatype Slot = Slot(opcode: byte, internalPort: u16)

  /** The external port of each mapping. */
  type Table = map<Slot, u16>

  /** What the gateway is free to decide for a datagram. */
  datatype Policy = Policy(refusal: u16, port: u16, secs: u32, epoch: u32)

  /** The gateway: parse, then refuse, delete or map. */
  function Serve(t: Table, bytes: seq<byte>, p: Policy): (Table, seq<byte>) {
    match Codec.ParseRequest(bytes)
    case None => (t, [])
    case Some(q) =>
      if q.opcode != 1 && q.opcode != 2 then (t, [])
      else
        var s := Slot(q.opcode, q.internalPort);
        if p.refusal != 0 then (t, Reply(q, p, p.refusal, 0, 0))
        else if q.lifetimeSec == 0 then (t - {s}, Reply(q, p, 0, 0, 0))
        else
          var port := if s in t then t[s] else p.port;
          (t[s := port], Reply(q, p, 0, port, p.secs))
  }

  function Reply(q: Codec.MapRequest, p: Policy, code: u16, port: u16, secs: u32): seq<byte>
    requires q.opcode < 128
  {
    Codec.PrintResponse(q.opcode, code, Codec.MapResponse(p.epoch, q.internalPort, port, secs))
  }

  /** The gateway serves one delivered copy per policy; the replies in order. */
  function ServeAll(t: Table, bytes: seq<byte>, ps: seq<Policy>): (Table, seq<seq<byte>>) {
    if ps == [] then (t, [])
    else
      var (t', replies) := ServeAll(t, bytes, ps[..|ps| - 1]);
      var (t'', reply) := Serve(t', bytes, ps[|ps| - 1]);
      (t'', replies + [reply])
  }

  /** The gateway carries out at least one of the copies. */
  predicate Willing(ps: seq<Policy>) { exists i :: 0 <= i < |ps| && ps[i].refusal == 0 }

  function SlotFor(q: Codec.MapRequest): Slot { Slot(q.opcode, q.internalPort) }

  /** A success that the client reads from a reply is the gateway's own. */
  predicate SaysSo(t: Table, q: Codec.MapRequest, p: Protocol, reply: seq<byte>, willing: bool) {
    Codec.DecodeMapResponse(reply, p).Ok? ==>
      && willing
      && (q.lifetimeSec > 0 ==>
            SlotFor(q) in t && Codec.DecodeMapResponse(reply, p).value.externalPort == t[SlotFor(q)])
  }

  /** From table t to t': the slot of q is created or deleted if the gateway was
      willing, and nothing else changes. */
  predicate CarriedOut(t: Table, t': Table, q: Codec.MapRequest, willing: bool) {
    var s := SlotFor(q);
    && t' - {s} == t - {s}
    && (q.lifetimeSec > 0 ==> (s in t' <==> s in t || willing) && (s in t ==> t'[s] == t[s]))
    && (q.lifetimeSec == 0 ==> (s in t' <==> s in t && !willing) && (s in t' ==> t'[s] == t[s]))
  }

  lemma ServeOne(t: Table, q: Codec.MapRequest, proto: Protocol, p: Policy)
    requires Codec.MapOpcode(proto) == Some(q.opcode)
    ensures
      var (t', reply) := Serve(t, Codec.PrintRequest(q), p);
      && CarriedOut(t, t', q, p.refusal == 0)
      && SaysSo(t', q, proto, reply, p.refusal == 0)
      && |reply| == 16
  {
    hide Codec.PrintRequest;
    hide Codec.ParseRequest;
    hide Codec.DecodeMapResponse;
    hide Codec.PrintResponse;
    Codec.RequestRoundTrip(q);
    var (t', reply) := Serve(t, Codec.PrintRequest(q), p);
    var s := SlotFor(q);
    if p.refusal != 0 {
      Codec.RefusalReported(proto, p.refusal, Codec.MapResponse(p.epoch, q.internalPort, 0, 0));
    } else {
      var port := if q.lifetimeSec == 0 then 0 else if s in t then t[s] else p.port;
      var m := Codec.MapResponse(p.epoch, q.internalPort, port, if q.lifetimeSec == 0 then 0 else p.secs);
      assert reply[..16] == reply;
      Codec.DecodesWhatIsPrinted(reply, proto, m);
    }
  }

  lemma WillingGrow(ps: seq<Policy>)
    requires ps != []
    ensures Willing(ps) <==> Willing(ps[..|ps| - 1]) || ps[|ps| - 1].refusal == 0
  {
    var init := ps[..|ps| - 1];
    if Willing(init) {
      var i :| 0 <= i < |init| && init[i].refusal == 0;
      assert ps[i].refusal == 0;
    }
    if i :| 0 <= i < |ps| && ps[i].refusal == 0 {
      if i < |init| { assert init[i].refusal == 0; }
    }
  }

  lemma {:induction false} ServeCopies(t: Table, q: Codec.MapRequest, proto: Protocol, ps: seq<Policy>)
    requires Codec.MapOpcode(proto) == Some(q.opcode)
    ensures
      var (t', replies) := ServeAll(t, Codec.PrintRequest(q), ps);
      && CarriedOut(t, t', q, Willing(ps))
      && (forall b <- replies :: SaysSo(t', q, proto, b, Willing(ps)) && |b| == 16)
  {
    hide Serve;
    hide Codec.PrintRequest;
    hide Codec.DecodeMapResponse;
    hide Willing;
    if ps == [] {
      NobodyWilling();
    } else {
      var init, p := ps[..|ps| - 1], ps[|ps| - 1];
      WillingGrow(ps);
      ServeCopies(t, q, proto, init);
      ServeOne(ServeAll(t, Codec.PrintRequest(q), init).0, q, proto, p);
    }
  }

  lemma NobodyWilling()
    ensures !Willing([])
  {
  }

  // ---- Calls of the daemon ----

  /** What happens to a call on the network: the copies of its datagram that are
      delivered, the reply picked up, and for a Map what the address query after it
      returned and when. */
  datatype Traffic = Traffic(copies: seq<Policy>, pick: nat, address: Result<seq<byte>>, at: Time)

  /** The traffic of a call by key and position in the key's history. */
  type Link = (Key, nat) -> Traffic

  /** Whether the gateway carried out a call. */
  function Did(link: Link): Deeds { (k: Key, i: nat) => Willing(link(k, i).copies) }

  predicate IsCall(e: Event) { e.Map? || Deletes(e) }

  /** The request a call sends, if it sends one. */
  function Query(e: Event): (q: Option<Codec.MapRequest>)
    ensures q.Some? ==> IsCall(e) && Codec.MapOpcode(e.sent.protocol) == Some(q.value.opcode)
  {
    if e.Map? && ValidRequest(e.sent) then
      Some(Codec.MapRequest(Codec.MapOpcode(e.sent.protocol).value, e.sent.internalPort, e.sent.externalPort,
        WireSeconds(e.sent)))
    else if Deletes(e) && ValidRequest(e.sent) then
      Some(Codec.MapRequest(Codec.MapOpcode(e.sent.protocol).value, e.sent.internalPort, 0, 0))
    else None
  }

  /** The table after an event, and the gateway's replies. */
  function Carry(t: Table, e: Event, x: Traffic): (Table, seq<seq<byte>>) {
    if Query(e).None? then (t, []) else ServeAll(t, Codec.PrintRequest(Query(e).value), x.copies)
  }

  /** The outcome of a Map as the daemon sees it. */
  function AnswerOf(lease: Result<Lease>): MapAnswer {
    match lease case Ok(l) => MapAnswer.Granted(l) case Err(_) => MapFailed
  }

  /** The client's answer in an event is its answer to the reply it picks up. */
  predicate Answered(e: Event, x: Traffic, replies: seq<seq<byte>>) {
    var reply := Exchange.PickUp(replies, x.pick);
    && (IsCall(e) && Query(e).None? ==> x.copies == [])
    && (e.Map? ==> e.answer == AnswerOf(
          if Query(e).None? then Err(ErrOther) else Client.MapResult(e.sent, reply, x.address, x.at)))
    && (Deletes(e) ==> (e.ok <==> Query(e).Some? && Client.Released(e.sent, reply).None?))
  }

  /** The traffic of the latest event of a log. */
  function Latest(link: Link, log: seq<Event>): Traffic
    requires log != []
  {
    var e := log[|log| - 1];
    link(e.key, |Project(log[..|log| - 1], e.key)|)
  }

  /** The gateway's table after all events of a log. */
  function TableAt(link: Link, log: seq<Event>): Table {
    if log == [] then map[]
    else Carry(TableAt(link, log[..|log| - 1]), log[|log| - 1], Latest(link, log)).0
  }

  /** Every event of a log is answered by this gateway. */
  predicate AllAnswered(link: Link, log: seq<Event>) {
    log != [] ==>
      && AllAnswered(link, log[..|log| - 1])
      && Answered(log[|log| - 1], Latest(link, log),
           Carry(TableAt(link, log[..|log| - 1]), log[|log| - 1], Latest(link, log)).1)
  }

  /** A log one event longer. */
  lemma LogGrows(link: Link, log: seq<Event>, e: Event)
    ensures
      var x := link(e.key, |Project(log, e.key)|);
      && TableAt(link, log + [e]) == Carry(TableAt(link, log), e, x).0
      && (AllAnswered(link, log + [e]) <==>
            AllAnswered(link, log) && Answered(e, x, Carry(TableAt(link, log), e, x).1))
  {
    assert (log + [e])[..|log|] == log;
  }

  // ---- A carried-out call that is answered succeeds ----

  /** The reply to one of the copies. */
  lemma {:induction false} ReplyAt(t: Table, bytes: seq<byte>, ps: seq<Policy>, j: nat)
    requires j < |ps|
    ensures |ServeAll(t, bytes, ps).1| == |ps|
    ensures ServeAll(t, bytes, ps).1[j] == Serve(ServeAll(t, bytes, ps[..j]).0, bytes, ps[j]).1
  {
    hide Serve;
    var n := |ps| - 1;
    if j < n {
      ReplyAt(t, bytes, ps[..n], j);
      assert ps[..n][..j] == ps[..j];
    } else if n > 0 {
      ReplyAt(t, bytes, ps[..n], n - 1);
    }
  }

  /** The client's reading of a success. */
  lemma SuccessRead(t: Table, q: Codec.MapRequest, proto: Protocol, p: Policy)
    requires Codec.MapOpcode(proto) == Some(q.opcode) && p.refusal == 0
    ensures
      var reply := Serve(t, Codec.PrintRequest(q), p).1;
      var port := if q.lifetimeSec == 0 then 0 else if SlotFor(q) in t then t[SlotFor(q)] else p.port;
      Codec.DecodeMapResponse(reply, proto) == Ok(Codec.MapResponse(
        p.epoch, q.internalPort, port, if q.lifetimeSec == 0 then 0 else p.secs))
  {
    hide Codec.PrintRequest;
    hide Codec.ParseRequest;
    hide Codec.DecodeMapResponse;
    hide Codec.PrintResponse;
    Codec.RequestRoundTrip(q);
    var reply := Serve(t, Codec.PrintRequest(q), p).1;
    assert reply[..16] == reply;
    var port := if q.lifetimeSec == 0 then 0 else if SlotFor(q) in t then t[SlotFor(q)] else p.port;
    Codec.DecodesWhatIsPrinted(reply, proto,
      Codec.MapResponse(p.epoch, q.internalPort, port, if q.lifetimeSec == 0 then 0 else p.secs));
  }

  /** A call whose picked reply is the gateway's success is a success for the daemon:
      an Unmap or release always, a Map if the grant has a port and a lifetime and the
      address query succeeds. */
  lemma SuccessIsReported(t: Table, e: Event, x: Traffic)
    requires Query(e).Some? && Answered(e, x, Carry(t, e, x).1)
    requires x.pick < |x.copies| && x.copies[x.pick].refusal == 0
    ensures Deletes(e) ==> e.ok
    ensures
      var s := Slot(if e.sent.protocol == "tcp" then 2 else 1, e.sent.internalPort);
      e.Map? && x.copies[x.pick].secs != 0 && Client.Address(x.address).Ok?
      && (s in t ==> t[s] != 0) && (forall p <- x.copies :: p.port != 0) ==>
        Recorded(e)
  {
    hide ServeAll;
    hide Serve;
    hide Codec.PrintRequest;
    hide Codec.DecodeMapResponse;
    hide Client.Address;
    var q, j := Query(e).value, x.pick;
    var bytes := Codec.PrintRequest(q);
    var before := ServeAll(t, bytes, x.copies[..j]).0;
    ReplyAt(t, bytes, x.copies, j);
    SuccessRead(before, q, e.sent.protocol, x.copies[j]);
    if e.Map? {
      CreateNeverSentAsDelete(e.sent);
      FromWireSecondsExact(x.copies[j].secs);
      if (SlotFor(q) in t ==> t[SlotFor(q)] != 0) && forall p <- x.copies :: p.port != 0 {
        PortsStayGranted(t, q, x.copies, j);
      }
    }
  }

  /** Ports in the table come from the policies. */
  lemma {:induction false} PortsStayGranted(t: Table, q: Codec.MapRequest, ps: seq<Policy>, j: nat)
    requires j <= |ps| && (SlotFor(q) in t ==> t[SlotFor(q)] != 0) && forall p <- ps :: p.port != 0
    requires q.opcode == 1 || q.opcode == 2
    ensures
      var t' := ServeAll(t, Codec.PrintRequest(q), ps[..j]).0;
      SlotFor(q) in t' ==> t'[SlotFor(q)] != 0
  {
    hide Codec.PrintRequest;
    hide Codec.ParseRequest;
    hide Codec.PrintResponse;
    Codec.RequestRoundTrip(q);
    if j > 0 {
      assert ps[..j][..j - 1] == ps[..j - 1];
      PortsStayGranted(t, q, ps, j - 1);
    }
  }

  // ---- A real exchange is such traffic ----

  /** A Map of the client, on a network that brings nothing from the gateway but its
      replies to the delivered copies, is an event this gateway answers. */
  lemma MapIsAnswered(c: Client.Client, k: Key, r: Request, io: Client.Io, addressIo: Client.Io, start: Time,
      t: Table, ps: seq<Policy>)
    requires !ValidRequest(r) || !io.dialed ==> ps == []
    requires ValidRequest(r) && io.dialed ==>
      Exchange.Brings(io.net, Exchange.Endpoint(c.gateway, Client.PORT), ServeAll(t, Client.MapBytes(r), ps).1)
    ensures
      var e := Event.Map(k, r, AnswerOf(Client.MapOutcome(c, r, io, addressIo, start).0));
      exists x: Traffic :: x.copies == ps && Answered(e, x, Carry(t, e, x).1)
  {
    hide Exchange.ExchangeRun;
    hide Codec.PrintRequest;
    hide Codec.DecodeMapResponse;
    hide Codec.DecodeAddressResponse;
    hide ServeAll;
    var e := Event.Map(k, r, AnswerOf(Client.MapOutcome(c, r, io, addressIo, start).0));
    if ValidRequest(r) {
      var bytes := Client.MapBytes(r);
      var (reply, t1) := Client.Asked(c, io, bytes, 16, start);
      var (address, t2) := Client.Asked(c, addressIo, Codec.ADDRESS_REQUEST, 12, t1);
      var replies := ServeAll(t, bytes, ps).1;
      var pick := PickOf(c, r, io, bytes, start, t, ps);
      var x := Traffic(ps, pick, address, t2);
      assert Carry(t, e, x).1 == replies;
      assert Answered(e, x, replies);
    } else {
      var x := Traffic([], 0, Err(ErrOther), start);
      assert Answered(e, x, Carry(t, e, x).1);
    }
  }

  /** The reply an exchange picked up. */
  lemma PickOf(c: Client.Client, r: Request, io: Client.Io, bytes: seq<byte>, start: Time, t: Table, ps: seq<Policy>)
    returns (pick: nat)
    requires ValidRequest(r) && (bytes == Client.MapBytes(r) || bytes == Client.UnmapBytes(r))
    requires !io.dialed ==> ps == []
    requires io.dialed ==>
      Exchange.Brings(io.net, Exchange.Endpoint(c.gateway, Client.PORT), ServeAll(t, bytes, ps).1)
    ensures Exchange.Picked(Client.Asked(c, io, bytes, 16, start).0, ServeAll(t, bytes, ps).1, pick)
  {
    hide Exchange.ExchangeRun;
    hide Codec.PrintRequest;
    hide Codec.DecodeMapResponse;
    hide Serve;
    var secs := if bytes == Client.MapBytes(r) then WireSeconds(r) else 0;
    var port := if bytes == Client.MapBytes(r) then r.externalPort else 0;
    var q := Codec.MapRequest(Codec.MapOpcode(r.protocol).value, r.internalPort, port, secs);
    var replies := ServeAll(t, bytes, ps).1;
    ServeCopies(t, q, r.protocol, ps);
    if io.dialed {
      Exchange.ExchangePicksUp(io.net, Client.ParamsOf(c, bytes, 16), start, replies);
      pick :| Exchange.Picked(Client.Asked(c, io, bytes, 16, start).0, replies, pick);
    } else {
      pick := |replies|;
    }
  }

  /** The same for an Unmap, before shutdown or at shutdown. */
  lemma UnmapIsAnswered(c: Client.Client, k: Key, r: Request, io: Client.Io, start: Time, t: Table, ps: seq<Policy>,
      atShutdown: bool)
    requires !ValidRequest(r) || !io.dialed ==> ps == []
    requires ValidRequest(r) && io.dialed ==>
      Exchange.Brings(io.net, Exchange.Endpoint(c.gateway, Client.PORT), ServeAll(t, Client.UnmapBytes(r), ps).1)
    ensures
      var ok := ValidRequest(r) && Client.Released(r, Client.Asked(c, io, Client.UnmapBytes(r), 16, start).0).None?;
      var e := if atShutdown then Event.Release(k, r, ok) else Event.Unmap(k, r, ok);
      exists x: Traffic :: x.copies == ps && Answered(e, x, Carry(t, e, x).1)
  {
    hide Exchange.ExchangeRun;
    hide Codec.PrintRequest;
    hide Codec.DecodeMapResponse;
    hide ServeAll;
    var ok := ValidRequest(r) && Client.Released(r, Client.Asked(c, io, Client.UnmapBytes(r), 16, start).0).None?;
    var e := if atShutdown then Event.Release(k, r, ok) else Event.Unmap(k, r, ok);
    if ValidRequest(r) {
      var pick := PickOf(c, r, io, Client.UnmapBytes(r), start, t, ps);
      var x := Traffic(ps, pick, Err(ErrOther), start);
      assert Answered(e, x, Carry(t, e, x).1);
    } else {
      var x := Traffic([], 0, Err(ErrOther), start);
      assert Answered(e, x, Carry(t, e, x).1);
    }
  }

  // ---- The table follows every mapping's history ----

  function SlotOf(k: Key): Slot
    requires ValidProtocol(k.protocol)
  {
    Slot(Codec.MapOpcode(k.protocol).value, k.internalPort)
  }

  /** The request of a call is one for the event's key. */
  predicate Matches(e: Event) {
    IsCall(e) ==> e.sent.protocol == e.key.protocol && e.sent.internalPort == e.key.internalPort
  }

  /** What an event does to the slot of its own key. */
  lemma OwnEvent(t: Table, e: Event, x: Traffic)
    requires ValidProtocol(e.key.protocol) && Matches(e) && Answered(e, x, Carry(t, e, x).1)
    ensures
      var t', s, done := Carry(t, e, x).0, SlotOf(e.key), Willing(x.copies);
      && (s in t' <==> HeldAfter(s in t, e, done))
      && (s in t && s in t' ==> t'[s] == t[s])
      && (Recorded(e) ==> done && s in t' && t'[s] == e.answer.lease.externalPort)
      && (Deletes(e) && e.ok ==> done)
  {
    hide ServeAll;
    hide Codec.PrintRequest;
    hide Codec.DecodeMapResponse;
    hide Client.Address;
    if Query(e).Some? {
      if e.Map? { CreateNeverSentAsDelete(e.sent); }
      ServeCopies(t, Query(e).value, e.sent.protocol, x.copies);
      var (t', replies) := Carry(t, e, x);
      if x.pick < |replies| {
        assert SaysSo(t', Query(e).value, e.sent.protocol, replies[x.pick], Willing(x.copies));
      }
    } else {
      NobodyWilling();
    }
  }

  /** An event of another key leaves the slot alone. */
  lemma OtherEvent(t: Table, e: Event, x: Traffic, s: Slot)
    requires Query(e).Some? ==> SlotFor(Query(e).value) != s
    ensures
      var t' := Carry(t, e, x).0;
      (s in t' <==> s in t) && (s in t ==> t'[s] == t[s])
  {
    hide ServeAll;
    hide Codec.PrintRequest;
    hide Codec.DecodeMapResponse;
    if Query(e).Some? {
      var q := Query(e).value;
      ServeCopies(t, q, e.sent.protocol, x.copies);
      var t' := Carry(t, e, x).0;
      assert s in t <==> s in t - {SlotFor(q)};
      assert s in t' <==> s in t' - {SlotFor(q)};
      assert s in t ==> (t - {SlotFor(q)})[s] == t[s] && (t' - {SlotFor(q)})[s] == t'[s];
    }
  }

  /** Keys with valid protocols and a slot each. */
  ghost predicate OwnSlots(keys: set<Key>) {
    && (forall k <- keys :: ValidProtocol(k.protocol))
    && (forall k, k' :: k in keys && k' in keys && k != k' ==> SlotOf(k) != SlotOf(k'))
  }

  predicate Keyed(log: seq<Event>, keys: set<Key>) {
    forall e <- log :: e.key in keys && Matches(e)
  }

  lemma QuerySlot(e: Event)
    requires ValidProtocol(e.key.protocol) && Matches(e) && Query(e).Some?
    ensures SlotFor(Query(e).value) == SlotOf(e.key)
  {
  }

  /** The gateway holds a mapping's slot exactly as its history says, and with the
      external port the daemon recorded. */
  ghost predicate Follows(link: Link, r: Request, log: seq<Event>)
    requires ValidProtocol(r.protocol)
  {
    var t, a, k := TableAt(link, log), Replay(r, log), KeyOf(r);
    && (SlotOf(k) in t <==> Held(Did(link), k, Project(log, k)))
    && Truthful(Did(link), k, Project(log, k))
    && (a.lease.Some? && a.phase != Closed ==> SlotOf(k) in t && t[SlotOf(k)] == a.lease.value.externalPort)
  }

  lemma StepPort(r: Request, a: Auto, e: Event)
    requires e.key == KeyOf(r) && Step(r, a, e).phase != Stuck
    requires Step(r, a, e).lease.Some? && Step(r, a, e).phase != Closed
    ensures if Recorded(e) then Step(r, a, e).lease == Some(e.answer.lease)
            else a.lease == Step(r, a, e).lease && a.phase != Closed && !Deletes(e)
  {
  }

  lemma TruthfulExtend(did: Deeds, k: Key, before: seq<Event>, e: Event)
    requires Truthful(did, k, before)
    requires Recorded(e) || (Deletes(e) && e.ok) ==> did(k, |before|)
    ensures Truthful(did, k, before + [e])
  {
    var tr := before + [e];
    forall i | 0 <= i < |tr| && (Recorded(tr[i]) || (Deletes(tr[i]) && tr[i].ok)) ensures did(k, i) {
      if i < |before| { assert tr[i] == before[i]; }
    }
  }

  lemma FollowsOwn(link: Link, r: Request, before: seq<Event>, e: Event)
    requires ValidProtocol(r.protocol) && e.key == KeyOf(r) && Matches(e)
    requires Follows(link, r, before) && AllAnswered(link, before + [e])
    requires Replay(r, before + [e]).phase != Stuck
    ensures Follows(link, r, before + [e])
  {
    hide Carry;
    hide Answered;
    hide AllAnswered;
    hide TableAt;
    hide Project;
    hide Held;
    hide Replay;
    hide Step;
    hide HeldAfter;
    hide Truthful;
    hide Recorded;
    hide Willing;
    hide SlotOf;
    var k, tr := KeyOf(r), Project(before, KeyOf(r));
    var t, x := TableAt(link, before), link(k, |tr|);
    LogGrows(link, before, e);
    ProjectEmit(before, e, k);
    HeldEmit(Did(link), k, tr, e);
    OwnEvent(t, e, x);
    TruthfulExtend(Did(link), k, tr, e);
    ReplayEmit(r, before, e);
    var a := Step(r, Replay(r, before), e);
    if a.lease.Some? && a.phase != Closed {
      StepPort(r, Replay(r, before), e);
      KeptUnlessDeleted(e, Willing(x.copies));
    }
  }

  lemma KeptUnlessDeleted(e: Event, done: bool)
    ensures !Deletes(e) ==> HeldAfter(true, e, done)
  {
  }

  lemma FollowsOther(link: Link, r: Request, before: seq<Event>, e: Event)
    requires ValidProtocol(r.protocol) && e.key != KeyOf(r) && Matches(e)
    requires ValidProtocol(e.key.protocol) && SlotOf(e.key) != SlotOf(KeyOf(r))
    requires Follows(link, r, before)
    ensures Follows(link, r, before + [e])
  {
    hide Carry;
    hide TableAt;
    hide Project;
    hide Replay;
    hide Held;
    hide Truthful;
    LogGrows(link, before, e);
    ProjectEmit(before, e, KeyOf(r));
    ReplayEmit(r, before, e);
    if Query(e).Some? { QuerySlot(e); }
    OtherEvent(TableAt(link, before), e, link(e.key, |Project(before, e.key)|), SlotOf(KeyOf(r)));
  }

  lemma {:induction false} TableFollows(link: Link, r: Request, keys: set<Key>, log: seq<Event>)
    requires OwnSlots(keys) && KeyOf(r) in keys && Keyed(log, keys)
    requires AllAnswered(link, log) && Replay(r, log).phase != Stuck
    ensures Follows(link, r, log)
  {
    hide Follows;
    hide Carry;
    hide Answered;
    hide Matches;
    if log == [] {
      FollowsNothing(link, r);
    } else {
      var before, e := log[..|log| - 1], log[|log| - 1];
      assert log == before + [e];
      if Replay(r, before).phase == Stuck { StuckStays(r, log, |before|); }
      TableFollows(link, r, keys, before);
      if e.key == KeyOf(r) { FollowsOwn(link, r, before, e); } else { FollowsOther(link, r, before, e); }
    }
  }

  lemma FollowsNothing(link: Link, r: Request)
    requires ValidProtocol(r.protocol)
    ensures Follows(link, r, [])
  {
  }

  // ---- Whole runs ----

  lemma KeyedEmit(log: seq<Event>, e: Event, keys: set<Key>)
    requires Keyed(log, keys) && e.key in keys && Matches(e)
    ensures Keyed(log + [e], keys)
  {
  }

  lemma AttemptKeyed(env: Env, s: State, r: Request, keys: set<Key>)
    requires Keyed(s.log, keys) && KeyOf(r) in keys
    ensures Keyed(Attempt(env, s, r).log, keys)
  {
    hide Keyed;
    var k := KeyOf(r);
    var e := Event.Map(k, MapRequest(r, Get(s.leases, k)), env.mapAnswer(s.tick));
    KeyedEmit(s.log, e, keys);
    KeyedEmit(s.log + [e], Clock(k, env.now(s.tick + 1)), keys);
  }

  lemma ParkKeyed(env: Env, s: State, r: Request, keys: set<Key>)
    requires Keyed(s.log, keys) && KeyOf(r) in keys
    ensures Keyed(Park(env, s, r).log, keys)
  {
    hide Keyed;
    var k, s' := KeyOf(r), ReleaseOne(env, s, r);
    if k in s.leases {
      KeyedEmit(s.log, Event.Unmap(k, ReleaseRequest(r, s.leases[k]), env.unmapOk(s.tick)), keys);
    }
    KeyedEmit(s'.log, Clock(k, env.now(s'.tick)), keys);
  }

  lemma ReconcileKeyed(env: Env, s: State, r: Request, at: Option<Time>, keys: set<Key>)
    requires Keyed(s.log, keys) && KeyOf(r) in keys
    ensures Keyed(ReconcileOne(env, WakeUp(s, KeyOf(r), at), r).log, keys)
  {
    hide Keyed;
    hide Attempt;
    hide Park;
    var w := WakeUp(s, KeyOf(r), at);
    KeyedEmit(s.log, Wake(KeyOf(r), at), keys);
    AttemptKeyed(env, w, r, keys);
    if r.requireListener {
      var e := Check(KeyOf(r), env.presence(w.tick));
      KeyedEmit(w.log, e, keys);
      AttemptKeyed(env, Emit(w, e), r, keys);
      ParkKeyed(env, Emit(w, e), r, keys);
    }
  }

  predicate KeysAmong(rs: seq<Request>, keys: set<Key>) { forall r <- rs :: KeyOf(r) in keys }

  lemma {:induction false} PassesKeyed(env: Env, s: State, rs: seq<Request>, now: Time, keys: set<Key>)
    requires Keyed(s.log, keys) && KeysAmong(rs, keys)
    ensures Keyed(StartPass(env, s, rs).log, keys)
    ensures Keyed(DuePass(env, s, rs, now).log, keys)
    ensures Keyed(ReleasePass(env, s, rs).0.log, keys)
  {
    hide Keyed;
    hide ReconcileOne;
    if rs != [] {
      var init, r := rs[..|rs| - 1], rs[|rs| - 1];
      PassesKeyed(env, s, init, now, keys);
      ReconcileKeyed(env, StartPass(env, s, init), r, None, keys);
      ReconcileKeyed(env, DuePass(env, s, init, now), r, Some(now), keys);
      ReleaseKeyed(env, ReleasePass(env, s, init), r, keys);
    }
  }

  lemma ReleaseKeyed(env: Env, before: (State, nat), r: Request, keys: set<Key>)
    requires Keyed(before.0.log, keys) && KeyOf(r) in keys
    ensures Keyed(ReleaseStep(env, before, r).0.log, keys)
  {
    hide Keyed;
    var (s, _) := before;
    var k := KeyOf(r);
    if k in s.leases {
      KeyedEmit(s.log, Event.Release(k, ReleaseRequest(r, s.leases[k]), env.unmapOk(s.tick)), keys);
    }
  }

  lemma RequestsAmong(c: Configuration, host: Host)
    ensures KeysAmong(Requests(c, host), Keys(Plan(c.mappings)))
  {
    var rs := Requests(c, host);
    RequestsFollowPlan(c, host);
    KeysOfShapes(rs);
  }

  lemma {:induction false} RunKeyed(env: Env, c: Configuration, n: nat)
    ensures Keyed(Rounds(env, c, n).log, Keys(Plan(c.mappings)))
  {
    hide Keyed;
    hide StartPass;
    hide DuePass;
    hide Requests;
    hide Plan;
    hide Keys;
    var keys := Keys(Plan(c.mappings));
    if n == 0 {
      var s := Refresh(env, EMPTY);
      NothingKeyed(keys);
      RequestsAmong(c, env.host(s.tick));
      PassesKeyed(env, Tick(s), Requests(c, env.host(s.tick)), 0, keys);
    } else {
      RunKeyed(env, c, n - 1);
      var s1 := Refresh(env, Waited(Rounds(env, c, n - 1)));
      var s2 := Tick(s1);
      RequestsAmong(c, env.host(s2.tick));
      PassesKeyed(env, Tick(s2), Requests(c, env.host(s2.tick)), env.now(s1.tick), keys);
    }
  }

  lemma NothingKeyed(keys: set<Key>)
    ensures Keyed([], keys)
  {
  }

  lemma ShutdownKeyed(env: Env, c: Configuration, n: nat)
    ensures Keyed(ReleaseAll(env, Waited(Rounds(env, c, n)), c).0.log, Keys(Plan(c.mappings)))
  {
    hide Keyed;
    hide Rounds;
    hide Requests;
    hide ReleasePass;
    hide Plan;
    hide Keys;
    var s := Waited(Rounds(env, c, n));
    RunKeyed(env, c, n);
    RequestsAmong(c, env.host(s.tick));
    PassesKeyed(env, Tick(s), Requests(c, env.host(s.tick)), 0, Keys(Plan(c.mappings)));
  }

  /** The mappings of a validated configuration have a slot each at the gateway. */
  lemma ValidatedSlots(c: Configuration, host: Host)
    requires Acceptable(c, host)
    ensures OwnSlots(Keys(Plan(c.mappings)))
    ensures forall r <- Plan(c.mappings) :: ValidProtocol(r.protocol) && KeyOf(r) in Keys(Plan(c.mappings))
  {
    var rs, plan := Requests(c, host), Plan(c.mappings);
    ValidatedKeysDistinct(c, host);
    RequestsFollowPlan(c, host);
    assert forall i :: 0 <= i < |plan| ==> plan[i] == Shape(rs[i]) && ValidRequest(rs[i]);
    SlotsOf(plan);
  }

  lemma SlotsOf(plan: seq<Request>)
    requires forall i :: 0 <= i < |plan| ==> ValidProtocol(plan[i].protocol)
    requires forall i, j :: 0 <= i < j < |plan| ==>
      (plan[i].protocol, plan[i].internalPort) != (plan[j].protocol, plan[j].internalPort)
    ensures OwnSlots(Keys(plan))
    ensures forall r <- plan :: KeyOf(r) in Keys(plan)
  {
    forall k, k' | k in Keys(plan) && k' in Keys(plan) && k != k' ensures SlotOf(k) != SlotOf(k') {
      var i :| 0 <= i < |plan| && KeyOf(plan[i]) == k;
      var j :| 0 <= j < |plan| && KeyOf(plan[j]) == k';
      assert (plan[i].protocol, plan[i].internalPort) != (plan[j].protocol, plan[j].internalPort);
    }
  }

  /** Before shutdown, in every run on a NAT-PMP gateway: a recorded lease is held by
      the gateway with the recorded external port; a mapping without one is held
      exactly if it went astray. */
  lemma RecordedIsHeldThere(env: Env, c: Configuration, host: Host, n: nat, i: nat, link: Link)
    requires Acceptable(c, host) && i < |Plan(c.mappings)|
    ensures ValidProtocol(Plan(c.mappings)[i].protocol)
    ensures
      var k, s := KeyOf(Plan(c.mappings)[i]), Rounds(env, c, n);
      var t := TableAt(link, s.log);
      AllAnswered(link, s.log) ==>
        if k in s.leases then SlotOf(k) in t && t[SlotOf(k)] == s.leases[k].externalPort
        else SlotOf(k) in t <==> Astray(Did(link), k, Project(s.log, k))
  {
    hide Rounds;
    hide AllAnswered;
    hide Keyed;
    hide OwnSlots;
    hide Replay;
    hide Held;
    hide Astray;
    hide Truthful;
    hide Project;
    hide Plan;
    var r, s, keys := Plan(c.mappings)[i], Rounds(env, c, n), Keys(Plan(c.mappings));
    ValidatedSlots(c, host);
    RunKeyed(env, c, n);
    ReplayOfRun(env, c, host, n, i);
    if AllAnswered(link, s.log) {
      TableFollows(link, r, keys, s.log);
      RecordedIsHeld(env, c, host, n, i, Did(link));
    }
  }

  lemma ReplayOfRun(env: Env, c: Configuration, host: Host, n: nat, i: nat)
    requires Acceptable(c, host) && i < |Plan(c.mappings)|
    ensures
      var r, s := Plan(c.mappings)[i], Rounds(env, c, n);
      Replay(r, s.log) == Auto(Idle, Get(s.leases, KeyOf(r)), Get(s.nextAt, KeyOf(r)))
  {
    PerMappingRefinement(env, c, host, n, i);
    ReplayProject(Plan(c.mappings)[i], Rounds(env, c, n).log);
  }

  /** After shutdown, in every run on a NAT-PMP gateway: a mapping is left in the
      gateway's table exactly if it went astray. */
  lemma LeftInTheTable(env: Env, c: Configuration, host: Host, n: nat, i: nat, link: Link)
    requires Acceptable(c, host) && i < |Plan(c.mappings)|
    ensures ValidProtocol(Plan(c.mappings)[i].protocol)
    ensures
      var k, s' := KeyOf(Plan(c.mappings)[i]), ReleaseAll(env, Waited(Rounds(env, c, n)), c).0;
      AllAnswered(link, s'.log) ==>
        (SlotOf(k) in TableAt(link, s'.log) <==> Astray(Did(link), k, Project(s'.log, k)))
  {
    hide Rounds;
    hide ReleaseAll;
    hide AllAnswered;
    hide Keyed;
    hide OwnSlots;
    hide Replay;
    hide Held;
    hide Astray;
    hide Truthful;
    hide Project;
    hide Plan;
    hide Sticky;
    hide Gated;
    hide LastGranted;
    var r, keys := Plan(c.mappings)[i], Keys(Plan(c.mappings));
    var s' := ReleaseAll(env, Waited(Rounds(env, c, n)), c).0;
    ValidatedSlots(c, host);
    ShutdownKeyed(env, c, n);
    EveryMappingClosed(env, c, host, n, i);
    ReplayProject(r, s'.log);
    if AllAnswered(link, s'.log) {
      TableFollows(link, r, keys, s'.log);
      LeftAtTheGateway(env, c, host, n, i, Did(link));
    }
  }

  /** The gateway holds nothing but slots of configured mappings. */
  lemma {:induction false} NothingElse(link: Link, log: seq<Event>, keys: set<Key>)
    requires OwnSlots(keys) && Keyed(log, keys)
    ensures forall s <- TableAt(link, log) :: exists k :: k in keys && SlotOf(k) == s
  {
    hide Carry;
    if log != [] {
      var before, e := log[..|log| - 1], log[|log| - 1];
      NothingElse(link, before, keys);
      assert e in log;
      forall s | s in TableAt(link, log) ensures exists k :: k in keys && SlotOf(k) == s {
        if SlotOf(e.key) != s {
          if Query(e).Some? { QuerySlot(e); }
          OtherEvent(TableAt(link, before), e, Latest(link, log), s);
          assert s in TableAt(link, before);
        }
      }
    }
  }

  /** After shutdown the gateway's table is exactly the slots of the mappings that
      went astray. */
  lemma WhatIsLeft(env: Env, c: Configuration, host: Host, n: nat, link: Link, s: Slot)
    requires Acceptable(c, host)
    ensures
      var log := ReleaseAll(env, Waited(Rounds(env, c, n)), c).0.log;
      AllAnswered(link, log) ==>
        (s in TableAt(link, log) <==>
           exists k <- Keys(Plan(c.mappings)) ::
             ValidProtocol(k.protocol) && SlotOf(k) == s && Astray(Did(link), k, Project(log, k)))
  {
    hide Rounds;
    hide ReleaseAll;
    hide AllAnswered;
    hide Keyed;
    hide Astray;
    hide Project;
    hide Plan;
    var plan, log := Plan(c.mappings), ReleaseAll(env, Waited(Rounds(env, c, n)), c).0.log;
    ValidatedSlots(c, host);
    ShutdownKeyed(env, c, n);
    NothingElse(link, log, Keys(plan));
    forall k | k in Keys(plan)
      ensures AllAnswered(link, log) ==>
        (SlotOf(k) in TableAt(link, log) <==> Astray(Did(link), k, Project(log, k)))
    {
      var i :| 0 <= i < |plan| && KeyOf(plan[i]) == k;
      LeftInTheTable(env, c, host, n, i, link);
    }
  }

  // ---- A mapping that outlives its run ----

  const FAILING := Env(_ => 0, _ => Present, _ => MapFailed, _ => true, _ => None, _ => BARE_HOST, false)

  /** The gateway grants the Map and the grant arrives; the address query fails. */
  const GRANT_LOST: Link := (_: Key, _: nat) => Traffic([Policy(0, 80, 3600, 0)], 0, Err(ErrOther), 0)

  const FAILED_MAP: Event := Event.Map(WEB_KEY, WEB, MapFailed)

  lemma FailingRun()
    ensures
      var s := Rounds(FAILING, ONE_MAPPING, 0);
      s.leases == map[] && s.log == [Wake(WEB_KEY, None), FAILED_MAP, Clock(WEB_KEY, 0)]
  {
    OneRequest(BARE_HOST);
    hide Requests;
    hide Flatten;
    var s := Tick(Refresh(FAILING, EMPTY));
    assert [WEB][..0] == [];
    assert StartPass(FAILING, s, [WEB][..0]) == s;
    assert StartPass(FAILING, s, [WEB]) == StartStep(FAILING, s, WEB);
  }

  lemma MapServed()
    ensures
      var (t, replies) := Carry(map[], FAILED_MAP, GRANT_LOST(WEB_KEY, 1));
      && t == map[SlotOf(WEB_KEY) := 80]
      && replies != [] && Client.Granted(WEB, Ok(replies[0])).Ok?
      && Answered(FAILED_MAP, GRANT_LOST(WEB_KEY, 1), replies)
  {
    hide Codec.PrintRequest;
    hide Codec.ParseRequest;
    hide Codec.PrintResponse;
    hide Codec.DecodeMapResponse;
    var q, p := Query(FAILED_MAP).value, Policy(0, 80, 3600, 0);
    assert q == Codec.MapRequest(2, 80, 0, 3600);
    Codec.RequestRoundTrip(q);
    var (t, reply) := Serve(map[], Codec.PrintRequest(q), p);
    var m := Codec.MapResponse(0, 80, 80, 3600);
    assert t == map[SlotOf(WEB_KEY) := 80] && reply == Codec.PrintResponse(2, 0, m);
    ServeJustOne(map[], Codec.PrintRequest(q), p);
    assert reply[..16] == reply;
    Codec.DecodesWhatIsPrinted(reply, TCP, m);
  }

  lemma ServeJustOne(t: Table, bytes: seq<byte>, p: Policy)
    ensures ServeAll(t, bytes, [p]) == (Serve(t, bytes, p).0, [Serve(t, bytes, p).1])
  {
    hide Serve;
    var ps := [p];
    assert ps[..|ps| - 1] == [];
    assert ServeAll(t, bytes, ps[..|ps| - 1]) == (t, []);
    var (t', reply) := Serve(t, bytes, ps[|ps| - 1]);
    assert [] + [reply] == [reply];
    assert ServeAll(t, bytes, ps) == (t', [] + [reply]);
  }

  /** The daemon records nothing and shuts down with success, and the gateway keeps
      the mapping it granted. */
  lemma MappingOutlivesRun()
    ensures Acceptable(ONE_MAPPING, BARE_HOST)
    ensures
      var (s', errs) := ReleaseAll(FAILING, Waited(Rounds(FAILING, ONE_MAPPING, 0)), ONE_MAPPING);
      && AllAnswered(GRANT_LOST, s'.log)
      && s'.leases == map[] && errs == 0
      && TableAt(GRANT_LOST, s'.log) == map[SlotOf(WEB_KEY) := 80]
  {
    IsAcceptable();
    FailingRun();
    FailingTable();
    hide Requests;
    hide Acceptable;
    hide Rounds;
    hide AllAnswered;
    hide TableAt;
  }

  lemma FailingTable()
    ensures
      var log := [Wake(WEB_KEY, None), FAILED_MAP, Clock(WEB_KEY, 0)];
      AllAnswered(GRANT_LOST, log) && TableAt(GRANT_LOST, log) == map[SlotOf(WEB_KEY) := 80]
  {
    hide ServeAll;
    hide AllAnswered;
    hide TableAt;
    hide SlotOf;
    hide Client.MapResult;
    var e0, e1, e2 := Wake(WEB_KEY, None), FAILED_MAP, Clock(WEB_KEY, 0);
    NothingYet();
    MapServed();
    LogGrows(GRANT_LOST, [], e0);
    LogGrows(GRANT_LOST, [e0], e1);
    LogGrows(GRANT_LOST, [e0, e1], e2);
    assert [] + [e0] == [e0] && [e0] + [e1] == [e0, e1] && [e0, e1] + [e2] == [e0, e1, e2];
  }

  lemma NothingYet()
    ensures AllAnswered(GRANT_LOST, []) && TableAt(GRANT_LOST, []) == map[]
  {
  }
}
