/** One mapping seen on its own: the events of its lifecycle and the automaton
    that says which event may come next (internal/daemon/daemon.go).

    The daemon serves all mappings from one loop over two shared maps. This
    automaton knows one request, one lease and one wake-up time. Module Refinement
    proves that the shared loop behaves as one such automaton per mapping. */
module Lifecycle {
  import opened Prelude
  import opened Wire
  import opened Netip
  import opened Mapping

  const RETRY_BACKOFF: Duration := 30 * SECOND
  const LISTENER_POLL: Duration := 15 * SECOND

  datatype Key = Key(protocol: Protocol, internalPort: u16, externalPort: u16)

  function KeyOf(r: Request): Key { Key(r.protocol, r.internalPort, r.externalPort) }

  /** A request without its internal address, which is resolved anew on every
      pass and may change. */
  function Shape(r: Request): Request { r.(internalAddress := Invalid) }

  datatype Presence = Present | Absent | CheckFailed

  datatype MapAnswer = Granted(lease: Lease) | MapFailed

  datatype Event =
    | Wake(key: Key, at: Option<Time>)            // a pass starts; None at start-up
    | Check(key: Key, presence: Presence)         // the listener check answered
    | Map(key: Key, sent: Request, answer: MapAnswer)
    | Unmap(key: Key, sent: Request, ok: bool)    // the listener is gone
    | Clock(key: Key, now: Time)                  // the clock was read to reschedule
    | Release(key: Key, sent: Request, ok: bool)  // shutdown

  /** validateLease (internal/daemon/reconcile.go). */
  predicate ValidLease(r: Request, l: Lease) {
    && l.protocol == r.protocol
    && l.internalPort == r.internalPort
    && l.externalPort != 0
    && l.lifetime > 0
  }

  /** What ensure returns without error. */
  predicate GrantAccepted(sent: Request, answer: MapAnswer) {
    answer.Granted? && ValidLease(sent, answer.lease)
  }

  /** mapRequest: an automatically assigned port is asked for again. */
  function MapRequest(r: Request, lease: Option<Lease>): Request {
    if r.externalPort != 0 || lease.None? || lease.value.externalPort == 0 then r
    else r.(externalPort := lease.value.externalPort)
  }

  function ReleaseRequest(r: Request, l: Lease): Request {
    if l.externalPort != 0 then r.(externalPort := l.externalPort) else r
  }

  /** Where a mapping is within a pass. Stuck is an event out of order. */
  datatype Phase =
    | Idle       // between passes
    | Woken      // a pass started
    | Cleared    // the listener check did not say absent
    | Vacated    // absent while a lease is held
    | Parking    // absent and no lease held
    | Failing    // the Map failed
    | Closed     // released at shutdown
    | Stuck

  datatype Auto = Auto(phase: Phase, lease: Option<Lease>, nextAt: Option<Time>)

  const INITIAL := Auto(Idle, None, None)

  /** The automaton of request r (in its shape): the events of other keys do not
      concern it. */
  function Step(r: Request, a: Auto, e: Event): Auto {
    if e.key != KeyOf(r) then a else
    match e
    case Wake(_, at) =>
      if a.phase == Idle && (if at.None? then a.nextAt.None? else a.nextAt.Some? && a.nextAt.value <= at.value)
      then a.(phase := Woken) else a.(phase := Stuck)
    case Check(_, p) =>
      if a.phase != Woken || !r.requireListener then a.(phase := Stuck)
      else if p != Absent then a.(phase := Cleared)
      else if a.lease.Some? then a.(phase := Vacated)
      else a.(phase := Parking)
    case Map(_, sent, answer) =>
      if a.phase != (if r.requireListener then Cleared else Woken) || Shape(sent) != MapRequest(r, a.lease)
      then a.(phase := Stuck)
      else if GrantAccepted(sent, answer) then Auto(Idle, Some(answer.lease), Some(answer.lease.RenewBefore()))
      else a.(phase := Failing)
    case Unmap(_, sent, _) =>
      if a.phase != Vacated || a.lease.None? || Shape(sent) != ReleaseRequest(r, a.lease.value)
      then a.(phase := Stuck)
      else a.(phase := Parking, lease := None)
    case Clock(_, now) =>
      if a.phase == Parking then Auto(Idle, a.lease, Some(now + LISTENER_POLL))
      else if a.phase == Failing then Auto(Idle, a.lease, Some(now + RETRY_BACKOFF))
      else a.(phase := Stuck)
    case Release(_, sent, ok) =>
      if a.phase != Idle || a.lease.None? || Shape(sent) != ReleaseRequest(r, a.lease.value)
      then a.(phase := Stuck)
      else Auto(Closed, if ok then None else a.lease, a.nextAt)
  }

  function Replay(r: Request, log: seq<Event>): Auto {
    if log == [] then INITIAL
    else Step(r, Replay(r, log[..|log| - 1]), log[|log| - 1])
  }

  lemma ReplayEmit(r: Request, log: seq<Event>, e: Event)
    ensures Replay(r, log + [e]) == Step(r, Replay(r, log), e)
  {
    assert (log + [e])[..|log|] == log;
  }

  /** Once stuck, always stuck. */
  lemma {:induction false} StuckStays(r: Request, log: seq<Event>, n: nat)
    requires n <= |log| && Replay(r, log[..n]).phase == Stuck
    ensures Replay(r, log).phase == Stuck
  {
    if n == |log| {
      assert log[..n] == log;
    } else {
      assert log[..|log| - 1][..n] == log[..n];
      StuckStays(r, log[..|log| - 1], n);
    }
  }

  /** The events of one key, in order. */
  function Project(log: seq<Event>, k: Key): seq<Event> {
    if log == [] then []
    else
      var before, e := Project(log[..|log| - 1], k), log[|log| - 1];
      if e.key == k then before + [e] else before
  }

  /** The automaton only sees its own events. */
  lemma {:induction false} ReplayProject(r: Request, log: seq<Event>)
    ensures Replay(r, Project(log, KeyOf(r))) == Replay(r, log)
  {
    if log != [] {
      var before, e := log[..|log| - 1], log[|log| - 1];
      ReplayProject(r, before);
      if e.key == KeyOf(r) { ReplayEmit(r, Project(before, KeyOf(r)), e); }
    }
  }

  predicate Mine(r: Request, tr: seq<Event>) {
    forall i :: 0 <= i < |tr| ==> tr[i].key == KeyOf(r)
  }

  lemma {:induction false} ProjectMine(log: seq<Event>, k: Key)
    ensures forall i :: 0 <= i < |Project(log, k)| ==> Project(log, k)[i].key == k
  {
    if log != [] { ProjectMine(log[..|log| - 1], k); }
  }

  // ---- Sticky external port ----

  /** The port granted most recently and not released since, or 0. Failed
      renewals do not count as events here. */
  function LastGranted(tr: seq<Event>): u16 {
    if tr == [] then 0 else GrantedAfter(LastGranted(tr[..|tr| - 1]), tr[|tr| - 1])
  }

  function GrantedAfter(before: u16, e: Event): u16 {
    match e
    case Map(_, sent, answer) => if GrantAccepted(sent, answer) then answer.lease.externalPort else before
    case Unmap(_, _, _) => 0
    case Release(_, _, ok) => if ok then 0 else before
    case _ => before
  }

  function PortOf(l: Option<Lease>): u16 { if l.Some? then l.value.externalPort else 0 }

  lemma StepGrants(r: Request, a: Auto, e: Event)
    requires e.key == KeyOf(r) && Step(r, a, e).phase != Stuck
    requires a.lease.Some? ==> a.lease.value.externalPort != 0
    ensures PortOf(Step(r, a, e).lease) == GrantedAfter(PortOf(a.lease), e)
    ensures Step(r, a, e).lease.Some? ==> Step(r, a, e).lease.value.externalPort != 0
    ensures a.phase != Stuck
  {
  }

  lemma {:induction false} LeaseHoldsLastGranted(r: Request, tr: seq<Event>)
    requires Mine(r, tr) && Replay(r, tr).phase != Stuck
    ensures LastGranted(tr) == PortOf(Replay(r, tr).lease)
    ensures Replay(r, tr).lease.Some? ==> LastGranted(tr) != 0
  {
    hide Step;
    hide GrantedAfter;
    if tr != [] {
      var before := tr[..|tr| - 1];
      if Replay(r, before).phase == Stuck {
        StuckStays(r, tr, |before|);
      }
      LeaseHoldsLastGranted(r, before);
      StepGrants(r, Replay(r, before), tr[|before|]);
    }
  }

  /** Every Map asks for the configured port or, without one, for the port
      granted last. */
  ghost predicate Sticky(r: Request, tr: seq<Event>) {
    forall i :: 0 <= i < |tr| && tr[i].Map? ==>
      tr[i].sent.externalPort == if r.externalPort != 0 then r.externalPort else LastGranted(tr[..i])
  }

  lemma {:induction false} StickyPort(r: Request, tr: seq<Event>)
    requires Mine(r, tr) && Replay(r, tr).phase != Stuck
    ensures Sticky(r, tr)
  {
    if tr != [] {
      var before, e := tr[..|tr| - 1], tr[|tr| - 1];
      StickyPort(r, before);
      LeaseHoldsLastGranted(r, before);
      forall i | 0 <= i < |tr| && tr[i].Map?
        ensures tr[i].sent.externalPort == if r.externalPort != 0 then r.externalPort else LastGranted(tr[..i])
      {
        if i < |before| {
          assert before[i] == tr[i] && before[..i] == tr[..i];
        } else {
          assert Shape(e.sent).externalPort == e.sent.externalPort;
        }
      }
    }
  }

  // ---- Listener gating ----

  /** The most recent answer of the listener check. */
  function LastPresence(tr: seq<Event>): Option<Presence> {
    if tr == [] then None
    else if tr[|tr| - 1].Check? then Some(tr[|tr| - 1].presence)
    else LastPresence(tr[..|tr| - 1])
  }

  predicate EndsWithCheck(tr: seq<Event>, absent: bool) {
    tr != [] && tr[|tr| - 1].Check? && (tr[|tr| - 1].presence == Absent <==> absent)
  }

  /** How the latest events of a gated mapping explain the phase it is in. */
  predicate PhaseExplained(tr: seq<Event>, a: Auto) {
    match a.phase
    case Cleared => EndsWithCheck(tr, false)
    case Vacated => EndsWithCheck(tr, true) && a.lease.Some?
    case Parking => a.lease.None?
    case Stuck => true
    case _ => a.lease.Some? ==> LastPresence(tr).Some? && LastPresence(tr).value != Absent
  }

  lemma {:induction false} PhasesExplained(r: Request, tr: seq<Event>)
    requires Mine(r, tr) && r.requireListener
    ensures PhaseExplained(tr, Replay(r, tr))
  {
    if tr != [] { PhasesExplained(r, tr[..|tr| - 1]); }
  }

  /** A history in which every Map directly follows a listener check that did not
      say absent, and every Unmap directly follows one that did, made while a
      lease was held. */
  ghost predicate Gated(tr: seq<Event>) {
    && (forall i :: 0 <= i < |tr| && tr[i].Map? ==> EndsWithCheck(tr[..i], false))
    && (forall i :: 0 <= i < |tr| && tr[i].Unmap? ==> EndsWithCheck(tr[..i], true) && LastGranted(tr[..i]) != 0)
  }

  lemma {:induction false} GatedHistory(r: Request, tr: seq<Event>)
    requires Mine(r, tr) && r.requireListener
    requires Replay(r, tr).phase != Stuck
    ensures Gated(tr)
  {
    hide Replay;
    hide Gated;
    if tr == [] {
      NothingGated();
    } else {
      var before, e := tr[..|tr| - 1], tr[|tr| - 1];
      assert tr == before + [e];
      GatedEvent(r, before, e, tr);
      GatedHistory(r, before);
      GatedExtend(before, e);
    }
  }

  lemma NothingGated()
    ensures Gated([])
  {
  }

  lemma GatedExtend(before: seq<Event>, e: Event)
    requires Gated(before)
    requires e.Map? ==> EndsWithCheck(before, false)
    requires e.Unmap? ==> EndsWithCheck(before, true) && LastGranted(before) != 0
    ensures Gated(before + [e])
  {
    hide EndsWithCheck;
    hide LastGranted;
    var tr := before + [e];
    forall i | 0 <= i < |tr|
      ensures tr[i].Map? ==> EndsWithCheck(tr[..i], false)
      ensures tr[i].Unmap? ==> EndsWithCheck(tr[..i], true) && LastGranted(tr[..i]) != 0
    {
      if i < |before| {
        assert tr[i] == before[i] && tr[..i] == before[..i];
      } else {
        assert tr[..i] == before;
      }
    }
  }

  lemma GatedEvent(r: Request, before: seq<Event>, e: Event, tr: seq<Event>)
    requires tr == before + [e] && Mine(r, tr) && r.requireListener
    requires Replay(r, tr).phase != Stuck
    ensures Replay(r, before).phase != Stuck
    ensures e.Map? ==> EndsWithCheck(before, false)
    ensures e.Unmap? ==> EndsWithCheck(before, true) && LastGranted(before) != 0
  {
    hide Replay;
    hide LastGranted;
    ReplayEmit(r, before, e);
    assert tr[|before|] == e;
    assert forall i :: 0 <= i < |before| ==> before[i] == tr[i];
    PhasesExplained(r, before);
    if Replay(r, before).phase != Stuck { LeaseHoldsLastGranted(r, before); }
  }

  /** Listener gating: the history is gated, and between passes a lease is held
      only if the latest check did not say absent. */
  lemma ListenerGating(r: Request, tr: seq<Event>)
    requires Mine(r, tr) && r.requireListener
    requires Replay(r, tr).phase in {Idle, Closed}
    ensures Gated(tr)
    ensures Replay(r, tr).lease.Some? ==> LastPresence(tr).Some? && LastPresence(tr).value != Absent
  {
    GatedHistory(r, tr);
    PhasesExplained(r, tr);
  }

  /** An ungated mapping is never checked and never unmapped before shutdown. */
  lemma {:induction false} UngatedNeverUnmapped(r: Request, tr: seq<Event>)
    requires Mine(r, tr) && !r.requireListener
    requires Replay(r, tr).phase != Stuck
    ensures Replay(r, tr).phase in {Idle, Woken, Failing, Closed}
    ensures forall i :: 0 <= i < |tr| ==> !tr[i].Check? && !tr[i].Unmap?
  {
    if tr != [] {
      var before := tr[..|tr| - 1];
      UngatedNeverUnmapped(r, before);
      assert forall i :: 0 <= i < |before| ==> before[i] == tr[i];
    }
  }

  // ---- What a history alone says ----

  /** A Map whose answer is a lease for what was asked, with a port and a lifetime. */
  predicate IsGrant(e: Event) {
    && e.Map? && e.answer.Granted?
    && e.answer.lease.protocol == e.sent.protocol && e.answer.lease.internalPort == e.sent.internalPort
    && e.answer.lease.externalPort != 0 && e.answer.lease.lifetime > 0
  }

  /** The lease granted last and not released since. */
  function LastLease(tr: seq<Event>): Option<Lease> {
    if tr == [] then None
    else
      var e := tr[|tr| - 1];
      if IsGrant(e) then Some(e.answer.lease)
      else if e.Unmap? || (e.Release? && e.ok) then None
      else LastLease(tr[..|tr| - 1])
  }

  /** The next wake-up: at half of a lease just granted, 30 seconds after the clock
      reading that follows a failed Map, 15 seconds after any other. */
  function Scheduled(tr: seq<Event>): Option<Time> {
    if tr == [] then None
    else
      var before, e := tr[..|tr| - 1], tr[|tr| - 1];
      if IsGrant(e) then Some(e.answer.lease.acquired + e.answer.lease.lifetime / 2)
      else if e.Clock? && before != [] && before[|before| - 1].Map? then Some(e.now + 30 * SECOND)
      else if e.Clock? then Some(e.now + 15 * SECOND)
      else Scheduled(before)
  }

  /** A pass is over. */
  predicate EndsPass(tr: seq<Event>) { tr != [] && (tr[|tr| - 1].Clock? || IsGrant(tr[|tr| - 1])) }

  /** Which event may follow a history: a pass starts when nothing is scheduled yet or
      its time has come; a gated mapping is checked first; unless the check said
      absent, it is mapped; if absent, what is held is unmapped; and without a grant
      the clock is read. At shutdown what is held is released. */
  predicate MayFollow(r: Request, tr: seq<Event>, e: Event) {
    match e
    case Wake(_, None) => tr == []
    case Wake(_, Some(at)) => EndsPass(tr) && Scheduled(tr).Some? && Scheduled(tr).value <= at
    case Check(_, _) => r.requireListener && tr != [] && tr[|tr| - 1].Wake?
    case Map(_, _, _) => if r.requireListener then EndsWithCheck(tr, false) else tr != [] && tr[|tr| - 1].Wake?
    case Unmap(_, _, _) => EndsWithCheck(tr, true) && LastLease(tr).Some?
    case Clock(_, _) =>
      tr != [] &&
      var last := tr[|tr| - 1];
      (last.Map? && !IsGrant(last)) || last.Unmap? || (EndsWithCheck(tr, true) && LastLease(tr).None?)
    case Release(_, _, _) => EndsPass(tr) && LastLease(tr).Some?
  }

  /** What a call asks for besides its address: the mapping as configured, for the
      configured external port or else the one granted last; what is released is the
      port granted last. */
  predicate SendsFor(r: Request, tr: seq<Event>, e: Event) {
    var granted := if LastLease(tr).Some? then LastLease(tr).value.externalPort else 0;
    match e
    case Map(_, sent, _) =>
      Shape(sent) == r.(externalPort := if r.externalPort != 0 then r.externalPort else granted)
    case Unmap(_, sent, _) => Shape(sent) == r.(externalPort := granted)
    case Release(_, sent, _) => Shape(sent) == r.(externalPort := granted)
    case _ => true
  }

  /** Every event of a history may follow the ones before and sends what it should. */
  ghost predicate WellOrdered(r: Request, tr: seq<Event>) {
    forall i :: 0 <= i < |tr| ==> MayFollow(r, tr[..i], tr[i]) && SendsFor(r, tr[..i], tr[i])
  }

  /** How the latest event explains the phase. */
  predicate PhaseIs(tr: seq<Event>, a: Auto) {
    match a.phase
    case Idle => if tr == [] then a == INITIAL else EndsPass(tr) && a.nextAt.Some?
    case Woken => tr != [] && tr[|tr| - 1].Wake?
    case Cleared => EndsWithCheck(tr, false)
    case Vacated => EndsWithCheck(tr, true) && a.lease.Some?
    case Parking => tr != [] && (tr[|tr| - 1].Unmap? || EndsWithCheck(tr, true)) && a.lease.None?
    case Failing => tr != [] && tr[|tr| - 1].Map? && !IsGrant(tr[|tr| - 1])
    case Closed => tr != [] && tr[|tr| - 1].Release?
    case Stuck => true
  }

  /** The automaton's state is what the history says. */
  predicate SaysAuto(tr: seq<Event>, a: Auto) {
    && PhaseIs(tr, a)
    && a.lease == LastLease(tr)
    && a.nextAt == Scheduled(tr)
    && (a.lease.Some? ==> a.lease.value.externalPort != 0)
  }

  lemma StepSays(r: Request, tr: seq<Event>, a: Auto, e: Event)
    requires r == Shape(r) && e.key == KeyOf(r) && SaysAuto(tr, a) && Step(r, a, e).phase != Stuck
    ensures SaysAuto(tr + [e], Step(r, a, e))
    ensures MayFollow(r, tr, e) && SendsFor(r, tr, e)
  {
    assert (tr + [e])[..|tr|] == tr;
  }

  /** For every legal history of one mapping: its events come in order, and the lease
      and the wake-up time are what the history alone says. */
  lemma {:induction false} HistorySays(r: Request, tr: seq<Event>)
    requires r == Shape(r) && Mine(r, tr) && Replay(r, tr).phase != Stuck
    ensures WellOrdered(r, tr) && SaysAuto(tr, Replay(r, tr))
  {
    hide Step;
    hide SaysAuto;
    hide MayFollow;
    hide SendsFor;
    if tr == [] {
      NothingSaid();
    } else {
      var before, e := tr[..|tr| - 1], tr[|tr| - 1];
      if Replay(r, before).phase == Stuck { StuckStays(r, tr, |before|); }
      HistorySays(r, before);
      assert tr == before + [e];
      StepSays(r, before, Replay(r, before), e);
      forall i | 0 <= i < |tr| ensures MayFollow(r, tr[..i], tr[i]) && SendsFor(r, tr[..i], tr[i]) {
        if i < |before| { assert tr[i] == before[i] && tr[..i] == before[..i]; }
      }
    }
  }

  lemma NothingSaid()
    ensures SaysAuto([], INITIAL)
  {
  }
}
