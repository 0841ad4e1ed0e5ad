/** How often a renewal is retried before the lease runs out. */
module Retry {
  import opened Prelude
  import opened Mapping
  import opened Config
  import opened Lifecycle
  import opened Scheduler
  import opened Refinement

  /** A pass that started at the given time, took no time, and whose Map failed. */
  datatype FailedPass = FailedPass(at: Time, check: Option<Presence>, sent: Request, answer: MapAnswer)
  {
    predicate Fails() { check != Some(Absent) && !GrantAccepted(sent, answer) }

    function Events(k: Key): seq<Event> {
      [Wake(k, Some(at))]
        + (if check.Some? then [Check(k, check.value)] else [])
        + [Map(k, sent, answer), Clock(k, at)]
    }
  }

  function EventsOf(ps: seq<FailedPass>, k: Key): seq<Event> {
    if ps == [] then [] else EventsOf(ps[..|ps| - 1], k) + ps[|ps| - 1].Events(k)
  }

  /** The time the i-th attempt is scheduled for: first as the lease says, then 30
      seconds after the attempt before. */
  function ScheduledAt(first: Time, ps: seq<FailedPass>, i: nat): Time
    requires i <= |ps|
  {
    if i == 0 then first else ps[i - 1].at + RETRY_BACKOFF
  }

  /** Each attempt starts within d of its scheduled time. */
  ghost predicate Punctual(first: Time, ps: seq<FailedPass>, d: nat) {
    forall i :: 0 <= i < |ps| ==> ps[i].at <= ScheduledAt(first, ps, i) + d
  }

  lemma OnePass(r: Request, before: seq<Event>, p: FailedPass)
    requires p.Fails() && Replay(r, before).phase == Idle && Replay(r, before).nextAt.Some?
    requires Replay(r, before + p.Events(KeyOf(r))).phase != Stuck
    ensures Replay(r, before).nextAt.value <= p.at
    ensures Replay(r, before + p.Events(KeyOf(r)))
      == Replay(r, before).(nextAt := Some(p.at + RETRY_BACKOFF))
  {
    hide Replay;
    var k := KeyOf(r);
    var e0, e1, e2 := Wake(k, Some(p.at)), Map(k, p.sent, p.answer), Clock(k, p.at);
    ReplayEmit(r, before, e0);
    if p.check.Some? {
      var c := Check(k, p.check.value);
      ReplayEmit(r, before + [e0], c);
      ReplayEmit(r, before + [e0, c], e1);
      ReplayEmit(r, before + [e0, c, e1], e2);
      assert before + [e0] + [c] == before + [e0, c];
      assert before + [e0, c] + [e1] == before + [e0, c, e1];
      assert before + [e0, c, e1] + [e2] == before + p.Events(k);
    } else {
      ReplayEmit(r, before + [e0], e1);
      ReplayEmit(r, before + [e0, e1], e2);
      assert before + [e0] + [e1] == before + [e0, e1];
      assert before + [e0, e1] + [e2] == before + p.Events(k);
    }
  }

  /** A run of failed passes keeps the lease, never starts a pass early, and moves
      the wake-up to 30 seconds after the last attempt. */
  lemma {:induction false} FailedPasses(r: Request, before: seq<Event>, ps: seq<FailedPass>)
    requires Replay(r, before).phase == Idle && Replay(r, before).nextAt.Some?
    requires forall p <- ps :: p.Fails()
    requires Replay(r, before + EventsOf(ps, KeyOf(r))).phase != Stuck
    ensures
      var first := Replay(r, before).nextAt.value;
      && Replay(r, before + EventsOf(ps, KeyOf(r)))
        == Replay(r, before).(nextAt := Some(ScheduledAt(first, ps, |ps|)))
      && forall i :: 0 <= i < |ps| ==> ScheduledAt(first, ps, i) <= ps[i].at
  {
    hide Replay;
    var k := KeyOf(r);
    if ps == [] {
      assert before + EventsOf(ps, k) == before;
    } else {
      var n := |ps| - 1;
      var init, p := ps[..n], ps[n];
      var middle := before + EventsOf(init, k);
      assert middle + p.Events(k) == before + EventsOf(ps, k);
      assert (before + EventsOf(ps, k))[..|middle|] == middle;
      if Replay(r, middle).phase == Stuck { StuckStays(r, before + EventsOf(ps, k), |middle|); }
      FailedPasses(r, before, init);
      OnePass(r, middle, p);
      assert forall i :: 0 <= i < n ==> init[i] == ps[i];
    }
  }

  lemma MulStep(i: int, gap: int)
    ensures i * gap == (i - 1) * gap + gap
  {
  }

  lemma {:induction false} AttemptTimes(first: Time, ps: seq<FailedPass>, d: nat, i: nat)
    requires i < |ps| && Punctual(first, ps, d)
    requires forall j :: 0 <= j < |ps| ==> ScheduledAt(first, ps, j) <= ps[j].at
    ensures first + i * RETRY_BACKOFF <= ps[i].at <= first + d + i * (RETRY_BACKOFF + d)
  {
    assert ScheduledAt(first, ps, i) <= ps[i].at <= ScheduledAt(first, ps, i) + d;
    if i > 0 {
      AttemptTimes(first, ps, d, i - 1);
      MulStep(i, RETRY_BACKOFF);
      MulStep(i, RETRY_BACKOFF + d);
    }
  }

  function CeilDiv(x: int, y: int): int
    requires y > 0
  {
    (x + y - 1) / y
  }

  lemma CeilDivMeaning(x: int, y: int, i: int)
    requires y > 0
    ensures i < CeilDiv(x, y) <==> i * y < x
  {
    var q := CeilDiv(x, y);
    assert q * y <= x + y - 1 < q * y + y;
    if i < q { assert i * y <= (q - 1) * y; } else { assert i * y >= q * y; }
  }

  /** The number of attempts that fit before a lease of the given lifetime ends,
      each up to d late; ceil((L - floor(L/2)) / 30 s) for d = 0. */
  function Attempts(lifetime: Duration, d: nat): int {
    CeilDiv(lifetime - lifetime / 2 - d, RETRY_BACKOFF + d)
  }

  /** The first Attempts(L, d) attempts start before lease l ends; on time, they
      are all that do. */
  ghost predicate RetriedInTime(ps: seq<FailedPass>, l: Lease, d: nat) {
    && (forall i :: 0 <= i < |ps| && i < Attempts(l.lifetime, d) ==> ps[i].at < l.acquired + l.lifetime)
    && (d == 0 ==> forall i :: 0 <= i < |ps| ==>
          (ps[i].at < l.acquired + l.lifetime <==> i < Attempts(l.lifetime, 0)))
  }

  lemma AttemptInTime(l: Lease, d: nat, i: nat, at: Time)
    requires l.lifetime > 0
    requires l.RenewBefore() + i * RETRY_BACKOFF <= at <= l.RenewBefore() + d + i * (RETRY_BACKOFF + d)
    ensures i < Attempts(l.lifetime, d) ==> at < l.acquired + l.lifetime
    ensures d == 0 ==> (at < l.acquired + l.lifetime <==> i < Attempts(l.lifetime, d))
  {
    CeilDivMeaning(l.lifetime - l.lifetime / 2 - d, RETRY_BACKOFF + d, i);
  }

  /** Once the next attempt is late for the end of the lease, enough were made. */
  lemma EnoughAttempts(l: Lease, d: nat, ps: seq<FailedPass>)
    requires l.lifetime > 0 && Punctual(l.RenewBefore(), ps, d)
    requires forall j :: 0 <= j < |ps| ==> ScheduledAt(l.RenewBefore(), ps, j) <= ps[j].at
    requires ScheduledAt(l.RenewBefore(), ps, |ps|) + d >= l.acquired + l.lifetime
    ensures |ps| >= Attempts(l.lifetime, d)
  {
    hide Punctual;
    hide CeilDiv;
    var gap := RETRY_BACKOFF + d;
    var total := |ps| * gap;
    assert ScheduledAt(l.RenewBefore(), ps, |ps|) <= l.RenewBefore() + total by {
      if ps != [] {
        AttemptTimes(l.RenewBefore(), ps, d, |ps| - 1);
        MulStep(|ps|, gap);
      }
    }
    CeilDivMeaning(l.lifetime - l.lifetime / 2 - d, gap, |ps|);
  }

  /** Retry arithmetic on one mapping's history. */
  lemma RetriesBeforeExpiry(r: Request, before: seq<Event>, ps: seq<FailedPass>, l: Lease, d: nat)
    requires l.lifetime > 0
    requires Replay(r, before) == Auto(Idle, Some(l), Some(l.RenewBefore()))
    requires forall p <- ps :: p.Fails()
    requires Replay(r, before + EventsOf(ps, KeyOf(r))).phase != Stuck
    requires Punctual(l.RenewBefore(), ps, d)
    ensures RetriedInTime(ps, l, d)
    ensures ScheduledAt(l.RenewBefore(), ps, |ps|) + d >= l.acquired + l.lifetime ==>
      |ps| >= Attempts(l.lifetime, d)
    ensures Replay(r, before + EventsOf(ps, KeyOf(r)))
      == Auto(Idle, Some(l), Some(ScheduledAt(l.RenewBefore(), ps, |ps|)))
  {
    hide Replay;
    hide Punctual;
    hide Attempts;
    FailedPasses(r, before, ps);
    forall i | 0 <= i < |ps|
      ensures i < Attempts(l.lifetime, d) ==> ps[i].at < l.acquired + l.lifetime
      ensures d == 0 ==> (ps[i].at < l.acquired + l.lifetime <==> i < Attempts(l.lifetime, d))
    {
      AttemptTimes(l.RenewBefore(), ps, d, i);
      AttemptInTime(l, d, i, ps[i].at);
    }
    if ScheduledAt(l.RenewBefore(), ps, |ps|) + d >= l.acquired + l.lifetime { EnoughAttempts(l, d, ps); }
  }

  /** Retry arithmetic in every run of a validated configuration: after a Map that
      granted lease l, followed by nothing but failing attempts that start within d
      of their scheduled time, at least Attempts(L, d) of them start before the
      lease ends, unless one is still pending; when they are on time, exactly
      ceil((L - floor(L/2)) / 30 s) do. The lease is kept throughout. */
  lemma {:induction false} RetriesInEveryRun(env: Env, c: Configuration, host: Host, n: nat, i: nat,
      granted: seq<Event>, sent: Request, l: Lease, ps: seq<FailedPass>, d: nat)
    requires Acceptable(c, host) && i < |Plan(c.mappings)|
    requires GrantAccepted(sent, Granted(l))
    requires
      var k := KeyOf(Plan(c.mappings)[i]);
      Project(Rounds(env, c, n).log, k) == granted + [Map(k, sent, Granted(l))] + EventsOf(ps, k)
    requires forall p <- ps :: p.Fails()
    requires Punctual(l.RenewBefore(), ps, d)
    ensures RetriedInTime(ps, l, d)
    ensures
      var k, s := KeyOf(Plan(c.mappings)[i]), Rounds(env, c, n);
      && Get(s.leases, k) == Some(l)
      && k in s.nextAt
      && (s.nextAt[k] + d >= l.acquired + l.lifetime ==> |ps| >= Attempts(l.lifetime, d))
  {
    hide Replay;
    hide EventsOf;
    hide Punctual;
    hide RetriedInTime;
    hide Acceptable;
    hide Rounds;
    var r := Plan(c.mappings)[i];
    hide Plan;
    var k := KeyOf(r);
    var before := granted + [Map(k, sent, Granted(l))];
    PerMappingRefinement(env, c, host, n, i);
    AfterGrant(r, granted, sent, l, EventsOf(ps, k));
    RetriesBeforeExpiry(r, before, ps, l, d);
  }

  lemma AfterGrant(r: Request, granted: seq<Event>, sent: Request, l: Lease, rest: seq<Event>)
    requires GrantAccepted(sent, Granted(l))
    requires Replay(r, granted + [Map(KeyOf(r), sent, Granted(l))] + rest).phase != Stuck
    ensures Replay(r, granted + [Map(KeyOf(r), sent, Granted(l))]) == Auto(Idle, Some(l), Some(l.RenewBefore()))
  {
    hide Replay;
    var before := granted + [Map(KeyOf(r), sent, Granted(l))];
    assert (before + rest)[..|before|] == before;
    if Replay(r, before).phase == Stuck { StuckStays(r, before + rest, |before|); }
    ReplayEmit(r, granted, Map(KeyOf(r), sent, Granted(l)));
  }
}
