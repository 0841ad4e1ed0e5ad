/** An exchange read off its network: every outcome is what the network brought, an
    exchange fails or stops only for a reason the network or the context gave, and a
    server that answers in some attempt is heard. */
module Hearing {
  import opened Prelude
  import opened Wire
  import opened Mapping
  import opened Exchange

  /** The clock after the first j reads of an attempt. */
  function ClockAfter(net: Net, first: nat, deadline: Time, at: Time, j: nat): Time {
    if j == 0 then at else ReadAt(net.arrival(first + j - 1), ClockAfter(net, first, deadline, at, j - 1), deadline).1
  }

  /** The reads made in the attempts. */
  function ReadsIn(made: seq<Attempt>): nat {
    if made == [] then 0 else ReadsIn(made[..|made| - 1]) + |made[|made| - 1].outcomes|
  }

  /** The outcomes are what the network brings from its given arrival on. */
  ghost predicate Heard(net: Net, os: seq<Outcome>, first: nat, deadline: Time, at: Time) {
    forall j :: 0 <= j < |os| ==>
      os[j] == ReadAt(net.arrival(first + j), ClockAfter(net, first, deadline, at, j), deadline).0
  }

  /** An attempt waits and reads exactly if its write and its deadline succeeded. */
  ghost predicate AttemptHeard(net: Net, p: Params, a: Attempt, k: nat, first: nat) {
    && (a.deadline.Some? <==> net.written(k) == Some(|p.req|) && net.deadlineSet(k))
    && (if a.deadline.Some? then Heard(net, a.outcomes, first, a.deadline.value, a.at) else a.outcomes == [])
  }

  function EndOf(net: Net, a: Attempt, first: nat): Time {
    if a.deadline.None? then a.at else ClockAfter(net, first, a.deadline.value, a.at, |a.outcomes|)
  }

  /** The clock after the attempts. */
  function ClockOf(net: Net, made: seq<Attempt>, start: Time): Time {
    if made == [] then start else EndOf(net, made[|made| - 1], ReadsIn(made[..|made| - 1]))
  }

  /** The attempts follow each other without a pause and hear what the network
      brings. */
  ghost predicate AllHeard(net: Net, p: Params, made: seq<Attempt>, start: Time) {
    forall k :: 0 <= k < |made| ==>
      && AttemptHeard(net, p, made[k], k, ReadsIn(made[..k]))
      && made[k].at == ClockOf(net, made[..k], start)
  }

  /** No check of the context before the given one said that it had ended. */
  ghost predicate NotCancelled(net: Net, checks: nat) { forall i: nat :: i < checks ==> !net.cancelled(i) }

  /** The context is checked once for every attempt and once for every read. */
  function ChecksIn(made: seq<Attempt>): nat { |made| + ReadsIn(made) }

  /** What an exchange does is what its network and its context did. */
  ghost predicate Genuine(net: Net, p: Params, run: Run, start: Time) {
    var made := run.attempts;
    && AllHeard(net, p, made, start)
    && run.end == ClockOf(net, made, start)
    && NotCancelled(net, ChecksIn(made))
    && (run.reply == Cancelled ==> net.cancelled(ChecksIn(made)))
    && (run.reply == NoAnswer ==> !net.cancelled(ChecksIn(made)))
    && (forall k :: 0 <= k < |made| && made[k].deadline.None? ==> run.reply == IOFailed)
    && (run.reply == IOFailed ==>
          && made != []
          && var a := made[|made| - 1];
             a.deadline.None? || (a.outcomes != [] && net.arrival(ReadsIn(made) - 1).ReadError?))
  }

  /** The same for the reads of one attempt, after the outcomes os. */
  ghost predicate ReadsGenuine(net: Net, run: ReadRun, deadline: Time, first: nat, n: nat, at: Time, checks: nat) {
    var last := checks + |run.outcomes| - n;
    && |run.outcomes| >= n && last >= 0
    && Heard(net, run.outcomes, first, deadline, at)
    && run.end == ClockAfter(net, first, deadline, at, |run.outcomes|)
    && NotCancelled(net, last)
    && run.reading != Done(NoAnswer)
    && (run.reading == Done(Cancelled) ==> net.cancelled(last))
    && (run.reading == GaveUp ==> run.checks == last)
    && (run.reading == Done(IOFailed) ==>
          run.outcomes != [] && net.arrival(first + |run.outcomes| - 1).ReadError?)
  }

  lemma HeardOneMore(net: Net, os: seq<Outcome>, first: nat, deadline: Time, at: Time)
    requires Heard(net, os, first, deadline, at)
    ensures
      var (o, t) := ReadAt(net.arrival(first + |os|), ClockAfter(net, first, deadline, at, |os|), deadline);
      && Heard(net, os + [o], first, deadline, at)
      && t == ClockAfter(net, first, deadline, at, |os| + 1)
      && (o.Failed? ==> net.arrival(first + |os|).ReadError?)
  {
    hide ClockAfter;
    var (o, t) := ReadAt(net.arrival(first + |os|), ClockAfter(net, first, deadline, at, |os|), deadline);
    var os' := os + [o];
    assert forall j :: 0 <= j < |os| ==> os'[j] == os[j];
    ClockStep(net, first, deadline, at, |os|);
  }

  lemma ClockStep(net: Net, first: nat, deadline: Time, at: Time, j: nat)
    ensures ClockAfter(net, first, deadline, at, j + 1)
      == ReadAt(net.arrival(first + j), ClockAfter(net, first, deadline, at, j), deadline).1
  {
  }

  lemma {:induction false} ReadsHeard(net: Net, p: Params, deadline: Time, first: nat, os: seq<Outcome>, at: Time,
      clock: Time, checks: nat)
    requires Heard(net, os, first, deadline, at) && clock == ClockAfter(net, first, deadline, at, |os|)
    requires NotCancelled(net, checks)
    ensures ReadsGenuine(net, ReadOn(net, p, deadline, first, os, clock, checks), deadline, first, |os|, at, checks)
    decreases MAX_IGNORED - |os|
  {
    hide Heard;
    hide ClockAfter;
    hide ReadAt;
    if !net.cancelled(checks) {
      var (o, t) := ReadAt(net.arrival(first + |os|), clock, deadline);
      HeardOneMore(net, os, first, deadline, at);
      assert NotCancelled(net, checks + 1);
      if Foreign(o, p.server) && |os| + 1 < MAX_IGNORED {
        ReadsHeard(net, p, deadline, first, os + [o], at, t, checks + 1);
      }
    }
  }

  lemma ReadsGrow(made: seq<Attempt>, a: Attempt)
    ensures ReadsIn(made + [a]) == ReadsIn(made) + |a.outcomes|
    ensures ChecksIn(made + [a]) == ChecksIn(made) + 1 + |a.outcomes|
  {
    assert (made + [a])[..|made|] == made;
  }

  lemma HeardGrow(net: Net, p: Params, made: seq<Attempt>, a: Attempt, start: Time)
    requires AllHeard(net, p, made, start) && a.at == ClockOf(net, made, start)
    requires AttemptHeard(net, p, a, |made|, ReadsIn(made))
    ensures AllHeard(net, p, made + [a], start)
    ensures ClockOf(net, made + [a], start) == EndOf(net, a, ReadsIn(made))
  {
    hide AttemptHeard;
    var all := made + [a];
    assert all[..|made|] == made;
    forall k | 0 <= k < |all|
      ensures AttemptHeard(net, p, all[k], k, ReadsIn(all[..k])) && all[k].at == ClockOf(net, all[..k], start)
    {
      if k < |made| { assert all[..k] == made[..k]; }
    }
  }

  /** The exchange after attempts that were all used up. */
  ghost predicate SoFar(net: Net, p: Params, made: seq<Attempt>, start: Time) {
    && AllHeard(net, p, made, start)
    && NotCancelled(net, ChecksIn(made))
    && (forall a <- made :: a.deadline.Some?)
  }

  lemma StopsGenuine(net: Net, p: Params, made: seq<Attempt>, start: Time, reply: Reply)
    requires SoFar(net, p, made, start)
    requires reply == if net.cancelled(ChecksIn(made)) then Cancelled else NoAnswer
    ensures Genuine(net, p, Run(reply, made, ClockOf(net, made, start)), start)
  {
    hide AllHeard;
    hide ClockOf;
    hide ReadsIn;
  }

  lemma WriteFailsGenuine(net: Net, p: Params, made: seq<Attempt>, start: Time)
    requires SoFar(net, p, made, start) && !net.cancelled(ChecksIn(made))
    requires net.written(|made|) != Some(|p.req|) || !net.deadlineSet(|made|)
    ensures
      var clock := ClockOf(net, made, start);
      Genuine(net, p, Run(IOFailed, made + [Attempt(p.req, p.server, clock, None, [])], clock), start)
  {
    hide AllHeard;
    hide ClockOf;
    var a := Attempt(p.req, p.server, ClockOf(net, made, start), None, []);
    ReadsGrow(made, a);
    HeardGrow(net, p, made, a, start);
  }

  /** One more attempt that was read. */
  lemma ReadGenuine(net: Net, p: Params, made: seq<Attempt>, deadline: Time, r: ReadRun, start: Time)
    requires SoFar(net, p, made, start) && !net.cancelled(ChecksIn(made))
    requires net.written(|made|) == Some(|p.req|) && net.deadlineSet(|made|)
    requires
      ReadsGenuine(net, r, deadline, ReadsIn(made), 0, ClockOf(net, made, start), ChecksIn(made) + 1)
    ensures
      var clock := ClockOf(net, made, start);
      var made' := made + [Attempt(p.req, p.server, clock, Some(deadline), r.outcomes)];
      && r.end == ClockOf(net, made', start)
      && ReadsIn(made') == ReadsIn(made) + |r.outcomes|
      && SoFar(net, p, made', start)
      && (r.reading == GaveUp ==> r.checks == ChecksIn(made'))
      && (r.reading.Done? ==> Genuine(net, p, Run(r.reading.reply, made', r.end), start))
  {
    hide AllHeard;
    hide ClockOf;
    hide ClockAfter;
    hide Heard;
    hide ReadsIn;
    hide Genuine;
    var a := Attempt(p.req, p.server, ClockOf(net, made, start), Some(deadline), r.outcomes);
    var made' := made + [a];
    ReadsGrow(made, a);
    HeardGrow(net, p, made, a, start);
    if r.reading.Done? { ReadEnds(net, p, made', r, start); }
  }

  lemma ReadEnds(net: Net, p: Params, made: seq<Attempt>, r: ReadRun, start: Time)
    requires SoFar(net, p, made, start) && made != [] && made[|made| - 1].outcomes == r.outcomes
    requires r.reading.Done? && r.reading.reply != NoAnswer && r.end == ClockOf(net, made, start)
    requires r.reading == Done(Cancelled) ==> net.cancelled(ChecksIn(made))
    requires r.reading == Done(IOFailed) ==>
      r.outcomes != [] && ReadsIn(made) > 0 && net.arrival(ReadsIn(made) - 1).ReadError?
    ensures Genuine(net, p, Run(r.reading.reply, made, r.end), start)
  {
    hide AllHeard;
    hide ClockOf;
    hide ReadsIn;
    hide NotCancelled;
    assert forall k :: 0 <= k < |made| ==> made[k] in made;
  }

  lemma {:induction false} SendsGenuine(net: Net, p: Params, made: seq<Attempt>, timeout: int, clock: Time, start: Time)
    requires SoFar(net, p, made, start) && clock == ClockOf(net, made, start)
    ensures Genuine(net, p, SendOn(net, p, made, timeout, ReadsIn(made), ChecksIn(made), clock), start)
    decreases p.maxAttempts - |made|
  {
    hide ReadOn;
    hide SoFar;
    hide ClockOf;
    hide Genuine;
    hide ReadsIn;
    hide ChecksIn;
    hide ReadsGenuine;
    var checks, first := ChecksIn(made), ReadsIn(made);
    if net.cancelled(checks) || |made| >= p.maxAttempts {
      StopsGenuine(net, p, made, start, if net.cancelled(checks) then Cancelled else NoAnswer);
    } else if net.written(|made|) != Some(|p.req|) || !net.deadlineSet(|made|) {
      WriteFailsGenuine(net, p, made, start);
    } else {
      var deadline := Deadline(clock, timeout, net.ctxDeadline);
      var r := ReadOn(net, p, deadline, first, [], clock, checks + 1);
      NothingHeard(net, first, deadline, clock, made, p, start);
      ReadsHeard(net, p, deadline, first, [], clock, clock, checks + 1);
      ReadGenuine(net, p, made, deadline, r, start);
      var made' := made + [Attempt(p.req, p.server, clock, Some(deadline), r.outcomes)];
      if r.reading == GaveUp { SendsGenuine(net, p, made', timeout * 2, r.end, start); }
    }
  }

  lemma NothingHeard(net: Net, first: nat, deadline: Time, at: Time, made: seq<Attempt>, p: Params, start: Time)
    requires SoFar(net, p, made, start)
    ensures Heard(net, [], first, deadline, at) && at == ClockAfter(net, first, deadline, at, 0)
    ensures !net.cancelled(ChecksIn(made)) ==> NotCancelled(net, ChecksIn(made) + 1)
  {
  }

  /** Every exchange is genuine: it fails only if a write, a deadline or a read
      failed, stops only if a check said that the context had ended, and every
      outcome is what the network brought. */
  lemma ExchangeGenuine(net: Net, p: Params, start: Time)
    ensures Genuine(net, p, ExchangeRun(net, p, start), start)
  {
    hide SendOn;
    hide Genuine;
    SendsGenuine(net, p, [], p.initial, start, start);
  }

  // ---- A server that answers is heard ----

  /** Writes and deadlines succeed, and the context lasts. */
  ghost predicate Obliging(net: Net, p: Params, until: Time) {
    && (forall k: nat :: k < p.maxAttempts ==> net.written(k) == Some(|p.req|) && net.deadlineSet(k))
    && (forall i: nat :: !net.cancelled(i))
    && (net.ctxDeadline.Some? ==> until <= net.ctxDeadline.value)
  }

  /** The first n attempts are silent until their deadlines; in attempt n, before its
      deadline, come the given number of datagrams from elsewhere and then one from
      the server. */
  ghost predicate AnswersIn(net: Net, p: Params, start: Time, n: nat, others: nat) {
    var until := start + Budget(p.initial, n + 1);
    && (forall k: nat :: k < n ==> net.arrival(k).Silence? && net.arrival(k).at >= start + Budget(p.initial, k + 1))
    && (forall i: nat :: n <= i < n + others ==>
          net.arrival(i).Datagram? && net.arrival(i).from != p.server && net.arrival(i).at <= until)
    && net.arrival(n + others).Datagram?
    && net.arrival(n + others).from == p.server && net.arrival(n + others).at <= until
  }

  lemma {:induction false} ReadsReachAnswer(net: Net, p: Params, start: Time, n: nat, others: nat, os: seq<Outcome>,
      clock: Time, checks: nat)
    requires AnswersIn(net, p, start, n, others) && |os| <= others < MAX_IGNORED
    requires forall i: nat :: !net.cancelled(i)
    requires clock <= start + Budget(p.initial, n + 1)
    ensures
      var r := ReadOn(net, p, start + Budget(p.initial, n + 1), n, os, clock, checks);
      var bytes := Kept(net.arrival(n + others).data, p.bufSize);
      r.reading == Done(if |bytes| < p.respLen then TooShort else Got(bytes))
    decreases others - |os|
  {
    hide Budget;
    var (o, t) := ReadAt(net.arrival(n + |os|), clock, start + Budget(p.initial, n + 1));
    if |os| < others { ReadsReachAnswer(net, p, start, n, others, os + [o], t, checks + 1); }
  }

  lemma SilentReads(net: Net, p: Params, start: Time, n: nat, others: nat, k: nat, checks: nat)
    requires AnswersIn(net, p, start, n, others) && k < n
    requires forall i: nat :: !net.cancelled(i)
    ensures
      var r := ReadOn(net, p, start + Budget(p.initial, k + 1), k, [], start + Budget(p.initial, k), checks);
      r.reading == GaveUp && |r.outcomes| == 1 && r.end == start + Budget(p.initial, k + 1)
  {
    assert net.arrival(k).Silence?;
  }

  /** An attempt on such a network sends and reads. */
  lemma AttemptReads(net: Net, p: Params, made: seq<Attempt>, checks: nat, start: Time, n: nat)
    requires Obliging(net, p, start + Budget(p.initial, n + 1)) && |made| <= n < p.maxAttempts
    ensures
      var k := |made|;
      var clock, deadline := start + Budget(p.initial, k), start + Budget(p.initial, k + 1);
      var r := ReadOn(net, p, deadline, k, [], clock, checks + 1);
      var made' := made + [Attempt(p.req, p.server, clock, Some(deadline), r.outcomes)];
      SendOn(net, p, made, Timeout(p.initial, k), k, checks, clock) ==
        if r.reading.Done? then Run(r.reading.reply, made', r.end)
        else SendOn(net, p, made', 2 * Timeout(p.initial, k), k + |r.outcomes|, r.checks, r.end)
  {
    hide ReadOn;
    var k := |made|;
    BudgetMonotone(p.initial, k + 1, n + 1);
    assert Deadline(start + Budget(p.initial, k), Timeout(p.initial, k), net.ctxDeadline)
      == start + Budget(p.initial, k + 1);
  }

  lemma {:induction false} SendsReachAnswer(net: Net, p: Params, start: Time, n: nat, others: nat, made: seq<Attempt>,
      checks: nat)
    requires AnswersIn(net, p, start, n, others) && Obliging(net, p, start + Budget(p.initial, n + 1))
    requires |made| <= n < p.maxAttempts && others < MAX_IGNORED
    ensures
      var run := SendOn(net, p, made, Timeout(p.initial, |made|), |made|, checks, start + Budget(p.initial, |made|));
      var bytes := Kept(net.arrival(n + others).data, p.bufSize);
      && |run.attempts| == n + 1
      && run.reply == (if |bytes| < p.respLen then TooShort else Got(bytes))
    decreases n - |made|
  {
    hide ReadOn;
    hide SendOn;
    hide AnswersIn;
    hide Budget;
    var k := |made|;
    var clock, deadline := start + Budget(p.initial, k), start + Budget(p.initial, k + 1);
    var r := ReadOn(net, p, deadline, k, [], clock, checks + 1);
    AttemptReads(net, p, made, checks, start, n);
    if k < n {
      SilentReads(net, p, start, n, others, k, checks + 1);
      var a := Attempt(p.req, p.server, clock, Some(deadline), r.outcomes);
      SendsReachAnswer(net, p, start, n, others, made + [a], r.checks);
    } else {
      assert clock <= deadline by { BudgetMonotone(p.initial, k, k + 1); }
      ReadsReachAnswer(net, p, start, n, others, [], clock, checks + 1);
    }
  }

  /** Retransmission works: if the gateway stays silent for fewer than maxAttempts
      attempts and then answers before the deadline of the next, behind fewer than
      sixteen datagrams from elsewhere, the exchange returns that answer. */
  lemma AnswerIsHeard(net: Net, p: Params, start: Time, n: nat, others: nat)
    requires AnswersIn(net, p, start, n, others) && Obliging(net, p, start + Budget(p.initial, n + 1))
    requires n < p.maxAttempts && others < 16
    ensures
      var run := ExchangeRun(net, p, start);
      var bytes := Kept(net.arrival(n + others).data, p.bufSize);
      && |run.attempts| == n + 1
      && run.reply == (if |bytes| < p.respLen then TooShort else Got(bytes))
      && Budget(p.initial, n + 1) == p.initial * (Pow2(n + 1) - 1)
  {
    hide SendOn;
    hide AnswersIn;
    hide Obliging;
    SendsReachAnswer(net, p, start, n, others, [], 0);
    BudgetClosedForm(p.initial, n + 1);
  }
}
