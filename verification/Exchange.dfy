/** The retransmission loop shared in form by the NAT-PMP and PCP clients
    (natpmp.go and pcp.go differ in the buffer size and the required length).

    Time only passes while a read waits, and a read returns at its deadline at the
    latest. Everything else about the network is arbitrary. */
module Exchange {
  import opened Prelude
  import opened Wire
  import opened Netip
  import opened Mapping

  const MAX_IGNORED: nat := 16

  datatype Endpoint = Endpoint(addr: Addr, port: u16)

  /** What a read would yield, and when. */
  datatype Arrival =
    | Datagram(data: seq<byte>, from: Endpoint, at: Time)
    | Silence(at: Time)
    | ReadError

  /** The answers of the socket and the context, by attempt, by read and by check. */
  datatype Net = Net(
    written: nat -> Option<nat>,
    deadlineSet: nat -> bool,
    arrival: nat -> Arrival,
    cancelled: nat -> bool,
    ctxDeadline: Option<Time>)

  datatype Outcome = Received(data: seq<byte>, from: Endpoint) | TimedOut | Failed

  /** A read at the given clock with the given deadline: what it returns and when. */
  function ReadAt(a: Arrival, clock: Time, deadline: Time): (Outcome, Time) {
    match a
    case ReadError => (Failed, clock)
    case Silence(at) => (TimedOut, Min(Max(at, clock), Max(deadline, clock)))
    case Datagram(data, from, at) =>
      if Max(at, clock) <= Max(deadline, clock) then (Received(data, from), Max(at, clock))
      else (TimedOut, Max(deadline, clock))
  }

  /** One send and the reads that followed it. */
  datatype Attempt = Attempt(sent: seq<byte>, server: Endpoint, at: Time, deadline: Option<Time>, outcomes: seq<Outcome>)

  datatype Reply =
    | Got(bytes: seq<byte>)
    | NoAnswer      // every attempt used up
    | TooShort
    | Cancelled
    | IOFailed

  /** The reply of an exchange as the clients' error values. */
  function AsResult(reply: Reply): Result<seq<byte>> {
    match reply
    case Got(b) => Ok(b)
    case Cancelled => Err(ErrContext)
    case _ => Err(ErrOther)
  }

  function Deadline(now: Time, timeout: int, ctx: Option<Time>): Time {
    if ctx.Some? && ctx.value < now + timeout then ctx.value else now + timeout
  }

  predicate Foreign(o: Outcome, server: Endpoint) { o.Received? && o.from != server }

  predicate AllForeign(os: seq<Outcome>, server: Endpoint) {
    forall i :: 0 <= i < |os| ==> Foreign(os[i], server)
  }

  /** Foreign datagrams and then the given outcome. */
  predicate EndsWith(os: seq<Outcome>, o: Outcome, server: Endpoint) {
    os != [] && os[|os| - 1] == o && AllForeign(os[..|os| - 1], server)
  }

  /** Foreign datagrams and then one from the server. */
  predicate EndsWithAnswer(os: seq<Outcome>, server: Endpoint) {
    os != [] && os[|os| - 1].Received? && EndsWith(os, Received(os[|os| - 1].data, server), server)
  }

  /** The reads of an attempt the loop gives up on: a timeout, or sixteen datagrams
      from elsewhere. */
  predicate UsedUp(os: seq<Outcome>, server: Endpoint) {
    EndsWith(os, TimedOut, server) || (|os| == MAX_IGNORED && AllForeign(os, server))
  }

  /** The bytes a read into a buffer keeps. */
  function Kept(data: seq<byte>, bufSize: nat): seq<byte> {
    data[..Min(|data|, bufSize)]
  }

  /** What the reads of the last attempt say about the reply. */
  predicate Explains(os: seq<Outcome>, reply: Reply, server: Endpoint, respLen: nat, bufSize: nat) {
    match reply
    case Got(bytes) =>
      EndsWithAnswer(os, server) && bytes == Kept(os[|os| - 1].data, bufSize) && |bytes| >= respLen
    case TooShort => EndsWithAnswer(os, server) && |Kept(os[|os| - 1].data, bufSize)| < respLen
    case NoAnswer => UsedUp(os, server)
    case Cancelled => UsedUp(os, server) || AllForeign(os, server)
    case IOFailed => os == [] || EndsWith(os, Failed, server)
  }

  /** The parameters of an exchange. */
  datatype Params = Params(server: Endpoint, req: seq<byte>, respLen: nat, bufSize: nat, initial: nat, maxAttempts: int)

  // ---- The loops, as functions ----

  datatype Reading = Done(reply: Reply) | GaveUp

  datatype ReadRun = ReadRun(reading: Reading, outcomes: seq<Outcome>, end: Time, checks: nat)

  /** The inner loop, after the outcomes os. */
  function ReadOn(net: Net, p: Params, deadline: Time, firstRead: nat, os: seq<Outcome>, clock: Time, checks: nat)
    : ReadRun
    decreases MAX_IGNORED - |os|
  {
    if net.cancelled(checks) then ReadRun(Done(Cancelled), os, clock, checks + 1)
    else
      var (o, at) := ReadAt(net.arrival(firstRead + |os|), clock, deadline);
      var os' := os + [o];
      if o.Failed? then ReadRun(Done(IOFailed), os', at, checks + 1)
      else if o.TimedOut? then ReadRun(GaveUp, os', at, checks + 1)
      else if o.from != p.server then
        if |os'| >= MAX_IGNORED then ReadRun(GaveUp, os', at, checks + 1)
        else ReadOn(net, p, deadline, firstRead, os', at, checks + 1)
      else if |Kept(o.data, p.bufSize)| < p.respLen then ReadRun(Done(TooShort), os', at, checks + 1)
      else ReadRun(Done(Got(Kept(o.data, p.bufSize))), os', at, checks + 1)
  }

  datatype Run = Run(reply: Reply, attempts: seq<Attempt>, end: Time)

  /** The outer loop, after the attempts made. */
  function SendOn(net: Net, p: Params, made: seq<Attempt>, timeout: int, readCount: nat, checks: nat, clock: Time): Run
    decreases p.maxAttempts - |made|
  {
    if net.cancelled(checks) then Run(Cancelled, made, clock)
    else if |made| >= p.maxAttempts then Run(NoAnswer, made, clock)
    else if net.written(|made|) != Some(|p.req|) || !net.deadlineSet(|made|) then
      Run(IOFailed, made + [Attempt(p.req, p.server, clock, None, [])], clock)
    else
      var deadline := Deadline(clock, timeout, net.ctxDeadline);
      var r := ReadOn(net, p, deadline, readCount, [], clock, checks + 1);
      var made' := made + [Attempt(p.req, p.server, clock, Some(deadline), r.outcomes)];
      if r.reading.Done? then Run(r.reading.reply, made', r.end)
      else SendOn(net, p, made', timeout * 2, readCount + |r.outcomes|, r.checks, r.end)
  }

  /** A whole exchange. */
  function ExchangeRun(net: Net, p: Params, start: Time): Run {
    SendOn(net, p, [], p.initial, 0, 0, start)
  }

  // ---- The loops, as methods ----

  method ReadReply(net: Net, p: Params, clock: Time, deadline: Time, firstRead: nat, firstCheck: nat)
    returns (run: ReadRun)
    ensures run == ReadOn(net, p, deadline, firstRead, [], clock, firstCheck)
  {
    var os: seq<Outcome>, end, checks := [], clock, firstCheck;
    while true
      invariant |os| < MAX_IGNORED
      invariant ReadOn(net, p, deadline, firstRead, os, end, checks)
        == ReadOn(net, p, deadline, firstRead, [], clock, firstCheck)
      decreases MAX_IGNORED - |os|
    {
      checks := checks + 1;
      if net.cancelled(checks - 1) { return ReadRun(Done(Cancelled), os, end, checks); }
      var (o, at) := ReadAt(net.arrival(firstRead + |os|), end, deadline);
      os, end := os + [o], at;
      if o.Failed? { return ReadRun(Done(IOFailed), os, end, checks); }
      if o.TimedOut? { return ReadRun(GaveUp, os, end, checks); }
      if o.from != p.server {
        if |os| >= MAX_IGNORED { return ReadRun(GaveUp, os, end, checks); }
        continue;
      }
      var out := Kept(o.data, p.bufSize);
      if |out| < p.respLen { return ReadRun(Done(TooShort), os, end, checks); }
      return ReadRun(Done(Got(out)), os, end, checks);
    }
  }

  /** exchange and exchangeOn: send, wait, retransmit with the timeout doubled. */
  method Exchange(net: Net, p: Params, start: Time) returns (run: Run)
    ensures run == ExchangeRun(net, p, start)
  {
    hide ReadOn;
    var made: seq<Attempt>, timeout, clock := [], p.initial, start;
    var readCount: nat, checks: nat := 0, 0;
    while |made| < p.maxAttempts
      invariant SendOn(net, p, made, timeout, readCount, checks, clock) == ExchangeRun(net, p, start)
      decreases p.maxAttempts - |made|
    {
      checks := checks + 1;
      if net.cancelled(checks - 1) { return Run(Cancelled, made, clock); }
      if net.written(|made|) != Some(|p.req|) || !net.deadlineSet(|made|) {
        return Run(IOFailed, made + [Attempt(p.req, p.server, clock, None, [])], clock);
      }
      var deadline := Deadline(clock, timeout, net.ctxDeadline);
      var r := ReadReply(net, p, clock, deadline, readCount, checks);
      made := made + [Attempt(p.req, p.server, clock, Some(deadline), r.outcomes)];
      readCount, checks, clock := readCount + |r.outcomes|, r.checks, r.end;
      if r.reading.Done? { return Run(r.reading.reply, made, clock); }
      timeout := timeout * 2;
    }
    if net.cancelled(checks) { return Run(Cancelled, made, clock); }
    return Run(NoAnswer, made, clock);
  }

  // ---- What an exchange promises ----

  /** The reads of an attempt explain how it ended, and none outlasts the
      deadline. */
  lemma {:induction false} ReadsExplained(net: Net, p: Params, deadline: Time, firstRead: nat, os: seq<Outcome>,
      clock: Time, checks: nat)
    requires |os| < MAX_IGNORED && AllForeign(os, p.server)
    ensures
      var run := ReadOn(net, p, deadline, firstRead, os, clock, checks);
      && |run.outcomes| <= MAX_IGNORED
      && clock <= run.end <= Max(clock, deadline)
      && match run.reading
         case GaveUp => UsedUp(run.outcomes, p.server)
         case Done(reply) =>
           reply != NoAnswer && Explains(run.outcomes, reply, p.server, p.respLen, p.bufSize)
    decreases MAX_IGNORED - |os|
  {
    var (o, at) := ReadAt(net.arrival(firstRead + |os|), clock, deadline);
    var os' := os + [o];
    assert os'[..|os|] == os;
    if !net.cancelled(checks) && Foreign(o, p.server) && |os'| < MAX_IGNORED {
      ReadsExplained(net, p, deadline, firstRead, os', at, checks + 1);
    }
  }

  /** The timeout of attempt i, doubled each time. */
  function Timeout(initial: nat, i: nat): nat {
    if i == 0 then initial else 2 * Timeout(initial, i - 1)
  }

  /** The timeouts of the first n attempts together. */
  function Budget(initial: nat, n: nat): nat {
    if n == 0 then 0 else Budget(initial, n - 1) + Timeout(initial, n - 1)
  }

  lemma {:induction false} BudgetClosedForm(initial: nat, n: nat)
    ensures Timeout(initial, n) == initial * Pow2(n)
    ensures Budget(initial, n) == initial * (Pow2(n) - 1)
  {
    if n > 0 { BudgetClosedForm(initial, n - 1); }
  }

  /** Attempt i sends the request to the server, waits for initial * 2^i or until
      the context's deadline, and reads at most sixteen times. */
  predicate WellFormed(a: Attempt, i: nat, p: Params, ctx: Option<Time>) {
    && a.sent == p.req && a.server == p.server
    && |a.outcomes| <= MAX_IGNORED
    && (a.deadline.Some? ==>
          && a.deadline.value <= a.at + Timeout(p.initial, i)
          && (ctx.Some? ==> a.deadline.value <= ctx.value)
          && (a.deadline.value == a.at + Timeout(p.initial, i) || ctx == Some(a.deadline.value)))
  }

  /** Attempts that were all used up. */
  predicate AllUsedUp(made: seq<Attempt>, p: Params, ctx: Option<Time>) {
    forall i :: 0 <= i < |made| ==> WellFormed(made[i], i, p, ctx) && UsedUp(made[i].outcomes, p.server)
  }

  /** At most maxAttempts identical sends, every attempt but the last used up, the
      last one explaining the reply, and all within the attempts' timeouts. */
  predicate Promised(run: Run, p: Params, ctx: Option<Time>, start: Time) {
    var n := |run.attempts|;
    && n <= Max(p.maxAttempts, 0)
    && start <= run.end <= start + Budget(p.initial, n)
    && (run.reply == NoAnswer ==> n == Max(p.maxAttempts, 0))
    && (n == 0 ==> run.reply in {NoAnswer, Cancelled})
    && (n > 0 ==>
          && AllUsedUp(run.attempts[..n - 1], p, ctx)
          && WellFormed(run.attempts[n - 1], n - 1, p, ctx)
          && Explains(run.attempts[n - 1].outcomes, run.reply, p.server, p.respLen, p.bufSize))
  }

  lemma EndsUsedUp(made: seq<Attempt>, p: Params, ctx: Option<Time>, start: Time, end: Time, reply: Reply)
    requires AllUsedUp(made, p, ctx) && |made| <= Max(p.maxAttempts, 0)
    requires reply == Cancelled || (reply == NoAnswer && |made| == Max(p.maxAttempts, 0))
    requires start <= end <= start + Budget(p.initial, |made|)
    ensures Promised(Run(reply, made, end), p, ctx, start)
  {
    hide UsedUp;
    hide WellFormed;
  }

  lemma EndsExplained(made: seq<Attempt>, a: Attempt, p: Params, ctx: Option<Time>, start: Time, end: Time, reply: Reply)
    requires AllUsedUp(made, p, ctx) && |made| < p.maxAttempts && reply != NoAnswer
    requires WellFormed(a, |made|, p, ctx) && Explains(a.outcomes, reply, p.server, p.respLen, p.bufSize)
    requires start <= end <= start + Budget(p.initial, |made| + 1)
    ensures Promised(Run(reply, made + [a], end), p, ctx, start)
  {
    hide AllUsedUp;
    hide WellFormed;
    hide Explains;
    assert (made + [a])[..|made|] == made;
  }

  lemma {:induction false} SendsPromised(net: Net, p: Params, made: seq<Attempt>, timeout: int, readCount: nat,
      checks: nat, clock: Time, start: Time)
    requires |made| <= Max(p.maxAttempts, 0) && AllUsedUp(made, p, net.ctxDeadline)
    requires timeout == Timeout(p.initial, |made|)
    requires start <= clock <= start + Budget(p.initial, |made|)
    ensures Promised(SendOn(net, p, made, timeout, readCount, checks, clock), p, net.ctxDeadline, start)
    decreases p.maxAttempts - |made|
  {
    hide ReadOn;
    hide Promised;
    hide Explains;
    hide UsedUp;
    if net.cancelled(checks) {
      EndsUsedUp(made, p, net.ctxDeadline, start, clock, Cancelled);
    } else if |made| >= p.maxAttempts {
      EndsUsedUp(made, p, net.ctxDeadline, start, clock, NoAnswer);
    } else if net.written(|made|) != Some(|p.req|) || !net.deadlineSet(|made|) {
      NothingRead(p);
      EndsExplained(made, Attempt(p.req, p.server, clock, None, []), p, net.ctxDeadline, start, clock, IOFailed);
    } else {
      var deadline := Deadline(clock, timeout, net.ctxDeadline);
      ReadsExplained(net, p, deadline, readCount, [], clock, checks + 1);
      var r := ReadOn(net, p, deadline, readCount, [], clock, checks + 1);
      var a := Attempt(p.req, p.server, clock, Some(deadline), r.outcomes);
      if r.reading.Done? {
        EndsExplained(made, a, p, net.ctxDeadline, start, r.end, r.reading.reply);
      } else {
        SendsPromised(net, p, made + [a], timeout * 2, readCount + |r.outcomes|, r.checks, r.end, start);
      }
    }
  }

  lemma NothingRead(p: Params)
    ensures Explains([], IOFailed, p.server, p.respLen, p.bufSize)
  {
  }

  /** Exchange bounds, for every network: what Promised says, within
      initial * (2^n - 1) for n attempts. */
  lemma ExchangeKeepsPromise(net: Net, p: Params, start: Time)
    ensures
      var run := ExchangeRun(net, p, start);
      && Promised(run, p, net.ctxDeadline, start)
      && run.end - start <= p.initial * (Pow2(Max(p.maxAttempts, 0)) - 1)
      && (forall i :: 0 <= i < |run.attempts| ==>
            Timeout(p.initial, i) == p.initial * Pow2(i) && |run.attempts[i].outcomes| <= 16)
  {
    hide UsedUp;
    hide SendOn;
    SendsPromised(net, p, [], p.initial, 0, 0, start, start);
    var n := |ExchangeRun(net, p, start).attempts|;
    BudgetClosedForm(p.initial, Max(p.maxAttempts, 0));
    BudgetMonotone(p.initial, n, Max(p.maxAttempts, 0));
    var made := ExchangeRun(net, p, start).attempts;
    forall i | 0 <= i < n ensures Timeout(p.initial, i) == p.initial * Pow2(i) && |made[i].outcomes| <= 16 {
      BudgetClosedForm(p.initial, i);
      if i < n - 1 { assert made[..n - 1][i] == made[i]; }
    }
  }

  lemma {:induction false} BudgetMonotone(initial: nat, m: nat, n: nat)
    requires m <= n
    ensures Budget(initial, m) <= Budget(initial, n)
  {
    if m < n { BudgetMonotone(initial, m, n - 1); }
  }

  /** Bytes an exchange returns came from the server's address and port, and are
      at least as many as required. */
  lemma ReplyIsFromServer(net: Net, p: Params, start: Time)
    requires ExchangeRun(net, p, start).reply.Got?
    ensures
      var run := ExchangeRun(net, p, start);
      && |run.reply.bytes| >= p.respLen
      && run.attempts != []
      && var os := run.attempts[|run.attempts| - 1].outcomes;
         && EndsWithAnswer(os, p.server)
         && run.reply.bytes == Kept(os[|os| - 1].data, p.bufSize)
  {
    hide SendOn;
    ExchangeKeepsPromise(net, p, start);
  }

  /** All sends of an exchange are the same bytes, to the server. */
  lemma AllSentAreTheRequest(net: Net, p: Params, start: Time)
    ensures forall a <- ExchangeRun(net, p, start).attempts :: a.sent == p.req && a.server == p.server
  {
    hide ExchangeRun;
    hide UsedUp;
    ExchangeKeepsPromise(net, p, start);
    var made := ExchangeRun(net, p, start).attempts;
    forall i | 0 <= i < |made| ensures made[i].sent == p.req && made[i].server == p.server {
      if i < |made| - 1 { assert made[..|made| - 1][i] == made[i]; }
    }
  }

  // ---- An exchange as picking up one reply ----

  /** The reply the client picks up, if any reaches it. */
  function PickUp(replies: seq<seq<byte>>, pick: nat): Result<seq<byte>> {
    if pick < |replies| then Ok(replies[pick]) else Err(ErrOther)
  }

  /** Whatever the network brings from the server is one of the replies. */
  ghost predicate Brings(net: Net, server: Endpoint, replies: seq<seq<byte>>) {
    forall i: nat :: net.arrival(i).Datagram? && net.arrival(i).from == server ==> net.arrival(i).data in replies
  }

  /** The bytes are those of a datagram from the server. */
  ghost predicate Arrived(net: Net, p: Params, bytes: seq<byte>) {
    exists i: nat :: net.arrival(i).Datagram? && net.arrival(i).from == p.server
      && bytes == Kept(net.arrival(i).data, p.bufSize)
  }

  lemma {:induction false} ReadsArrived(net: Net, p: Params, deadline: Time, firstRead: nat, os: seq<Outcome>,
      clock: Time, checks: nat)
    ensures
      var reading := ReadOn(net, p, deadline, firstRead, os, clock, checks).reading;
      reading.Done? && reading.reply.Got? ==> Arrived(net, p, reading.reply.bytes)
    decreases MAX_IGNORED - |os|
  {
    var a := net.arrival(firstRead + |os|);
    var (o, at) := ReadAt(a, clock, deadline);
    if !net.cancelled(checks) && Foreign(o, p.server) && |os| + 1 < MAX_IGNORED {
      ReadsArrived(net, p, deadline, firstRead, os + [o], at, checks + 1);
    } else if o.Received? {
      assert a.Datagram? && a.data == o.data && a.from == o.from;
    }
  }

  lemma {:induction false} SendsArrived(net: Net, p: Params, made: seq<Attempt>, timeout: int, readCount: nat,
      checks: nat, clock: Time)
    ensures
      var reply := SendOn(net, p, made, timeout, readCount, checks, clock).reply;
      reply.Got? ==> Arrived(net, p, reply.bytes)
    decreases p.maxAttempts - |made|
  {
    hide ReadOn;
    hide Arrived;
    var deadline := Deadline(clock, timeout, net.ctxDeadline);
    var r := ReadOn(net, p, deadline, readCount, [], clock, checks + 1);
    ReadsArrived(net, p, deadline, readCount, [], clock, checks + 1);
    if |made| < p.maxAttempts && !r.reading.Done? {
      var made' := made + [Attempt(p.req, p.server, clock, Some(deadline), r.outcomes)];
      SendsArrived(net, p, made', timeout * 2, readCount + |r.outcomes|, r.checks, r.end);
    }
  }

  /** The number of the reply an exchange returned, or of none. */
  ghost predicate Picked(result: Result<seq<byte>>, replies: seq<seq<byte>>, pick: nat) {
    if result.Ok? then result == PickUp(replies, pick) else PickUp(replies, pick).Err?
  }

  /** On a network that brings nothing from the server but the given replies, an
      exchange picks one of them up or fails. */
  lemma ExchangePicksUp(net: Net, p: Params, start: Time, replies: seq<seq<byte>>)
    requires Brings(net, p.server, replies) && forall b <- replies :: |b| <= p.bufSize
    ensures exists pick: nat :: Picked(AsResult(ExchangeRun(net, p, start).reply), replies, pick)
  {
    hide SendOn;
    SendsArrived(net, p, [], p.initial, 0, 0, start);
    var reply := ExchangeRun(net, p, start).reply;
    if reply.Got? {
      var i: nat :| net.arrival(i).Datagram? && net.arrival(i).from == p.server
        && reply.bytes == Kept(net.arrival(i).data, p.bufSize);
      var pick :| 0 <= pick < |replies| && replies[pick] == net.arrival(i).data;
      assert Kept(replies[pick], p.bufSize) == replies[pick];
      assert Picked(AsResult(reply), replies, pick);
    } else {
      assert Picked(AsResult(reply), replies, |replies|);
    }
  }
}
