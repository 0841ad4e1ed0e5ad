/** What the gateway is left with. The daemon accounts for the leases it recorded;
    the gateway's own table can differ, because a call can fail at the daemon after
    the gateway carried it out, and a release can fail for good. This module says
    exactly when a mapping outlives a run.

    Whether the gateway carried out a call is an arbitrary answer, as long as a call
    that succeeded was carried out. Module NatPmpGateway derives these answers from
    datagrams. */
module Conservation {
  import opened Prelude
  import opened Mapping
  import opened Config
  import opened Lifecycle
  import opened Scheduler
  import opened Refinement
  import opened Shutdown

  /** Whether the gateway carried out the call at a position of a key's history. */
  type Deeds = (Key, nat) -> bool

  predicate Recorded(e: Event) { e.Map? && GrantAccepted(e.sent, e.answer) }

  predicate Deletes(e: Event) { e.Unmap? || e.Release? }

  /** A success reported to the daemon was carried out. */
  ghost predicate Truthful(did: Deeds, k: Key, tr: seq<Event>) {
    forall i :: 0 <= i < |tr| && (Recorded(tr[i]) || (Deletes(tr[i]) && tr[i].ok)) ==> did(k, i)
  }

  /** Whether the gateway holds the mapping of a key after its history. */
  predicate Held(did: Deeds, k: Key, tr: seq<Event>) {
    tr != [] &&
    HeldAfter(Held(did, k, tr[..|tr| - 1]), tr[|tr| - 1], did(k, |tr| - 1))
  }

  lemma HeldEmit(did: Deeds, k: Key, tr: seq<Event>, e: Event)
    ensures Held(did, k, tr + [e]) == HeldAfter(Held(did, k, tr), e, did(k, |tr|))
  {
    assert (tr + [e])[..|tr|] == tr;
  }

  predicate HeldAfter(before: bool, e: Event, done: bool) {
    if e.Map? then before || done else if Deletes(e) then before && !done else before
  }

  /** An event that leaves the gateway with a mapping the daemon does not know or
      gives up: a Map carried out but answered with an error, or an Unmap or
      release that was not carried out. */
  predicate Strays(e: Event, done: bool) {
    (e.Map? && !Recorded(e) && done) || (Deletes(e) && !done)
  }

  /** An event after which what happened before no longer matters. */
  predicate Settles(e: Event, done: bool) { (e.Map? && done) || Deletes(e) }

  ghost predicate StrayAt(did: Deeds, k: Key, tr: seq<Event>, i: nat) {
    && i < |tr| && Strays(tr[i], did(k, i))
    && (forall j :: i < j < |tr| ==> !Settles(tr[j], did(k, j)))
  }

  /** The latest event that settled anything went astray. */
  ghost predicate Astray(did: Deeds, k: Key, tr: seq<Event>) {
    exists i: nat :: StrayAt(did, k, tr, i)
  }

  lemma AstrayExtend(did: Deeds, k: Key, before: seq<Event>, e: Event)
    ensures
      var done := did(k, |before|);
      Astray(did, k, before + [e]) <==> Strays(e, done) || (Astray(did, k, before) && !Settles(e, done))
  {
    hide Strays;
    hide Settles;
    var tr, n := before + [e], |before|;
    if Strays(e, did(k, n)) { assert StrayAt(did, k, tr, n); }
    if i: nat :| StrayAt(did, k, tr, i) {
      if i < n {
        assert !Settles(tr[n], did(k, n));
        forall j | i < j < n ensures !Settles(before[j], did(k, j)) { assert tr[j] == before[j]; }
        assert StrayAt(did, k, before, i);
      }
    }
    if Astray(did, k, before) && !Settles(e, did(k, n)) {
      var i: nat :| StrayAt(did, k, before, i);
      forall j | i < j < |tr| ensures !Settles(tr[j], did(k, j)) {
        if j < n { assert tr[j] == before[j]; }
      }
      assert StrayAt(did, k, tr, i);
    }
  }

  /** A mapping's automaton against the gateway: a lease recorded before shutdown is
      backed by the gateway; without one, and at the end, the gateway holds the
      mapping exactly if it went astray. */
  predicate Balanced(a: Auto, held: bool, astray: bool) {
    && (a.lease.Some? && a.phase != Closed ==> held)
    && (a.lease.None? || a.phase == Closed ==> (held <==> astray))
  }

  lemma StepBalanced(r: Request, a: Auto, e: Event, done: bool, held: bool, astray: bool)
    requires e.key == KeyOf(r) && Step(r, a, e).phase != Stuck
    requires Balanced(a, held, astray)
    requires Recorded(e) || (Deletes(e) && e.ok) ==> done
    ensures Balanced(Step(r, a, e), HeldAfter(held, e, done), Strays(e, done) || (astray && !Settles(e, done)))
  {
  }

  lemma {:induction false} HistoryBalanced(did: Deeds, r: Request, tr: seq<Event>)
    requires Mine(r, tr) && Replay(r, tr).phase != Stuck && Truthful(did, KeyOf(r), tr)
    ensures Balanced(Replay(r, tr), Held(did, KeyOf(r), tr), Astray(did, KeyOf(r), tr))
  {
    hide Step;
    hide Astray;
    hide Strays;
    hide Settles;
    hide HeldAfter;
    hide Balanced;
    var k := KeyOf(r);
    if tr == [] {
      NothingHeld(did, k);
    } else {
      var n := |tr| - 1;
      var before, e := tr[..n], tr[n];
      if Replay(r, before).phase == Stuck { StuckStays(r, tr, n); }
      HistoryBalanced(did, r, before);
      assert tr == before + [e];
      AstrayExtend(did, k, before, e);
      StepBalanced(r, Replay(r, before), e, did(k, n), Held(did, k, before), Astray(did, k, before));
    }
  }

  lemma NothingHeld(did: Deeds, k: Key)
    ensures Balanced(INITIAL, false, Astray(did, k, []))
  {
  }

  /** Before shutdown, in every run: what the daemon records, the gateway holds; of
      what it does not record, the gateway holds exactly what went astray. */
  lemma RecordedIsHeld(env: Env, c: Configuration, host: Host, n: nat, i: nat, did: Deeds)
    requires Acceptable(c, host) && i < |Plan(c.mappings)|
    ensures
      var k, s := KeyOf(Plan(c.mappings)[i]), Rounds(env, c, n);
      var tr := Project(s.log, k);
      Truthful(did, k, tr) ==>
        if k in s.leases then Held(did, k, tr) else Held(did, k, tr) <==> Astray(did, k, tr)
  {
    hide Replay;
    hide Project;
    hide Held;
    hide Astray;
    hide Rounds;
    hide Truthful;
    var r, s := Plan(c.mappings)[i], Rounds(env, c, n);
    PerMappingRefinement(env, c, host, n, i);
    ProjectMine(s.log, KeyOf(r));
    if Truthful(did, KeyOf(r), Project(s.log, KeyOf(r))) {
      HistoryBalanced(did, r, Project(s.log, KeyOf(r)));
    }
  }

  /** After shutdown, in every run: the gateway still holds a mapping exactly if the
      latest event that settled anything was a Map it carried out that failed at the
      daemon, with nothing recorded since, or an Unmap or release it did not carry
      out. */
  lemma LeftAtTheGateway(env: Env, c: Configuration, host: Host, n: nat, i: nat, did: Deeds)
    requires Acceptable(c, host) && i < |Plan(c.mappings)|
    ensures
      var k := KeyOf(Plan(c.mappings)[i]);
      var tr := Project(ReleaseAll(env, Waited(Rounds(env, c, n)), c).0.log, k);
      Truthful(did, k, tr) ==> (Held(did, k, tr) <==> Astray(did, k, tr))
  {
    hide Replay;
    hide Project;
    hide Held;
    hide Astray;
    hide Rounds;
    hide ReleaseAll;
    hide Truthful;
    hide Sticky;
    hide Gated;
    hide LastGranted;
    var r, s := Plan(c.mappings)[i], Waited(Rounds(env, c, n));
    var s' := ReleaseAll(env, s, c).0;
    EveryMappingClosed(env, c, host, n, i);
    if Truthful(did, KeyOf(r), Project(s'.log, KeyOf(r))) {
      HistoryBalanced(did, r, Project(s'.log, KeyOf(r)));
    }
  }
}
