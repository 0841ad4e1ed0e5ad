/** Ordering and probing the protocol candidates (internal/daemon/detect.go). */
module Detect {
  import opened Prelude
  import opened Mapping

  /** A protocol name and the identity of its client factory. */
  datatype Candidate = Candidate(name: string, factory: nat)

  // ---- What orderCandidates computes ----

  /** byName: of several candidates with a name, the last. */
  function ByName(all: seq<Candidate>, name: string): Option<Candidate> {
    if all == [] then None
    else if all[|all| - 1].name == name then Some(all[|all| - 1])
    else ByName(all[..|all| - 1], name)
  }

  /** The first occurrences of known names, in the given order. */
  function Known(all: seq<Candidate>, order: seq<string>): seq<Candidate> {
    if order == [] then []
    else
      var before, name := order[..|order| - 1], order[|order| - 1];
      if ByName(all, name).Some? && name !in before
      then Known(all, before) + [ByName(all, name).value] else Known(all, before)
  }

  /** The candidates whose names are not given, in default order. */
  function Unnamed(all: seq<Candidate>, order: seq<string>): seq<Candidate> {
    if all == [] then []
    else
      var rest, c := Unnamed(all[..|all| - 1], order), all[|all| - 1];
      if c.name in order then rest else rest + [c]
  }

  function Ordering(all: seq<Candidate>, order: seq<string>): seq<Candidate> {
    if order == [] then all else Known(all, order) + Unnamed(all, order)
  }

  lemma {:induction false} ByNameKnown(all: seq<Candidate>, name: string)
    ensures ByName(all, name).Some? <==> exists c :: c in all && c.name == name
    ensures ByName(all, name).Some? ==> ByName(all, name).value in all && ByName(all, name).value.name == name
  {
    if all != [] {
      ByNameKnown(all[..|all| - 1], name);
      assert all == all[..|all| - 1] + [all[|all| - 1]];
    }
  }

  method OrderCandidates(all: seq<Candidate>, order: seq<string>) returns (ordered: seq<Candidate>)
    ensures ordered == Ordering(all, order)
  {
    if |order| == 0 { return all; }
    var byName: map<string, Candidate> := map[];
    for i := 0 to |all|
      invariant forall n :: n in byName <==> ByName(all[..i], n).Some?
      invariant forall n <- byName :: ByName(all[..i], n) == Some(byName[n])
    {
      Grow(all, i);
      byName := byName[all[i].name := all[i]];
    }
    assert all[..|all|] == all;
    ordered := [];
    var used: set<string> := {};
    for i := 0 to |order|
      invariant ordered == Known(all, order[..i])
      invariant forall n :: n in used <==> n in order[..i] && n in byName
    {
      Grow(order, i);
      var name := order[i];
      if name in byName && name !in used {
        ordered := ordered + [byName[name]];
        used := used + {name};
      }
    }
    assert order[..|order|] == order;
    for i := 0 to |all|
      invariant ordered == Known(all, order) + Unnamed(all[..i], order)
    {
      Grow(all, i);
      ByNameKnown(all, all[i].name);
      if all[i].name !in used { ordered := ordered + [all[i]]; }
    }
  }

  // ---- What that ordering is ----

  predicate DistinctNames(all: seq<Candidate>) {
    forall i, j :: 0 <= i < j < |all| ==> all[i].name != all[j].name
  }

  /** The first position of a name, or the length. */
  function Position(names: seq<string>, name: string): (i: nat)
    ensures i <= |names| && (i < |names| <==> name in names)
    ensures i < |names| ==> names[i] == name
  {
    if names == [] then 0 else if names[0] == name then 0 else 1 + Position(names[1..], name)
  }

  function Names(all: seq<Candidate>): (r: seq<string>)
    ensures |r| == |all| && forall i :: 0 <= i < |all| ==> r[i] == all[i].name
  {
    seq(|all|, i requires 0 <= i < |all| => all[i].name)
  }

  /** Where a name belongs: by its first position in the order, and after all of
      those by its default position. */
  function Rank(all: seq<Candidate>, order: seq<string>, name: string): nat {
    if name in order then Position(order, name) else |order| + Position(Names(all), name)
  }

  lemma {:induction false} PositionIn(names: seq<string>, i: nat, name: string)
    requires i < |names| && names[i] == name && name !in names[..i]
    ensures Position(names, name) == i
  {
    if i > 0 {
      assert names[0] == names[..i][0];
      assert names[1..][..i - 1] == names[..i][1..];
      PositionIn(names[1..], i - 1, name);
    }
  }

  /** In strictly increasing rank. */
  ghost predicate Ranked(all: seq<Candidate>, order: seq<string>, s: seq<Candidate>) {
    forall i, j :: 0 <= i < j < |s| ==> Rank(all, order, s[i].name) < Rank(all, order, s[j].name)
  }

  ghost predicate Within(all: seq<Candidate>, order: seq<string>, s: seq<Candidate>, lo: nat, hi: nat) {
    forall i :: 0 <= i < |s| ==> lo <= Rank(all, order, s[i].name) < hi
  }

  lemma RankedConcat(all: seq<Candidate>, order: seq<string>, s: seq<Candidate>, t: seq<Candidate>,
      lo: nat, mid: nat, hi: nat)
    requires Ranked(all, order, s) && Within(all, order, s, lo, mid)
    requires Ranked(all, order, t) && Within(all, order, t, mid, hi)
    requires lo <= mid <= hi
    ensures Ranked(all, order, s + t) && Within(all, order, s + t, lo, hi)
  {
    hide Rank;
  }

  /** With distinct names, ByName finds the candidate of that name. */
  lemma ByNameUnique(all: seq<Candidate>, c: Candidate)
    requires DistinctNames(all) && c in all
    ensures ByName(all, c.name) == Some(c)
  {
    ByNameKnown(all, c.name);
    var d := ByName(all, c.name).value;
    var i :| 0 <= i < |all| && all[i] == c;
    var j :| 0 <= j < |all| && all[j] == d;
    assert i == j;
  }

  lemma {:induction false} KnownRanked(all: seq<Candidate>, order: seq<string>, n: nat)
    requires DistinctNames(all) && n <= |order|
    ensures Ranked(all, order, Known(all, order[..n])) && Within(all, order, Known(all, order[..n]), 0, n)
    ensures forall c :: c in Known(all, order[..n]) <==> c in all && c.name in order[..n]
  {
    hide DistinctNames;
    hide Ranked;
    hide ByName;
    if n > 0 {
      Grow(order, n - 1);
      KnownRanked(all, order, n - 1);
      var before, name := order[..n - 1], order[n - 1];
      var s := Known(all, before);
      ByNameKnown(all, name);
      forall c | c in all && c.name == name ensures ByName(all, name) == Some(c) { ByNameUnique(all, c); }
      if ByName(all, name).Some? && name !in before {
        PositionIn(order, n - 1, name);
        var t := [ByName(all, name).value];
        OneRanked(all, order, t[0], n - 1);
        RankedConcat(all, order, s, t, 0, n - 1, n);
      }
    } else {
      NoneRanked(all, order, 0);
    }
  }

  lemma NoneRanked(all: seq<Candidate>, order: seq<string>, at: nat)
    ensures Ranked(all, order, []) && Within(all, order, [], at, at) && Within(all, order, [], at, at + 1)
  {
  }

  lemma OneRanked(all: seq<Candidate>, order: seq<string>, c: Candidate, rank: nat)
    requires Rank(all, order, c.name) == rank
    ensures Ranked(all, order, [c]) && Within(all, order, [c], rank, rank + 1)
  {
  }

  lemma {:induction false} UnnamedMembers(all: seq<Candidate>, order: seq<string>)
    ensures forall c :: c in Unnamed(all, order) <==> c in all && c.name !in order
  {
    if all != [] {
      UnnamedMembers(all[..|all| - 1], order);
      assert all == all[..|all| - 1] + [all[|all| - 1]];
    }
  }

  lemma {:induction false} UnnamedRanked(all: seq<Candidate>, order: seq<string>, n: nat)
    requires DistinctNames(all) && n <= |all|
    ensures Ranked(all, order, Unnamed(all[..n], order))
    ensures Within(all, order, Unnamed(all[..n], order), |order|, |order| + n)
  {
    hide Ranked;
    hide Within;
    hide Rank;
    if n > 0 {
      Grow(all, n - 1);
      UnnamedRanked(all, order, n - 1);
      var c, s := all[n - 1], Unnamed(all[..n - 1], order);
      if c.name in order {
        NoneRanked(all, order, |order| + n - 1);
        RankedConcat(all, order, s, [], |order|, |order| + n - 1, |order| + n);
        assert s + [] == s;
      } else {
        RankOfUnnamed(all, order, n - 1);
        OneRanked(all, order, c, |order| + n - 1);
        RankedConcat(all, order, s, [c], |order|, |order| + n - 1, |order| + n);
      }
    } else {
      NoneRanked(all, order, |order|);
    }
  }

  lemma RankOfUnnamed(all: seq<Candidate>, order: seq<string>, i: nat)
    requires DistinctNames(all) && i < |all| && all[i].name !in order
    ensures Rank(all, order, all[i].name) == |order| + i
  {
    assert all[i].name !in Names(all)[..i];
    PositionIn(Names(all), i, all[i].name);
  }

  lemma {:induction false} NoRepeats(s: seq<Candidate>)
    requires forall i, j :: 0 <= i < j < |s| ==> s[i] != s[j]
    ensures forall c :: multiset(s)[c] == if c in s then 1 else 0
  {
    if s != [] {
      var init := s[..|s| - 1];
      NoRepeats(init);
      assert s == init + [s[|s| - 1]];
    }
  }

  /** With distinct names, the ordering is a permutation of the candidates in order
      of rank: the given names by first occurrence, then the rest by default. */
  lemma OrderingByRank(all: seq<Candidate>, order: seq<string>)
    requires DistinctNames(all)
    ensures multiset(Ordering(all, order)) == multiset(all)
    ensures Ranked(all, order, Ordering(all, order))
  {
    hide Rank;
    OrderingRanked(all, order);
    var r := Ordering(all, order);
    NoRepeats(r);
    NoRepeats(all);
    assert forall c :: multiset(r)[c] == multiset(all)[c];
  }

  lemma OrderingRanked(all: seq<Candidate>, order: seq<string>)
    requires DistinctNames(all)
    ensures Ranked(all, order, Ordering(all, order))
    ensures forall c :: c in Ordering(all, order) <==> c in all
  {
    hide DistinctNames;
    hide Ranked;
    hide Within;
    KnownRanked(all, order, |order|);
    UnnamedRanked(all, order, |all|);
    UnnamedMembers(all, order);
    assert order[..|order|] == order && all[..|all|] == all;
    if order == [] { NoneNamed(all); }
    RankedConcat(all, order, Known(all, order), Unnamed(all, order), 0, |order|, |order| + |all|);
    assert Ordering(all, order) == Known(all, order) + Unnamed(all, order);
  }

  lemma {:induction false} NoneNamed(all: seq<Candidate>)
    ensures Unnamed(all, []) == all
  {
    if all != [] {
      NoneNamed(all[..|all| - 1]);
      assert all == all[..|all| - 1] + [all[|all| - 1]];
    }
  }

  // ---- Probing ----

  datatype Detection = Found(client: Candidate) | Interrupted | NotFound

  /** The first i probes failed and the context had not ended after any. */
  predicate ReachedAt(candidates: seq<Candidate>, answers: Candidate -> bool, cancelled: nat -> bool, i: nat)
    requires i <= |candidates|
  {
    forall j :: 0 <= j < i ==> !answers(candidates[j]) && !cancelled(j)
  }

  /** Some candidate answers before the context has ended. */
  ghost predicate SomeAnswer(ordered: seq<Candidate>, answers: Candidate -> bool, cancelled: nat -> bool) {
    exists i :: 0 <= i < |ordered| && ReachedAt(ordered, answers, cancelled, i) && answers(ordered[i])
  }

  /** detect, with the probes' answers and whether the context ended by then. */
  method DetectFirst(candidates: seq<Candidate>, answers: Candidate -> bool, cancelled: nat -> bool)
    returns (d: Detection)
    ensures d.Found? <==> SomeAnswer(candidates, answers, cancelled)
    ensures d.Found? ==> exists i :: 0 <= i < |candidates| && ReachedAt(candidates, answers, cancelled, i)
                              && answers(candidates[i]) && candidates[i] == d.client
    ensures d.NotFound? <==> ReachedAt(candidates, answers, cancelled, |candidates|)
    ensures d.Interrupted? <==> exists i :: 0 <= i < |candidates| && ReachedAt(candidates, answers, cancelled, i)
                                     && !answers(candidates[i]) && cancelled(i)
  {
    for i := 0 to |candidates|
      invariant ReachedAt(candidates, answers, cancelled, i)
    {
      if answers(candidates[i]) { return Found(candidates[i]); }
      if cancelled(i) { return Interrupted; }
    }
    return NotFound;
  }

  /** The three built-in candidates, in default order. */
  const NATPMP: Candidate := Candidate("natpmp", 0)
  const PCP: Candidate := Candidate("pcp", 1)
  const UPNP: Candidate := Candidate("upnp", 2)
  const CANDIDATES: seq<Candidate> := [NATPMP, PCP, UPNP]

  const DEFAULT_TIMEOUT: Duration := 3 * SECOND

  /** The time each probe gets: the configured one, or the default. */
  function ProbeTimeout(configured: Duration): Duration {
    if configured == 0 then DEFAULT_TIMEOUT else configured
  }

  /** A candidate answers within the time it gets. */
  function Answers(probe: (Candidate, Duration) -> bool, timeout: Duration): Candidate -> bool {
    c => probe(c, timeout)
  }

  /** The answering candidate of least rank. */
  ghost predicate Chosen(all: seq<Candidate>, order: seq<string>, answers: Candidate -> bool, client: Candidate) {
    && client in all && answers(client)
    && (forall c :: c in all && answers(c) && c != client ==>
          Rank(all, order, client.name) < Rank(all, order, c.name))
  }

  /** Detection over the ordered candidates, in a context that may end at any time,
      finds the answering protocol of least rank, unless the context ends before it
      is reached; without an end, it fails exactly if none answers. */
  method DefaultDetect(all: seq<Candidate>, order: seq<string>, configured: Duration,
      probe: (Candidate, Duration) -> bool, cancelled: nat -> bool)
    returns (d: Detection)
    requires DistinctNames(all)
    ensures d.Found? <==> SomeAnswer(Ordering(all, order), Answers(probe, ProbeTimeout(configured)), cancelled)
    ensures d.Found? ==> Chosen(all, order, Answers(probe, ProbeTimeout(configured)), d.client)
    ensures d.NotFound? <==>
      && (forall c :: c in all ==> !Answers(probe, ProbeTimeout(configured))(c))
      && (forall j: nat :: j < |all| ==> !cancelled(j))
  {
    var ordered := OrderCandidates(all, order);
    hide Rank;
    hide DistinctNames;
    hide Ordering;
    hide Ranked;
    hide Chosen;
    OrderingIsComplete(all, order);
    var timeout := configured;
    if timeout == 0 { timeout := DEFAULT_TIMEOUT; }
    var answers := Answers(probe, timeout);
    d := DetectFirst(ordered, answers, cancelled);
    if d.Found? {
      var i :| 0 <= i < |ordered| && ReachedAt(ordered, answers, cancelled, i) && answers(ordered[i])
        && ordered[i] == d.client;
      FirstIsLeast(all, order, ordered, answers, cancelled, i);
      IsChosen(all, order, ordered, answers, d.client);
    }
  }

  lemma OrderingIsComplete(all: seq<Candidate>, order: seq<string>)
    requires DistinctNames(all)
    ensures Ranked(all, order, Ordering(all, order)) && |Ordering(all, order)| == |all|
    ensures forall c :: c in Ordering(all, order) <==> c in all
  {
    hide Ordering;
    hide Ranked;
    OrderingRanked(all, order);
    OrderingByRank(all, order);
    assert |multiset(Ordering(all, order))| == |multiset(all)|;
  }

  lemma IsChosen(all: seq<Candidate>, order: seq<string>, ordered: seq<Candidate>, answers: Candidate -> bool,
      client: Candidate)
    requires forall c :: c in ordered <==> c in all
    requires client in ordered && answers(client)
    requires forall c :: c in ordered && answers(c) && c != client ==>
      Rank(all, order, client.name) < Rank(all, order, c.name)
    ensures Chosen(all, order, answers, client)
  {
    hide Rank;
  }

  lemma FirstIsLeast(all: seq<Candidate>, order: seq<string>, ordered: seq<Candidate>, answers: Candidate -> bool,
      cancelled: nat -> bool, i: nat)
    requires Ranked(all, order, ordered) && i < |ordered| && ReachedAt(ordered, answers, cancelled, i)
    ensures forall c :: c in ordered && answers(c) && c != ordered[i] ==>
      Rank(all, order, ordered[i].name) < Rank(all, order, c.name)
  {
    hide Rank;
    forall c | c in ordered && answers(c) && c != ordered[i]
      ensures Rank(all, order, ordered[i].name) < Rank(all, order, c.name)
    {
      var k :| 0 <= k < |ordered| && ordered[k] == c;
      assert i < k;
    }
  }

  /** Without a configured order, NAT-PMP comes before PCP and PCP before UPnP. */
  lemma DefaultPreference()
    ensures Names(Ordering(CANDIDATES, [])) == ["natpmp", "pcp", "upnp"]
    ensures Rank(CANDIDATES, [], "natpmp") < Rank(CANDIDATES, [], "pcp") < Rank(CANDIDATES, [], "upnp")
  {
    assert Names(CANDIDATES) == ["natpmp", "pcp", "upnp"];
    assert ["natpmp", "pcp", "upnp"][1..] == ["pcp", "upnp"] && ["pcp", "upnp"][1..] == ["upnp"];
  }
}
