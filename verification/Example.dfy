/** A configuration with a single mapping, for the runs that show where a claim
    fails. */
module Example {
  import opened Prelude
  import opened Netip
  import opened Mapping
  import opened Config
  import opened Lifecycle
  import opened Scheduler

  const WEB: Request := Request(TCP, 80, Invalid, 0, "", 0, false)
  const WEB_KEY: Key := Key(TCP, 80, 0)

  const ONE_MAPPING := Configuration("", "", "", [PortMapping(TCP, 80, "", "", 0, "", 0, false)], Detection([], 0))

  /** A host that resolves nothing. */
  const BARE_HOST := Host(_ => None, _ => None, None, s => s)

  lemma OneRequest(host: Host)
    ensures Requests(ONE_MAPPING, host) == [WEB] && Plan(ONE_MAPPING.mappings) == [WEB]
    ensures KeyOf(WEB) == WEB_KEY
  {
    var ms := ONE_MAPPING.mappings;
    assert ms[..0] == [];
    assert Protocols(ms[0]) == [TCP];
    assert MappingRequests(ms[0], Invalid, host) == [WEB];
    assert Flatten(ms, Invalid, host) == Flatten(ms[..0], Invalid, host) + [WEB];
    RequestsFollowPlan(ONE_MAPPING, host);
    assert Shapes([WEB]) == [WEB];
  }

  lemma IsAcceptable()
    ensures Acceptable(ONE_MAPPING, BARE_HOST)
  {
    OneRequest(BARE_HOST);
  }
}
