# A verified model of nat-pmp

nat-pmp keeps port forwardings open on a home router. It validates a list of
desired mappings, detects whether the router speaks NAT-PMP, PCP or UPnP, creates
the mappings, renews each at half its lease, closes those whose local listener went
away, and releases everything on shutdown. This project models that program in
Dafny and proves what it is for.

## How the model is built

- **The daemon.** Class `Daemon.Daemon` has the program's fields and loops. Each
  method is proved to take the step that `Scheduler` defines on values. The client,
  the listener check, the clock, address discovery and address resolution are an
  arbitrary stream of answers, indexed by a tick that every call advances; a theorem
  about all streams is a theorem about every behaviour of the environment. A run that
  is never cancelled is covered by all its finite prefixes.
- **One mapping on its own.** `Lifecycle` is an automaton for a single mapping that
  knows one request, one lease and one wake-up time. `Refinement` proves that the
  shared loop over the two shared maps is the product of these automata, for every
  configuration that passed validation. Listener gating, the sticky external port and
  the retry arithmetic are then proved on the small automaton and lifted to all runs.
  `Fidelity` says the same without the automaton: what each call of a run asks for,
  what it is answered, and what a mapping's history alone implies.
- **The link to the configuration.** `Config.Validate` accepts exactly the
  configurations described by `Acceptable`; `Scheduler.ValidatedKeysDistinct` turns
  that into distinct schedule keys and distinct PCP nonce keys, although addresses are
  resolved anew on every pass; `Daemon.Serve` joins validation, the run and the
  accounting at shutdown.
- **The clients.** `Exchange` is the retransmission loop of both UDP clients on an
  arbitrary network; `Hearing` reads it off that network. The codecs are related to
  printers of the messages as RFC 6886 and RFC 6887 lay them out. `PcpAgreement` puts
  the PCP client opposite a gateway that checks the client's address and guards
  mappings with nonces, over a network that loses datagrams; class `Session` there
  runs the client itself on such a network.
- **The gateway's side.** `Conservation` compares what the daemon records with what
  the gateway holds, and says exactly which mappings outlive a run; `NatPmpGateway`
  derives that from the datagrams of a NAT-PMP client. The property that nothing is
  left behind is false of the program, and `NatPmpGateway.MappingOutlivesRun` is the
  input.
- **Selection.** `Detect` orders and probes the protocols; `Netgw` picks the gateway.

Time is an integer number of nanoseconds, ports and lifetimes have their wire width,
and the one product of seconds and nanoseconds is a wrapping 64-bit product that is
proved not to wrap. Protocols are strings, as in the program.

Where documentation and code differ, the model follows the code: `exchange` is
documented to return a response of the expected length, but accepts longer ones
(cut to its buffer); a failed renewal does not re-create the mapping from scratch but
keeps the old lease and tries again after 30 seconds.

## Model

| member | source | states |
|---|---|---|
| Refinement.PerMappingRefinement | internal/daemon/daemon.go:182-256 | In every reachable state of a validated configuration, the lease and wake-up time of each mapping are those its own automaton reaches on that mapping's events alone, and no event is out of order |
| Refinement.EveryRunRefines | internal/daemon/daemon.go:285-336 | The inductive invariant behind it: start-up and every wake-up keep every mapping aligned with its automaton, the scheduled keys equal to the configured ones, and every recorded lease usable |
| Refinement.ReconcileAligned | internal/daemon/daemon.go:188-234 | One pass over a mapping takes its automaton from idle through exactly one legal pass back to idle |
| Refinement.OthersUnconcerned | internal/daemon/daemon.go:188-256 | A pass over one mapping leaves the automaton of every other mapping where it was |
| Refinement.ScheduleInvariant | internal/daemon/daemon.go:285-292 | Exactly the configured keys are scheduled, so the fallback for an empty schedule is never taken; leases are held only for configured keys and match their key, with a non-zero external port and positive lifetime |
| Refinement.GatingInEveryRun | internal/daemon/daemon.go:211-234 | In every run a gated mapping holds a lease only if its latest check did not say absent; each Map directly follows such a check and each Unmap an "absent" made while a lease was held; an ungated mapping is never checked or unmapped |
| Refinement.StickyInEveryRun | internal/daemon/daemon.go:261-271 | In every run each Map asks for the configured external port or, without one, for the port granted last and not released, across failed renewals |
| Fidelity.EveryPassFaithful | internal/daemon/daemon.go:182-271 | In every run, for start-up, every wake-up and shutdown: each Map, Unmap and release asks for a request as it was expanded for that very pass, but for the external port, and each event records what the environment answered at its tick |
| Fidelity.HistoryInEveryRun | internal/daemon/daemon.go:188-256 | In every run each mapping's events come in the order of a pass, each call asks for the mapping as configured with the right external port, and the recorded lease and the wake-up time are what the history alone says: half of the lease after a grant, 30 s after a failed Map, 15 s after an absent listener |
| Fidelity.HistoryToTheEnd | internal/daemon/daemon.go:340-372 | The same with the events of shutdown: what is released is the port granted last |
| Fidelity.LocalAddressIsLatest | internal/daemon/daemon.go:157-172 | In every run the local address is the latest one discovered, or none if none was, and the UPnP client advertises it if it is usable |
| Fidelity.WakeupTakesAddress | internal/daemon/daemon.go:325-326 | A wake-up takes over the address it discovers and keeps the old one on a failure |
| Refinement.AdvertisesCurrentAddress | internal/daemon/daemon.go:157-172 | In every run the UPnP client advertises the daemon's current local address, if usable |
| Lifecycle.ListenerGating | internal/daemon/daemon.go:188-234 | Gating for every legal history of one mapping |
| Lifecycle.StickyPort | internal/daemon/daemon.go:195-202 | Stickiness for every legal history of one mapping |
| Lifecycle.LeaseHoldsLastGranted | internal/daemon/daemon.go:195-256 | The recorded lease carries exactly the port granted last and not released since; failed renewals and failed releases at shutdown do not change it, a failed release of a vanished listener does |
| Lifecycle.HistorySays | internal/daemon/daemon.go:188-256 | For every legal history of one mapping: order, requests, lease and wake-up time are what the history alone says |
| Retry.RetriesInEveryRun | internal/daemon/daemon.go:195-202 | After a grant followed only by failures that start within d of schedule, at least ceil((L - floor(L/2) - d)/(30 s + d)) attempts start before the lease ends unless one is still pending; with d = 0 exactly that many; the lease is kept |
| Retry.AttemptTimes | internal/daemon/daemon.go:197-200 | Attempt i starts between i times 30 s after the first scheduled renewal and that plus all accumulated delays |
| Wakeups.NoMissedNoBusyWakeups | internal/daemon/daemon.go:305-336 | With a monotone clock, every wake-up of every run finds something due and reconciles exactly what was due at its start, once each and in order; it leaves everything scheduled strictly later if and only if half of every lease granted in it ends later, which always holds when grants are dated no earlier than their call and last at least 2 ns |
| Wakeups.RenewDueExact | internal/daemon/daemon.go:325-336 | The same for renewDue from any sound state, whenever it is called |
| Wakeups.OneNanosecondSpins | internal/daemon/reconcile.go:62-76 | Where the condition fails: leases of one nanosecond are accepted, are due at once, and the loop maps again at every wake-up without time passing |
| ClientLeases.ClientsShareClock | internal/portmapper/natpmp/natpmp.go:232-239 | Leases that come from any of the three clients, on any network, are dated within their call and long enough |
| ClientLeases.NoBusyWakeups | internal/daemon/daemon.go:305-336 | So with these clients every wake-up finds something due and leaves everything scheduled strictly later |
| Shutdown.ShutdownAccounting | internal/daemon/daemon.go:340-372 | In every reachable state releaseAll sends exactly one release per recorded lease, for its granted port, leaves exactly the leases whose release failed, and succeeds if and only if none remains |
| Shutdown.EveryMappingClosed | internal/daemon/daemon.go:340-372 | After shutdown every mapping's automaton is closed with what is left of its lease, or idle if it held none; over its whole life the daemon's record is the port granted last and not released, and gating and the sticky port held |
| Conservation.RecordedIsHeld | internal/daemon/daemon.go:188-256 | In every run the gateway holds what the daemon records; of the rest it holds exactly the mappings that went astray |
| Conservation.LeftAtTheGateway | internal/daemon/daemon.go:340-372 | After shutdown the gateway still holds a mapping if and only if the latest settling event was a Map it carried out that failed at the daemon with nothing recorded since, or an Unmap or release it did not carry out |
| NatPmpGateway.RecordedIsHeldThere | internal/portmapper/natpmp/natpmp.go:199-240 | The same against the table of a NAT-PMP gateway fed with the client's datagrams, some lost: a recorded lease is in the table with the recorded external port |
| NatPmpGateway.WhatIsLeft | internal/portmapper/natpmp/natpmp.go:227-262 | After shutdown that table is exactly the slots of the mappings that went astray |
| NatPmpGateway.MappingOutlivesRun | internal/portmapper/natpmp/natpmp.go:227-230 | An input where the table outlives the run: the gateway grants, the grant arrives, the address query fails; the daemon records nothing and reports success, the mapping stays |
| NatPmpGateway.MapIsAnswered | internal/portmapper/natpmp/natpmp.go:199-240 | A Map of the client on a network that brings only the gateway's replies is an event of such a run |
| NatPmpGateway.UnmapIsAnswered | internal/portmapper/natpmp/natpmp.go:244-262 | The same for an Unmap, also at shutdown |
| NatPmpGateway.SuccessIsReported | internal/portmapper/natpmp/natpmp.go:213-262 | A call whose picked reply is the gateway's success is a success for the daemon: an Unmap or release always, a Map if the grant has a port and a lifetime and the address query succeeds |
| Daemon.Daemon.Reconcile | internal/daemon/daemon.go:188-202 | The method takes the reconcile step: new maps, clock reads and events |
| Daemon.Daemon.HasListener | internal/daemon/daemon.go:211-234 | Present on an error; on absent it releases what is held and polls in 15 s |
| Daemon.Daemon.ReleaseMapping | internal/daemon/daemon.go:239-256 | Drops the lease even if the release failed; nothing without a lease |
| Daemon.Daemon.RefreshLocalAddr | internal/daemon/daemon.go:157-172 | Takes the address step: a failed discovery changes nothing; the UPnP client, if detected, shows the usable address from then on |
| Daemon.Daemon.ReconcileAll | internal/daemon/daemon.go:182-186 | The start-up pass over all requests |
| Daemon.Daemon.TimeUntilNext | internal/daemon/daemon.go:306-320 | Whatever the iteration order, the wait is max(soonest - now, 0), and found exactly if something is scheduled |
| Daemon.Daemon.RenewDueMappings | internal/daemon/daemon.go:325-336 | The pass over due mappings |
| Daemon.Daemon.ReleaseEverything | internal/daemon/daemon.go:340-365 | The shutdown pass and its number of errors |
| Daemon.Daemon.RenewLoop | internal/daemon/daemon.go:285-303 | For any number of timer firings before cancellation: the state reached, every duration the timer was set to, and the release at the end |
| Daemon.Daemon.Run | internal/daemon/daemon.go:126-149 | Runs exactly if the routing table has a gateway and a protocol answers at it before the context ends, each probe given the configured time or 3 s; the gateway is the best route, the client the answering one of least rank; then start-up, renew loop, shutdown; a UPnP client ends up showing the latest usable address |
| Daemon.Serve | internal/cli/cli.go:55-68 | A configuration runs exactly if it is acceptable and gateway and protocol are found; after the run every mapping is accounted for and success is reported exactly if no lease remains |
| Scheduler.ValidatedKeysDistinct | internal/config/config.go:290-318 | A configuration accepted on any host gives every mapping a schedule key and a PCP nonce key of its own on every host |
| Scheduler.RequestsFollowPlan | internal/config/config.go:138-145 | Re-resolving addresses on a later pass changes nothing but the addresses |
| Config.Validate | internal/config/config.go:274-319 | Accepts exactly the acceptable configurations |
| Config.ValidatePorts | internal/config/config.go:290-319 | The port part accepts exactly if all expanded requests are valid, distinct in protocol and internal port, and distinct in protocol and chosen external port; otherwise names the first mapping where that fails |
| Config.AcceptedSoFarMeaning | internal/config/config.go:300-316 | The incremental check with string keys is equivalent to the pairwise conditions |
| Strconv.KeyStringInjective | internal/config/config.go:302-311 | The "%s/%d" keys are injective for any protocol string |
| Config.ValidateInternalAddresses | internal/config/config.go:327-373 | Accepts exactly if no level sets both sources, everything resolves, and every literal address is bound to an interface; returns the default |
| Config.ValidateDetect | internal/config/config.go:384-401 | Accepts exactly a non-negative timeout with known, pairwise different names |
| Config.ExpandRequests | internal/config/config.go:104-145 | The loops compute the requests of all mappings in order |
| Config.RequestsExact | internal/config/config.go:94-145 | The requests are exactly what the mappings ask for: one per mapping and covered protocol ("both" covers TCP and UDP), each with its mapping's fields |
| Config.RequestsAreWanted | internal/config/config.go:94-176 | The requests are, in configuration order, those each mapping wants: TCP and then UDP for "both", with its own address, else that of its interface, else the top-level one |
| Mapping.LeaseValidIffOnWire | internal/mapping/mapping.go:71-91 | Validate lets through exactly TCP and UDP requests with an internal port, for no all-zero address, with a lease that 32 bits of seconds can carry |
| Mapping.CreateNeverSentAsDelete | internal/portmapper/natpmp/natpmp.go:199-208 | A valid request's lifetime on the wire is positive and decodes to exactly what was asked for, or one hour |
| Mapping.FromWireSecondsExact | internal/portmapper/pcp/pcp.go:366-373 | Seconds to nanoseconds never overflows 64 bits and gives one second up to the largest lease |
| Exchange.Exchange | internal/portmapper/natpmp/natpmp.go:114-178 | The two nested loops compute the exchange that the next rows describe |
| Exchange.ExchangeKeepsPromise | internal/portmapper/pcp/pcp.go:198-256 | For any network: at most maxAttempts identical sends, attempt i waiting initial*2^i or until the context's deadline, at most 16 reads each, all but the last used up by a timeout or 16 foreign datagrams, the reply explained by the last one's reads, and everything within initial*(2^n - 1) |
| Hearing.ExchangeGenuine | internal/portmapper/natpmp/natpmp.go:114-178 | Every outcome is what the network brought to that read, an attempt waits exactly if its write and deadline succeeded, an exchange fails only on a failed write, deadline or read, and stops as cancelled only if the context's check at that point said so |
| Hearing.AnswerIsHeard | internal/portmapper/natpmp/natpmp.go:120-173 | Retransmission works: if the gateway is silent for n < maxAttempts attempts and answers before the deadline of the next, behind fewer than 16 foreign datagrams, the exchange returns that answer after n + 1 sends |
| Exchange.ReplyIsFromServer | internal/portmapper/natpmp/natpmp.go:157-170 | Returned bytes came from the gateway's address and port and are at least as many as required |
| Exchange.AllSentAreTheRequest | internal/portmapper/natpmp/natpmp.go:124-134 | Every send is the request, to the gateway |
| Exchange.ExchangePicksUp | internal/portmapper/pcp/pcp.go:227-252 | On a network that brings nothing from the server but given replies, an exchange returns one of them or fails |
| NatPmpCodec.DecodesWhatIsPrinted | internal/portmapper/natpmp/codec.go:124-148 | Decoding succeeds exactly on datagrams that begin with the 16-byte success of RFC 6886 for the protocol, and yields what was printed |
| NatPmpCodec.AddressDecodesWhatIsPrinted | internal/portmapper/natpmp/codec.go:77-95 | The same for external address responses |
| NatPmpCodec.RefusalReported | internal/portmapper/natpmp/codec.go:38-51 | Every printed refusal decodes to the error of its code: 1 and 5 unsupported, 2 not authorized, 4 no resources, any other unnamed |
| NatPmpCodec.RequestRoundTrip | internal/portmapper/natpmp/codec.go:99-112 | A gateway reads back every field of an encoded request |
| NatPmpCodec.RequestLayout | internal/portmapper/natpmp/codec.go:99-112 | The offset and byte order of every field of a request |
| NatPmpCodec.ResponseLayout | internal/portmapper/natpmp/codec.go:124-148 | The offset and byte order of every field of a response |
| NatPmpCodec.EncodeMapRequest | internal/portmapper/natpmp/codec.go:99-112 | The in-place writes produce that request, for exactly the two protocols |
| NatPmpClient.Map | internal/portmapper/natpmp/natpmp.go:199-240 | The method computes the outcome the next rows describe |
| NatPmpClient.LeaseContract | internal/portmapper/natpmp/natpmp.go:213-239 | A lease returned without error passes the daemon's check for its request, lasts one second up to the largest lease, and is dated within the call |
| NatPmpClient.GrantedExactly | internal/portmapper/natpmp/natpmp.go:213-225 | A reply is taken as a grant exactly if it begins with a printed success for the protocol and the requested internal port, with a port and a lifetime |
| NatPmpClient.OnlyCreatesAndOnlyDeletes | internal/portmapper/natpmp/natpmp.go:199-262 | Whatever the network does, everything goes to the gateway's port 5351; a Map creates with the protocol's opcode, the requested ports and the lifetime asked for or one hour; an Unmap has lifetime and external port zero |
| NatPmpClient.HonestGatewayAccepted | internal/portmapper/natpmp/natpmp.go:213-239 | A gateway that echoes the internal port with a port and a lifetime, and tells its address, is accepted and reported as granted |
| NatPmpClient.GrantLostExactly | internal/portmapper/natpmp/natpmp.go:227-230 | Once the grant arrived, Map fails if and only if the address query fails |
| NatPmpClient.GrantLost | internal/portmapper/natpmp/natpmp.go:227-230 | A network where it does: a grant at once, then no socket |
| NatPmpClient.Unmap | internal/portmapper/natpmp/natpmp.go:244-262 | Succeeds exactly if a success for the protocol and internal port came back |
| NatPmpClient.ReleasedExactly | internal/portmapper/natpmp/natpmp.go:254-261 | An Unmap's reply counts as done exactly if it begins with a printed success for the protocol and the requested internal port |
| NatPmpClient.HonestReleaseAccepted | internal/portmapper/natpmp/natpmp.go:244-262 | A gateway that answers a delete in any attempt makes Unmap succeed |
| NatPmpClient.RefusalReachesCaller | internal/portmapper/natpmp/natpmp.go:213-261 | A refusal reaches the caller of Map and of Unmap as the error of its code |
| PcpCodec.DecodesWhatIsPrinted | internal/portmapper/pcp/codec.go:142-175 | Decoding accepts exactly the datagrams that, reserved bytes aside, begin with the 60-byte success of RFC 6887; it inverts printing, with IPv4-mapped addresses unmapped |
| PcpCodec.RequestRoundTrip | internal/portmapper/pcp/codec.go:97-126 | A gateway reads back every field of an encoded request |
| PcpCodec.RequestLayout | internal/portmapper/pcp/codec.go:97-126 | The offset, width and byte order of every field of a request |
| PcpCodec.ResponseLayout | internal/portmapper/pcp/codec.go:142-175 | The offset, width and byte order of every field of a response |
| PcpCodec.RequestsInjective | internal/portmapper/pcp/codec.go:97-126 | Two requests have equal bytes exactly if they agree in every field, addresses up to IPv4-mapped form and zone |
| PcpCodec.EncodeMapRequest | internal/portmapper/pcp/codec.go:97-126 | Encodes exactly the requests with a known protocol and valid addresses, by writes into a zeroed buffer |
| PcpCodec.RefusalReported | internal/portmapper/pcp/codec.go:49-62 | Every printed refusal decodes to the error of its code: 1 and 4 unsupported, 2 not authorized, 8 no resources, any other unnamed |
| Netip.SameAs16 | internal/portmapper/pcp/codec.go:78-83 | Two addresses have the same 16-byte form exactly if they agree up to IPv4-mapped form and zone |
| PcpAgreement.EveryRunAgrees | internal/portmapper/pcp/pcp.go:171-193 | In every run of Map, Unmap and probe calls, with any losses and any gateway decisions, every mapping the gateway holds has its nonce in the client's cache |
| PcpAgreement.NeverRefusedForNonce | internal/portmapper/pcp/pcp.go:310-425 | So no delivered copy of any request is ever refused for its nonce, nor for naming another client address than the one it comes from |
| PcpAgreement.StepAgrees | internal/portmapper/pcp/pcp.go:378-425 | One step: in particular an Unmap forgets a nonce only after the gateway dropped the mapping |
| PcpAgreement.AgreementIsNeeded | internal/portmapper/pcp/pcp.go:171-186 | Exactly when a Map escapes these refusals whatever nonce is drawn: the gateway holds nothing for it, or the client caches that nonce |
| PcpAgreement.RestartedClientIsRefused | internal/portmapper/pcp/pcp.go:171-186 | A client restarted after a Map is refused exactly if it draws another nonce than before |
| PcpAgreement.Session.Map | internal/portmapper/pcp/pcp.go:310-374 | A Map of the client itself, its exchange on a network that carries some copies of its sends to the gateway and nothing but replies back, is one step of a run: agreement is kept and no copy is refused for its nonce |
| PcpAgreement.Session.Unmap | internal/portmapper/pcp/pcp.go:378-425 | The same for an Unmap |
| PcpAgreement.Session.ExternalIP | internal/portmapper/pcp/pcp.go:266-307 | The same for the probe |
| PcpClient.Client.Map | internal/portmapper/pcp/pcp.go:310-374 | Cache and lease after a Map, as the steps of the agreement use them |
| PcpClient.Client.Unmap | internal/portmapper/pcp/pcp.go:378-425 | Cache and error after an Unmap: the nonce goes exactly with an echoed success, a refusal is reported as its sentinel |
| PcpClient.Client.CachedNonce | internal/portmapper/pcp/pcp.go:171-186 | A cached nonce is reused, a fresh one cached |
| PcpClient.Client.ExternalIP | internal/portmapper/pcp/pcp.go:266-307 | The address of an echoed success of the probe, or the error; touches no cached nonce |
| PcpClient.LeaseContract | internal/portmapper/pcp/pcp.go:345-373 | A lease returned without error passes the daemon's check and lasts one second up to the largest lease |
| PcpClient.EchoedExactly | internal/portmapper/pcp/pcp.go:345-358 | A reply is taken as an answer exactly if, reserved bytes aside, it begins with a printed success that echoes nonce, protocol and internal port |
| PcpClient.HonestGatewayAccepted | internal/portmapper/pcp/pcp.go:345-373 | A gateway that echoes nonce, protocol and internal port with a port and a lifetime is accepted |
| PcpClient.OnlyCreatesAndOnlyDeletes | internal/portmapper/pcp/pcp.go:266-401 | Whatever the network does, everything goes to the gateway's port 5351 and names the address of the socket as client and no preferred external address; a Map carries its nonce, protocol number, ports and the lifetime asked for or one hour; an Unmap and a probe carry lifetime zero |
| PcpClient.PrepareExactly | internal/portmapper/pcp/pcp.go:310-337 | Before its exchange a call caches a nonce only if it needs and gets one, and goes on exactly with a socket, a nonce and a valid address |
| PcpClient.RefusalReachesCaller | internal/portmapper/pcp/pcp.go:341-416 | A refusal reaches the caller of Map and of Unmap as the error of its code |
| Upnp.Client.ResolveTarget | internal/portmapper/upnp/upnp.go:111-142 | Keeps a cached target, otherwise caches the first usable search result |
| Upnp.Client.Map | internal/portmapper/upnp/upnp.go:180-233 | The target after the call, when a call is made, which one, and exactly when and with what lease Map succeeds |
| Upnp.Client.Unmap | internal/portmapper/upnp/upnp.go:237-257 | The target after the call, when a delete is sent, and for which port |
| Upnp.Client.SetInternalClient | internal/portmapper/upnp/upnp.go:263-271 | Shows the address if it is usable, otherwise nothing |
| Upnp.LeaseContract | internal/portmapper/upnp/upnp.go:197-232 | The lease passes the daemon's check, lasts one second up to the largest lease, and agrees with the numbers printed into the call |
| Upnp.AddCallSays | internal/portmapper/upnp/upnp.go:180-257 | What the two calls print: the request's external port or else the internal one, the protocol in capitals, the internal port, the client, the description, and the lease or one hour |
| Upnp.ReleaseDeletesWhatMapAdded | internal/portmapper/upnp/upnp.go:191-257 | What the daemon releases is what Map added, and a renewal repeats the same call, also when the external port was defaulted |
| Detect.OrderCandidates | internal/daemon/detect.go:35-56 | The loops compute the ordering of the next row |
| Detect.OrderingByRank | internal/daemon/detect.go:35-56 | With distinct names it is a permutation of the candidates, strictly by rank: named ones by first occurrence, then the rest by default position |
| Detect.DetectFirst | internal/daemon/detect.go:61-75 | Returns the first candidate that answers, unless the context ended before; fails exactly if none is reached |
| Detect.DefaultDetect | internal/daemon/wiring.go:21-28 | In a context that may end, with the configured or the default probe timeout: finds the answering protocol of least rank unless the context ends before it is reached; finds nothing exactly if none answers and the context lasts |
| Detect.DefaultPreference | internal/daemon/detect.go:22-30 | Without a configured order NAT-PMP comes before PCP and PCP before UPnP |
| Netgw.ParseDefaultGateway | internal/netgw/netgw.go:38-92 | Returns the first route of least metric among up default gateway rows with a non-zero gateway; fails exactly on a missing header, a read error, a malformed relevant field, or no such route |
| Netgw.RowRead | internal/netgw/netgw.go:54-82 | A row as the kernel prints it counts exactly if it is a default route, up, through a gateway that is not zero; then with that gateway and its metric |
| Netgw.HexAddrRoundTrip | internal/netgw/netgw.go:97-110 | Every address is read back from its little-endian hexadecimal form in any mix of cases |
| Netgw.HexAddrOnlyPrinted | internal/netgw/netgw.go:97-110 | Nothing but such a form is read as an address |

## Left out

- Sockets, dialing, HTTP, SSDP, reading files, YAML and environment loading, signals, logging and error texts: they are answers of the environment, or have no effect on the state. Errors are the five kinds of `Prelude.Error`.
- XML and SOAP encoding and URL resolution in device.go, soap.go and ssdp.go: library behaviour; a SOAP call is a value and its success an answer.
- portcheck.go: the listener check is an answer of the environment.
- netip parsing and interface enumeration, including firstUsableIPv4: answers of `Config.Host`. Case folding of the log level likewise.
- The mutexes of the PCP and UPnP clients: the daemon is one goroutine, so their methods are atomic here.
- How nonces are drawn: any nonce may be drawn, also one drawn before.
- Time-outs of single probes and of single releases: a timed-out call is a failed call.
- 64-bit overflow of a doubled retransmission timeout: timeouts are unbounded integers in `Exchange`; with the 250 ms the clients start from, overflow would need 36 attempts and they make four.
- Saturation of time differences beyond 292 years in timeUntilNext.
- NatPmpGateway.WhatIsLeft: one client address, a gateway that starts without mappings of this client, keeps the external port of a mapping it holds and drops none by itself, and no datagram delayed past its exchange. Lifetimes running out at the gateway are not modelled.
- Conservation.LeftAtTheGateway: holds for any client whose successes were carried out; the answers are derived from datagrams for NAT-PMP only.
- PcpAgreement.EveryRunAgrees: one client address, a gateway that starts without mappings of this client, and no datagram delayed past its exchange; section 11.3 of RFC 6887 keys mappings by client address too.
- Detect.OrderingByRank: assumes distinct candidate names, which the three built-in candidates have; with equal names the code drops candidates.
