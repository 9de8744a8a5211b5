# UPF verification model

This project models the user plane function of a mobile core network (a VPP
plugin written in C) in Dafny and proves properties of the model.  It covers
the parts of the plugin that keep state or transform data in ways that are hard
to get right:

- the **flow table**: a hash, a lazy timer wheel of 600 slots, a cache of spare
  indices per CPU and one pool shared by all CPUs, driven frame by frame
  (`Pools`, `FlowPool`, `TimerWheel`, `FlowKey`, `FlowTcp`, `FlowTable`,
  `FlowStates`, `FlowExpiry`, `FlowHook`, `FlowStall`, `FlowRun`, `FlowAlive`,
  `FlowStallRun`, `FlowInterleave`, `FlowTableCpu`);
- the **PFCP codec** of 3GPP TS 29.244: a table-driven, mutually recursive TLV
  encoder and decoder, proved for every schema and every leaf codec that
  mirrors itself, then instantiated, and tied to the octets on the wire (`Bytes`,
  `Codec`, `CodecLoops`, `Message`, `Leaves`, `PfcpInstance`, `Wire`, `LeafWire`,
  `LeafRead`, `CodecMeaning`);
- the **session state** of PFCP: rule sets that are staged and flipped
  (`RuleSwap`, `RuleContents`), the merge that keeps global tables in step (`VecDiff`), the
  session lists of associations (`Associations`, `AssociationMain`), shared
  policers (`Policers`, `PolicerRun`, `PolicerPlan`), usage counters and quotas
  (`UrrUsage`, `UrrQuota`, `UrrNewQuota`, `UrrMain`), linked usage (`UrrLinks`), and the message pool
  (`MsgPool`);
- **application IP rules** as a longest-prefix index with chained fallbacks
  (`AppRules`);
- **SDF filters**, compiled to mask and pattern and matched against the
  canonical flow key (`Sdf`, `SdfBuffers`).

Pure specification functions say what each operation does to the state; lemmas
prove the properties over every input, every run or every reachable state; and
classes and loops, in the form the C code has, are proved against those
functions.  `dafny verify dfyconfig.toml` checks everything.

## Reading the model

- Pools hand out the last index that was put back, or a new one.  The bihash
  tables are maps, the timer lists sequences per slot, the FIB a map from
  prefixes.  An address is 128 bits in network order, an IPv4 address with 96
  leading zeros.
- A run of the flow table is a sequence of frames on any CPUs, or an
  interleaving of their batches and visited timer elements.  Within a CPU time
  does not go back; timeouts may change between frames and are 1 to 600 seconds;
  the longest lifetime stays at 600; 32-bit time does not wrap.  Whether the expiration hook lets a
  flow go is an arbitrary predicate.
- A codec schema maps (vendor, type) to a leaf codec or to a group; groups nest
  to any depth.  An element header that is cut off is an error; a vendor element
  of length under 2 is `Malformed`, and one with vendor 0 is a foreign vendor's.
- Rule vectors are pointers into a heap, so that sharing and freeing show.
- Usage counters keep books of what was counted, reported and lost, so that
  conservation is one equation over all interleavings.

## What does not hold as promised

Each of these is a proved statement with the exact condition or a concrete
input; the model follows the code.

- Two flows that are not due, but whose deadlines fall into the slot under visit
  a turn later, make an expiry pass return 256 without moving on, and so every
  later pass until one of them falls due or has a packet; flows in later slots
  stay overdue meanwhile.  `FlowStallRun.StallIsReached` gives such a run from the
  initial state, three packets long.  `FlowStall.ExpireAtExactly` says exactly
  when a slot is passed, from deadlines and lists before the visit, and
  `FlowStall.ShortPass` gives a guard under which no element comes back and a pass
  gets through exactly if fewer than 256 elements wait.
- Between equal addresses a packet and its reply get different keys unless
  their ports agree: `FlowKey.EqualAddressesSplitTheFlow`.
- An array that is present but empty is lost by the codec
  (`Codec.EmptyArrayIsLost`), sixteen set identifiers are written as none
  (`Leaves.SixteenCsidsAreLost`), an SDF filter loses the flag that says a
  filter identifier is present, and the other leaves survive exactly under the
  conditions their round trips state.
- `vec_diff` deletes a key that loses some but not all of its entries:
  `VecDiff.TableFollows`, `VecDiff.RepeatedKeyIsDropped`.
- The list of GTP-U endpoints stays exact under an update only if no endpoint
  of a kept forwarding rule is missing from rebuilt detection rules, and none of
  a replaced one lingers: `RuleSwap.EndpointsFollow`, `RuleSwap.EndpointIsLost`.
- At the flip of an update usage is lost if a monitoring time passed while it was
  staged, and counted twice if usage from before a monitoring time was reported
  while it was staged; reports about the start of traffic lose the volume:
  `UrrUsage.FlipConserves`, `UrrUsage.SplitWhileStaged`,
  `UrrUsage.ReportWhileStaged`, `UrrUsage.RunBalanced`.
- After an update a quota that the unreported volume has reached already is not
  enforced at all, whether the update set it or left it: a counter signals only
  when it goes from below its quota to it.  `UrrNewQuota.NewQuotaHolds` and
  `UrrNewQuota.EnforcedExactly` say exactly when it is enforced;
  `UrrNewQuota.NewQuotaIsMissed` is an instance, `UrrNewQuota.UsedUpQuotaIsLifted`
  the general case of an update that leaves the quota as it is.
- With a second monitoring time set before a report, packets pass uncounted:
  `UrrQuota.RefusedPackets`.
- Linked usage ids are looked up by their low 16 bits: `UrrLinks.TransposeExactly`.
- The free-index test of the message pool reports indices that are free in the
  pool itself as taken: `MsgPool.FreeIndexMeaning`.
- The step that compares the UE address of a filter sees only the padding of an
  IPv4 address: `Sdf.UeMeaning`.

## Model

| member | source | states |
|---|---|---|
| `FlowPool.AllocSpec` | upf/flowtable.c:101-120 | an allocation that succeeds hands out an index that no CPU held, moves it from the CPU's cache to its live set, and keeps conservation; it fails only with an empty cache and the count over the limit, and then changes nothing |
| `FlowPool.FreeSpec` | upf/flowtable.c:122-137 | a freed index moves from the live set to the cache, an overfull cache gives 256 back, and conservation is kept |
| `FlowPool.RefillInv` | upf/flowtable.c:41-70 | refilling a cache keeps partition, count, cache bound and pool bound |
| `FlowPool.InitInv` | upf/flowtable_init.c:100-155 | the initial pool and caches satisfy conservation for any number of CPUs |
| `FlowPool.PoolConservation` | upf/flowtable.c:41-137 | under every interleaving of all CPUs each index is in exactly one of pool-free, a cache or a live set; the count is the number handed out and a multiple of 256; caches hold at most 512; the count stays within max(limit + 256, 256 x CPUs) |
| `FlowPool.FlowPoolMain.CacheFill` | upf/flowtable.c:41-70 | the loop under the lock does what the specification of a refill says |
| `FlowPool.FlowPoolMain.CacheEmpty` | upf/flowtable.c:72-99 | the loop gives 256 of 513 entries back, as specified |
| `FlowPool.FlowPoolMain.Alloc` | upf/flowtable.c:101-120 | refines the allocation step, including failure |
| `FlowPool.FlowPoolMain.Free` | upf/flowtable.c:122-137 | refines the free step |
| `TimerWheel.NextVisitIsFirst` | upf/flowtable.h:408-417 | the next visit of a slot is the first time from now on that maps to it |
| `TimerWheel.OnTimeMeansNotOverdue` | upf/flowtable.c:222-298 | an element linked on time is not overdue before its slot is visited |
| `TimerWheel.RelinkKeeps` | upf/flowtable.h:359-376 | moving an element to the slot of a new deadline keeps every list duplicate-free, every element on one list, and everything on time |
| `FlowKey.KeyCanonicity` | upf/flowtable.h:271-340 | for any address comparison two packets get the same key if and only if session and protocol agree and their tuples are equal, or swapped if their orientations differ |
| `FlowKey.OrderedKeyCanonicity` | upf/flowtable.h:286-340 | with a comparison that orders different addresses one way: equal tuples, or swapped ones between different addresses; swapped tuples get opposite orientation |
| `FlowKey.RepliesUseTheOtherSlot` | upf/flowtable.h:162-168 | a packet and its reply use opposite slots of every per-direction member |
| `FlowKey.EqualAddressesSplitTheFlow` | upf/flowtable.h:286-319 | between equal addresses a packet and its reply share a key exactly when ports are absent or equal |
| `FlowKey.KeyBuffer.ParsePacketProtocol` | upf/flowtable.h:271-284 | ports go to the slots of the orientation, zero outside TCP and UDP |
| `FlowKey.KeyBuffer.FlowMkKey` | upf/flowtable.h:320-340 | filling in the buffer yields the canonical key and the orientation |
| `FlowTcp.ConnectionMovesForward` | upf/flowtable_tcp.h:22-122 | over any sequence of packets the state only moves forward, so a connection is rescheduled by state changes at most six times |
| `FlowTcp.ClosingIsFinal` | upf/flowtable_tcp.h:22-122 | once closing, no sequence of packets brings back a lifetime above 15; a reset connection stays reset |
| `FlowTcp.MovesForward` | upf/flowtable_tcp.h:22-122 | connection states only move forward, and every state reached has a lifetime between 1 and 299 |
| `FlowTable.InsertKeeps` | upf/flowtable.h:408-417 | a new flow keeps hash, flows and timer elements in bijection, its element on one list and on time |
| `FlowTable.TouchKeeps` | upf/flowtable.h:401-406 | activity without relinking keeps the invariant, because deadlines only move later |
| `FlowTable.RescheduleKeeps` | upf/flowtable.h:355-376 | a shorter lifetime relinks the element at a slot that is still visited in time |
| `FlowTable.UpdateLifetimeKeeps` | upf/flowtable.h:342-400 | a TCP state change keeps the invariant, and the assertion that the new deadline is not before the next check holds |
| `FlowTable.LookupCreateKeeps` | upf/flowtable.c:355-427 | lookup or creation keeps the CPU invariant and the shared pool; the returned flow is live and stored under the key; a failed allocation creates nothing |
| `FlowTable.RemoveKeeps` | upf/flowtable.c:139-146 | removing a flow takes hash entry, flow and element out together |
| `FlowTable.ExpireSingleCounts` | upf/flowtable.c:148-220 | visiting an element always reschedules or removes it, counts it, and never finds it to be a slot head |
| `FlowTable.VisitedKeeps` | upf/flowtable.c:148-220 | a visit keeps the invariant, whatever the hook answers |
| `FlowTable.ExpireSinglePool` | upf/flowtable.c:122-220 | a visit keeps the shared pool's conservation, with the live set of the CPU reduced exactly by a removed flow |
| `FlowTable.EnterBijection` | upf/flowtable.c:381-420 | entering a flow under a new key and element keeps the three-way bijection |
| `FlowStates.StateIsVerdict` | upf/flowtable_tcp.h:22-122 | whatever segments a connection sees in whatever order, its state is what its history amounts to: reset if any resets, else ended and acknowledged, ended, open if data follows an opening segment, answered, opening, or nothing yet |
| `FlowStates.EventMeaning` | upf/flowtable_tcp.h:91-122 | which flags make which event |
| `FlowStates.FlowLifetime` | upf/flowtable.h:342-400 | a new TCP flow has, after any segments, lifetime 6 if reset, 3 if ended and acknowledged, 15 if ended, 299 if open, 60 if answered, 15 if opening, and its initial one before |
| `FlowStates.NewFlowOf` | upf/flowtable.c:300-427 | a packet without a flow gets one that is active now, has the lifetime of its protocol and family, and is oriented so that its source stands in the slot of the origin; no other flow changes |
| `FlowExpiry.SlotPass` | upf/flowtable.c:268-284 | walking a slot's list while elements are unlinked, relinked behind the walk and removed keeps the invariant, and a walk that ends under 256 leaves nothing in the slot that is due by this visit |
| `FlowExpiry.ExpireFromSpec` | upf/flowtable.c:222-298 | visiting slot after slot keeps the invariant with the time of the next check moved up to where the pass stopped |
| `FlowExpiry.NoOverdueSurvivors` | upf/flowtable.c:222-298 | a pass that returns fewer than 256 leaves every flow with its deadline after now, for any hook, and sets the next check to the next second; every pass keeps the frame invariant |
| `FlowExpiry.NoPrematureExpiry` | upf/flowtable.c:148-298 | a pass leaves flows that are not due as they are, adds none, and a due flow that survives is unchanged or has a later deadline |
| `FlowExpiry.TimerExpirePool` | upf/flowtable.c:148-298 | a pass keeps the conservation of the shared pool |
| `FlowExpiry.StalledSlot` | upf/flowtable.c:268-284 | two elements that keep returning to the slot under visit keep the walk going until 256 |
| `FlowExpiry.StalledPass` | upf/flowtable.c:222-298 | then the pass returns 256, the next check stays where it was, and both elements are still in the slot |
| `FlowExpiry.LongestLifetimeReturns` | upf/flowtable.h:408-417 | a flow created with the longest lifetime is such an element in its own frame |
| `FlowHook.VisitOutcome` | upf/flowtable.c:148-220 | a visit asks the hook exactly about a due flow; if it lets go the flow is out of hash, flows, elements and lists, and if it keeps it the flow is under its key with a deadline one lifetime later, in the slot of that time |
| `FlowHook.PassAnswers` | upf/flowtable.c:222-298 | for any hook a pass removes as many flows as there were answers to let one go |
| `FlowHook.KeepAll` | upf/upf_proxy.c:1385-1398 | with a hook that keeps every flow a pass changes neither the set of flows nor the hash |
| `FlowHook.LetAllGo` | upf/flowtable.c:222-298 | with a hook that keeps none, a pass under 256 ends with exactly the flows that were not due, as they were, and their hash entries |
| `FlowStall.SlotVisits` | upf/flowtable.c:268-284 | if at most one element comes back, the walk makes one visit per element, and one more if the returning one is not the last |
| `FlowStall.ExpireAtExactly` | upf/flowtable.c:268-294 | a slot is passed under the limit if and only if at most one of its elements comes back and the visits fit; otherwise exactly 256 is returned |
| `FlowStall.ShortNeverReturns` | upf/flowtable.c:148-220 | if every lifetime counted from now ends before the first slot to check comes round again, no element returns to its slot, for any hook |
| `FlowStall.ShortPass` | upf/flowtable.c:222-298 | under that guard, with flows let go when due, a pass handles exactly the elements waiting in the slots it visits, capped at 256 |
| `FlowStall.StalledKeepsOthers` | upf/flowtable.c:268-294 | a stalled pass leaves every element of every other slot as it was |
| `FlowRun.FrameKeeps` | upf/upf_flow_node.c:141-529 | a frame (index update, packets singly or in pairs, one pass, all at one time) keeps CPU invariant and pool; nothing is overdue after a pass under 256 |
| `FlowRun.BatchKeeps` | upf/upf_flow_node.c:239-279 | a pair of packets, looked up one after the other before their activity is updated, keeps the invariant |
| `FlowRun.StepInv` | upf/upf_flow_node.c:427-529 | a frame on one CPU keeps every CPU's invariant |
| `FlowRun.RunInv` | upf/upf_flow_node.c:116-529 | every run of frames on all CPUs keeps the invariant |
| `FlowRun.RunSafety` | upf/upf_flow_node.c:116-529 | from the initial state, for every run: bijection, single links, no late deadlines, conserved pool, and no overdue flow after any frame whose pass stays under 256 |
| `FlowRun.InitSystemInv` | upf/flowtable_init.c:72-155 | the initial state of all CPUs satisfies the invariant |
| `FlowAlive.ProcessAllAlive` | upf/upf_flow_node.c:239-456 | packets never shorten the life of another flow, and a packet of a known flow makes it outlive the present second |
| `FlowAlive.PassAlive` | upf/flowtable.c:222-298 | an expiry pass leaves a flow that is not due under its key |
| `FlowAlive.FrameKeepsAlive` | upf/upf_flow_node.c:141-529 | a flow that is not due at the start of a frame, or gets a packet in it, is still under its key after the frame, and not due |
| `FlowAlive.RunKeepsKey` | upf/upf_flow_node.c:116-529 | a connection whose packets come before its lifetime is over is never dropped, in any run, whatever other CPUs and the hook do |
| `FlowAlive.TouchAlive` | upf/flowtable.h:401-406 | activity makes the flow of a key outlive the present second and shortens no other life |
| `FlowStallRun.StuckFrame` | upf/upf_flow_node.c:141-529 | a frame of a stuck CPU without packets of the two flows returns 256 and leaves it stuck |
| `FlowStallRun.JammedRun` | upf/upf_flow_node.c:116-529 | in every run without packets of the three flows a stuck CPU stays stuck, and a flow in another slot stays however overdue |
| `FlowStallRun.StallIsReached` | upf/flowtable_init.c:72-155 | from the initial state one frame with three packets of new flows leads to this, for ten minutes of every such run |
| `FlowInterleave.VisitFine` | upf/flowtable.c:148-298 | a single visited element, or the end of a slot or pass, keeps table and pool; a pass that ends under 256 leaves nothing overdue, whatever other CPUs did between its visits |
| `FlowInterleave.StepOk` | upf/upf_flow_node.c:141-529 | one batch or one visit of one CPU keeps every CPU and the pool |
| `FlowInterleave.InterleavedSafety` | upf/upf_flow_node.c:116-529 | for every interleaving of all CPUs down to single batches and single visits, from the initial state |
| `FlowTableCpu.FlowTableCpu.LookupCreate` | upf/flowtable.c:355-427 | in-place lookup and creation refine the specification |
| `FlowTableCpu.FlowTableCpu.UpdateLifetime` | upf/flowtable.h:342-400 | refines the lifetime update with its relink |
| `FlowTableCpu.FlowTableCpu.ExpireSingle` | upf/flowtable.c:148-220 | refines the visit of one element |
| `FlowTableCpu.FlowTableCpu.ExpireAt` | upf/flowtable.c:268-284 | the inner loop over one slot refines the slot pass |
| `FlowTableCpu.FlowTableCpu.TimerExpire` | upf/flowtable.c:222-298 | the outer loop refines the pass |
| `FlowTableCpu.FlowTableCpu.FlowProcess` | upf/upf_flow_node.c:116-529 | the frame loop refines the frame |
| `Codec.DecodeIsComplete` | upf/pfcp.c:7991-8136 | a body that decodes has all mandatory elements at every nesting depth, in every array element |
| `Codec.GroupIsComplete` | upf/pfcp.c:8032-8138 | the same for a group from any accumulated state |
| `Codec.RoundTrip` | upf/pfcp.c:7961-8245 | for every well-formed schema and every nested value that fits, encoding succeeds and decoding returns the same value |
| `Codec.GroupTrip` | upf/pfcp.c:8213-8245 | decoding the encoded fields of a group restores them in place with no unknown element |
| `Codec.ArrayTrip` | upf/pfcp.c:8193-8211 | an encoded array is collected element by element in order |
| `Codec.EmptyArrayIsLost` | upf/pfcp.c:8193-8245 | a present but empty array decodes as absent |
| `CodecLoops.EncodeIeTo` | upf/pfcp.c:8141-8191 | writing the header first and patching its length afterwards gives the octets that Wire.ElementWire describes |
| `CodecLoops.EncodeVectorIeTo` | upf/pfcp.c:8193-8211 | appends the encodings of all elements |
| `CodecLoops.EncodeGroupTo` | upf/pfcp.c:8213-8245 | the loop over the group's items refines the encoder |
| `CodecLoops.DecodeIe` | upf/pfcp.c:7991-8030 | decodes one element as specified |
| `CodecLoops.DecodeGroupLoop` | upf/pfcp.c:8032-8138 | the loop over positions refines the decoder |
| `Message.MessageRoundTrip` | upf/pfcp.c:8254-8332 | a message comes back with its type, its sequence number modulo 2^24, its SEID if the type carries one, and its group |
| `Message.DecodedMessageIsComplete` | upf/pfcp.c:8254-8299 | a message that decodes is complete at every depth |
| `Leaves.NumberRoundTrip` | upf/pfcp.c:414-516 | a number of any width survives exactly if it fits |
| `Leaves.BitRateRoundTrip` | upf/pfcp.c:1117-1140 | 40-bit rates survive exactly if both fit |
| `Leaves.TimeRoundTrip` | upf/pfcp.c:612-640 | every 32-bit time survives both eras, which are one translation modulo 2^32 |
| `Leaves.VolumeRoundTrip` | upf/pfcp.c:563-601 | a volume survives exactly if its flags fit three bits and absent parts are zero |
| `Leaves.FSeidRoundTrip` | upf/pfcp.c:1772-1824 | an F-SEID survives exactly if an address flag is set and absent addresses are zero |
| `Leaves.NodeIdRoundTrip` | upf/pfcp.c:1845-1904 | a node id survives exactly if its kind is known and its address has its length |
| `Leaves.UeIpRoundTrip` | upf/pfcp.c:2730-2796 | the exact condition for a UE IP address |
| `Leaves.FTeidRoundTrip` | upf/pfcp.c:845-929 | the exact condition for an F-TEID, including the choose flag that does not survive |
| `Leaves.SdfRoundTrip` | upf/pfcp.c:959-1050 | the exact condition for an SDF filter, including the lost filter id flag |
| `Leaves.FqCsidRoundTrip` | upf/pfcp.c:2206-2293 | the exact condition for a set identifier |
| `Leaves.SixteenCsidsAreLost` | upf/pfcp.c:2206-2293 | sixteen identifiers overflow the four-bit count |
| `Leaves.UserIdRoundTrip` | upf/pfcp.c:4023-4144 | the exact condition for a user id |
| `PfcpInstance.HeartbeatRoundTrip` | upf/pfcp.c:7145-7151 | every heartbeat with a 32-bit time comes back |
| `PfcpInstance.SetDeletionRoundTrip` | upf/pfcp.c:7343-7354 | every set deletion request that fits one message comes back |
| `Wire.BigEndianDigit` | upf/pfcp.c:214-222 | octet i of a number in k octets is its digit of weight 256^(k-1-i) |
| `Wire.ElementWire` | upf/pfcp.h:70-74 | in every encoded element octets 0 and 1 are the type, with the top bit for a vendor element, 2 and 3 the number of octets after them, 4 and 5 the vendor if there is one, and the body follows |
| `Wire.SplitReads` | upf/pfcp.c:8036-8080 | what the decoder takes from the same positions of any input, and when it rejects |
| `Wire.GroupIsJoined` | upf/pfcp.c:8213-8245 | a group is the encodings of its fields in the order of its items |
| `Wire.MessageWire` | upf/pfcp.c:8301-8332 | version and flag, type, length of what follows the first four octets, session identifier if the type has one, sequence number, spare, and the group, each at its position |
| `LeafWire.NumberWire` | upf/pfcp.c:414-516 | digits of a number, first digit first |
| `LeafWire.BitRateWire` | upf/pfcp.c:1117-1140 | uplink rate in octets 0 to 4, downlink rate in 5 to 9 |
| `LeafWire.TimeWire` | upf/pfcp.c:612-640 | four octets of seconds since 1900 modulo 2^32 |
| `LeafWire.VolumeWire` | upf/pfcp.c:563-601 | flag octet, then total, uplink and downlink where flags 1, 2 and 4 say |
| `LeafWire.FSeidWire` | upf/pfcp.c:1772-1824 | flag octet, identifier at 1, IPv4 address with flag 2, IPv6 address with flag 1 |
| `LeafWire.NodeIdWire` | upf/pfcp.c:1845-1904 | type 0, 1 or 2 for IPv4, IPv6 or name, then the address or name |
| `LeafWire.UeIpWire` | upf/pfcp.c:2730-2796 | flag octet and where each optional part stands |
| `LeafWire.FTeidWire` | upf/pfcp.c:845-929 | flag octet, tunnel identifier at 1, and where each optional part stands |
| `LeafWire.SdfWire` | upf/pfcp.c:959-1050 | flag octet, spare, and where each optional part stands |
| `LeafWire.FqCsidWire` | upf/pfcp.c:2206-2293 | type and count in one octet, the node address at 1, and identifier j two octets wide at its place |
| `LeafWire.UserIdWire` | upf/pfcp.c:4023-4144 | flag octet, then each string with its length in front |
| `LeafWire.HeartbeatOctets` | upf/pfcp.c:8301-8332 | the sixteen octets of a heartbeat request with any sequence number and time |
| `LeafRead.NumberRead` | upf/pfcp.c:414-516 | for every input: accepted exactly if long enough, and the number that stands there |
| `LeafRead.BitRateRead` | upf/pfcp.c:1117-1140 | for every input: when accepted, and from which octets |
| `LeafRead.TimeRead` | upf/pfcp.c:612-640 | for every input: accepted exactly with four octets, and the time they say |
| `LeafRead.VolumeRead` | upf/pfcp.c:563-601 | for every input: when accepted, and from which octets; absent parts are zero |
| `LeafRead.FSeidRead` | upf/pfcp.c:1772-1824 | for every input: accepted exactly with an address flag and enough octets, and from which octets |
| `LeafRead.NodeIdRead` | upf/pfcp.c:1845-1904 | for every input: when accepted, and what the rest is read as |
| `LeafRead.UeIpRead` | upf/pfcp.c:2730-2796 | for every input: when accepted, and from which octets |
| `LeafRead.FTeidRead` | upf/pfcp.c:845-929 | for every input: when accepted, with and without the choose flag, and from which octets |
| `LeafRead.SdfRead` | upf/pfcp.c:959-1050 | for every input: when accepted, and from which octets; the filter id is never read |
| `LeafRead.FqCsidRead` | upf/pfcp.c:2206-2293 | for every input: when accepted, and from which octets |
| `LeafRead.UserIdRead` | upf/pfcp.c:4023-4144 | for every input: when accepted, and from which octets |
| `CodecMeaning.UnknownIsExtra` | upf/pfcp.c:8058-8096 | the decoder sets aside exactly the elements of foreign vendors, those no item lists, and repeated ones of an item that takes one |
| `CodecMeaning.DecodedMeaning` | upf/pfcp.c:8032-8138 | a group decodes if and only if its input is cut into elements, all that are asked for decode, and the mandatory ones are there; each field then holds its elements (all in order for an array, the first otherwise), and the others are left over in order |
| `CodecMeaning.MessageMeaning` | upf/pfcp.c:8254-8299 | a message decodes if and only if header, length and flag are as they should and its group decodes; type, identifier and sequence number are those at their positions |
| `AppRules.LongestIsLongest` | upf/upf_app_dpo.c:42-63 | a lookup finds the longest prefix of the address in the table, or none |
| `AppRules.LinkHolds` | upf/upf_app_dpo.c:236-281 | while the index is built the table holds exactly the prefixes entered so far |
| `AppRules.LinksGoDown` | upf/upf_app_dpo.c:236-256 | links go to strictly smaller entries, so walks end |
| `AppRules.WalkVisitsExactly` | upf/upf_app_dpo.c:102-151 | a lookup followed along the links visits exactly the entries whose prefix contains the address |
| `AppRules.IndexAgreesWithScan` | upf/upf_app_dpo.c:102-282 | the indexed match agrees with a linear scan, for every order the sort may leave and every destination test |
| `AppRules.InsertSorts` | upf/upf_app_dpo.c:153-162 | the order by prefix length is a sorted rearrangement |
| `AppRules.AppEntry.SortedEntries` | upf/upf_app_dpo.c:201-235 | one entry per rule with a concrete source, shorter prefixes first |
| `AppRules.AppEntry.EnsureAppFib` | upf/upf_app_dpo.c:176-282 | builds the index once, and leaves an existing one alone |
| `AppRules.AppEntry.LinkEntries` | upf/upf_app_dpo.c:236-281 | the linking loop refines the specification of the index |
| `AppRules.AppEntry.DoIpRuleMatch` | upf/upf_app_dpo.c:102-151 | returns whether some rule contains the source and passes the same destination and port test |
| `Sdf.WidthMaskCompares` | upf/upf_classify.c:105-121 | a width mask compares exactly the first bits of the address family |
| `Sdf.AddressMeaning` | upf/upf_pfcp.c:1409-1452 | masked comparison with a compiled address means what any, assigned or a prefix says |
| `Sdf.ProtocolMeaning` | upf/upf_pfcp.c:1472-1476 | the protocol mask and pattern accept the rule's protocol or any |
| `Sdf.UeMeaning` | upf/upf_pfcp.c:1389-1407 | what the step on the UE address accepts, exactly |
| `Sdf.TupleMeaning` | upf/upf_pfcp.c:1464-1498 | the compiled five-tuple accepts a packet exactly when the rule does, for either source interface |
| `Sdf.SdfMeaning` | upf/upf_classify.c:137-218 | matching the compiled filter against the canonical key in the packet's direction accepts exactly what the rule says about the raw packet, besides TEID, UE address and application steps |
| `Sdf.FilterMeaning` | upf/upf_classify.c:265-268 | in a flow opened by either packet of a connection, the direction argument reads the key as the packet at hand |
| `Sdf.SessionMeaning` | upf/upf_classify.c:387-390 | for any order of the filters some filter matches a packet if and only if some rule of some detection rule accepts it |
| `Sdf.PdrAclsCover` | upf/upf_pfcp.c:1664-1695 | the compiled filters are exactly those of the rules admitted for the family |
| `SdfBuffers.Ip4MaskFromWidth` | upf/upf_pfcp.c:1363-1377 | setting bits of octets one by one gives the mask of the first bits |
| `SdfBuffers.AddressIsEqualMasked` | upf/upf_classify.c:105-121 | comparing two masked words decides masked equality |
| `SdfBuffers.AclClassifyOne` | upf/upf_classify.c:137-218 | the step-by-step test refines the matching predicate |
| `SdfBuffers.TupleMatches` | upf/upf_classify.c:192-215 | protocol, address and port steps together |
| `SdfBuffers.AclBuffer.SetMask` | upf/upf_pfcp.c:1444-1451 | writes one mask and nothing else |
| `SdfBuffers.AclBuffer.AssignAddress` | upf/upf_pfcp.c:1409-1452 | any, assigned and prefix addresses of one field, with the other field untouched |
| `SdfBuffers.AclBuffer.Compile` | upf/upf_pfcp.c:1464-1498 | a zeroed entry ends up as mask and pattern of the rule, fields swapped for the access side |
| `SdfBuffers.CompileEntry` | upf/upf_pfcp.c:1500-1522 | the whole filter entry |
| `SdfBuffers.BuildAcls` | upf/upf_pfcp.c:1660-1697 | the filters of both families in rule order |
| `SdfBuffers.FirstMatch` | upf/upf_classify.c:264-314 | the first filter that matches, none before it |
| `VecDiff.DiffCounts` | upf/upf_pfcp.c:278-311 | for every key and total preorder, additions are new minus old and deletions old minus new |
| `VecDiff.TableFollows` | upf/upf_pfcp.c:1853-1879 | a table in agreement with the old vector ends in agreement with the new one if and only if no key loses some but not all of its entries |
| `VecDiff.DuplicateFreeTableFollows` | upf/upf_pfcp.c:1853-1879 | so it does for every old vector without repeated keys |
| `VecDiff.RepeatedKeyIsDropped` | upf/upf_pfcp.c:278-311 | with a repeated key it does not |
| `VecDiff.Sort` | upf/upf_pfcp.c:282-285 | a sorted rearrangement |
| `VecDiff.Merge` | upf/upf_pfcp.c:286-310 | the loops issue the operations of the merge |
| `VecDiff.Run` | upf/upf_pfcp.c:278-311 | for unsorted vectors: both end sorted, and the operations are the exact difference by key |
| `Associations.ListsMembers` | upf/upf_pfcp.c:447-469 | the list headed at a node holds exactly the sessions of that node |
| `Associations.LinksAreMutual` | upf/upf_pfcp.c:447-506 | previous and next are inverse, stay within a node, and the head is the one without a previous session |
| `Associations.ListsAreDisjoint` | upf/upf_pfcp.c:447-506 | lists of different nodes share no session |
| `Associations.AttachLists` | upf/upf_pfcp.c:447-469 | attaching puts the session in front of its node's list and changes no other list |
| `Associations.DetachLists` | upf/upf_pfcp.c:471-506 | detaching takes the session out of its list, wherever it is, and changes no other list |
| `Associations.DeleteLists` | upf/upf_pfcp.c:986-1064 | deleting a session keeps the lists and every other session |
| `Associations.ReleaseEmpties` | upf/upf_pfcp.c:402-445 | releasing ends with an empty list, deletes exactly the node's sessions and changes nothing else |
| `Associations.RunLists` | upf/upf_pfcp.c:402-506 | over every run each node's list holds exactly its sessions and every session belongs to a live node |
| `AssociationMain.DetachHas` | upf/upf_pfcp.c:477-501 | the facts the assertions of a detach rest on hold in every such state |
| `AssociationMain.AssocMain.AttachSession` | upf/upf_pfcp.c:447-469 | link by link as specified, and all assertions hold |
| `AssociationMain.AssocMain.DetachSession` | upf/upf_pfcp.c:471-506 | link by link as specified, and all assertions hold |
| `AssociationMain.AssocMain.DeleteSession` | upf/upf_pfcp.c:986-1064 | detach and free |
| `AssociationMain.AssocMain.ReleaseAssociation` | upf/upf_pfcp.c:402-445 | the loop terminates with the node's list empty, and all assertions hold |
| `Policers.KeysAreLivePolicers` | upf/upf_pfcp.c:852-916 | the table maps keys one to one onto the live policers, which are those with an attached rule |
| `Policers.AttachInv` | upf/upf_pfcp.c:881-898 | attaching a rule that is not attached keeps every count exact |
| `Policers.AttachNew` | upf/upf_pfcp.c:852-898 | a key without a policer gets a new one, counted once, and all other counts stay exact |
| `Policers.AttachServes` | upf/upf_pfcp.c:881-898 | after attaching, a rule with a key and a bit rate has the live policer of its key, the one there was if there was one, with one reference more; other keys keep their policers and no other rule changes |
| `Policers.FreeInv` | upf/upf_pfcp.c:900-922 | freeing keeps every count exact and releases the policer exactly with its last rule |
| `Policers.PolicerMain.AttachQerPolicer` | upf/upf_pfcp.c:881-898 | refines attaching |
| `Policers.PolicerMain.FreeQer` | upf/upf_pfcp.c:900-922 | refines freeing |
| `PolicerRun.AttachAllInv` | upf/upf_pfcp.c:1841-1849 | attaching a staged vector keeps every count exact, attaches every rule of it that limits the bit rate and changes no other rule |
| `PolicerRun.FreeAllInv` | upf/upf_pfcp.c:971-975 | freeing a vector keeps every count exact and removes exactly its rules |
| `PolicerRun.StagedInv` | upf/upf_pfcp.c:924-944 | staging copies start unattached |
| `PolicerRun.CommitInv` | upf/upf_pfcp.c:1841-1851 | a commit attaches every staged rule that limits the bit rate and frees exactly the rules it replaces; the invariant says of every session that its active rules are attached exactly if they limit the bit rate |
| `PolicerRun.CountsAreExact` | upf/upf_pfcp.c:852-984 | over every run of all sessions: live exactly when keyed and when attached, the count is the number of attached rules, and without sessions nothing is left |
| `PolicerPlan.StepView` | upf/upf_pfcp.c:924-984 | every event does to the rules of the sessions what it does to plain sequences of key and bit rate |
| `PolicerPlan.RunView` | upf/upf_pfcp.c:924-984 | so does every run: staging copies the terms of the active rules, a commit puts the staged terms in force |
| `PolicerPlan.LimitsAreShared` | upf/upf_pfcp.c:852-984 | in every run, for every key: it has a policer if and only if an active rule of some session limits the bit rate under it; the count is the number of such rules over all sessions, and each of them is attached to that policer |
| `RuleSwap.MakePendingInv` | upf/upf_pfcp.c:733-850 | staging keeps the pointer invariant and leaves what the active set holds alone |
| `RuleSwap.EditInv` | upf/upf_pfcp.c:1101-1113 | changing staged rules leaves what the active set holds alone |
| `RuleContents.StagedHolds` | upf/upf_pfcp.c:733-850 | a kind that is staged gets what the active set holds; one that was staged already, every other kind and the active set stay as they are |
| `RuleContents.EditHolds` | upf/upf_pfcp.c:1101-1113 | the staged vector holds the rules written; every other kind and the active set stay as they are |
| `RuleContents.StageAndUpdate` | upf/upf_pfcp.c:733-2041 | staging a kind and updating leaves the active rules of every kind as they were |
| `RuleContents.InForce` | upf/upf_pfcp.c:733-2041 | in every run, for every kind of rules: in force is what was last written before the last update, and an update would put in force what was last written |
| `RuleContents.ListsFollow` | upf/upf_pfcp.c:1592-1709 | in every run the address and filter lists in force are those of the detection rules in force |
| `RuleSwap.SessionRules.StageRules` | upf/upf_pfcp.c:769-783 | stages the copy in place |
| `RuleSwap.CompletedMid` | upf/upf_pfcp.c:1771-1851 | before the flip the two sets share exactly the rule vectors that were not staged |
| `RuleSwap.UpdateSwap` | upf/upf_pfcp.c:1749-2041 | after apply and finish the active set holds the staged vector or the previous one, derived lists are carried over or rebuilt, nothing reachable was freed, nothing is shared and nothing is left behind |
| `RuleSwap.EndpointsFollow` | upf/upf_pfcp.c:1771-1834 | an exact endpoint list stays exact if and only if the stated condition on kept and replaced rules holds |
| `RuleSwap.EndpointIsLost` | upf/upf_pfcp.c:1771-1834 | an update of detection rules alone after which the endpoint of a kept forwarding rule is missing |
| `RuleSwap.AddTeidsElements` | upf/upf_pfcp.c:1525-1567 | endpoints are added once, and none is dropped |
| `RuleSwap.RunInv` | upf/upf_pfcp.c:733-2041 | over every run of updates no vector dangles, is shared between the sets, or leaks |
| `RuleSwap.SessionRules.AddEndpoints` | upf/upf_pfcp.c:1525-1567 | the search-and-append loop |
| `RuleSwap.SessionRules.BuildLists` | upf/upf_pfcp.c:1592-1709 | rebuilding list after list gives all lists of the staged detection rules in new vectors |
| `RuleSwap.SessionRules.CarryLists` | upf/upf_pfcp.c:1780-1804 | moving pointer after pointer leaves the lists with the pending set alone and the rules shared |
| `RuleSwap.SessionRules.UpdateApply` | upf/upf_pfcp.c:1749-2033 | refines the apply step, with the flip of the active index |
| `RuleSwap.SessionRules.UpdateFinish` | upf/upf_pfcp.c:946-984 | freeing vector after vector frees exactly what the pending set points to |
| `RuleSwap.SessionRules.Flip` | upf/upf_pfcp.c:1881-1886 | exchanges the sets and forgets the carried pointers |
| `RuleSwap.SessionRules.CommitUpdate` | upf/upf_pfcp.c:1749-2041 | apply and finish together |
| `UrrUsage.ProcessTotal` | upf/upf_pfcp.c:2244-2311 | a packet adds exactly its packets and octets to the rule's total, split or not |
| `UrrUsage.RunBalanced` | upf/upf_pfcp.c:1973-2294 | for every interleaving of packets, staging, flips, merges and reports: counted is reported plus held plus the losses of the steps |
| `UrrUsage.QuietRunsConserve` | upf/upf_pfcp.c:1973-2294 | if between staging and flip no monitoring time splits off usage and no usage from before one is reported, nothing is lost: everything counted is reported or held |
| `UrrUsage.ReportWhileStaged` | upf/upf_pfcp_api.c:2174-2376 | after a report between staging and flip, the flip conserves exactly if there was no usage from before a monitoring time |
| `UrrUsage.ReportWhileStagedCountsTwice` | upf/upf_pfcp_api.c:2174-2376 | an instance in which 100 octets are reported and held |
| `UrrUsage.FlipConserves` | upf/upf_pfcp.c:1881-1886 | a flip conserves exactly when active and staged rule agree on the usage before the monitoring time |
| `UrrUsage.SplitWhileStaged` | upf/upf_pfcp.c:2244-2271 | after a split between staging and flip, the flip conserves exactly if nothing had been counted |
| `UrrUsage.SplitWhileStagedLoses` | upf/upf_pfcp.c:2244-2271 | an instance that loses 100 octets |
| `UrrUsage.ReportTotal` | upf/upf_pfcp_api.c:2174-2376 | a report says everything the rule holds, except the volume in a start-of-traffic report |
| `UrrUsage.ChargeIsKept` | upf/upf_pfcp.c:2003-2022 | the volume charged to a quota survives splits, reports and updates that set no quota |
| `UrrQuota.SignalsExactly` | upf/upf_pfcp.c:2062-2081 | each counter signals on exactly the packet that reaches its quota |
| `UrrQuota.FullStep` | upf/upf_pfcp.c:2062-2081 | a counter has reached its quota after a packet exactly if it had before or the packet signals it |
| `UrrQuota.SignalsOnce` | upf/upf_pfcp.c:2062-2081 | no counter signals twice |
| `UrrQuota.DroppedExactly` | upf/upf_pfcp.c:2395-2396 | a packet is dropped exactly if some quota is reached with it or before it |
| `UrrQuota.PassedBelowQuota` | upf/upf_pfcp.c:2277-2396 | what is let through stays strictly below every quota |
| `UrrQuota.RefusedPackets` | upf/upf_pfcp.c:2244-2254 | which packets leave the rule unchanged and undropped |
| `UrrNewQuota.NewQuotaIsCharged` | upf/upf_pfcp.c:2003-2022 | after staging, a change to a new quota, flip and merge with packets at every point, the quota is charged with what both rules counted since the last report or monitoring time, in each direction, which is what is yet to be reported |
| `UrrNewQuota.NewQuotaIsChargedWith` | upf/upf_pfcp.c:2017-2018 | without a monitoring time that is all that was unreported when the update was staged and every octet since |
| `UrrNewQuota.NewQuotaHolds` | upf/upf_pfcp.c:2017-2018 | what is let through after the merge on top of what is unreported stays below the new quota if and only if what is unreported is below it; the rule is over its quota at the merge exactly if the packets since the flip reach it |
| `UrrNewQuota.EnforcedExactly` | upf/upf_pfcp.c:2062-2081 | a packet is dropped exactly if the rule was over its quota or some counter went from below its quota to it |
| `UrrNewQuota.BoundExactly` | upf/upf_pfcp.c:2277-2396 | what is let through keeps a counter below its quota if and only if it was below it |
| `UrrNewQuota.NeverEnforced` | upf/upf_pfcp.c:2062-2081 | a rule not over its quota whose quotas are all reached never drops a packet |
| `UrrNewQuota.NewQuotaIsMissed` | upf/upf_pfcp.c:2017-2018 | an instance: 1300 octets unreported, a new quota of 1000, and every later packet passes |
| `UrrNewQuota.UpdateLetsThrough` | upf/upf_pfcp_api.c:1871-1873 | after an update a rule that was over its quota drops a packet exactly if the packets since the flip reach a quota |
| `UrrNewQuota.UsedUpQuotaIsLifted` | upf/upf_pfcp_api.c:1871-1873 | an update that sets no quota lifts one that is used up: after the merge nothing is dropped |
| `UrrMain.UsageRule.ProcessPacket` | upf/upf_pfcp.c:2244-2311 | split, count and quota mark in place |
| `UrrMain.UsageRule.CountVolume` | upf/upf_pfcp.c:2277-2311 | uplink, downlink and total counters |
| `UrrMain.UsageRule.MakePending` | upf/upf_pfcp.c:834-844 | a staged copy counts from zero |
| `UrrMain.UsageRule.MergeFrom` | upf/upf_pfcp.c:1999-2026 | adds the counters of the replaced rule; a new quota is charged with the volume not yet reported |
| `UrrMain.EachRuleCounts` | upf/upf_pfcp.c:2224-2399 | each rule counts the packet as often as the detection rule names it, no other rule changes, and the packet is dropped exactly if a named rule is over quota |
| `UrrMain.GivenUpExactly` | upf/upf_pfcp.c:2244-2254 | the session is given up exactly if one of the named rules refuses the packet |
| `UrrMain.MergeUrrs` | upf/upf_pfcp.c:1973-2028 | every surviving rule takes over the counters of the rule with its id, each once |
| `UrrLinks.FindId` | upf/upf_pfcp.c:1069-1076 | binary search finds an id exactly if it is there |
| `UrrLinks.BuildUrrLinkMap` | upf/upf_pfcp.c:1713-1735 | bit i of rule j is set exactly if rule i links to rule j as the lookup sees it |
| `UrrLinks.LinkOne` | upf/upf_pfcp.c:1721-1733 | one rule's links add exactly its own bit |
| `UrrLinks.TransposeExactly` | upf/upf_pfcp.c:1713-1735 | the map is the transpose of the links if and only if no link of more than 16 bits aliases a rule |
| `UrrLinks.WideLinkAliases` | upf/upf_pfcp.c:1727 | a rule whose wide link makes the map say that it links to itself |
| `MsgPool.RefillInv` | upf/upf_pfcp_server.h:175-183 | refilling keeps the partition and stops at 128 or when nothing is deferred |
| `MsgPool.LoopStartInv` | upf/upf_pfcp_server.h:175-192 | a round start empties the deferred list and keeps live messages |
| `MsgPool.GetInv` | upf/upf_pfcp_server.h:194-213 | a message handed out was neither live nor deferred |
| `MsgPool.PutInv` | upf/upf_pfcp_server.h:238-246 | giving back keeps the partition |
| `MsgPool.FreeIndexMeaning` | upf/upf_pfcp_server.h:248-257 | the test is true exactly for cached and deferred indices, and right exactly for indices the pool has handed out |
| `MsgPool.RunInv` | upf/upf_pfcp_server.h:157-246 | over every run live, cached, deferred and pool-free indices partition the pool and the cache holds at most 128 |
| `MsgPool.NoEarlyReuse` | upf/upf_pfcp_server.h:157-246 | a message given back is not handed out before the next round starts |
| `MsgPool.MessagePool.StartLoop` | upf/upf_pfcp_server.h:175-192 | the two loops refine the round start |
| `MsgPool.MessagePool.Take` | upf/upf_pfcp_server.h:194-213 | refines handing out |
| `MsgPool.MessagePool.Give` | upf/upf_pfcp_server.h:238-246 | refines giving back; the assertion on the validity mark is its precondition |

## Left out

- recycle_flow (upf/flowtable.c:323-352): a failed allocation creates no flow here; the loop compares a slot number with an absolute time.
- Changing the longest lifetime at run time, lifetime zero, and wrap-around of 32-bit time.
- The rest of the flow record (next nodes, TEIDs, PDR ids, statistics, application detection) and the buffers of a frame.
- Leaf codecs whose encoder and decoder do not mirror each other: packet counts in volume measurements, packet rates beyond uplink and downlink, dropped downlink threshold, PFD contents, VLAN tags, MAC address vectors, trace information, NAT port ranges, BBF features.
- The full PFCP schema: two messages are instantiated; the other tables are data for the same functions.  Responses whose mandatory node id has no group entry are not well-formed schemas.
- The list of offending elements that a failed decode returns.
- FlowStall.ExpireAtExactly: exact for slots whose due flows the hook lets go or whose renewal takes them to another slot; a kept flow that renews into the slot under visit depends on later answers of the hook.
- FlowInterleave.StepOk: the two lookups of a pair of packets are one step.
- Application rules with `any` as source or with repeated source prefixes, reuse of an index after cleanup, and the destination prefix comparison, which is an arbitrary predicate per rule.
- AppRules.AppEntry.EnsureAppFib: assumes fresh tables, as the first call finds them; the FIB is a map from prefixes.
- The order of filters (a byte-wise comparison of host-order fields) and with it which of several matching filters wins; rules that mix address families.
- What a match does to the flow record (proxy and redirect decisions).
- rule_index values of endpoints, reference counts of application databases and of GTP peers, inactivity timers, end markers, and the time-based parts of usage rules.
- Volume thresholds: they signal like quotas but drop nothing.
- UrrMain.MergeUrrs: works on vectors of values; the traffic tables that move with a rule are not modelled.
- UrrLinks.BuildUrrLinkMap: bitmaps are sets on values, updated one at a time.
- VecDiff.Sort: the library sort is represented by an insertion sort; only its result matters.
- The loops that stage and free vectors element by element are functions over whole vectors in RuleSwap and PolicerRun.
- Unsigned wrap-around of reference counts and usage counters.
- CLI, binary API, formatting, HTTP and TLS detection, NAT calls, GTP-U encapsulation, policer arithmetic and FIB stacking.
