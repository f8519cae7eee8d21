# Callsignet, modelled and proved

csa connects machines by name. Each machine has an id, a key and a tunnel address; csa carries their traffic over
WireGuard, lets through only what a policy file allows, closes the direct path, and swaps the real addresses
applications use for tunnel addresses. `csa reload` puts new files in force while it runs. A separate tool writes and
checks the software bill of materials of a release. This project models the decisions and the in-memory state of these
parts in Dafny and proves what they promise. `dafny verify dfyconfig.toml` checks all of it.

| part | files |
|---|---|
| configuration, its validation | `Configuration`, `Validation`, `ValidMeaning` |
| WireGuard commands: the difference does what the whole would | `Wg`, `Uapi`, `PeerPlan`, `Reconfigure`, `WgReload`, `KeyHistory` |
| policy: compiled indexes against a plain reading of the files | `Policy`, `PolicyCompile`, `PolicyMeaning`, `PolicyReasons` |
| packets: checksums, ICMP refusals, MSS clamping | `Bytes`, `Packet`, `Mss` |
| memory of connections, packet filter, and whole runs of both | `Flow`, `FlowHistory`, `Filtering`, `FilterHistory`, `Filter`, `Enforcement` |
| address translation | `Nat`, `NatMeaning` |
| reload as a transaction | `Diff`, `Agreement`, `Guard`, `Device`, `Transaction`, `Agent` |
| the running program, packets and reloads in one run | `Serving` |
| bill of materials | `Text`, `Sbom`, `SbomCheck`, `SbomAgree`, `SbomMeaning`, `SbomReading` |
| inputs on which the code and its documents differ | `Witnesses` |
| shared | `Basics`, `Net`, `Sorting` |

Code that changes things step by step is written as methods and classes (`Flows`, `Filter`, `Device`, `Agent`, the
loops of validation, compilation, `Diff`, `Ruleset`, `checkDoc`), each tied by its contract to a function or a
condition; the lemmas are about those functions and about whole runs.

## Assumptions

- wg reads its commands line by line as `Wg.Step` does: a public key selects a peer and creates it if need be, `remove`
  deletes it with its allowed IPs, `replace_allowed_ips` drops what it owns, `allowed_ip` takes the address over, and an
  absent preshared key or endpoint line changes nothing. A failing `IpcSet` leaves wg as it was.
- The kernel applies the first NAT rule that matches the first packet of a connection, routes a steered connection
  again, and sends the tunnel range to the TUN device. Connection tracking undoes the changes on replies.
- A failing step of the guard or of the address table may leave any table at all behind. A step that works leaves its
  table exactly: for an address table with nothing to translate, and for the guard's mode `off`, this takes nft to be
  there to delete the table an earlier run left; without it the source logs that it could not look and goes on.
- `netip`, base64 and dates are parsed by the functions of `Net.Lib`. Where it matters two facts are required of them:
  an IPv4 address has one spelling (`OneSpelling`), and the empty text is no address and port.
- In the bill of materials SHA-1 is any function.

## Where code and documents differ

The model follows the code.

- `peerByIP` holds this machine as well, so a reload judges connections this machine opened by the inbound rules
  (`Filtering.OwnConnectionsJudgedInbound`, `Enforcement.OwnConnectionKept`). One that the outbound rules still allow can
  be forgotten: `Witnesses.AllowedButForgotten`.
- An allowed packet is remembered only when the log memory sees its connection for the first time, unlike
  design/README.md:602 (`Filtering.RememberedOnlyWhenFirst`). Of two pings a minute and a half apart the second goes
  unanswered, with no refusal and no reload (`Witnesses.SecondAnswerRefused`); `Filtering.ReplyToAllowed` says exactly when
  a reply to an allowed packet passes, and by `FilterHistory.OneWayTrafficAges` traffic one way keeps no connection open.
- Whether a packet has ports is read off its protocol alone, so a later fragment is judged as port 0
  (`Packet.LaterFragmentHasNoPort`). design/README.md:383 lets it in when some rule admits its peer. No service has port
  0, so it passes in neither direction in any run on valid files (`Enforcement.LaterFragmentsNeverPass`): it is treated as
  documented exactly when no rule admits its peer (`Enforcement.LaterFragmentAsDocumented`). `Witnesses.LaterFragmentRefused`
  has such a fragment and rules that admit its peer.
- A preshared key or endpoint that disappears while the peer keeps its key stays in wg (`WgReload.RevokedKeyStays`);
  `WgReload.ReloadIsReinstall` gives the exact condition for one reload and `KeyHistory.KeysOfLast` for preshared keys over
  any run.
- Validation looks at a rule's expiry only when the rule has ranges, so valid files can still fail to compile
  (`PolicyMeaning.ValidCompiles`, `Witnesses.ValidButUncompilable`); a date that is Go's zero time never expires
  (`PolicyMeaning.Unexpired`).
- Cutting the MSS fixes the checksum as if the value were word-aligned. In a SYN whose value lies at an odd offset the
  sum is off unless the reduction is divisible by 257 (`Mss.ClampedChecksum`); in `Witnesses.OddSynBreaks` one
  no-operation option before it, and a cut from 1460 to 1360, turn a checksum that verifies into one that does not.
- A reload that fails half way and goes back forgets the connections the new rules would not have let through
  (`Filtering.FailedReloadForgets`).

## Model

| member | source | states |
|---|---|---|
| WgReload.ReloadIsReinstall | internal/wgdev/uapi.go:92-143 | running the reload's commands on an installed device gives the peers and allowed IPs a restart with the new files gives, and the very same device if and only if no peer that keeps its key loses its preshared key or endpoint; key swaps and tunnel-IP permutations included |
| WgReload.ReloadThereAndBack | internal/wgdev/uapi.go:92-143 | reloading to other files and back restores the device exactly when the way back loses no preshared key or endpoint |
| WgReload.ReloadTracks | internal/wgdev/uapi.go:84-143 | on a device that tracks the old files, whatever its sessions have become, the commands in any map order leave one that tracks the new files, each session as predicted |
| WgReload.UnchangedPeerIsLeft | internal/wgdev/uapi.go:109-119 | a peer whose key text, tunnel IP, first endpoint and preshared key text are the same keeps its session, roamed endpoint included, and its IP, whatever else changes |
| WgReload.RevokedKeyStays | internal/wgdev/uapi.go:61-71 | taking a preshared key away and reloading leaves it in wg, where a restart would not, for every such configuration and peer |
| WgReload.NothingToTell | internal/wgdev/uapi.go:92-143 | a reload has no command at all exactly when no peer left and none is new or different |
| KeyHistory.KeysOverReload | internal/wgdev/uapi.go:109-143 | wg that held, for every other machine, the preshared key its text decodes to or none, does so for the new files exactly when no peer that keeps its public key loses its preshared key, wherever peers have roamed |
| KeyHistory.KeysOfLast | internal/wgdev/uapi.go:61-71 | after any run of reloads and ways back, wg holds for every machine of the files last taken over the preshared key its text decodes to or none, exactly when no peer they give none had one since it took its present public key |
| WgReload.ConfigInstalls | internal/wgdev/uapi.go:23-56 | the full commands leave exactly the other machines as peers with fresh sessions, each owning exactly its tunnel IP, whatever the device held before |
| WgReload.ConfigTells | internal/wgdev/uapi.go:23-89 | whatever wg held, afterwards a peer whose key text decodes to k is there under k with the preshared key its own text decodes to or none, endpoints[0] or none and keepalive 25, k owns its tunnel IP, and wg has the private key and the port of csa.toml |
| WgReload.ReloadTells | internal/wgdev/uapi.go:92-143 | a peer that is new or has another public key gets exactly that; one that keeps its key and is told nothing different keeps its session whole; told anything different it gets its preshared key and endpoint where there are any and keeps what it had where there are none |
| WgReload.TracksMeaning | internal/wgdev/uapi.go:23-143 | a device tracks files exactly when its peers are the other machines by their decoded keys and each owns exactly its tunnel IP |
| WgReload.UAPIConfig | internal/wgdev/uapi.go:23-56 | the loop writes the lines of the header and of every other machine, whose effect WgReload.ConfigTells reads off the files, and fails exactly when a key does not read |
| Uapi.UAPIReload | internal/wgdev/uapi.go:92-143 | the loops write the removals of departed peers, then of changed keys, then the settings of changed peers, for some order of the maps, whose effect WgReload.ReloadTells reads off the files, and fail exactly when a changed peer's key does not read, naming one |
| Uapi.PeersById | internal/wgdev/uapi.go:146-155 | the other machines by id |
| Reconfigure.RemovedKeysAreDead | internal/wgdev/uapi.go:97-121 | a key the reload removes belongs to no peer that keeps its key, so removals first lose nothing that stays |
| Reconfigure.ScriptIsPlan | internal/wgdev/uapi.go:97-143 | the commands of a reload carry out the plan for its two peer lists on any device shaped by the old one |
| PeerPlan.PlanCarriedOut | internal/wgdev/uapi.go:104-140 | setting the changed peers one after another in any order, with IPs taken over from peers not yet set, ends with every peer owning its IP and with the session the plan says |
| Policy.SourceNotNeeded | internal/policy/policy.go:186-216 | when NeedsSource is false the inbound decision, reason included, is the same for every observed source |
| Policy.SourceNotNeededICMP | internal/policy/policy.go:191-275 | the same for ICMP |
| Policy.InboundICMPMeaning | internal/policy/policy.go:261-275 | ICMP is let in exactly when some port would be |
| Policy.OutboundICMPMeaning | internal/policy/policy.go:278-286 | ICMP is let out exactly when some port would be |
| Net.ContainsMeaning | internal/policy/policy.go:86-96 | a prefix holds the addresses of its family, without a zone, that agree with it divided by two to the number of bits that do not count |
| Net.UnmapMeaning | internal/config/config.go:123-148 | unmapping takes ::ffff:0:0/96 to IPv4 and leaves every other address |
| PolicyCompile.NewRules | internal/policy/policy.go:104-184 | the loops of New build the indexes the specification describes, or fail with its first error |
| PolicyCompile.IndexIsWellIndexed | internal/policy/policy.go:136-183 | the indexes New builds agree with each other: all rules, the ports that need the source, the peers with a target |
| PolicyMeaning.CompiledRuleMeaning | internal/policy/policy.go:64-96 | a compiled rule allows exactly when the entry states a condition, its date is absent, Go's zero time or not past, the peer is among those listed if any are, and the source is in a range if any are stated |
| PolicyMeaning.InboundMeaning | internal/policy/policy.go:198-216 | a packet from the tunnel IP of a listed machine is let in exactly when some entry for a service of this machine on that port has each of these conditions met |
| PolicyMeaning.StrangersStayOut | internal/policy/policy.go:199-202 | an address no listed machine has is never let in |
| PolicyMeaning.OutboundMeaning | internal/policy/policy.go:246-254 | a packet to a listed machine is let out exactly when an outbound entry names an app it offers on that port |
| PolicyReasons.InboundReason | internal/policy/policy.go:198-236 | a refused packet of a listed machine gets "closed port" exactly when no entry is for a service on the port, else the reason of the first entry for it that can be blamed, else "no rule" exactly when none can |
| PolicyReasons.BlamedMeaning | internal/policy/policy.go:220-236 | an entry can be blamed when it fits the peer and its date is past or it states ranges; a past date is the reason before ranges are |
| PolicyReasons.InboundICMPReason | internal/policy/policy.go:261-275 | for ICMP the first entry of all that can be blamed gives the reason, and without one no service is open |
| PolicyReasons.OutboundReason | internal/policy/policy.go:246-286 | what is refused to a listed machine is not listed, and to any other address everything is refused as an unknown peer |
| PolicyMeaning.ValidCompiles | internal/policy/policy.go:104-184 | a valid configuration compiles if and only if every expiry reads |
| Witnesses.ValidButUncompilable | internal/config/validate.go:324-374 | valid files that do not compile: an expiry nobody can read, on a rule without ranges |
| Enforcement.InboundEnforced | internal/wgdev/filter.go:135-172 | over every run, a TCP or UDP packet from the tunnel passes exactly when the inbound policy in force, read from the files, admits it or it answers a connection let through and kept |
| Enforcement.OutboundEnforced | internal/wgdev/filter.go:102-133 | the same for packets from applications and the outbound policy |
| Enforcement.PortlessInboundEnforced | internal/wgdev/filter.go:148-172 | a packet without ports from the tunnel passes exactly when the policy admits its sender on some port or it is a reply |
| Enforcement.PortlessOutboundEnforced | internal/wgdev/filter.go:109-133 | a packet without ports from an application passes exactly when some target names its destination or it is a reply |
| Enforcement.PolicyEnforced | internal/wgdev/filter.go:102-172 | the four cases in one: a packet passes exactly when the policy says so or it is a reply |
| Enforcement.PolicySaysMeaning | internal/policy/policy.go:186-286 | what "the policy says so" means: for protocols 6 and 17 the destination port, for others some port, is that of a service of this machine named by an entry whose conditions the owner of the source meets, or, outward, of a service an outbound entry names at the owner of the destination |
| Enforcement.ConnectionKept | internal/wgdev/device.go:250-269 | a reload keeps a connection exactly when the new policy would let the packet that opened it through, inward if its source is the tunnel IP of a listed machine, this one included, outward otherwise |
| Enforcement.OwnConnectionKept | internal/wgdev/device.go:250-261 | a reload keeps a connection this machine opened exactly when the inbound policy would admit this machine itself on that port, or without ports on some port, whatever the outbound list says |
| Witnesses.AllowedButForgotten | internal/wgdev/device.go:250-261 | valid files whose outbound list allows a connection of this machine that a reload with them forgets |
| Packet.ParseReadsFrame | internal/policy/packet.go:26-50 | a frame put together from a version 4 header of 20 to 60 octets with no fragment offset, two addresses, a protocol, for TCP and UDP a source and a destination port, and anything after, reads back as exactly those |
| Packet.ParseReads | internal/policy/packet.go:26-50 | a packet is read at all exactly when it has a whole version 4 header of at least 20 octets, and with port 0 both ways when it ends before the ports |
| Packet.LaterFragmentHasNoPort | internal/policy/packet.go:40-50 | a packet with a fragment offset is read with port 0 both ways and counts as having ports if its protocol octet is 6 or 17 |
| Enforcement.LaterFragmentsNeverPass | internal/wgdev/filter.go:102-172 | in every run whose rules come from valid peer lists, no later fragment of TCP or UDP passes in either direction |
| Enforcement.LaterFragmentAsDocumented | internal/wgdev/filter.go:102-172 | a later fragment is treated as the design says, let through when some rule admits its peer, exactly when no rule does |
| Witnesses.LaterFragmentRefused | internal/policy/packet.go:40-50 | a UDP fragment that is refused under valid files whose policy admits its sender |
| Flow.NextBounded | internal/wgdev/flow.go:106-188 | no operation takes a table past its bound, whatever entries the sweep picks |
| Flow.OnlyAllowAdmits | internal/wgdev/flow.go:106-169 | no operation but Allow makes an entry one whose replies pass |
| Flow.Lifetimes | internal/wgdev/flow.go:40-58 | the log memory holds 4096 connections for 120 s, the other 16384 for an hour (TCP), three minutes (UDP) or one minute |
| Flow.OppositeMeaning | internal/wgdev/flow.go:22-30 | the memory tells packets apart by addresses, ports and protocol, and takes one for an answer exactly when it has them swapped |
| Flow.Flows.First | internal/wgdev/flow.go:106-120 | the new table, and whether the connection was not live; evictions are ones the sweep may pick |
| Flow.Flows.Allow | internal/wgdev/flow.go:123-131 | the new table, with the connection let through now |
| Flow.Flows.IsReply | internal/wgdev/flow.go:135-147 | true exactly when the entry with source and destination, and their ports, swapped is there, let through and within its lifetime; its clock restarts and nothing else changes |
| Flow.Flows.Forget | internal/wgdev/flow.go:155-169 | exactly the let-through entries keep rejects are gone, and how many |
| Flow.Flows.Sweep | internal/wgdev/flow.go:172-188 | aged entries go; only if the table is still full does any half of the rest go |
| FlowHistory.ReplyMeaning | internal/wgdev/flow.go:98-188 | IsReply answers yes at a time if and only if an earlier Allow entered the connection with both ends swapped, every touch since came within its lifetime, none forgot or evicted it, and the last is recent enough |
| FlowHistory.EvictionNeedsFullTable | internal/wgdev/flow.go:172-188 | in every run a connection is evicted only by a First or an Allow that finds the table at its bound with every entry, this one included, still live, and then max/2 go (one, if max is one) |
| FlowHistory.ReplayBounded | internal/wgdev/flow.go:63-188 | every reachable table is within its bound |
| Filtering.JudgedBySource | internal/wgdev/filter.go:142-154 | looking the source up only where a rule asks for it changes no decision |
| Filtering.RememberedOnlyWhenFirst | internal/wgdev/filter.go:120-132 | an allowed packet makes an entry exactly when the log memory does not hold its connection |
| Filtering.ReplyToAllowed | internal/wgdev/filter.go:115-132 | within an hour (TCP), three minutes (UDP) or a minute of an allowed packet, a reply the rules refuse passes exactly when the log memory did not hold the connection or an entry from before still answers for it |
| Filtering.AllowedButNotRemembered | internal/wgdev/filter.go:120-132 | a connection refused first and allowed by a reload within two minutes passes forward while its reply is refused |
| Filtering.SecondPingUnanswered | internal/wgdev/filter.go:115-132 | from empty memories, with no refusal and no reload: the answer to a second ping a minute and a half after the first is refused |
| Witnesses.SecondAnswerRefused | internal/wgdev/filter.go:115-132 | files that are valid and compile, under whose rules the answer to the second of two such pings is refused |
| Filtering.OwnConnectionsJudgedInbound | internal/wgdev/device.go:250-269 | a reload keeps a connection from an indexed source exactly when the inbound rules admit that source |
| Filtering.FailedReloadForgets | cmd/csa/main.go:450-457 | going there and back keeps the rules and, of the connections let through, exactly those both sets of rules allow |
| FilterHistory.PassMeaning | internal/wgdev/filter.go:102-172 | over every run a packet passes exactly when the rules in force allow it or it answers a connection opened and kept |
| FilterHistory.PassedIsAccountedFor | internal/wgdev/filter.go:115-119 | a packet that passes against the rules has source and destination, and their ports, swapped, and the protocol, of a packet that the rules in force allowed when it came and whose connection every reload since has kept |
| FilterHistory.RevokedRepliesStop | internal/wgdev/device.go:236-241 | once a reload's rules refuse the packet that opened a connection its replies stop, unless it is opened again or the rules allow them |
| FilterHistory.ReplyInTimePasses | internal/wgdev/filter.go:115-132 | a reply within 3600 s (TCP), 180 s (UDP) or 60 s of the packet that opened the connection passes whatever else went through, unless revoked or evicted |
| FilterHistory.OneWayTrafficAges | internal/wgdev/filter.go:115-132 | over every run, after such a lifetime of traffic one way only, the first reply is refused unless the rules allow it |
| FilterHistory.RunBounded | internal/wgdev/flow.go:40-47 | both memories stay within their bounds over every run |
| Filter.KeptAreThoseThatPass | internal/wgdev/filter.go:50-63 | the packets kept of a batch are exactly those that pass in their turn, clamped, in their order |
| Filter.BatchContinuesRun | internal/wgdev/filter.go:45-83 | a batch continues the run before it, so what holds of runs holds of every packet of every batch |
| Filter.BatchRunsForward | internal/wgdev/filter.go:45-83 | and when its clock does not go back the run still runs forward, as the theorems about runs ask |
| Filter.Filter.Read | internal/wgdev/filter.go:45-65 | in place: the first kept buffers and sizes are the kept packets, clamped and in order, and the applications are sent a refusal for each other one with a header |
| Filter.Filter.Write | internal/wgdev/filter.go:68-83 | the device is handed exactly the packets that pass, clamped and in order |
| Filter.Filter.AllowOut | internal/wgdev/filter.go:102-133 | the verdict and the new memories for one packet from an application |
| Filter.Filter.AllowIn | internal/wgdev/filter.go:135-172 | the verdict and the new memories for one packet from the tunnel |
| Filter.Filter.Clamp | internal/wgdev/filter.go:91-100 | the packet clamped in place, counted if it was cut, the flag that it was told raised |
| Filter.Filter.Reject | internal/wgdev/filter.go:218-226 | the application is handed the refusal, or nothing for a packet without a header |
| Filter.Filter.Replace | internal/wgdev/device.go:232-241 | new rules, and a memory judged again by them |
| Bytes.WordSumStep | internal/policy/packet.go:90-102 | the sum adds 16-bit words in network order (and by Bytes.WordSumOdd an octet left over as a high one) |
| Bytes.VerifiesIffResidue | internal/policy/packet.go:90-102 | a receiver accepts exactly a sum that is not zero and divisible by 65535 |
| Bytes.ChecksumVerifies | internal/policy/packet.go:90-102 | storing the checksum makes the words add up to all ones, as RFC 1071 asks of a receiver |
| Bytes.ComputeChecksum | internal/policy/packet.go:90-102 | the loops compute the folded complement of the word sum kept in 32 bits, odd lengths included, which for up to 65536 octets is the checksum of RFC 1071 |
| Packet.RejectionVerifies | internal/policy/packet.go:62-88 | both checksums of every refusal verify, odd quote lengths included |
| Packet.RejectionAnswers | internal/policy/packet.go:26-88 | a refusal is type 3 code 13, states its length, quotes the packet from its start through eight octets after its header, or as far as it goes, and parses as ICMP with source and destination swapped |
| Packet.RejectICMP | internal/policy/packet.go:62-88 | the buffer filled in place is that refusal; nothing for fewer than 20 octets |
| Mss.WalkFindsFirstMss | internal/policy/mss.go:48-75 | on well-formed options the walk finds the first MSS option (section 3.7.1 of RFC 9293) |
| Mss.MssOffsetIsFirstMss | internal/policy/mss.go:23-62 | in a SYN with well-formed options, the value found is that of the first MSS option |
| Mss.SynWithMss | internal/policy/mss.go:23-76 | octet by octet, in a whole version 4 TCP frame with no fragment offset and the SYN flag, whatever its other flags: the two octets of the first option of kind 2 and length 4 become the limit exactly when they say more and it is not 0, and besides only the checksum changes |
| Mss.SynWithoutMss | internal/policy/mss.go:48-76 | such a frame whose options hold none of kind 2 and length 4 before their end is left as it is |
| Mss.OthersAreNotCut | internal/policy/mss.go:23-47 | another version or protocol, a later fragment, a segment without the SYN flag or a header that does not fit is never cut |
| Mss.ClampedFrame | internal/policy/mss.go:48-76 | a cut writes the new MSS and the checksum and no other octet; without a cut nothing changes |
| Mss.ClampedIsFixpoint | internal/policy/mss.go:23-76 | a second call with the same limit cuts nothing |
| Mss.ReceiverSum | internal/policy/mss.go:60-86 | that sum: the addresses, 6 and the length of the segment, and the 16-bit words of the segment |
| Mss.ClampedChecksum | internal/policy/mss.go:60-86 | after a cut the TCP checksum sum, pseudo-header included, is unchanged modulo 65535 if and only if the MSS value lies at an even offset or the reduction is divisible by 257 |
| Witnesses.OddSynBreaks | internal/policy/mss.go:60-86 | a SYN with its MSS value at an odd offset whose checksum verifies, and no longer does after a cut from 1460 to 1360 |
| Mss.ClampedParsesTheSame | internal/policy/mss.go:23-76 | clamping changes nothing Parse reads |
| Mss.FixedChecksumResidue | internal/policy/mss.go:80-86 | the new checksum is the old one adjusted by equation 3 of RFC 1624, modulo 65535 |
| Mss.FixChecksum | internal/policy/mss.go:80-86 | the fold ends within 16 bits and only the checksum is written |
| Mss.ClampMSS | internal/policy/mss.go:23-76 | for every byte string: no read out of bounds, whether it cut, and exactly the clamped octets in place |
| Mss.FindMss | internal/policy/mss.go:48-75 | the option loop ends on every byte string with the walk's answer |
| Configuration.RealIPsMeaning | internal/config/config.go:123-148 | the real IPs are the readable IPv4 addresses of addresses, or of endpoints when there are none, each once |
| Configuration.FirstAddress | internal/config/config.go:123-148 | of an entry with addresses, the first real IP is that of the first text in them that reads as an IPv4 address, mapped ones included |
| Configuration.FirstEndpoint | internal/config/config.go:123-148 | of an entry without addresses, that of the first endpoint that reads as one |
| Configuration.RealIPsOrder | internal/config/config.go:123-148 | one real IP is before another exactly when its first occurrence in the texts is |
| Configuration.ListRealIPs | internal/config/config.go:123-148 | the loops build that list, in the order of first occurrence |
| Configuration.FindsFirst | internal/config/config.go:367-374 | of several entries with one id the first is found, and none exactly when no entry has it |
| Configuration.CutJoin | internal/policy/policy.go:301-308 | peer-id/app reads back as the id and the app it names |
| Validation.CheckPeers | internal/config/validate.go:183-322 | no problem is found exactly when entries are well formed, share no id, key, tunnel IP or real IP, and this machine can be presented |
| Validation.CheckPolicy | internal/config/validate.go:324-374 | no problem is found exactly when every rule and target is well formed at that time |
| Validation.CheckServices | internal/config/validate.go:280-310 | no problem exactly when services are well formed and differ in name and port |
| Validation.PeersApart | internal/config/validate.go:183-322 | two entries of a valid list are one or share nothing |
| ValidMeaning.LabelMeaning | internal/config/validate.go:141-158 | a label has 1 to 63 of a-z, 0-9 and hyphen, and no hyphen at either end |
| ValidMeaning.EntryMeaning | internal/config/validate.go:183-310 | an entry passes exactly when id and apps are labels, the key decodes and is not zero, the tunnel IP is an IPv4 address in the tunnel range, endpoints read with a port, addresses are IPv4 outside the range, and services have ports of their own in 1 to 65535, none the port wg listens on |
| ValidMeaning.ListMeaning | internal/config/validate.go:183-322 | a list passes exactly when every entry does and no two share an id, a decoded key, a tunnel IP or a real IP |
| ValidMeaning.InboundEntryMeaning | internal/config/validate.go:324-360 | a rule passes exactly when its app is a service of this machine, its peers are listed, its ranges read, and, if it has ranges, its date reads and is not past |
| ValidMeaning.ValidityMeaning | internal/config/validate.go:18-440 | Validate accepts exactly files that list this machine, with good entries, list, rules and outbound entries, an IPv4 address of this machine unless applications are shown tunnel addresses, and preshared keys that decode and are not zero |
| Nat.MakeConfig | cmd/csa/main.go:283-304 | the loop collects this machine's tunnel address and first real address, and every other machine's addresses and ports, as the specification does |
| Nat.DedupMeaning | internal/nat/nat.go:195-206 | each port once, in ascending order |
| Nat.DedupPorts | internal/nat/nat.go:195-206 | the loop computes that list |
| Nat.Ruleset | internal/nat/nat.go:133-187 | the nested loops write exactly the rules of the four chains |
| NatMeaning.Steered | internal/nat/nat.go:143-158 | a connection to a real address and service port of another machine is steered to its tunnel address |
| NatMeaning.NotSteered | internal/nat/nat.go:143-158 | every other connection is left as it is |
| NatMeaning.PresentedAs | internal/nat/nat.go:176-182 | a connection from a machine's tunnel address is shown as from the address of the first text in its entry that reads as IPv4, or as it is if none does |
| NatMeaning.LeavesThroughTunnel | internal/nat/nat.go:143-163 | a steered connection leaves between the tunnel addresses, its source changed exactly when it was outside the tunnel range |
| NatMeaning.EndToEnd | internal/nat/nat.go:133-187 | between two machines that share a list a connection to any real address and service port travels between the tunnel addresses, each owned in wg by the key its entry decodes to, and reaches the application with both shown as the first text that reads as IPv4 |
| NatMeaning.ShownTellsWho | internal/config/validate.go:254-280 | the source an application is shown determines the machine |
| NatMeaning.OrderDoesNotMatter | internal/nat/nat.go:133-187 | lists with the same entries in any order translate every connection alike |
| Diff.DiffConfigs | internal/config/diff.go:40-74 | the loops report exactly the added, removed and changed peers, changed keys, policy, and this machine's own changes |
| Diff.DiffTells | internal/config/diff.go:40-74 | with unique ids: added and removed are the ids in one list only, changed those whose entries differ otherwise than in this machine's own key or tunnel IP, which is reported apart; keys by their text, an absent one being empty |
| Diff.ChangedPSK | internal/config/diff.go:81-98 | exactly the ids whose key text differs, an absent key counting as empty |
| Diff.SameSelf | internal/config/diff.go:102-122 | true exactly when csa.toml says the same |
| Diff.SamePeer | internal/config/diff.go:132-148 | with equal ids, true exactly for equal entries |
| Diff.SamePolicy | internal/config/diff.go:150-167 | true exactly for equal policies |
| Diff.NothingChanged | internal/config/diff.go:34-74 | nothing is reported exactly when the two configurations agree |
| Diff.AgreeIsEquivalence | internal/config/diff.go:34-74 | agreement is reflexive, symmetric and transitive |
| Agreement.NothingChangedNothingToDo | cmd/csa/main.go:401-410 | when Diff reports nothing for two valid configurations, there is no wg command, the compiled rules and guarded ports are equal, and every connection is translated alike |
| Agreement.AgreeingRules | internal/policy/policy.go:104-184 | configurations that agree compile to the same rules |
| Guard.MakeConfig | cmd/csa/main.go:263-279 | the ports to close are this machine's service ports |
| Guard.ConfigMeaning | cmd/csa/main.go:263-279 | each field from the files: mode, interface name (cs0 if none), listen port, the ports of this machine's services in order, its tunnel IP, and the TCP and UDP ports to keep |
| Device.Device.Reload | internal/wgdev/device.go:213-243 | it fails exactly when a key or the policy does not read or wg refuses, leaving everything as it was; otherwise wg, rules, snapshot and memory are those of the new files |
| Device.Device.Judge | internal/wgdev/filter.go:102-172 | one packet: whether it passes in the state the run so far has left, and the run it makes of it |
| Agent.Agent.Examine | cmd/csa/main.go:384-419 | what reload answers before it changes anything is the verdict on the files, whose causes Transaction.VerdictCauses tells |
| Agent.Agent.PutInForce | cmd/csa/main.go:421-434 | it is done exactly when the policy compiles and every step works, and then all parts carry out the new files; otherwise the way back is taken from where the steps got to |
| Agent.Agent.Back | cmd/csa/main.go:450-477 | every step back is taken whatever the others did, each that works restores its part, and the outcome says which did |
| Agent.Agent.Reload | cmd/csa/main.go:381-438 | its outcome, which steps back worked included, is the one the files and the steps decide from live; Done or NoChange leaves the files read live, with csa.toml, own key and own tunnel IP unchanged, anything else leaves live as it was; the files taken over on the way are told exactly, and the filter met nothing else; a verdict touches nothing but live; unless the outcome is mixed, device, guard and address table all carry out live or what agrees with it, wg listens on live's port and its private key is the one read at the start |
| Agent.Agent.Serve | cmd/csa/main.go:232-257 | over any run of packets and reloads, peers roaming in between, each answer is the one the files, steps and memories decide; live is the last taken over and in force until a mixed outcome, which alone stops the program and keeps both tables; wg then holds live's preshared keys exactly when no peer live gives none had one since it took its public key; csa.toml, own key and own tunnel IP are those of the first files throughout |
| Agent.Agent.InForceTells | cmd/csa/main.go:401-438 | what in force means: wg's peers are the other machines of live by their decoded keys, each owning exactly its tunnel IP; wg listens on live's port with the private key read at the start; rules, guarded ports and translation are live's |
| Serving.SelfStays | cmd/csa/main.go:393-399 | over every run, mixed outcomes included, live lists this machine with the csa.toml, key and tunnel IP of the first files |
| Serving.LivePolicyEnforced | cmd/csa/main.go:381-438 | over every such run, reloads that failed and were taken back included, a packet passes exactly when the policy of the files live at that moment lets it through or it answers a connection let through and kept, until a reload ends mixed |
| Serving.ArrivedFrameJudged | cmd/csa/main.go:381-438 | from octets to the verdict: in every such run a frame from the tunnel passes exactly when the owner of its source address meets all conditions of some live entry for a service of this machine on the port in its destination port octets, or it is such an answer |
| Serving.SentFrameJudged | cmd/csa/main.go:381-438 | and a frame from an application exactly when a live outbound entry names a service the owner of its destination address offers on that port, or it is such an answer |
| Serving.LiveIsFollowed | cmd/csa/main.go:421-457 | until a reload ends mixed the filter has the rules compiled from live, whatever was taken over and taken back |
| Agent.Open | internal/wgdev/device.go:86-161 | there is a device exactly when the private key reads, the policy compiles and TUN and wg take it, and it then follows the files, holds their preshared keys, and listens on their port with that private key |
| Agent.Start | cmd/csa/main.go:155-191 | the program starts exactly when the files are valid, compile, the private key reads and every step works, and then they are in force, preshared keys, port and private key included, with empty memories |
| Transaction.VerdictMeaning | cmd/csa/main.go:384-419 | what is left to put in force has peers wg can be told of, and what changes nothing is usable and agrees with what is in force |
| Transaction.VerdictCauses | cmd/csa/main.go:384-419 | each refusal has its cause and only that: unreadable, not valid, csa.toml different, own key or tunnel IP different, nothing different, refused by nft for guard or for addresses; nothing is refused exactly when none holds |
| Transaction.OutcomeMeaning | cmd/csa/main.go:381-477 | done exactly when acceptable files compile, wg takes its commands, if any, and both tables are put in force; otherwise each part is back exactly when its own step back works |
| Transaction.CameTo | cmd/csa/main.go:381-477 | what the steps come to from files that agree with live is what they come to from live |
| Transaction.InForceMeaning | cmd/csa/main.go:401-410 | what is in force means what live says: wg peers and IPs, decisions, guarded ports, translation |
| Transaction.KeysOfLive | cmd/csa/main.go:401-433 | with live, or what agrees with it, in force after any run, the preshared keys in wg are those of live exactly when no peer live gives none had one since it took its public key |
| Sbom.PurlMeaning | tools/sbom/main.go:743-749 | the purl is the path and version joined, however the path is split |
| Sbom.Compose | tools/sbom/main.go:755-885 | the loops compose the specified document |
| Sbom.ComputeLicense | tools/sbom/main.go:595-607 | the loops over maps in any order compute that licence expression |
| SbomMeaning.LicenseMeaning | tools/sbom/main.go:595-607 | the own licence first, then Go's and every module's others, each once and in ascending order |
| Sorting.SortMeaning | tools/sbom/main.go:605-605 | sorting orders a list and keeps every element as often as it occurs |
| Sorting.SortIgnoresOrder | tools/sbom/main.go:738-738 | lists of the same elements sort alike, whatever order they came in |
| SbomCheck.CheckDoc | tools/sbom/main.go:1035-1227 | nothing wrong is found exactly when the document is accepted, which SbomReading.AcceptedMeaning reads off the document |
| SbomCheck.MatchFiles | tools/sbom/main.go:1191-1221 | taking each entry's file out of the table finds nothing wrong exactly when names are distinct, each entry matches its file and no file is left |
| SbomCheck.MatchNotices | tools/sbom/main.go:531-558 | it succeeds exactly when every module path@version is in the table and has its "## path version" line and every row of the table is such a module, and then returns the table |
| SbomAgree.OwnDocumentAccepted | tools/sbom/main.go:755-1227 | the check accepts the document composed from the same inputs if and only if module ids are distinct and not fixed ones, file ids are distinct, and every go.sum hash can be read back |
| SbomAgree.DepPackagePasses | tools/sbom/main.go:862-887 | a composed module passes exactly when its hash has no full stop with a blank and, unless replaced, no note of replacement |
| SbomAgree.RevisionMeaning | tools/sbom/main.go:889-901 | revisionOf gives a commit exactly for a comment that begins with it and then ends or goes on with a full stop and a blank |
| SbomAgree.LinkedEnds | tools/sbom/main.go:1129-1135 | looking a relation up by its joined ends is exact for ends without a bar |
| SbomMeaning.AcceptedPackages | tools/sbom/main.go:1051-1076 | an accepted document's packages are the four fixed ones and one per module, each id once |
| SbomMeaning.AcceptedFiles | tools/sbom/main.go:1176-1221 | an accepted document's files are the bundle's one to one, by name, both hashes and licence, with ids of their own, each contained in the bundle package |
| SbomMeaning.AcceptedModule | tools/sbom/main.go:1137-1166 | each module is there with path, version, licence, hash and a note of what it replaces exactly if it replaces something, and the main package links to it |
| SbomMeaning.CodeIgnoresOrder | tools/sbom/main.go:731-741 | bundles of the same files, listed in any order, have the same package verification code (section 7.9 of SPDX 2.3), whatever the hash |
| SbomReading.CodeMeaning | tools/sbom/main.go:731-741 | the package verification code hashes the SHA-1 column of all files but sbom.spdx.json, in ascending order and joined with nothing between (section 7.9 of SPDX 2.3) |
| SbomReading.ExpressionMeaning | tools/sbom/main.go:595-607 | the licence expression is the own licence and then BSD-3-Clause and every module's, each other one once and in ascending order, joined by " AND " |
| SbomReading.FileMeaning | tools/sbom/main.go:1197-1216 | a file matches an entry exactly when its name is the entry's with or without "./", its last SHA1 and SHA256 are the entry's, and its licence is the expression under bin/, NOASSERTION for LICENSE and THIRD-PARTY-NOTICES.md, and the own one otherwise |
| SbomReading.IdsMeaning | tools/sbom/main.go:685-698 | an SPDX id is the start for packages or files and the name with a hyphen for every other character than letters, digits, full stop and hyphen |
| SbomReading.ModuleMeaning | tools/sbom/main.go:1137-1166 | a package matches a module exactly when id, name, version and licence are its own, the comment begins with "go.sum " and the hash up to ". " or the end, and it says what it replaces exactly if it replaces something |
| SbomReading.AcceptedMeaning | tools/sbom/main.go:1035-1227 | the check accepts a document exactly when, with all ids, texts and relations written out, its head, its packages, its links, its files and the bundle's names are right |
| SbomReading.OwnDocumentRight | tools/sbom/main.go:755-1227 | the composed document is right for its inputs exactly when no two modules make one id, none makes a fixed one, no two files make one id, no go.sum hash holds ". ", and none that replaces nothing holds the note of replacement |

## Left out

- Concurrency finer than one packet decision or one reload; clock readings within one decision, or one reload with its way back, are one reading.
- Where `observe` gets a peer's endpoint and its cache: the observed source is an arbitrary input.
- The text of UAPI and nft commands, of logs, status and reports; commands and rules are data. The sorted order in which UAPIReload writes changed peers: every order is covered.
- checkKeyPair, and the parts of checkSelf and checkPSK about the machine's own settings, directories and modes.
- Reading files and secrets, TOML, the control socket, key generation, TUN, netlink, sockets.
- The rules the guard makes of its ports, and Close of guard and address table.
- The error a failing buffer read of the TUN device returns, and counters of nft.
- readDir, readTar, inspect, readNotices, goLicenseText and the jsonl command of the SBOM tool: entries, build and notices are data. Fields of the document the check does not read (creation time, namespace, file types, purposes, download locations, copyright texts, hasFiles) are not modelled.
- Agent.Agent.Serve: does not say which endpoints wg sessions end with, which wg changes by itself as peers roam (WgReload.ReloadTracks says what one reload makes of each), and does not model a further packet or reload in the 300 milliseconds between a mixed outcome and the stop.
- PolicyCompile.NewRules: does not build appByPort, the app names that occur only in the text of reasons.
- Filter.Filter.Clamp: does not write the log line, only the flag that it was written.
- Filter.Filter.Read: does not model that two buffers could be the same or too small for a later packet; the caller provides distinct buffers of one size. Only the buffers that were filled are passed.
- Validation.Validate: does not model checkKeyPair and the rest of checkSelf, which are plain range checks.
- NatMeaning.EndToEnd: does not model that the kernel may change the source port.
