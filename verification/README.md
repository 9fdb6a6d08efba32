# A verified model of mwgp

mwgp relays WireGuard traffic for many clients and servers through one UDP port. Its core is a stateful translation of
session indices, kept in two maps that share peer objects, with a packet obfuscator attached. This project models that
core in Dafny and proves what it keeps, step by step and over whole runs.

`dafny verify dfyconfig.toml` checks everything.

## Layout

| file | content |
|---|---|
| `Bytes.dfy`, `Packets.dfy` | indices, little-endian fields, messages, the packet buffer (`packet.go`) |
| `Obfs.dfy` | keystream, both directions, the exact round trip, the in-place obfuscator (`obfs.go`) |
| `Alloc.dfy` | the proxy index allocator, as written and re-testing |
| `Tables.dfy` | the table as a value: what each lock region does, and its invariant |
| `Records.dfy`, `CacheJar.dfy` | saved records, save and load (`cache.go`) |
| `Runs.dfy` | the whole process as a state machine: handlers in flight, table, saved file; every interleaving |
| `AnyRuns.dfy`, `Activity.dfy`, `Sessions.dfy` | theorems over every run whatsoever: pinning, roaming, expiry, levels, generators, obfuscation, address updates, and sessions |
| `WeakRuns.dfy`, `Joining.dfy` | runs in which the allocator delivers and peers may be answered any number of times |
| `Linearize.dfy` | why a transport packet may count as one step |
| `Restarts.dfy`, `SecondResponse.dfy`, `Takeover.dfy`, `AsWritten.dfy` | restarts, and the two places where the code falls short |
| `Handlers.dfy`, `Dispatch.dfy`, `Wgit.dfy` | the packet handlers on bytes, and the table as classes changed in place (`wgit.go`) |
| `ServerConfig.dfy`, `Selection.dfy`, `ServerLevels.dfy` | configuration, peer selection and validation levels (`server.go`) |
| `TwoHop.dfy` | mwgp-client and mwgp-server in a row |
| `Pool.dfy` | ownership of packet buffers across loops, channels and handlers |

Code that updates in place is modelled by classes, arrays and loops, each proved against a function on values; the
theorems are about those functions. Concurrency is a step relation: each region under the lock is one step, and handshake
handlers interleave freely with everything else, including expiry, updates, saves and restarts. Peers live in a heap of
positions, so that the sharing of one peer by both maps, and by handlers still holding an expired peer, is kept.

The hash, the MACs, key derivation, decryption, address resolution and the random draws are parameters, and the theorems
hold for all of them.

## Hypotheses, and where the code differs from its documentation

There are three kinds of runs. Those of `AnyRuns` and `Sessions` are arbitrary: nothing is asked of the allocator, of the
servers or of the saved file. Those of `WeakRuns` ask that the allocator delivers a nonzero free index, and that the records
of a file that is loaded are equal where they share an index; peers may be answered any number of times. The full invariant
of `Runs` also asks that a matched response is its peer's first (`Runs.Good`).

- The allocator (`wgit.go:583`) looks its candidate up once, before the loop. `Alloc.WrittenMeetsSpec` and
  `Alloc.WrittenSafeExactly` say exactly when it meets its specification. PRINCIPLES.md:87-99 promises that a clashing index
  is renamed; as written, a clash never returns and keeps the lock, so nothing is renamed at all (`AsWritten.NeverRenames`,
  `AsWritten.ClashNeverRegisters`). For the same reason the hypothesis about the allocator holds of itself in normal mode
  with nonzero indices (`AsWritten.WrittenRunIsGood`, `AsWritten.WrittenRunIsWeak`).
- A second response (`wgit.go:437-439`) overwrites the server proxy index and leaves the old key behind.
  `Tables.RespondKeeps` says that the invariant survives a response if and only if it is the first;
  `SecondResponse.LeakReachable` gives the run, `SecondResponse.LeakIsPermanent` and `Takeover.TakeoverFollows` its
  consequences. Other sessions are not affected while the process runs (`Sessions.EndsOnlyBy`, `Sessions.ConcernsOnlyBy`),
  nor by a restart as long as no peer has expired behind a leaked key (`Restarts.RestartUnobservable`).
- A server level is configured and inherited, but never copied to the peer (`wgit.go:404-405`). It is honoured
  if and only if it is 0 or 3 (`ServerLevels.ConfiguredLevels`); `ServerLevels.RefusedDespiteLevel` gives a packet that is
  refused at any other level.
- Loaded peers initialise their two cookie generators with the opposite keys to those of new peers (`cache.go:80-81`
  against `wgit.go:397-399`). A restart restores a peer's generators if and only if the peer had been loaded before or both
  ends have the same key (`AnyRuns.GeneratorsRestored`).
- An address update passes by a peer between extraction and registration, and only such a peer
  (`AnyRuns.UpdateMissesExactly`).
- The obfuscator restores exactly the packets in `Obfs.Restorable`: handshake messages of their exact length with a zero
  second byte (up to 1 for cookie replies), transport messages of at least 16 bytes with a zero second byte, and packets of
  other types below 32 bytes. For every other packet `Obfs.NotRestorable` gives a keystream that spoils it.

## Model

| member | source | states |
|---|---|---|
| `Bytes.GetPut` | packet.go:93-109 | an index written in little-endian form reads back unchanged |
| `Bytes.PutGet` | packet.go:93-109 | four bytes read as an index and written back are unchanged |
| `Bytes.GetIsLittleEndian` | packet.go:93-100 | the bytes of an index stand for it low byte first |
| `Packets.FieldsExactly` | packet.go:46-91 | which messages have a sender and a receiver, where, and which are errors |
| `Packets.PatchReads` | packet.go:63-109 | a patched field reads back as patched, and the type and every non-overlapping field stay |
| `Packets.PatchTwice` | packet.go:102-109 | of two writes to one field the second wins |
| `Packets.ConditionalInitiation` | wgit.go:285-289 | rewriting the sender only where origin and proxy differ equals rewriting always, up to the MACs; an untouched message keeps its author's MACs |
| `Packets.ConditionalResponse` | wgit.go:351-363 | the same for both fields of a response, patched when either pair differs |
| `Packets.RewrittenMacs` | packet.go:111-113 | a rewritten handshake message ends with the MACs the generator makes for it |
| `Packets.Packet.Reset` | packet.go:27-33 | length, addresses and all flags are cleared |
| `Packets.Packet.MessageType` | packet.go:39-44 | the first byte, or -1 for an empty packet |
| `Packets.Packet.GetLEUint32Offset` | packet.go:93-100 | the field at an offset, or an error exactly when it does not fit the message |
| `Packets.Packet.PutLEUint32Offset` | packet.go:102-109 | only the four bytes at the offset change in the whole buffer, or an error and no change |
| `Packets.Packet.ReceiverIndex` | packet.go:46-61 | the receiver field by message type, with the error cases |
| `Packets.Packet.SetSenderIndex` | packet.go:63-74 | the message with its sender replaced, or an error and no change |
| `Packets.Packet.SetReceiverIndex` | packet.go:76-91 | the message with its receiver replaced, or an error and no change |
| `Packets.Packet.FixMACs` | packet.go:111-113 | only the last 32 bytes of the message change in the whole buffer, to the MACs of the message |
| `Obfs.HeaderSeparation` | obfs.go:257-262 | for every 8-byte mask, after the fix-up no type 1..4 with flag byte 0 or 1 can be masked into a plain header |
| `Obfs.FixIsTight` | obfs.go:257-262 | the fix-up is applied exactly to the masks with such a collision, and to those whose first byte is 4 and whose second is 0 or 1 |
| `Obfs.FixMaskExactly` | obfs.go:257-262 | every mask the fix-up applies to gets the same two first bytes, and all others stay |
| `Obfs.KeystreamExactly` | obfs.go:137-146 | block n is masked with the hash of the nonce and n + 1 copies of the key, the first fixed up |
| `Obfs.RepeatSum` | obfs.go:141 | what repeating the key means |
| `Obfs.ObfuscatedExactly` | obfs.go:81-151 | every byte and the length of an obfuscated packet, by type: what is masked and with what, what is random, the flag byte, the padding |
| `Obfs.DeobfuscatedExactly` | obfs.go:153-231 | every byte, the length and the mark of a decoded packet, whoever sent it |
| `Obfs.NotMistakenForPlain` | obfs.go:161-164 | an obfuscated packet never passes the receiver's test for plain packets |
| `Obfs.NonceSurvives` | obfs.go:134-150 | the nonce lies beyond the masked bytes, so both ends read the same one |
| `Obfs.PlanMatchesShape` | obfs.go:101-132 | the receiver recovers the masked extent, the length and the message that the sender chose to hide |
| `Obfs.Decodes` | obfs.go:153-231 | decoding a masked buffer yields the prepared buffer, cleared, and marks it |
| `Obfs.RoundTrip` | obfs.go:81-231 | every restorable packet comes back with its length and all bytes, whatever the key, the keystream, the padding and the random bytes; it is marked exactly if it is of one of the four types |
| `Obfs.NotRestorable` | obfs.go:81-231 | for every other packet there are a keystream and random draws under which it does not come back |
| `Obfs.UntypedNeverSurvives` | obfs.go:153-231 | no keystream at all lets a packet of no known type and at least 32 bytes through |
| `Obfs.RoundTripExactly` | obfs.go:81-231 | a packet survives every trip for which its buffer has room if and only if it is restorable |
| `Obfs.PlainPasses` | obfs.go:157-164 | the receiver leaves a packet alone if and only if it is shorter than 32 bytes or starts with a type 1 to 4 and three zero bytes |
| `Obfs.MaskAfterClearing` | obfs.go:166-228 | decoding the first block, clearing, and decoding the rest is the same as decoding all, then clearing |
| `Obfs.WireGuardObfuscator.ModifyHashMaskForWireGuardHeaderConflict` | obfs.go:257-262 | the fix-up in place |
| `Obfs.WireGuardObfuscator.XorBlock` | obfs.go:147-149 | one block is xored in place, stopping mid-block at the end of the masked part |
| `Obfs.WireGuardObfuscator.XorFrom` | obfs.go:138-150 | the blocked loop with its running digest is the pointwise keystream, from any block boundary |
| `Obfs.WireGuardObfuscator.MaskInPlace` | obfs.go:134-150 | the encoder's whole loop is the pointwise masking of the buffer |
| `Obfs.WireGuardObfuscator.IsAllZero` | obfs.go:89-98 | whether all bytes of a range are zero |
| `Obfs.WireGuardObfuscator.Prepare` | obfs.go:100-132 | the switch on the message type: new length, flag byte and random bytes |
| `Obfs.WireGuardObfuscator.Obfuscate` | obfs.go:81-151 | in place, the packet becomes its obfuscation when enabled and asked for; otherwise nothing changes |
| `Obfs.WireGuardObfuscator.Deobfuscate` | obfs.go:153-231 | in place, the packet becomes its decoding and gains the flag exactly when decoded; all early exits leave it as specified |
| `Obfs.WireGuardObfuscator.DecodeFirstBlock` | obfs.go:166-180 | the first eight bytes are decoded, and the digest is ready for the second block |
| `Obfs.WireGuardObfuscator.Unpack` | obfs.go:188-219 | length, flag byte and elided MAC2 are restored according to the decoded type |
| `Obfs.WireGuardObfuscator.DecodeRest` | obfs.go:221-228 | the remaining blocks are decoded with the digest carried on from the first |
| `Alloc.GenerateProxyIndex` | wgit.go:577-587 | the loop as written, for any stream of draws, returns what `Written` says: an occupied candidate never returns |
| `Alloc.GenerateProxyIndexRetesting` | wgit.go:577-587 | the loop with the lookup repeated on every turn |
| `Alloc.OccupiedNeverReturns` | wgit.go:583-585 | for an occupied candidate no stream of draws makes the written loop return |
| `Alloc.WrittenExactly` | wgit.go:577-587 | what the written loop returns: in normal mode a nonzero origin if it is free, and from 0, as always in debug mode, the first nonzero draw, taken or not |
| `Alloc.WrittenMeetsSpec` | wgit.go:577-587 | the written loop delivers a nonzero free index if and only if its candidate is unoccupied and nonzero, or zero and followed by a first nonzero draw that is unoccupied |
| `Alloc.WrittenSafeExactly` | wgit.go:577-587 | over all streams of draws: nothing the written loop can return is taken if and only if it never returns, or its candidate is nonzero, or the map is empty |
| `Alloc.RetestingMeetsSpec` | wgit.go:577-587 | a re-testing loop returns only free indices, and returns if and only if one is offered |
| `Alloc.RetestingExtendsWritten` | wgit.go:577-587 | where the written loop delivers, both deliver the same index |
| `Alloc.FreeExists` | wgit.go:577-587 | a map with fewer than 2^32-1 entries leaves a free index |
| `AsWritten.ReturnsExactly` | wgit.go:577-587 | in normal mode a nonzero origin is returned as it is if it is free, and never returned from otherwise |
| `AsWritten.NeverRenames` | wgit.go:383-451 | in every run with the allocator as written and nonzero indices, no session is ever renamed, against PRINCIPLES.md |
| `AsWritten.WrittenRunIsGood` | wgit.go:409-412 | along such a run every allocation meets the specification, so that the theorems about good runs apply to the program as written |
| `AsWritten.WrittenRunIsWeak` | wgit.go:409-412 | with any number of responses per peer, and restarts from files that agree with themselves, it is a run in which the allocator delivers and the weak invariant holds |
| `AsWritten.TransportUnrenamed` | wgit.go:290-291 | transport packets then leave with the receiver they came with |
| `AsWritten.FromTheStart` | wgit.go:128-150 | so for every run from the empty table, which with one response per peer keeps the full invariant without any assumption about the allocator |
| `AsWritten.ClashNeverRegisters` | wgit.go:409-412 | a client is registered if and only if its index is not in use |
| `Tables.DistinctPeers` | wgit.go:86-90 | under the invariant distinct keys hold distinct peers, and the server map holds exactly the replied peers of the client map |
| `Tables.InsertKeeps` | wgit.go:409-412 | registering under a free index keeps the invariant |
| `Tables.RespondKeeps` | wgit.go:428-447 | a response to a registered peer keeps the invariant if and only if it is its first |
| `Tables.FromClientFrame` | wgit.go:514-572 | a client packet changes no peer but the one under its receiver, of that one only the time and the client address, and neither map |
| `Tables.FromServerFrame` | wgit.go:514-545 | a server packet changes no peer but the one under its receiver, of that one only the time, and neither map |
| `Tables.ExpireExact` | wgit.go:589-606 | after a check both maps hold exactly the entries of peers active since the cutoff, unchanged, and the invariant holds |
| `Tables.ExpireTurn` | wgit.go:596-604 | one turn of the deleting loop completes the job for its key, whatever was deleted before, itself included |
| `Tables.ExpireOrderIrrelevant` | wgit.go:596-604 | whatever the iteration order, the loop that deletes while iterating is that filter, as long as every client key is its peer's own |
| `Tables.UpdateComplete` | wgit.go:608-619 | after an update every peer reachable through either map carries the new address, though only the client map is traversed |
| `Runs.StepKeeps` | wgit.go:221-242 | every lock region of every handler, expiry, update, save and restart keeps the invariant of table, handlers in flight and saved records |
| `Runs.RunKeeps` | wgit.go:221-242 | so does every interleaving of them, of any length |
| `Runs.Quiet` | wgit.go:477-619 | steps outside handshakes change of any peer only its time and addresses, and add no client key |
| `WeakRuns.WeakStepKeeps` | wgit.go:221-242 | what every step keeps when the allocator delivers, peers may be answered any number of times, and restarts load files whose records are equal where they share an index |
| `WeakRuns.WeakRunKeeps` | wgit.go:221-242 | so does every such run |
| `WeakRuns.GoodRunIsWeak` | wgit.go:428-447 | runs with one response per peer are among them |
| `AnyRuns.StepFrame` | wgit.go:383-619 | what any step at all may change about a peer: keys, generators, levels and its own index never, a pinned client address never, the obfuscation flag only by its own handler, the server address only by an update |
| `AnyRuns.RunOrderly` | wgit.go:409-411 | over every run whatsoever every client key is its peer's own, and only a peer's handler registers it |
| `AnyRuns.RunPins` | wgit.go:546-572 | over every run without restart, whatever the allocator and the servers do, a level-3 peer keeps its client address and a level-2 peer its client IP |
| `AnyRuns.RunLevels` | wgit.go:394-407 | over every run whatsoever no peer and no record carries a server level of its own |
| `AnyRuns.ServerPinned` | wgit.go:518-545 | in every run whatsoever from the empty table a server transport packet for a replied peer is forwarded if and only if it comes from the peer's current server address, and one for an unreplied peer from anywhere |
| `Activity.LastActiveExact` | wgit.go:436 | a peer's time is that of the last packet for it, accepted or not, and nothing else changes it |
| `Activity.TouchedStays` | wgit.go:598 | over every run a peer that got a packet since the cutoff is not expired |
| `Activity.NewStays` | wgit.go:407 | nor is one that was made since |
| `Activity.IdleExpires` | wgit.go:597-604 | and one that gets none is gone after the first check that looks back less far |
| `Activity.ClientVerdict` | server.go:37-59 | level 2 asks a client for its IP, level 3 for its address, any other level for nothing |
| `Activity.ServerVerdict` | wgit.go:516-545 | the same for servers, with level 0 as 3, and nothing asked before the response |
| `Activity.ClientDestExact` | wgit.go:568-571 | a client is where its last accepted packet came from, and nothing else moves it |
| `Activity.RoamingFollowed` | wgit.go:568-571 | over every run, from an accepted packet to the next one, responses, cookie replies and transport for the client go to where that packet came from |
| `AnyRuns.RunGenerators` | cache.go:80-81 | over every run each peer has the cookie generators of a new peer if this process made it, and the opposite ones if it was loaded |
| `AnyRuns.GeneratorsRestored` | cache.go:80-81 | in every run, saving and loading a peer restores its generators if and only if it had been loaded before or its two ends have the same key |
| `AnyRuns.RunDecided` | wgit.go:373-376 | over every run without restart the choice of a peer whose initiation was forwarded, or that was loaded, stays, and marks its responses, cookie replies and transport packets |
| `AnyRuns.ForwardedMarks` | wgit.go:267-270 | in every run all packets for the client of a forwarded initiation are marked exactly if it arrived obfuscated |
| `AnyRuns.UpdateReachesAll` | wgit.go:608-619 | over every run after an update, whoever is registered with an old address was extracted before it and registered after it; the server map, too, where no key has leaked |
| `AnyRuns.UpdateMissesExactly` | client.go:100-105 | until the next update a registered peer carries another address if and only if it was between extraction and registration at the time, with another address |
| `AnyRuns.UpdateMissesOne` | wgit.go:385-411 | a run in which that happens |
| `AnyRuns.FromTheStart` | wgit.go:128-150 | the starting conditions of these theorems hold of the empty table, and their consequences of every run from it |
| `ServerLevels.RefusedDespiteLevel` | wgit.go:404-405 | a packet that a configured server level would let pass and the peer refuses, for every level but 0 and 3 |
| `ServerLevels.RunHonours` | wgit.go:522-541 | in every run a replied peer honours a configured server level if and only if it is 0 or 3 |
| `ServerLevels.ConfiguredLevels` | server.go:133-138 | from configuration to validation: the peer keeps the decrypted key and the entry's client level, or the server's where it has none, and honours the server level found in the same way if and only if it is 0 or 3 |
| `Sessions.RestartRevives` | cache.go:157-167 | whatever the file holds, a session is live after loading it if and only if a usable record of it is followed by none that takes one of its keys |
| `Sessions.LivesOn` | wgit.go:383-619 | the exact list of steps that end a live session, for any allocator, any answers and any file: its client key is taken, its peer is answered anew, an answer takes its server key, a stale peer with its server key expires, or a restart does not revive it |
| `Sessions.EndsOnlyBy` | wgit.go:383-619 | where the allocator delivers, that is a further answer to its own peer, its own expiry, or a restart that does not revive it; answers to other peers never end it |
| `Sessions.RunLivesOn` | wgit.go:221-242 | over every run whatsoever nothing else ends a session |
| `Sessions.LiveTranslates` | wgit.go:290-298 | a live session is translated in both directions, to its own server and client, subject to source validation |
| `Sessions.InitiationShown` | wgit.go:284-298 | the server is shown the peer's client proxy index, patched or not |
| `Sessions.ResponseShown` | wgit.go:350-379 | the client is shown its own index and the server proxy index, patched or not, also with other steps in between |
| `Sessions.ResponseStarts` | wgit.go:428-447 | every matched response, the first or not, brings a session to life |
| `Sessions.SessionTransparency` | PRINCIPLES.md:74-101 | from a response on, and until the session ends, the response is forwarded with the names of the session, and packets carrying the names each end was shown leave with the names each end chose, over every run, restarts included, whatever happens to others |
| `Sessions.NonInterference` | wgit.go:383-619 | in every run whatsoever a step that neither handles a registered peer nor takes one of its keys leaves the peer and both its lookups as they are; an address update changes its server address only |
| `Sessions.ConcernsOnlyBy` | wgit.go:383-619 | where the allocator delivers, registrations, answers and expiry of others never concern a peer, further answers included |
| `Sessions.RunBinds` | wgit.go:546-572 | over every run, restarts included, a level-3 session keeps its client address and a level-2 session its client IP for as long as it lives |
| `Sessions.RunChooses` | wgit.go:267-270 | over every run, restarts included, a live session's obfuscation choice, and that of its saved copies, never changes |
| `Sessions.ObfuscationStable` | wgit.go:373-376 | once its initiation is forwarded, responses, cookie replies and transport packets for a client are marked for obfuscation exactly when it arrived obfuscated: up to the first restart without condition, and through restarts while the session lives |
| `Joining.HandshakeCompletes` | wgit.go:244-381 | the steps of a handshake, with any free names, make a good run that ends in a live session and spares every other |
| `Joining.EveryClientJoins` | PRINCIPLES.md:74-101 | from every state with room in the tables every client gets a session, whatever index it and its server choose and whoever else uses them, if the allocator delivers |
| `SecondResponse.SecondResponseLeaks` | wgit.go:437-439 | a further response, then expiry, leaves a server key whose peer is gone, from every state, however often peers were answered before |
| `SecondResponse.LeakIsPermanent` | wgit.go:589-606 | no later step of the running process removes such a key |
| `SecondResponse.LeakReachable` | wgit.go:437-439 | the situation is reached from the empty table by one initiation and two responses, with the allocator as written |
| `Takeover.DeadTakesOver` | cache.go:157-167 | if a client has taken the index of a leaked peer that is listed last in the file, then after the restart packets of its server go to the dead peer's address if both have the same server and are refused otherwise; where the addresses differ the file disagrees with itself |
| `Takeover.TakeoverFollows` | cache.go:98-167 | from every state with a leaked key a new client elsewhere, a save and a restart lead there, and nothing is sent to its address under its index |
| `Records.LoadGood` | cache.go:157-167 | distinct records become exactly the peers, each found under both its keys |
| `Records.SavedGood` | cache.go:103-113 | what is saved from a table with the invariant is distinct and complete |
| `Records.RecordExactly` | cache.go:31-49 | what the file says of a peer, entry by entry |
| `Records.ConsistentLoads` | cache.go:157-167 | a file whose records are equal where they share an index loads with the full invariant, repeated records and all |
| `Records.SavedConsistent` | cache.go:103-113 | every save of a table whose server keys lead to registered peers is such a file, however often peers were answered |
| `Records.LoadAfterSave` | cache.go:98-170 | for any iteration order, load after save is the table restricted to its replied peers and their current server keys, session by session, with the full invariant |
| `Records.LoadedDiffers` | cache.go:80-83 | whatever the file holds, loaded peers count as just active, and each generator holds the key of its own end |
| `Restarts.StepRelated` | wgit.go:477-575 | related tables answer a transport packet alike and stay related |
| `Restarts.BisimilarRuns` | wgit.go:477-575 | so for every sequence of transport packets |
| `Restarts.RestartUnobservable` | wgit.go:621-629 | a save and a restart are invisible to the transport traffic of replied sessions under their current names, however often their peers were answered |
| `Restarts.UnrepliedLost` | wgit.go:621-629 | a server packet fares differently after a restart if and only if it is for a registered but unreplied peer |
| `Restarts.OldNamesLost` | wgit.go:621-629 | a client packet fares differently after a restart if and only if it is for a name its peer had before a further answer, and the peer accepts it |
| `CacheJar.WGITCachePeer.FromWGITPeer` | cache.go:31-49 | the record of a peer |
| `CacheJar.WGITCachePeer.WGITPeer` | cache.go:51-88 | a new peer from a record, or an error exactly when an address is missing or unusable |
| `CacheJar.WGITCacheJar.Collect` | cache.go:103-113 | the loop collects one record for every server key, in some order |
| `CacheJar.WGITCacheJar.SaveLocked` | cache.go:98-134 | the file holds those records; it is untouched without a path or when it cannot be written |
| `CacheJar.WGITCacheJar.LoadLocked` | cache.go:136-170 | the loop adds the usable records to the table; nothing happens without a path, when skipping, or without a file |
| `Linearize.ClientIsAtomic` | wgit.go:500-572 | a client transport packet whose handling is interrupted by any handlers between lookup and end has the effect of one step: at the lookup if that fails, else at the end |
| `Linearize.ServerIsAtomic` | wgit.go:500-545 | the same for a server transport packet |
| `Handlers.ClientDataAgrees` | wgit.go:272-299 | on bytes, a client transport packet makes the transport step and changes only the receiver field, to the index the step emits |
| `Handlers.ServerDataAgrees` | wgit.go:364-379 | the same for a server transport packet |
| `Handlers.InitiationAgrees` | wgit.go:252-299 | on bytes, an initiation takes the extraction, registration and marking steps and shows the server what the forwarding step emits; no byte but the sender and the MACs may change |
| `Handlers.ResponseAgrees` | wgit.go:314-379 | on bytes, a response takes its two steps and shows the client what the second emits; no byte but the two indices and the MACs may change |
| `Handlers.CookieReplyAgrees` | wgit.go:325-379 | on bytes, a cookie reply takes its two steps, or is refused for one of three reasons, and changes only in its receiver |
| `Dispatch.ClientTransportHandled` | wgit.go:271-299 | whatever arrives from a client: a transport packet of a live session leaves for its server under the server's own name, no other byte changed, or is recycled if its source is refused |
| `Dispatch.ClientInitiationHandled` | wgit.go:252-299 | an initiation takes its steps, goes where its rule says under the name it got, with MACs made with the server's key if that is a new one |
| `Dispatch.ClientForwardedExactly` | wgit.go:251-300 | a client packet is forwarded, or stuck, if and only if it meets the stated conditions; every other type is recycled |
| `Dispatch.StuckExactly` | wgit.go:410 | a handler that is stuck in the allocator has made its peer, or noted the answer, and registered nothing |
| `Dispatch.ServerTransportHandled` | wgit.go:337-379 | a transport packet of a live session leaves for its client under the client's own name, no other byte changed, or is recycled if its source is refused |
| `Dispatch.ServerResponseHandled` | wgit.go:314-379 | a response takes its step and shows the client both names, with MACs made with the key its peer's generator has |
| `Dispatch.ServerCookieReplyHandled` | wgit.go:325-379 | an accepted cookie reply goes to the client under the sender of the peer's initiation |
| `Dispatch.ServerForwardedExactly` | wgit.go:310-380 | a server packet is forwarded, or stuck, if and only if it meets the stated conditions; every other type is recycled |
| `Wgit.Peer.FromRule` | wgit.go:394-407 | a new peer; the server level stays default |
| `Wgit.Peer.AcceptFromClient` | wgit.go:546-572 | validation of the client's source and roaming |
| `Wgit.Peer.AcceptFromServer` | wgit.go:516-545 | validation of the server's source, only once it has replied |
| `Wgit.WireGuardIndexTranslationTable.ProcessClientMessageInitiation` | wgit.go:383-419 | creation and registration in place make the pure steps, or the allocator does not return |
| `Wgit.WireGuardIndexTranslationTable.ProcessServerMessageResponse` | wgit.go:421-451 | the response in place makes the pure step on both maps and the shared peer |
| `Wgit.WireGuardIndexTranslationTable.ProcessServerMessageCookieReply` | wgit.go:453-475 | the lookup of a cookie reply, with its three refusals |
| `Wgit.WireGuardIndexTranslationTable.ProcessClientTransport` | wgit.go:477-575 | the client transport step in place |
| `Wgit.WireGuardIndexTranslationTable.ProcessServerTransport` | wgit.go:477-575 | the server transport step in place |
| `Wgit.WireGuardIndexTranslationTable.ExpireOne` | wgit.go:597-604 | one turn of the expiry loop |
| `Wgit.WireGuardIndexTranslationTable.HandlePeersExpireCheck` | wgit.go:589-606 | the loop that deletes while iterating makes the pure deletions in some order, and is the pure expiry where every client key is its own peer's |
| `Wgit.WireGuardIndexTranslationTable.HandleAllServerDestinationUpdate` | wgit.go:608-619 | the loop over shared peers is the pure update |
| `Wgit.WireGuardIndexTranslationTable.PatchInitiation` | wgit.go:284-289 | in place, the initiation becomes its translation |
| `Wgit.WireGuardIndexTranslationTable.PatchResponse` | wgit.go:350-363 | in place, the response becomes its translation |
| `Wgit.WireGuardIndexTranslationTable.HandleClientPacket` | wgit.go:244-301 | new table, bytes, destination and flags of every packet from a client, or recycling |
| `Wgit.WireGuardIndexTranslationTable.HandleServerPacket` | wgit.go:303-381 | new table, bytes, destination and flags of every packet from a server, or recycling |
| `ServerConfig.FaultUnique` | server.go:77-143 | the error reported for a configuration is determined by it |
| `ServerConfig.ReadyExactly` | server.go:127-140 | a level given for a peer overrides its server's, which holds where none is given |
| `ServerConfig.KeyExactly` | server.go:83-99 | the private key is given directly or by a readable file, never by both |
| `ServerConfig.ServerConfigServer.ResolveKey` | server.go:83-99 | a private key is in force exactly when given either directly or by a readable file, not both |
| `ServerConfig.ServerConfigServer.InitializePeer` | server.go:111-140 | one peer resolved and completed; a peer listed twice is unharmed |
| `ServerConfig.ServerConfigServer.InitializePeers` | server.go:101-141 | success if and only if there is at most one fallback and every address resolves; else the first fault |
| `ServerConfig.ServerConfigServer.Initialize` | server.go:77-143 | success if and only if the configuration is acceptable, then every entry has its address, its own or inherited levels and the server's public key; else the first fault in order |
| `Selection.Server.InitializeServers` | server.go:159-174 | all servers are initialised if and only if all configurations are acceptable |
| `Selection.Server.MatchServer` | server.go:235-247 | the first server whose key decrypts, if any |
| `Selection.Server.MatchPeer` | server.go:249-267 | the last entry with the key, else the last fallback, else nothing exactly when there is neither |
| `Selection.Server.ExtractPeer` | server.go:199-272 | a fresh copy of the chosen entry under the decrypted key, or the one error that applies |
| `Selection.ExtractsSomething` | server.go:230-272 | selection always has an outcome |
| `Selection.ExtractsUnique` | server.go:230-272 | and only one |
| `Selection.TheFallback` | server.go:103-109 | a fallback chosen from an acceptable configuration is the only one |
| `Selection.SelectionFromConfiguration` | server.go:101-272 | from configuration as written to extracted peer: the first decrypting server, its last entry with the key or else its only one without, the decrypted key, the server's public key, the resolved address, and each level the entry's own unless that is 0, then the server's |
| `TwoHop.DecodeSeesMessage` | obfs.go:153-231 | decoding does not depend on bytes left in the buffer beyond the datagram, unless the result is longer than the datagram |
| `TwoHop.LinkTransparent` | obfs.go:233-255 | over the wire into any other buffer a message arrives unchanged, marked exactly when obfuscated |
| `TwoHop.HandshakeLinks` | wgit.go:421-451 | the response mwgp-server shows makes mwgp-client record exactly the names mwgp-server uses |
| `TwoHop.Upstream` | client.go:72-76 | both hops together rewrite the receiver of a client packet once, and no other byte |
| `TwoHop.Downstream` | server.go:190-193 | both hops together rewrite the receiver of a server packet once, and no other byte, obfuscated in between or not |
| `TwoHop.TwoHopTransparency` | client.go:72-76 | so at the end of every pair of runs in which neither session ends |
| `Pool.Conserves` | wgit.go:176-250 | no step but obtaining and recycling changes how many hands a buffer is in |
| `Pool.StepKeeps` | wgit.go:631-638 | every step keeps one owner per buffer, one recycling per use, empty flags in the pool, and the channel bounds |
| `Pool.RunKeeps` | wgit.go:176-242 | so does every run |
| `Pool.FromTheStart` | wgit.go:152-174 | so from the start of the program |
| `Pool.ReuseIsSafe` | wgit.go:631-633 | a buffer obtained is in nobody else's hands, carries no flags, and was recycled as often as it was obtained |
| `Pool.LeavesByOtherSide` | wgit.go:298-299 | over every run what was read from one side leaves by the write channel of the other |
| `Pool.RunUnmarked` | wgit.go:373-376 | what came from a client is never marked for obfuscation by a handler |
| `Pool.MarkedAsTold` | wgit.go:373-376 | a packet is marked as it was read, and a packet for a client as its handler chose |
| `Pool.ReadMarkStays` | wgit.go:267-270 | what a packet was marked with when it was read stays until it is recycled |
| `Pool.ReadInOrder` | wgit.go:221-234 | the read channels keep the order: what went in is what came out, followed by what is inside |
| `Pool.WriteInOrder` | wgit.go:202-219 | so do the write channels |
| `Pool.Progress` | wgit.go:202-242 | while a packet is in flight some step needing no arrival is enabled, even with full channels |
| `Pool.InternalShrinks` | wgit.go:202-242 | each such step brings packets closer to the pool |
| `Pool.Drains` | wgit.go:202-242 | runs of such steps are bounded, and none is left exactly when every packet is back |

## Left out

- UDP sockets, DNS and the resolvers, the client's polling loop, timers and sleeps: only the values they deliver.
- Curve25519, BLAKE2s, ChaCha20-Poly1305, SHA-256, xxHash and the cookie generators: arbitrary functions; of a generator only the key that initialised it is kept.
- JSON, base64 and file names: the cache file is a sequence of records whose addresses are present or not. The all-zero public key, encoded as null (noise-helpers.go:44-48), is not modelled.
- Parsing of `forward_to` and equality of IPv4 and IPv6 forms of one address: an arbitrary resolver, and addresses compared by value.
- Secrecy, unobservability and the quality of randomness: random draws are arbitrary.
- Logging, the command line, configuration wiring and release scripts: no properties.
- A transport packet is one step of a run. `Linearize` shows that handlers between its lookup and its end make no difference; its end - refresh, validation and patching - is taken as one step.
- A handler stuck in the allocator keeps the lock. The state machine does not contain such a handler; on bytes it is the outcome `Spin`.
- Obfs.WireGuardObfuscator.Obfuscate: requires a buffer with room for the obfuscated packet, which is 547 bytes for the longest padding of an initiation. The default is 65536; with too small a `max_packet_size` the source indexes out of range.
- Obfs.WireGuardObfuscator.Deobfuscate: requires a buffer of 148 bytes for a packet that is decoded, as it may decode as an initiation; below that the source may index out of range.
- AnyRuns.RunPins: does not follow a peer through a restart, where it becomes another object; `Sessions.RunBinds` follows the session instead.
- Sessions.RunBinds: requires that records of the session that are already in the file agree, and that it is not saved while a dead peer with the same four indices is still held.
- Sessions.ObfuscationStable: for the part after a restart has the same two conditions.
- Activity.RoamingFollowed: does not cover restarts, since the saved file may hold an earlier address.
- AnyRuns.UpdateReachesAll: does not cover restarts after the update, since the saved file may still hold the old address.
- TwoHop.TwoHopTransparency: is about transport messages with zero reserved bytes, as WireGuard sends them; `TwoHop.LinkTransparent` covers the other types.
- Selection.Server.InitializeServers: requires that no two servers share a peer entry, as is so after decoding a configuration.
- Pool.Progress: assumes that a handler in the allocator returns; the choice of a handler to drop or forward is arbitrary there.
