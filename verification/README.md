# A verified model of ezcap's pipeline

ezcap captures connection and DNS metadata, attributes it to browser navigations, redacts it under a policy
and delivers it to local subscribers. This project models the stateful and looping kernels of that pipeline in
Dafny 4.11 and proves what they promise, for every input and every run.

`dafny verify dfyconfig.toml` checks everything. Code that updates state in place is a class or a method with
loops; each such method is proved equal to a specification function, and the properties are lemmas about that
function.

| file | models |
|---|---|
| `Sha256.dfy`, `Sha256Facts.dfy`, `Sha256Example.dfy` | the streaming hash, against FIPS 180-4; its functions bit by bit and its constants from the primes; the standard's example |
| `DeliverQueue.dfy`, `DeliverWire.dfy` | the per-client outgoing queue under any number of threads; what its client reads |
| `Redactor.dfy`, `PolicyEngine.dfy`, `PolicyUpdates.dfy` | URL and DNS name redaction; the policy and its replacement at run time; overlapping replacements |
| `DnsName.dfy`, `PacketParser.dfy` | the two DNS name decoders; the Ethernet frame parser |
| `Correlator.dfy` | attribution over a bounded, pruned navigation history |
| `Daemon.dfy`, `DeliveryTiming.dfy` | the whole pipeline under any interleaving: correlate, redact, broadcast, store, count; broadcasts and policy changes |
| `Framing.dfy`, `NativeMessaging.dfy` | newline frames; length-prefixed messages |
| `Driver.dfy`, `EmitLimiter.dfy`, `Base64.dfy` | driver lifecycle, emit rate limit, base64 binding |
| `Descriptor.dfy`, `Specgen.dfy` | descriptor validation; names, versions and canonical order of endpoints |
| `EndpointTable.dfy`, `OpenApi.dfy`, `AsyncApi.dfy`, `SchemaBundle.dfy`, `SpecGeneration.dfy` | the three generated documents |
| `Common.dfy`, `Json.dfy`, `Events.dfy` | shared types |

## Main results

- **Hashing.** Any chunking of any input hashes to the FIPS 180-4 digest of the whole, and the object is as new
  afterwards (`Sha256Stream.DigestStreams`). The definition is itself proved: bit by bit (`SmallSigma0Bits` and its
  like), from the first 64 primes (`ConstantsAreRoots`) and on the published example (`DigestOfAbc`).
- **Delivery.** For any interleaving the overflow branch is reachable exactly with more than 1024 concurrent
  callers (`OverflowReachable`); every byte on the wire is accounted for (`ByteConservation`); the client's frames are
  delivered messages on every run exactly when the socket takes whole messages, or one thread delivers and no send fails
  midway (`WireWhole`), and in order exactly in the latter case (`WireOrder`).
- **Privacy.** After any sequence of policy documents a published URL carries no query or fragment and names and tabs
  are withheld under exact conditions (`PrivacyGuarantee`, `TabWithheldIff`); over every interleaving of captures,
  navigations, process lists and overlapping policy updates every broadcast or stored event is clean
  (`DaemonModel.EveryEventClean`).
- **Policy updates.** A document changes exactly the fields it names (`UpdateFrame`), and documents that name different
  fields commute (`DisjointDocumentsCommute`). A schedule of overlapping set_policy calls keeps every accepted document,
  whatever the documents say, exactly when no call stores over a policy newer than its copy
  (`PolicyUpdates.NothingLost`).
- **Attribution.** A capture broadcasts in every interleaving what the plain definition over the last 512 navigations
  says under the policy at its redaction (`DaemonModel.PipelineRefinesIdeal`); 30 seconds is the exact age up to which
  pruning is harmless (`PruningBound`).
- **Timing.** Whatever documents say and whatever names events carry, a broadcast obeys the policy in force at that
  moment exactly when no policy is stored between redaction and broadcast (`DeliveryTiming.BroadcastObeysIff`).
- **Parsing.** The userspace decoder accepts exactly the RFC 1035 encodings of permitted names (`UserNameMeans`),
  the kernel path agrees with it under an exact condition (`AgreementCondition`), and metadata never depends on a
  payload byte (`PayloadIndependence`).
- **Framing.** Every chunking of a stream succeeds exactly when its frames and tail are shorter than the limit
  (`AnyChunking`); native messages survive any pattern of short reads and writes (`NativeMessaging.RoundTrip`).
- **Drivers.** Faults, quarantine and total backoff over every run of calls (`DriverModel.Run`, `EndedForever`,
  `BackoffBound`, with a run that attains it); at most 2L emits in any second (`IntervalBound`, attained).
- **Spec generation.** No format's output depends on the order of endpoints (`OrderDoesNotMatter`); the OpenAPI
  document covers each endpoint once (`DocumentCoversBundle`), and its references lead to their own endpoints' schemas
  exactly when, for every call, the canonically last schema of each of its names is its own (`DocumentResolves`).

## Where code and documentation differ

The model follows the code.

- Scores are in hundredths. Time and host evidence add up to 30, below the attach threshold of 40, so only a process
  match attaches a tab (`ProcessDecides`). The expectation at tests/unit/test_correlator.cpp:94-97 and the band table
  in docs/privacy.md do not follow from the weights.
- docs/privacy.md says sensitive domains are excluded from capture entirely. The event is still published, without
  the name or the tab; an event is dropped only when it is not metadata-only (`PolicyEngine.Apply`).
- src/policy/policy_engine.hpp:27-30 says loosening documents are rejected. No document loosens below the defaults
  (`NeverLooserThanDefault`), but the policy in force can be loosened (`ClearingLoosens`, `ModeLoosens`); exclusions are
  kept exactly under the condition of `LooseningIff`.
- The redaction audit keeps the kinds of the last redaction call only, so a URL's audit can hide a DNS name's
  (`AuditForgets`); `AuditShowsName` says exactly when it does not.
- A URL is excluded by its whole authority. A sensitive host with a port, or behind user information, is published
  (`PortReveals`, `SensitivePortPublished`); `AuthorityExclusion` says exactly which authorities are excluded.
- Redaction of a URL ignores its query and fragment exactly when the first `://` lies before them (`QueryIndependence`).
- Overlapping set_policy calls can lose an accepted document (`LosingRun`), and an event redacted before a domain is
  listed can be broadcast after it (`LateListing`).
- A finished frame of exactly the limit is accepted and an unfinished one is not (`FrameAtTheLimit`).
- The UTF-8 loop accepts byte sequences RFC 3629 does not (`OverlongAccepted`).
- The kernel's name decoder accepts bytes the packet parser refuses (`DecodersDiffer`).
- A stopped driver is called spent at src/drivers/driver_engine.cpp:329 but loads again unless stopping ended it
  (`ReloadIff`).
- An oversized event is counted as emitted and as dropped (`OversizedCountsTwice`, `CountersAddUp`).
- The main loop stores the server's drop count over the daemon's own (`PollForgetsDrops`).
- The error text at src/specgen/model/descriptor.cpp:200 does not list `_` for namespaces; the code takes it. Schema
  names and operation identifiers leave the version out. Versions and namespaces can therefore clash
  (`TwoVersionsClash`, `TwoNamespacesClash`, `IdsUniqueMeans`).

## Model

| member | source | states |
|---|---|---|
| Sha256Spec.ZeroCountIsLeast | src/common/sha256.cpp:143-149 | the padding adds the least number of zero bytes that brings the length to 56 modulo 64 |
| Sha256Spec.PadIsWholeBlocks | src/common/sha256.cpp:140-157 | a padded message is a whole number of 64-byte blocks |
| Sha256Spec.BigEndianRoundTrip | src/common/sha256.cpp:150-157 | the big-endian length bytes read back as the number they were made from |
| Sha256Spec.LengthField | src/common/sha256.cpp:150-157 | the last eight padded bytes hold the message length in bits |
| Sha256Spec.PadIsInjective | src/common/sha256.cpp:140-157 | two messages below 2^61 bytes with the same padding are the same message |
| Sha256Spec.ScheduleWord | src/common/sha256.cpp:53-67 | every word of the schedule of every block: the block's own big-endian words, then the standard's recurrence |
| Sha256Facts.RotrBit | src/common/sha256.cpp:31-33 | bit i of a rotation by n is bit (i + n) mod 32 |
| Sha256Facts.SmallSigma0Bits | src/common/sha256.cpp:60-62 | bit i is the xor of bits i + 7 and i + 18 mod 32, and of bit i + 3 where there is one |
| Sha256Facts.SmallSigma1Bits | src/common/sha256.cpp:63-65 | bit i is the xor of bits i + 17 and i + 19 mod 32, and of bit i + 10 where there is one |
| Sha256Facts.BigSigma0Bits | src/common/sha256.cpp:83-84 | bit i is the xor of bits i + 2, i + 13 and i + 22 mod 32 |
| Sha256Facts.BigSigma1Bits | src/common/sha256.cpp:79-80 | bit i is the xor of bits i + 6, i + 11 and i + 25 mod 32 |
| Sha256Facts.ChBits | src/common/sha256.cpp:81-81 | each bit is that of the second word where the first has a one, else that of the third |
| Sha256Facts.MajBits | src/common/sha256.cpp:85-85 | each bit is the one at least two of the three words have |
| Sha256Facts.FirstPrimes | src/common/sha256.cpp:16-29 | the primes used are the first 64: they start at 2, increase, and no prime lies between two of them |
| Sha256Facts.ConstantsAreRoots | src/common/sha256.cpp:16-29 | the 64 round constants are the first 32 fractional bits of the cube roots of the first 64 primes |
| Sha256Facts.InitialIsRoots | src/common/sha256.cpp:37-49 | the initial hash value is that of the square roots of the first eight |
| Sha256Example.DigestOfAbc | src/common/sha256.cpp:37-166 | the digest of "abc" is the published one, through padding, schedule, rounds, addition and byte order |
| Sha256Stream.Hasher.constructor | src/common/sha256.cpp:37-49 | a new hasher has absorbed nothing and holds the initial hash value |
| Sha256Stream.Hasher.Reset | src/common/sha256.cpp:37-49 | reset leaves the object as a new one |
| Sha256Stream.Hasher.ExpandBlock | src/common/sha256.cpp:51-67 | the schedule loop computes the 64 words of the FIPS message schedule |
| Sha256Stream.Hasher.RunRounds | src/common/sha256.cpp:69-96 | the round loop computes 64 FIPS rounds from the current hash value |
| Sha256Stream.Hasher.ProcessBlock | src/common/sha256.cpp:51-106 | processing a block applies the FIPS compression function to the state, in place |
| Sha256Stream.Hasher.Update | src/common/sha256.cpp:108-138 | the three buffering stages together absorb exactly the given bytes, whatever was buffered before |
| Sha256Stream.Hasher.FillBuffer | src/common/sha256.cpp:108-138 | topping up the buffer consumes a prefix and either empties the buffer into the state or uses up the input |
| Sha256Stream.Hasher.TakeBlock | src/common/sha256.cpp:108-138 | a whole block taken directly from the input counts as absorbed |
| Sha256Stream.Hasher.CopyIn | src/common/sha256.cpp:108-138 | a remainder shorter than a block is buffered and counts as absorbed |
| Sha256Stream.Hasher.PadWithZeros | src/common/sha256.cpp:143-149 | the padding loop ends with the buffer at 56, having added 0x80 and the least number of zeros |
| Sha256Stream.Hasher.WriteWords | src/common/sha256.cpp:159-164 | the eight state words are written out big-endian |
| Sha256Stream.Hasher.Final | src/common/sha256.cpp:140-166 | the digest is SHA-256 of everything absorbed, and the object is fresh again |
| Sha256Stream.DigestChunks | src/common/sha256.cpp:108-166 | updating with each chunk and finishing gives SHA-256 of the concatenation, for any chunking |
| Sha256Stream.DigestStreams | src/common/sha256.cpp:37-166 | one object reused for a second stream gives both streams' digests |
| Sha256Stream.Digest | src/common/sha256.cpp:168-172 | the one-shot digest is SHA-256 of the text |
| Sha256Stream.HexDigest | src/common/sha256.cpp:174-185 | the text form is 64 digits, the hexadecimal of the digest |
| Sha256Stream.HexAt | src/common/sha256.cpp:174-185 | each byte is spelled by two lower-case digits of its value, the high one first |
| Sha256Stream.HexIsInjective | src/common/sha256.cpp:174-185 | different digests have different text forms |
| DeliverQueue.OutQueue.Push | src/ipc/unix_socket_server.cpp:327-335 | the first critical section queues one newline-ended message, or empties a full queue and counts one drop |
| DeliverQueue.OutQueue.Swap | src/ipc/unix_socket_server.cpp:339-343 | the second critical section takes the whole queue and leaves it empty |
| DeliverQueue.QueueBound | src/ipc/unix_socket_server.cpp:325-350 | in every reachable state the queue is no longer than the number of threads between push and swap |
| DeliverQueue.NoOverflow | src/ipc/unix_socket_server.cpp:329-333 | with at most 1024 threads no run takes the overflow branch |
| DeliverQueue.OverflowHappens | src/ipc/unix_socket_server.cpp:329-333 | with more, a burst of pushes takes it and loses 1024 queued messages |
| DeliverQueue.OverflowReachable | src/ipc/unix_socket_server.cpp:329-333 | the overflow branch is reachable if and only if there are more than 1024 threads |
| DeliverQueue.Conservation | src/ipc/unix_socket_server.cpp:325-350 | removed batches in order, followed by the queue, are the accepted messages in push order |
| DeliverQueue.EveryMessageAccountedFor | src/ipc/unix_socket_server.cpp:325-350 | each accepted message is sent to its end, in a thread's hands, in the queue, abandoned or discarded, as often as accepted |
| DeliverQueue.NothingStranded | src/ipc/unix_socket_server.cpp:325-350 | when no thread is inside deliver the queue is empty |
| DeliverQueue.AllAccepted | src/ipc/unix_socket_server.cpp:325-350 | with at most 1024 threads every offered message is accepted, and none is abandoned or cut off unless a send fails |
| DeliverQueue.DeliveredExactlyOnce | src/ipc/unix_socket_server.cpp:325-350 | with at most 1024 threads and no failed send, every offered message is sent to its end exactly as often as offered |
| DeliverQueue.RunSound | src/ipc/unix_socket_server.cpp:23-35 | in every reachable state a sending thread is partway through a message or finished, so it can always go on |
| DeliverQueue.ByteConservation | src/ipc/unix_socket_server.cpp:23-35 | the bytes on the wire are those of messages sent to their end, of parts of messages being sent, and of parts a failed send cut off |
| DeliverWire.ClientReads | src/ipc/unix_socket_server.cpp:344-349 | whole lines followed by part of one are read as those lines and that part |
| DeliverWire.ReadsWell | src/ipc/unix_socket_server.cpp:325-350 | under the condition of WireWhole the frames read are exactly the messages sent to their end, in sending order |
| DeliverWire.UnbrokenRun | src/ipc/unix_socket_server.cpp:23-35 | with a socket that takes whole messages the wire is their concatenation, for any number of threads |
| DeliverWire.SoloRun | src/ipc/unix_socket_server.cpp:325-350 | with one thread and no failure midway the wire is whole messages and a piece, in acceptance order |
| DeliverWire.OvertakingReorders | src/ipc/unix_socket_server.cpp:336-349 | with two threads a run puts two messages on the wire in the wrong order, whatever the socket |
| DeliverWire.InterleavingMixes | src/ipc/unix_socket_server.cpp:23-35 | with two threads and partial sends a run mixes two messages into a frame that was never delivered |
| DeliverWire.CuttingOffMerges | src/ipc/unix_socket_server.cpp:344-349 | with one thread a send failing midway merges two messages into one frame |
| DeliverWire.WireWhole | src/ipc/unix_socket_server.cpp:325-350 | every frame read in every run is a delivered message if and only if the socket takes whole messages, or there is at most one thread and no failure midway |
| DeliverWire.WireOrder | src/ipc/unix_socket_server.cpp:325-350 | the client reads delivered messages in acceptance order in every run if and only if there is no thread, or one and no failure midway |
| DeliverWire.ClientGetsAll | src/ipc/unix_socket_server.cpp:325-350 | under that condition, without failures, the client reads every offered message exactly as often, and from one thread in order |
| RedactorModel.ComputeHash | src/policy/redactor.cpp:17-27 | the loop computes the 64-bit FNV-1a hash as 16 hexadecimal digits |
| RedactorModel.FnvValues | src/policy/redactor.cpp:17-27 | the published FNV-1a values of three texts |
| RedactorModel.HashOfA | src/policy/redactor.cpp:17-27 | the 16 digits of one of them, most significant first |
| RedactorModel.UnderDomainMeans | src/policy/redactor.cpp:42-48 | the suffix test holds exactly for the domain itself and its subdomains |
| RedactorModel.ExcludedMeans | src/policy/redactor.cpp:54-61 | a name is excluded exactly when some listed domain, or a listed domain behind labels and a dot, has the same code points but for ASCII case |
| RedactorModel.LowerIdentifies | src/policy/redactor.cpp:30-39 | lowering identifies exactly the texts that agree but for a capital and the letter 32 above it |
| RedactorModel.MaskEndMeans | src/policy/redactor.cpp:69-77 | masking ends at the last dot but one, or at the only dot, and nowhere without dots |
| RedactorModel.MaskAt | src/policy/redactor.cpp:63-86 | masking keeps the length and replaces exactly the characters before the registrable part, the first excepted |
| RedactorModel.MaskIsIdempotent | src/policy/redactor.cpp:63-86 | masking twice is masking once |
| RedactorModel.MaskReveals | src/policy/redactor.cpp:63-86 | two hosts have the same mask exactly when they share boundary, length, first character and text from the boundary |
| RedactorModel.Redactor.constructor | src/policy/redactor.cpp:52-52 | a redactor starts with the given policy and an empty audit |
| RedactorModel.Redactor.Redact | src/policy/redactor.cpp:88-155 | redaction of a URL and its audit, against the specification the lemmas below are about |
| RedactorModel.StripMeans | src/policy/redactor.cpp:106-120 | stripping cuts at the first mark the policy strips and nowhere else, for every pair of flags |
| RedactorModel.UrlAuditMeans | src/policy/redactor.cpp:100-151 | each kind is in the audit of a URL exactly under its condition |
| RedactorModel.Redactor.RedactName | src/policy/redactor.cpp:157-187 | redaction of a DNS name and its audit |
| RedactorModel.RedactedUrlIsClean | src/policy/redactor.cpp:88-155 | with both strip flags set no redacted URL, in any mode, contains a query or fragment mark |
| RedactorModel.DnsNameWithheld | src/policy/redactor.cpp:157-187 | a redacted DNS name is empty if and only if it was empty or is excluded |
| RedactorModel.DnsNameShown | src/policy/redactor.cpp:157-187 | what is shown of any other name in each mode, the masked form character by character |
| RedactorModel.DnsAuditMeans | src/policy/redactor.cpp:157-187 | each kind is in the audit of a name exactly under its condition |
| RedactorModel.QueryIndependence | src/policy/redactor.cpp:88-155 | redaction depends only on the part before query and fragment, in every stripping policy, if and only if the first scheme mark lies there |
| RedactorModel.QueryDecides | src/policy/redactor.cpp:88-155 | for every other URL the hashing mode lets the query change the result |
| RedactorModel.ShapeOfResult | src/policy/redactor.cpp:100-155 | what each mode leaves of scheme, host and path |
| RedactorModel.AuthorityExclusion | src/policy/redactor.cpp:93-104 | an authority is excluded exactly when it has no port and its host is excluded, behind user information as a proper subdomain, or by a domain or port that is no name |
| RedactorModel.UrlWithheld | src/policy/redactor.cpp:88-155 | a URL is redacted to nothing exactly when its authority is excluded or nothing but query and fragment was there |
| RedactorModel.PortReveals | src/policy/redactor.cpp:93-104 | a sensitive host that is published with a port, and one behind user information |
| RedactorModel.KeepsExclusionsIff | src/policy/redactor.cpp:54-61 | one list excludes all that another does exactly when it excludes each of its domains |
| PolicyEngineModel.PolicyEngine.constructor | src/policy/policy_engine.cpp:10-16 | a new engine strips query and fragment, keeps nothing on disk and retains for seven days |
| PolicyEngineModel.PolicyEngine.Apply | src/policy/policy_engine.cpp:23-68 | an event is dropped if and only if it is not metadata-only; otherwise name and URL are redacted and the change is reported |
| PolicyEngineModel.PolicyEngine.UpdateFromJson | src/policy/policy_engine.cpp:70-157 | a document is accepted exactly when well formed; an update nothing overlaps replaces what it names, and a rejected one changes nothing |
| PolicyEngineModel.PolicyEngine.Build | src/policy/policy_engine.cpp:82-152 | between the sections the new policy is made from the copy, or the document refused |
| PolicyEngineModel.PolicyEngine.ReadRedaction | src/policy/policy_engine.cpp:90-123 | the redaction part: mode and domain list, or rejection |
| PolicyEngineModel.PolicyEngine.ReadDomains | src/policy/policy_engine.cpp:108-122 | at most 256 strings of at most 253 bytes, in order, or rejection |
| PolicyEngineModel.PolicyEngine.ReadPersistence | src/policy/policy_engine.cpp:125-152 | the persistence part: flag and retention between a minute and a year, or rejection |
| PolicyEngineModel.AcceptableIff | src/policy/policy_engine.cpp:82-152 | the accepted documents, key by key, with their bounds |
| PolicyEngineModel.UpdateFrame | src/policy/policy_engine.cpp:76-156 | every field: as it was when the document does not name its key, else what the document says; the other fields never change |
| PolicyEngineModel.UpdatedIs | src/policy/policy_engine.cpp:76-156 | that determines the new policy |
| PolicyEngineModel.DisjointDocumentsCommute | src/policy/policy_engine.cpp:70-157 | two accepted documents that name different keys give the same policy in either order |
| PolicyEngineModel.LaterDocumentWins | src/policy/policy_engine.cpp:70-157 | a document that names every key of an earlier one leaves no trace of it |
| PolicyEngineModel.ModeTable | src/policy/redactor.cpp:191-223 | the five mode names, no two alike |
| PolicyEngineModel.AppliedTouchesOnly | src/policy/policy_engine.cpp:23-68 | applying a policy changes the DNS name, the tab's URL or the tab, and the audit; everything else is kept and the flag tells whether anything changed |
| PolicyEngineModel.ReachablePolicyIsSound | src/policy/policy_engine.cpp:10-157 | after any sequence of documents both strip flags are set and all bounds hold |
| PolicyEngineModel.PrivacyGuarantee | src/policy/policy_engine.cpp:23-68 | after any documents, for any event: a clean URL, a DNS name withheld exactly when empty or sensitive, a tab withheld exactly when its authority is excluded or its URL vanishes |
| PolicyEngineModel.SoundIsPrivate | src/policy/policy_engine.cpp:23-68 | the same of any policy within the bounds, however it came about |
| PolicyEngineModel.TabWithheldIff | src/policy/policy_engine.cpp:48-59 | the tab is withheld exactly under the port and user-information condition on the visited host |
| PolicyEngineModel.SensitivePortPublished | src/policy/policy_engine.cpp:48-59 | a reachable policy that lists a host publishes a visit to it with a port |
| PolicyEngineModel.LooseningIff | src/policy/policy_engine.cpp:108-122 | a document keeps every exclusion exactly when it brings no list, or one on which each domain listed before is or is under one |
| PolicyEngineModel.ClearingLoosens | src/policy/policy_engine.cpp:108-122 | an accepted document that empties the list and loosens exclusion |
| PolicyEngineModel.ModeLoosens | src/policy/policy_engine.cpp:96-107 | an accepted document after which the path of every visit is published again |
| PolicyEngineModel.NeverLooserThanDefault | src/policy/policy_engine.cpp:70-157 | what any reachable policy publishes of a URL is determined by what the default does, exactly when the first scheme mark is not in its query or fragment |
| PolicyEngineModel.AuditShowsName | src/policy/policy_engine.cpp:61-65 | exactly when the audit shows what was done to a DNS name |
| PolicyEngineModel.AuditForgets | src/policy/policy_engine.cpp:61-65 | a withheld name the audit does not show |
| PolicyEngineModel.ModeNameRoundTrip | src/policy/redactor.cpp:191-223 | every mode is read back from its name |
| PolicyEngineModel.ExportRoundTrip | src/policy/policy_engine.cpp:159-177 | an exported policy is accepted by any engine with reachable bounds and then held by it |
| PolicyEngineModel.PolicyReplication | src/policy/policy_engine.cpp:70-177 | any reachable engine takes any other's exported document and then holds exactly its policy |
| PolicyUpdates.EveryInterleavingIsSound | src/policy/policy_engine.cpp:70-157 | however updates overlap, the policy and every copy of it keep strip flags and bounds |
| PolicyUpdates.NoneStaleIsSerial | src/policy/policy_engine.cpp:76-156 | without a stale store the policy is that of the stored documents one after the other |
| PolicyUpdates.StaleLoses | src/policy/policy_engine.cpp:76-156 | every schedule with a stale store has documents of which it loses one |
| PolicyUpdates.NothingLost | src/policy/policy_engine.cpp:76-156 | a schedule keeps every accepted document, whatever the documents say, if and only if none of its stores is stale |
| PolicyUpdates.LosingRun | src/policy/policy_engine.cpp:76-156 | two accepted documents after which the sensitive domain of one is gone |
| PolicyUpdates.QuietKeepsPolicy | src/policy/policy_engine.cpp:154-156 | without a store the policy stays what it was |
| PolicyUpdates.NoisyChanges | src/policy/policy_engine.cpp:154-156 | every schedule with a store has documents for which the policy before and after it differ |
| DnsName.WalkMeans | src/capture/packet_parser.cpp:24-58 | the label walk ends in labels if and only if the span starts with their RFC 1035 encoding |
| DnsName.LabelCount | src/capture/packet_parser.cpp:28-28 | a name below 253 bytes has at most 126 labels, so the guard of 128 never decides |
| DnsName.ParseQname | src/capture/packet_parser.cpp:24-58 | the loop returns the specified name or nothing |
| DnsName.UserNameMeans | src/capture/packet_parser.cpp:24-58 | the result is a non-empty name exactly when the span starts with an encoding of permitted labels whose dotted join it is |
| DnsName.PermittedIs | src/capture/packet_parser.cpp:45-50 | the permitted bytes are ASCII letters, digits, hyphen, underscore and dot |
| DnsName.TwoLabels | src/capture/packet_parser.cpp:39-55 | two labels on the wire, each behind its length, and joined by a dot |
| DnsName.WalkLooksNoFurther | src/capture/packet_parser.cpp:24-58 | the walk depends on no byte past the terminator it stops at |
| DnsName.ExtentOfName | src/capture/packet_parser.cpp:24-58 | for a finished name that is exactly the length of its encoding |
| DnsName.CopyQname | ebpf/src/dns.bpf.c:47-85 | the kernel loop stays within its 253-byte buffer and leaves the dotted name with its terminator, or fails |
| DnsName.CopyLabel | ebpf/src/dns.bpf.c:68-81 | one label is appended with its dot, or the copy fails, exactly when the name would reach the buffer's size |
| DnsName.BoundedString | src/capture/ebpf/ebpf_events.cpp:22-28 | the counting loop returns everything before the first NUL within the bound |
| DnsName.KernelPath | src/capture/ebpf/ebpf_events.cpp:96-99 | kernel copy, reported length and bounded copy together give the specified name |
| DnsName.DecodersAgree | ebpf/src/dns.bpf.c:145-159 | where the userspace decoder finds a name, the kernel path finds it on any span, shorter or longer than what was captured, if and only if the span reaches the name's terminator |
| DnsName.CapNeverDecides | ebpf/src/dns.bpf.c:152-153 | the 512-byte cap never keeps the kernel path from a name |
| DnsName.AgreementCondition | ebpf/src/dns.bpf.c:47-85 | on any span the two paths agree if and only if the walk is malformed, too long, empty, NUL-led, or finished and permitted |
| DnsName.DecodersDiffer | ebpf/src/dns.bpf.c:47-85 | a span whose name only the kernel path reports |
| PacketParser.ParseEthernetFrame | src/capture/packet_parser.cpp:78-168 | every read is in bounds for every frame, and the result is the specified metadata |
| PacketParser.ParseTransport | src/capture/packet_parser.cpp:123-167 | the transport part depends on the segment alone |
| PacketParser.PayloadIndependence | src/capture/packet_parser.cpp:78-168 | two frames of equal length that agree on the metadata extent give the same metadata |
| PacketParser.ExtentIs | src/capture/packet_parser.cpp:78-168 | that extent ends with the ports, or with the terminator of the question name |
| PacketParser.Frame4RoundTrip | src/capture/packet_parser.cpp:89-104 | every IPv4 frame of type 0x0800 with any options yields its addresses and the metadata of its TCP (6) or UDP (17) segment, or the addresses alone |
| PacketParser.Frame6RoundTrip | src/capture/packet_parser.cpp:105-118 | every IPv6 frame of type 0x86DD yields its addresses and the metadata of its TCP (6) or UDP (17) segment, or nothing |
| PacketParser.DnsRoundTrip | src/capture/packet_parser.cpp:134-163 | every DNS datagram built from ports, header fields and labels is read back: ports, name and response code |
| PacketParser.TcpRoundTrip | src/capture/packet_parser.cpp:123-133 | every TCP segment of at least 20 bytes yields its ports, a shorter one nothing |
| PacketParser.UdpRoundTrip | src/capture/packet_parser.cpp:134-166 | every datagram on ports other than 53, or with fewer than 12 payload bytes, yields its ports and no name or code |
| PacketParser.DnsWithoutName | src/capture/packet_parser.cpp:147-163 | every port-53 datagram without questions, or whose first name is refused, yields ports and response code and no name |
| PacketParser.ShortSegment | src/capture/packet_parser.cpp:123-138 | a segment shorter than its header yields the addresses alone |
| PacketParser.NoNetworkLayer | src/capture/packet_parser.cpp:81-121 | a frame of another type or too short for its header yields nothing |
| CorrelatorModel.Score | src/attribution/confidence.cpp:12-45 | scores lie in 0..100, reach 90 only on the browser's own word, and stay at 69 for packet capture |
| CorrelatorModel.ScoreTable | src/attribution/confidence.cpp:12-45 | the score of every combination of evidence |
| CorrelatorModel.ProcessDecides | src/attribution/confidence.cpp:19-45 | without the browser's word the attach threshold is reached exactly on a process match |
| CorrelatorModel.BestMatchMeans | src/attribution/correlator.cpp:63-93 | the search finds the one navigation within ten seconds that has the event's host if any has, then is nearest in time, then was recorded first |
| CorrelatorModel.HostMatchShows | src/attribution/correlator.cpp:117-121 | the recomputed host match holds exactly when some eligible navigation has the host |
| CorrelatorModel.Correlator.RecordNavigation | src/attribution/correlator.cpp:44-50 | the last 512 observations are kept |
| CorrelatorModel.Correlator.IsBrowserProcess | src/attribution/correlator.cpp:57-61 | the search finds exactly the listed processes |
| CorrelatorModel.Correlator.BestMatch | src/attribution/correlator.cpp:63-93 | the loop computes the specified best navigation |
| CorrelatorModel.Correlator.PruneOld | src/attribution/correlator.cpp:108-113 | exactly the leading run of observations older than 40 seconds is removed |
| CorrelatorModel.Correlator.Correlate | src/attribution/correlator.cpp:95-143 | network events are pruned for, scored and given a tab; others pass unchanged |
| CorrelatorModel.AttachedIff | src/attribution/correlator.cpp:95-143 | a tab is attached if and only if the process is a browser's and a navigation within ten seconds exists, and its six fields are those of the best one |
| CorrelatorModel.CorrelationTouchesOnly | src/attribution/correlator.cpp:95-143 | correlation changes confidence and tab of network events and nothing else |
| CorrelatorModel.ConfidenceIs | src/attribution/correlator.cpp:117-127 | the confidence as a number for each combination of evidence: 70 or 69, 52, 40, 30, 12 or 0 |
| CorrelatorModel.RetainedIsSuffix | src/attribution/correlator.cpp:44-50 | after any run the retained navigations are a suffix of the history, at most 512 long |
| CorrelatorModel.RemovedIsOld | src/attribution/correlator.cpp:95-115 | what is missing of the last 512 is older than 40 seconds, under a clock that does not run backwards |
| CorrelatorModel.PruningIsHarmless | src/attribution/correlator.cpp:95-115 | for events up to 30 seconds old the pruned search answers as the search over the last 512 |
| CorrelatorModel.OlderEventsDisagree | src/attribution/correlator.cpp:95-115 | an event one tick older for which pruning loses the match |
| CorrelatorModel.PruningBound | src/attribution/correlator.cpp:63-115 | pruning is harmless on all runs for events up to an age if and only if that age is at most 30 seconds |
| CorrelatorModel.CapIsHarmlessIff | src/attribution/correlator.cpp:44-50 | keeping only the last 512 finds the same navigation as keeping all if and only if the best dropped one, if any is eligible, is the one kept or loses to it |
| DaemonModel.Daemon.constructor | src/daemon/daemon.cpp:30-30 | the pipeline starts with nothing recorded, the default policy and zero counts |
| DaemonModel.Daemon.OnCaptureEvent | src/daemon/daemon.cpp:259-284 | a capture nothing overlaps is its five steps one after the other |
| DaemonModel.Daemon.LookUp | src/attribution/correlator.cpp:95-103 | a capture is counted and its process looked up; other than network events skip correlation |
| DaemonModel.Daemon.FindMatch | src/attribution/correlator.cpp:105-143 | old navigations are pruned, the best one found and the event attributed |
| DaemonModel.Daemon.ApplyPolicy | src/daemon/daemon.cpp:265-270 | the policy in force is applied, and the event dropped or kept in its redacted form |
| DaemonModel.Daemon.BroadcastEvent | src/daemon/daemon.cpp:274-276 | subscribers get the redacted event, whatever the policy is by then |
| DaemonModel.Daemon.StoreEvent | src/daemon/daemon.cpp:277-283 | storage gets the same event; a refusal is a counted drop |
| DaemonModel.Daemon.RecordNavigation | src/daemon/daemon.cpp:412-414 | a navigation changes the history and nothing else |
| DaemonModel.Daemon.SetBrowserProcesses | src/daemon/daemon.cpp:416-419 | a process list changes the list and nothing else |
| DaemonModel.Daemon.BeginSetPolicy | src/daemon/daemon.cpp:383-394 | a client's document is answered as the engine decides, and its draft made from a copy of the policy |
| DaemonModel.Daemon.FinishSetPolicy | src/daemon/daemon.cpp:383-397 | the draft is stored over whatever the policy is by then |
| DaemonModel.Daemon.PollServer | src/daemon/daemon.cpp:249-252 | the server's drop count replaces the daemon's |
| DaemonModel.StateFollows | src/daemon/daemon.cpp:259-284 | after any interleaving, policy updates, process list and retained navigations each depend on their own inputs only |
| DaemonModel.PolicyFollows | src/daemon/daemon.cpp:383-397 | the policy in force is that of the stored documents in order whenever no store is stale |
| DaemonModel.PipelineRefinesIdeal | src/daemon/daemon.cpp:259-284 | in every interleaving a capture is broadcast as the definition says over the processes at its start, the last 512 navigations at its match and the policy at its redaction, for network events up to 30 seconds old |
| DaemonModel.StoreGetsTheSame | src/daemon/daemon.cpp:277-283 | in every interleaving storage is then offered that same event, it is published once, and a refusal counts one drop |
| DaemonModel.NonMetadataIsDropped | src/daemon/daemon.cpp:265-270 | an event that is not metadata-only is counted as dropped and reaches neither subscribers nor storage |
| DaemonModel.EveryEventClean | src/daemon/daemon.cpp:265-282 | over every interleaving every broadcast or stored event is metadata-only, has a clean URL and a capped confidence, and with a server running storage holds only events also broadcast |
| DaemonModel.EveryPublicationPrivate | src/daemon/daemon.cpp:262-270 | after any interleaving a correlated event comes out with name and tab withheld exactly as PrivacyGuarantee says |
| DeliveryTiming.BroadcastShows | src/daemon/daemon.cpp:265-276 | whatever happens in between, a broadcast shows the event under the policy at its redaction |
| DeliveryTiming.BroadcastObeysIff | src/daemon/daemon.cpp:265-276 | whatever the documents say and the events are named, a broadcast obeys the policy in force at that moment if and only if no policy is stored between redaction and broadcast |
| DeliveryTiming.NoisyDisobeys | src/daemon/daemon.cpp:265-276 | for every timetable with a store in between, documents and names for which the broadcast disobeys |
| DeliveryTiming.LateListing | src/daemon/daemon.cpp:265-276 | a run in which a domain is listed and its name broadcast afterwards |
| DaemonModel.EveryCaptureCounted | src/daemon/daemon.cpp:259-284 | every capture seen is under way, published or lost to policy; broadcasts are the publications and the captures still to be stored, and publications are stored or refused; without polls the drop count is the losses |
| DaemonModel.PollForgetsDrops | src/daemon/daemon.cpp:249-252 | the drop count is the sum of server drops and daemon losses if and only if the daemon lost nothing before the last poll |
| Framing.JoinSplit | src/ipc/ipc_codec.cpp:260-285 | frames rejoined with newlines, followed by the tail, are the stream |
| Framing.SplitJoin | src/ipc/ipc_codec.cpp:260-285 | newline-free frames and tail are split back out of their join |
| Framing.SplitExtend | src/ipc/ipc_codec.cpp:260-285 | more bytes continue the tail and leave earlier frames alone |
| Framing.SplitFrames | src/ipc/ipc_codec.cpp:260-285 | success exactly when every frame is within the limit and the tail below it; the frames before an oversized one; the buffer untouched when a frame is too long |
| Framing.ExtractFrames | native_host/src/daemon_client.cpp:21-32 | the host's loop returns all frames and keeps the tail |
| Framing.ReceiveLoop | src/ipc/unix_socket_server.cpp:239-267 | the receive loop accumulates frames over chunks and stops at the first framing error |
| Framing.ChunkingDoesNotMatter | src/ipc/unix_socket_server.cpp:239-267 | whenever a chunking succeeds it gives the frames and tail of the whole stream |
| Framing.ShortNeverBreaks | src/ipc/ipc_codec.cpp:260-285 | a stream of frames and tail below the limit succeeds under any chunking |
| Framing.BytewiseNeedsShort | src/ipc/ipc_codec.cpp:279-283 | a stream that succeeds byte by byte has frames and tail below the limit |
| Framing.AnyChunking | src/ipc/ipc_codec.cpp:260-285 | all chunkings succeed if and only if frames and tail are below the limit |
| Framing.FrameAtTheLimit | src/ipc/ipc_codec.cpp:269-283 | a frame of exactly the limit passes under every chunking that ends with its newline and last bytes together, and breaks under every one that cuts before the newline |
| Framing.SplittersAgree | native_host/src/daemon_client.cpp:21-32 | the daemon's splitter succeeds exactly when the host's frames and tail are within bounds, and then gives the same; both rejoin to the buffer |
| NativeMessaging.PrefixRoundTrip | native_host/src/message_writer.cpp:17-23 | the little-endian prefix is read back as the length |
| NativeMessaging.PrefixIsLittleEndian | native_host/src/message_writer.cpp:17-23 | the four bytes weigh 1, 256, 65536 and 16777216 |
| NativeMessaging.PartsAre | native_host/src/message_reader.cpp:57-86 | the loop's decomposition is the only one into lead bytes with their continuations |
| NativeMessaging.WellFormedMeans | native_host/src/message_reader.cpp:57-86 | a text is UTF-8 by RFC 3629 exactly when that decomposition exists and each part is a valid character |
| NativeMessaging.ShapedMeans | native_host/src/message_reader.cpp:57-86 | the parts the loop steps over, by byte ranges |
| NativeMessaging.Utf8CharMeans | native_host/src/message_reader.cpp:57-86 | the RFC 3629 grammar gives exactly the encodings of the Unicode scalar values |
| NativeMessaging.OverlongAccepted | native_host/src/message_reader.cpp:57-86 | two bytes the loop accepts that are not UTF-8 |
| NativeMessaging.CheckUtf8 | native_host/src/message_reader.cpp:57-86 | the loop terminates and accepts exactly the decomposable texts |
| NativeMessaging.MessageWriter.Write | native_host/src/message_writer.cpp:11-42 | a fitting payload is written as one whole frame unless a write fails; any other is refused and writes nothing |
| NativeMessaging.MessageReader.ReadExact | native_host/src/message_reader.cpp:11-26 | exactly the asked bytes, under any short or interrupted reads, or failure |
| NativeMessaging.MessageReader.Read | native_host/src/message_reader.cpp:28-90 | the outcome is the one the waiting bytes determine, and a message is consumed whole |
| NativeMessaging.FirstMessageMeans | native_host/src/message_reader.cpp:28-90 | the outcome from the four length bytes and what follows: invalid, too large beyond 1 MiB, cut off, refused text, or the message |
| NativeMessaging.WriterMatchesReader | native_host/src/message_writer.cpp:11-23 | the writer takes exactly the payloads whose length the reader takes |
| NativeMessaging.FrameIsRead | native_host/src/message_reader.cpp:28-90 | a frame with anything after it reads as its payload and leaves the rest |
| NativeMessaging.MessagesOfStream | native_host/src/message_reader.cpp:28-90 | a stream of frames reads back as its payloads if and only if each passes the byte check |
| NativeMessaging.WriteAll | native_host/src/message_writer.cpp:11-42 | a list of fitting payloads becomes the stream of their frames |
| NativeMessaging.ReadAll | native_host/src/message_reader.cpp:28-90 | reading until the first refusal returns the messages of the stream |
| NativeMessaging.RoundTrip | native_host/src/message_writer.cpp:11-42 | any list of fitting payloads comes back unchanged exactly when each passes, under any pattern of short reads and writes |
| NativeMessaging.WellFormedPasses | native_host/src/message_reader.cpp:57-86 | every well-formed UTF-8 payload passes |
| DriverModel.BackoffAsDocumented | src/drivers/driver_engine.cpp:343-346 | the 32-bit shift gives the documented doubling from 25 ms capped at 8000 ms for all faults up to 32 |
| DriverModel.DriverInstance.constructor | src/drivers/driver_engine.cpp:56-66 | a new instance is discovered, without faults or a sandbox |
| DriverModel.DriverInstance.Load | src/drivers/driver_engine.cpp:70-166 | load succeeds exactly from the discovered state with a working script; every other outcome leaves it failed, a faulting hook with one fault more |
| DriverModel.DriverInstance.Start | src/drivers/driver_engine.cpp:168-181 | start succeeds exactly from the loaded state when the script's hook does |
| DriverModel.DriverInstance.OnEvent | src/drivers/driver_engine.cpp:262-315 | only a started driver sees an event; a failing hook is a fault |
| DriverModel.DriverInstance.Stop | src/drivers/driver_engine.cpp:317-331 | stop destroys the sandbox and records a failing hook |
| DriverModel.DriverInstance.RecordFault | src/drivers/driver_engine.cpp:333-347 | a fault quarantines at the threshold and otherwise waits |
| DriverModel.CallKeepsSound | src/drivers/driver_engine.cpp:70-347 | every call keeps the invariant on sandbox, faults, state and time waited |
| DriverModel.StateAfter | src/drivers/driver_engine.cpp:70-347 | the state every call leads to from every state, by outcome and by whether this fault is the last |
| DriverModel.FaultsAfter | src/drivers/driver_engine.cpp:70-347 | exactly which calls count a fault |
| DriverModel.ScriptRuns | src/drivers/driver_engine.cpp:70-347 | how often each call runs the script |
| DriverModel.StartCanBeRetried | src/drivers/driver_engine.cpp:168-181 | a start that faults short of the threshold leaves the driver loaded, and a second one can succeed |
| DriverModel.Run | src/drivers/driver_engine.cpp:70-347 | after every sequence of calls with any script outcomes the invariant holds |
| DriverModel.EndedForever | src/drivers/driver_engine.cpp:70-347 | a quarantined or failed driver stays so, with its faults and waiting time, whatever is called |
| DriverModel.BackoffBound | src/drivers/driver_engine.cpp:333-347 | total waiting never exceeds the sum of the backoffs below the threshold |
| DriverModel.BackoffBoundIsTight | src/drivers/driver_engine.cpp:333-347 | a run of failing events attains that sum |
| DriverModel.StoppedIsReloadable | src/drivers/driver_engine.cpp:326-331 | a stopped driver loads again, its faults kept |
| DriverModel.ReloadIff | src/drivers/driver_engine.cpp:317-347 | after any calls, stop then load works if and only if stopping did not end the driver, with faults kept; and exactly when stopping ends it |
| EmitLimiter.Limiter.constructor | src/drivers/lua/bindings/lezcap.cpp:639-653 | the limiter starts in the window that opens at time zero, with zero counts |
| EmitLimiter.Limiter.TryEmit | src/drivers/lua/bindings/lezcap.cpp:639-673 | an event is delivered exactly when the window has room and it converts and fits; the counters move as the source moves them |
| EmitLimiter.WindowFollows | src/drivers/lua/bindings/lezcap.cpp:643-652 | the window does not depend on the payloads |
| EmitLimiter.CountersSay | src/drivers/lua/bindings/lezcap.cpp:647-663 | what the two counters say of a run in terms of calls, deliveries, oversized and malformed events |
| EmitLimiter.CountersAddUp | src/drivers/lua/bindings/lezcap.cpp:647-663 | the counters add up to the calls if and only if no oversized event was admitted |
| EmitLimiter.OversizedCountsTwice | src/drivers/lua/bindings/lezcap.cpp:660-663 | one call that both counters count |
| EmitLimiter.WindowBound | src/drivers/lua/bindings/lezcap.cpp:643-652 | no window admits more than the limit |
| EmitLimiter.IntervalBound | src/drivers/lua/bindings/lezcap.cpp:639-653 | any interval of 1000 ms admits at most twice the limit, and one less when the first call comes at 1000 ms or later |
| EmitLimiter.EarlyBurstReaches | src/drivers/lua/bindings/lezcap.cpp:643-646 | a run that admits twice the limit within 1000 ms |
| EmitLimiter.LateBurstReaches | src/drivers/lua/bindings/lezcap.cpp:643-646 | a run starting at 1000 ms that admits one less than twice the limit |
| Base64.Encode | src/drivers/lua/bindings/lezcap.cpp:160-187 | n bytes become 4 * ceil(n / 3) characters |
| Base64.EncodeText | src/drivers/lua/bindings/lezcap.cpp:160-187 | the loop with its two endings computes the encoding |
| Base64.DecodeEncode | src/drivers/lua/bindings/lezcap.cpp:160-187 | the RFC 4648 decoder inverts the encoding |
| Base64.TestVectors | src/drivers/lua/bindings/lezcap.cpp:160-187 | the test vectors of section 10 of RFC 4648 |
| Base64.EncodeIsInjective | src/drivers/lua/bindings/lezcap.cpp:160-187 | different inputs have different encodings |
| Descriptor.ConformsHere | src/specgen/model/descriptor.cpp:87-173 | a schema tree conforms exactly when its root is well made and every tree below it conforms one level deeper |
| Descriptor.ShapeRules | src/specgen/model/descriptor.cpp:87-95 | a shape conforms exactly when every node it reaches is well made and at most eight steps down |
| Descriptor.NodeRules | src/specgen/model/descriptor.cpp:87-173 | a node is well made exactly when its keys and type are known and each part it has fits |
| Descriptor.TypeRules | src/specgen/model/descriptor.cpp:104-115 | the seven types |
| Descriptor.PropertyRules | src/specgen/model/descriptor.cpp:121-139 | at most 64 properties with names of 1 to 64 letters, digits and underscores |
| Descriptor.RequiredRules | src/specgen/model/descriptor.cpp:145-157 | at most 64 required names of at most 64 bytes |
| Descriptor.EnumRules | src/specgen/model/descriptor.cpp:158-171 | at most 64 values, none of them an object or array |
| Descriptor.CheckSchema | src/specgen/model/descriptor.cpp:87-173 | the recursive check accepts if and only if every reachable node is well made and none lies deeper than 8 |
| Descriptor.CheckProperties | src/specgen/model/descriptor.cpp:121-139 | the property loop accepts exactly bounded, well-named properties whose schemas all conform |
| Descriptor.CheckKeys | src/specgen/model/descriptor.cpp:97-103 | only the six schema keys pass |
| Descriptor.CheckRequired | src/specgen/model/descriptor.cpp:145-157 | at most 64 strings of at most 64 bytes |
| Descriptor.CheckEnum | src/specgen/model/descriptor.cpp:158-171 | at most 64 scalars |
| Descriptor.ReadList | src/specgen/model/descriptor.cpp:50-78 | at most 16 strings of at most 512 bytes, returned in order |
| Descriptor.ParseEndpoint | src/specgen/model/descriptor.cpp:177-336 | a descriptor is parsed exactly when acceptable, to the endpoint it describes |
| Descriptor.Parsed | src/specgen/model/descriptor.cpp:300-336 | a parsed endpoint has valid names, version and kind, and conforming shapes |
| Descriptor.DescribeRoundTrip | src/specgen/model/descriptor.cpp:177-336 | a descriptor written from an endpoint is accepted exactly when the endpoint is within the bounds, and parses back to it |
| Descriptor.OmittedIsEmpty | src/specgen/model/descriptor.cpp:255-336 | an optional part left out is empty in the endpoint |
| Specgen.VersionMeans | src/specgen/model/descriptor.cpp:31-48 | splitting at dots decides what a version is |
| Specgen.NameRules | src/specgen/model/descriptor.cpp:16-29 | names and namespaces, by length and code points |
| Specgen.ValidVersion | src/specgen/model/descriptor.cpp:31-48 | the loop accepts exactly two or three dot-separated numbers |
| Specgen.PathIsInjective | src/specgen/emitters/emitters.cpp:79-80 | endpoints with valid names and equal paths have equal namespace, name and version |
| Specgen.KeyTotal | src/specgen/emitters/emitters.cpp:26-31 | of two different keys exactly one is less |
| Specgen.KeyTransitive | src/specgen/emitters/emitters.cpp:26-31 | the comparison is transitive, so sorting by it is well defined |
| Specgen.LexMeans | src/specgen/emitters/emitters.cpp:26-31 | strings compare by the first position at which they differ |
| Specgen.KeyOrderMeans | src/specgen/emitters/emitters.cpp:26-31 | keys compare by namespace, then name, then version, each at its first difference |
| Specgen.SortEndpoints | src/specgen/emitters/emitters.cpp:20-32 | the result is ordered and a permutation of the input |
| Specgen.OneArrangement | src/specgen/emitters/emitters.cpp:20-32 | without duplicate keys there is only one ordered arrangement, whatever sorts |
| SpecGeneration.HasDuplicate | src/specgen/specgen.cpp:54-63 | the nested loop finds a duplicate key exactly when there is one |
| OpenApi.EmitEndpoints | src/specgen/emitters/emitters.cpp:78-140 | the emission loop builds the specified paths and schemas |
| OpenApi.RegisterSchemas | src/specgen/emitters/emitters.cpp:93-114 | object shapes are stored under the endpoint's request and response names, the last writer winning |
| OpenApi.PlaceEndpoint | src/specgen/emitters/emitters.cpp:119-139 | calls become a post entry and streams a marker, subject to the set of seen paths |
| OpenApi.EveryEndpointPlaced | src/specgen/emitters/emitters.cpp:78-140 | for valid endpoints without duplicates each has its own path holding exactly its own entry |
| OpenApi.ReferencesResolve | src/specgen/emitters/emitters.cpp:93-139 | in a sorted bundle every reference leads to its own endpoint's schema if and only if each call's names are stored last with the call's own schemas |
| OpenApi.IdsUniqueMeans | src/specgen/emitters/emitters.cpp:83-83 | operation identifiers are unique if and only if no call has two versions |
| SpecGeneration.Generate | src/specgen/specgen.cpp:42-76 | more than 256 endpoints or a duplicate fail; otherwise the document of the asked format for the canonical arrangement |
| SpecGeneration.OutcomeMeans | src/specgen/specgen.cpp:42-76 | the two failures, by the number of endpoints and by two that share namespace, name and version |
| SpecGeneration.OrderDoesNotMatter | src/specgen/specgen.cpp:42-76 | in every format generation gives the same outcome for every permutation of the endpoints |
| SpecGeneration.DocumentCoversBundle | src/specgen/emitters/emitters.cpp:60-148 | the document has as many paths as endpoints, each holding its endpoint's entry |
| SpecGeneration.OpenApiContents | src/specgen/emitters/emitters.cpp:78-140 | every field under an endpoint's path, from the endpoint |
| SpecGeneration.DocumentResolves | src/specgen/emitters/emitters.cpp:93-146 | all references in the generated paths lead to their own endpoint's schema if and only if, for every call and each of its schema names, the canonically last schema stored is the call's own |
| SpecGeneration.TwoVersionsClash | src/specgen/emitters/emitters.cpp:93-103 | two versions of a call with different request shapes: one of them is misdescribed |
| SpecGeneration.TwoNamespacesClash | src/specgen/emitters/emitters.cpp:93-103 | two calls of different namespaces that share a schema name: one of them is misdescribed |
| SpecGeneration.SharedNameClashes | src/specgen/emitters/emitters.cpp:93-103 | any two calls that store different requests under one name: one of them is misdescribed |
| AsyncApi.EmitAsyncApi | src/specgen/emitters/emitters.cpp:166-197 | the loop fills channels and messages for everything but operations, the last writer winning |
| SpecGeneration.ChannelsCoverEvents | src/specgen/emitters/emitters.cpp:166-197 | each event or stream has its own channel and every channel is one's |
| SpecGeneration.ChannelsDescribe | src/specgen/emitters/emitters.cpp:173-196 | a channel refers to its own endpoint's message if and only if the canonically last message of that name equals it |
| SpecGeneration.AsyncApiContents | src/specgen/emitters/emitters.cpp:166-197 | every field of an endpoint's channel, and of its message when that is kept |
| SchemaBundle.EmitJsonSchema | src/specgen/emitters/emitters.cpp:221-235 | the loop fills one definition per namespace and name, the last writer winning |
| SpecGeneration.BundleDefines | src/specgen/emitters/emitters.cpp:221-235 | the bundle defines an endpoint if and only if the canonically last definition of its name equals the endpoint's |
| SpecGeneration.BundleContents | src/specgen/emitters/emitters.cpp:221-235 | every field of an endpoint's definition when it is kept |
| SpecGeneration.TwoVersionsShareMessage | src/specgen/emitters/emitters.cpp:185-189 | two versions of an event share a message: the channel of one describes the other |
| SpecGeneration.TwoVersionsShareDefinition | src/specgen/emitters/emitters.cpp:234-234 | two versions share a definition: one of them is not defined |
| EndpointTable.FindsOwnEntry | src/specgen/emitters/emitters.cpp:93-114 | an endpoint finds its own entry in a table the emitters fill if and only if the canonically last entry of that name equals it |
| EndpointTable.KeptAnyway | src/specgen/emitters/emitters.cpp:20-32 | which entry is last does not depend on how the endpoints are listed |

## Left out

- DeliverQueue: models callers that do not already hold the client's mutex; the call at
  src/ipc/unix_socket_server.cpp:289 happens with a lock held. The size a failed send adds to the drop counter counts
  messages already sent too, so nothing is claimed of that counter beyond runs without failures.
- DaemonModel.Daemon.BroadcastEvent: handing an event to all subscribers is one step; what becomes of it at each
  subscriber is the subject of DeliverQueue.
- DriverModel.Run: thresholds up to 33; beyond that the shift in the source exceeds 32 bits and has no defined value.
- EmitLimiter.IntervalBound: for a positive limit; with limit 0 the source does not limit.
- SpecGeneration.Generate: documents hold the fields that vary; the constant titles, examples and markers of the three
  formats and their text form are not modelled.
- Descriptor.ParseEndpoint: error texts are not modelled, only acceptance.
- PacketParser.ParseEthernetFrame: addresses are the bytes; their text form comes from the C library.
- Character classes are ASCII, as in the C locale.
- Floating point: confidence is in hundredths, which the source's weights are exact multiples of.
- Sockets, locks, threads, SQLite, libpcap, libbpf, the Lua machine and JSON text: script outcomes, system answers and
  documents are parameters instead.
- The storage writer queue, the Lua memory ceiling, event ids and RFC 3339 time conversion.
- The subscription cap, broadcast filtering and operation dispatch of the IPC server; endpoint and filter caps of the
  Lua bindings; header checks of the eBPF program; enum and name tables: each is settled by reading one branch.
- The browser extension, packaging and configuration files.
