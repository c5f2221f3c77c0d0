# Secure chat: protocol model and proofs

This project models the fifth phase of a three-layer chat system in Dafny and
proves what the system relies on. Clients talk to a relay server over framed
TCP records; each connection runs an authenticated Diffie-Hellman handshake and
then seals every record; on top of that two clients hold an end-to-end session
whose key is renegotiated periodically into a new *epoch*.

| Layer | Modules |
|---|---|
| Arithmetic and codecs | `Arith`, `ByteStrings`, `Dh`, `Base64`, `Crypto`, `HashInputs` |
| Framing | `Framing` (incremental parser), `Pipeline` (output queue, end to end) |
| Record session | `Session`, `Lockstep` (two ends and a hostile network), `Handshake`, `Dispatch` (the server's record loop) |
| Relay | `Grammar`, `Names`, `Relay` (the server's maps and handlers), `Routing` (whole runs), `Sizes` |
| End-to-end epochs | `E2e` (the Manager), `Rotation` (two Managers, two channels), `Delivery`, `Grace`, `GraceBound`, `Expiry`, `Pace`, `Handlers`, `Authentic`, `NonceUse` (one entry), `ManagerUse` (a whole Manager) |
| Client and system | `Wire` (messages as text), `Client`, `Mirror` (a client against a node of `Rotation`), `Network` (two clients and the relay), `Fingerprint` |

How the parts fit:

- Objects that the program updates in place are classes (`E2e.Manager`,
  `Dh.KeyPair`, `Session.Session`, `Handshake.ServerHandshake`,
  `Dispatch.Connection`, `Framing.RecordReader`, `Pipeline.OutQueue`,
  `Relay.Server`, `Client.Client`), and loops are loops. Every method is proved
  equal to a specification function of its inputs and the old state, and the
  run-level theorems are about these functions. Where a theorem speaks of a
  machine of its own, a member ties it to the objects: `Pipeline.Drive` runs the
  two queues over any list of acts, `Dispatch.Connection.DrainRecords` calls the
  relay's own handlers, `ManagerUse.BookIsManager` is the Manager's map.
- `Rotation` composes the Manager's transitions for two users, the smaller name
  first, with a FIFO channel in each direction. Its invariant enumerates the
  shapes the two channels can be in (`Idle`, `Asked`, `Crossed`, `Won`,
  `Ahead`).
- `Network` is the system as a whole: two clients, the lines they send and
  display, and the relay with any other users. Its runs are runs of `Rotation`
  (`Network.RunFollows`), because a client does for each peer what its node does
  (`Client.DisplayIsReceived`, `Client.TypedIsSaid`, `Client.RequestIsStarted`,
  `Client.TimerIsTicked`, `Mirror`), every message survives as text
  (`Wire.MessageBack`), and the relay is a FIFO channel
  (`Routing.RelayIsFifo`). So what one user is shown as end-to-end text is what
  the other sent encrypted, in order (`Network.EverythingArrives`).
- What a specification function computes is pinned down by laws of its own, in
  other terms than its body: what each handler, parser, queue and timer accepts and
  refuses is stated as an if-and-only-if (`Handlers`, `Pace.TimerLaw`,
  `Handshake.HelloAccepted`, `Framing.PeekExact`, `Pipeline.FlushSends`,
  `Dispatch.FatalExactly`, `Routing.RefusedAlone`, `Names.LessIsByteOrder`).
- Digests are terms that determine their input, ciphertexts are terms that
  determine key, nonce, counter and plaintext. `HashInputs.InputsDetermine` shows
  that the octets actually hashed determine the derivation they are for, although
  certificate and secrets carry no length prefix. Everything sent between clients
  is text; which octets a ciphertext has is a parameter, `Crypto.Codec`.

Results that are exact, because the promise does not hold everywhere:

- `docs/protocol.md:249` promises that no key is used twice with the same nonce.
  Two users who hand a third one her own public values crosswise make her Manager
  seal for both of them with one key and nonce (`ManagerUse.SwappedRepeats`, with
  exponents that key generation can draw in `ManagerUse.RepeatIsPossible`). Apart
  from colliding secrets this is the only way (`ManagerUse.RepeatsWhenCrossed`),
  and it does not happen as long as no INIT or ACK carries a value generated here
  (`ManagerUse.NothingRepeats`). Within one entry a key and nonce repeat exactly
  when two installed epochs agree on number and shared secret
  (`NonceUse.RepeatsOnlyOnCollision`).
- `docs/protocol.md:428-429` promises that rotation never interrupts chat. That
  holds exactly when twice the one-way delay is below the grace window
  (`GraceBound.GraceIsExact`): from any honest values there is a run that fails at
  the bound.
- If an entry that still waits for its first epoch is answered for an epoch above
  0, the blank epoch becomes the previous one and its all-zero key is accepted
  while the window lasts. That everything that can be opened was sealed under an
  installed epoch's key holds exactly when this never happens
  (`Authentic.OpenedIsInstalled`, `Authentic.PendingIsRetired`).
- A line that is too long for a record is sealed, which spends a sequence number,
  and then dropped. At the server this happens exactly when a `WHO` answer is too
  long (`Sizes.StepAligned`): with at most 495 users it never does, with 496 users
  of the longest names it does (`Sizes.WhoFits`, `Sizes.OneTooMany`), and from
  then on the asking client refuses every record (`Sizes.WhoStopsClient`). At the
  client an end-to-end text of more than 6088 octets can be sealed and then not
  sent (`Sizes.ChatFits`), after which the peer refuses the rest of the epoch
  (`Client.UnsentStopsEpoch`).
- `mod_exp` returns the remainder except for modulus 1 with exponent 0
  (`Dh.ModExp`).

`docs/protocol.md:418` and `docs/protocol.md:425` say that an expired epoch key is
wiped. The code only clears `have_prev` (`phase5/e2e.cpp:228-231`), and so does the
model; what is proved instead is that clearing the flag never changes what any
later call answers (`Expiry.SweepIsInvisible`).

## Model

| member | source | states |
|---|---|---|
| `Dh.ModExp` | phase5/dh.cpp:32-54 | refuses only modulus 0; the result is base^exp mod m if and only if m >= 2 or exp > 0; at most 2·bits(exp) modular multiplications |
| `Dh.BitDone` | phase5/dh.cpp:43-47 | one loop turn extends the exponent prefix already accounted for by exactly one bit |
| `Dh.ModulusRange` | phase5/dh.cpp:13-24 | the published modulus is odd, at least 15 and below 256^256, read off its hexadecimal digits |
| `Dh.KeyPair.Generate` | phase5/dh.cpp:92-115 | whatever exponent was drawn, the published value is g^x mod p, left-padded to 256 octets; when drawing fails nothing is published |
| `Dh.KeyPair.ComputeShared` | phase5/dh.cpp:117-147 | full width and 1 < y < p-1 are necessary and sufficient for a secret, which is y^x mod p at full width |
| `Dh.Agreement` | phase5/dh.cpp:92-147 | two parties whose public values pass the range check obtain the identical 256-octet string |
| `Dh.RefusedIffConfined` | phase5/dh.cpp:117-132 | of the values below the modulus exactly those are refused with which no exponent leads out of 0, 1 and p-1; wrong widths and larger values are refused too |
| `Dh.Neighbours` | phase5/dh.cpp:92-132 | among any four exponents in a row two neighbours give different public values that pass the range check |
| `Dh.HonestExponents` | phase5/dh.cpp:102-115 | two of the exponents that generation can draw (256 bits, top bit set) give different public values that pass the range check |
| `Base64.Encode` | phase5/crypto.cpp:143-162 | the shifting loop produces the padded groups of the specification |
| `Base64.Decode` | phase5/crypto.cpp:164-187 | the loop accepts exactly the texts whose groups all decode, and returns their concatenation |
| `Base64.RoundTrip` | phase5/crypto.cpp:143-187 | every octet string survives encoding and decoding |
| `Base64.DecodeConcat` | phase5/crypto.cpp:164-187 | decoding distributes over concatenation at a group boundary |
| `Base64.EncodedLength` | phase5/crypto.cpp:143-162 | four characters for each started group of three octets |
| `Base64.InAlphabet` | phase5/crypto.cpp:131 | the characters used are those of the standard alphabet, each at its place |
| `Base64.DecodesExactly` | phase5/crypto.cpp:164-187 | a text decodes if and only if it is a row of groups of two alphabet characters followed by two more, one and a padding, or two paddings |
| `Base64.Vectors` | phase5/crypto.cpp:143-162 | the test vectors of section 10 of RFC 4648 |
| `Crypto.MakeNonce` | phase5/crypto.cpp:38-45 | the octet-by-octet loop yields salt followed by the 64-bit counter, most significant octet first |
| `Crypto.NonceLayout` | phase5/crypto.cpp:38-45 | the salt is in front, and octet i of the rest is the counter shifted right by the octets after it |
| `Crypto.NonceRepeats` | phase5/crypto.cpp:38-45 | under one salt two counters share a nonce if and only if they agree modulo 2^64 |
| `HashInputs.InputsDetermine` | phase5/session.cpp:27-62 | equal hash inputs come from the same derivation with the same arguments, across both layers, both directions and all 32-bit epochs |
| `HashInputs.TranscriptInjective` | phase5/session.cpp:27-35 | the transcript determines all five fields although the certificate has no length prefix |
| `HashInputs.ProofInjective` | phase5/session.cpp:37-47 | the signed octets determine version, nonce, certificate and server value |
| `HashInputs.EpochKeysDiffer` | phase5/e2e.cpp:45-59 | sealing keys coincide only for the same epoch, direction and secret |
| `HashInputs.EpochPartsDiffer` | phase5/e2e.cpp:45-59 | different epochs or secrets differ in both keys, in the salt and in the fingerprint |
| `Framing.ParseEncoded` | phase5/proto.cpp:46-64 | the encodings of any list of records that fit parse back to exactly that list |
| `Framing.ParseExtends` | phase5/proto.cpp:107-130 | parsing can resume from the unread rest; a malformed length stays malformed whatever is fed later |
| `Framing.PeekExact` | phase5/proto.cpp:107-130 | a record is found if and only if the stream begins with its octets; a length is malformed if and only if a header is there that no record agrees with |
| `Framing.TakenExact` | phase5/proto.cpp:107-130 | taking out a record removes exactly its octets, and otherwise nothing |
| `Framing.RecordReader.Feed` | phase5/proto.cpp:93-105 | appends to the unread octets whatever compaction does; keeps the buffer within 36866 octets and the cost bound |
| `Framing.RecordReader.Next` | phase5/proto.cpp:107-130 | returns the head of the unread octets and removes exactly that record |
| `Framing.RecordReader.Drain` | phase5/server.cpp:231-242 | when nothing stops the loop, takes out all complete records, leaving what a one-shot parse leaves |
| `Framing.ReadStream` | phase5/server.cpp:293-303 | for every chunking the records are those of a one-shot parse; peak buffer at most 36866; moved·16384 <= consumed·16387 |
| `Framing.AnyInterleaving` | phase5/proto.cpp:93-130 | feeds and takes in any order hand out a prefix of the whole stream's records and leave the rest to be parsed |
| `Pipeline.OutQueue.Enqueue` | phase5/server.cpp:76-86 | a record that fits is appended to the pending octets, any other changes nothing |
| `Pipeline.OutQueue.FlushOut` | phase5/server.cpp:106-124 | octets sent followed by octets pending are the octets that were pending; how many are sent and when the connection is given up |
| `Pipeline.FlushSends` | phase5/server.cpp:106-124 | as many octets go out as send() took before it first refused, or all; the connection is given up if and only if send() failed or took nothing with octets pending, or more than 1 MiB stays |
| `Pipeline.ActsConserve` | phase5/server.cpp:76-124 | records delivered, then those the octets under way parse to, stay the accepted list through any enqueues, sends, arrivals and takes |
| `Pipeline.Drive` | phase5/server.cpp:76-124 | an output queue and a record reader driven by any list of acts are in the state the acts give from empty queues |
| `Pipeline.DeliversWhatWasAccepted` | phase5/proto.cpp:93-130 | from empty queues, for all partial sends and chunkings, the reader yields a prefix of the accepted records, never sees a malformed length, and yields all of them once nothing is under way |
| `Pipeline.EverythingCanArrive` | phase5/server.cpp:76-124 | from every reachable state of a kept connection, one full flush, the arrival of the wire and enough takes deliver everything accepted |
| `Session.DirectionsDiffer` | phase5/session.cpp:49-62 | the two directional keys differ |
| `Session.Session.Install` | phase5/session.cpp:66-72 | both counters restart at zero under the new keys |
| `Session.Session.Seal` | phase5/session.cpp:74-85 | seals under the sender's key with the next counter, which moves by one |
| `Session.Session.Open` | phase5/session.cpp:87-97 | opens only the record with the next counter; a failed open changes nothing |
| `Lockstep.AcceptedIffNext` | phase5/session.cpp:87-97 | whatever is delivered, it is accepted if and only if it is the next record the other side sealed in this direction |
| `Lockstep.OpenedIsPrefix` | phase5/session.cpp:66-97 | under loss, repetition, reordering, reflection and injection each side has opened a prefix of what the other sealed, at every point of every run |
| `Handshake.ServerHandshake.Feed` | phase5/session.cpp:150-210 | the two-step server machine with every error, the fields it keeps and the records it answers with |
| `Handshake.RunClient` | phase5/session.cpp:245-319 | the client's straight line with every error; its session is installed only on success |
| `Handshake.FlightRoundTrip` | phase5/session.cpp:109-132 | the client reads from the server's three records the fields they were made from |
| `Handshake.NothingRevealedUnvalidated` | phase5/session.cpp:286-308 | the client's value leaves it only after certificate and proof were accepted |
| `Handshake.HelloAnswered` | phase5/session.cpp:158-180 | a well-formed hello is answered with certificate, key exchange and proof over exactly these values |
| `Handshake.HelloAccepted` | phase5/session.cpp:158-180 | in the first state a record is answered if and only if it is a hello of this version with a 32-octet nonce, there are credentials, and generation and signing succeed; otherwise state and keys stay |
| `Handshake.KexAccepted` | phase5/session.cpp:183-203 | in the second state a record completes the handshake if and only if it encodes a value in range; the keys are those of the secret and the transcript, and anything else changes nothing |
| `Handshake.FlightExact` | phase5/session.cpp:260-284 | the client takes certificate, value and proof from exactly the three records of its version made of them |
| `Handshake.EstablishedExactly` | phase5/session.cpp:245-319 | the client establishes a session if and only if such a flight is in front, certificate and proof are accepted, the value is in range and its own pair was generated |
| `Handshake.Completes` | phase5/session.cpp:150-319 | an honest run ends with Done at the server and equal keys on both sides, for all nonces, exponents and certificates that fit |
| `Handshake.DoneAtMostOnce` | phase5/session.cpp:150-210 | whatever is fed, Done is reported at most once and the keys are fixed afterwards |
| `Handshake.KeysBindTranscript` | phase5/session.cpp:49-62 | ends that share any one derived value, also the salt or the fingerprint, have the same secret, nonce, certificate and public values |
| `Dispatch.Connection.OnRecord` | phase5/server.cpp:244-287 | the reaction to one record by type, state, size and authenticity |
| `Dispatch.Connection.DrainRecords` | phase5/server.cpp:231-291 | records are taken in order until none is left, one is fatal, or the relay's own handler of a line has asked to close; the relay's new state is part of the result |
| `Dispatch.FatalExactly` | phase5/server.cpp:244-287 | before the session is up exactly the records that are no handshake records are fatal, afterwards exactly those that are not sealed, too large or do not open; a fatal record changes nothing |
| `Dispatch.NextOrFatal` | phase5/server.cpp:273-287 | under any network a sealed record is handled if and only if it is the next one owed and fits |
| `Dispatch.AlertsEnd` | phase5/server.cpp:250-254 | a failed handshake is reported once, ends the processing and asks for the connection to be closed |
| `Dispatch.LinesAreGated` | phase5/server.cpp:244-280 | no line is handled before the handshake is complete, none is longer than the limit, the session runs under the handshake's keys, and once it is up the relay has handled exactly the lines reported |
| `Dispatch.LinesAreAuthentic` | phase5/server.cpp:273-289 | whatever arrives, the handled lines are in order and without gaps the lines the client sealed |
| `Dispatch.BatchesJoin` | phase5/server.cpp:231-291 | draining in two batches is draining in one, unless the first ended the connection |
| `Dispatch.Conversation` | phase5/server.cpp:231-291 | hello, key exchange and any sealed texts make the server answer with its three records and the relay handle exactly those texts, as long as none of them closes |
| `Grammar.SplitN` | phase5/proto.cpp:165-179 | the loop's pieces are those of the recursive definition |
| `Grammar.SplitJoins` | phase5/proto.cpp:165-179 | splitting loses nothing, makes at most the pieces asked for, and only the last may contain the separator |
| `Grammar.ValidUsername` | phase5/proto.cpp:139-148 | accepts exactly the names of 1 to 32 letters, digits and underscores |
| `Grammar.UsernameExactly` | phase5/proto.cpp:139-148 | the permitted characters are those of Base64 without '+' and '/', and the underscore |
| `Grammar.TagSelects` | phase5/client.cpp:97-143 | each tag selects its own handler with exactly what follows the tag |
| `Grammar.SendableIsPlain` | phase5/client.cpp:75-80 | text a user may send never selects a handshake or message handler |
| `Grammar.LinesSplitBack` | phase5/client.cpp:97-107 | lines built from a name and any text split back into them at the server and at the client |
| `Grammar.KexReachesHandler` | phase5/e2e.cpp:22-41 | key-exchange payloads reach their handler and decode to the epoch and value sent |
| `Names.Sorted` | phase5/server.cpp:191-194 | the names, each once, each smaller than the next at the first difference, whatever order the map yields them in |
| `Names.AscendingUnique` | phase5/server.cpp:189-194 | there is only one such list |
| `Names.LessIsByteOrder` | phase5/e2e.cpp:74 | one name is less than another if and only if it ends first or has the smaller character at the first difference |
| `Names.FirstDifferenceDecides` | phase5/server.cpp:194 | whatever precedes and follows, the first differing character decides, and a name comes before its extensions |
| `Relay.Server.SendLine` | phase5/server.cpp:89-95 | seals and queues one line; a line too long for a record is sealed and then dropped |
| `Relay.Server.BroadcastLine` | phase5/server.cpp:126-132 | one line to every registered connection but one, whatever the map's order |
| `Relay.Server.HandleLogin` | phase5/server.cpp:134-158 | registration, its three refusals, and who is told |
| `Relay.Server.HandleMsg` | phase5/server.cpp:160-185 | delivery to the connection found by name, or one of two errors to the sender |
| `Relay.Server.HandleWho` | phase5/server.cpp:187-204 | the sorted list as it is built |
| `Relay.Server.HandleLine` | phase5/server.cpp:206-228 | which verb does what, and that only LOGIN is open before login |
| `Relay.Server.Secure` | phase5/server.cpp:258-262 | the connection counts as established, nothing else changes |
| `Relay.Server.DropConn` | phase5/server.cpp:311-325 | the name is freed, the others are told, the connection is gone |
| `Relay.Server.Accept` | phase5/server.cpp:377-382 | a new connection without a name |
| `Routing.StepIndexed` | phase5/server.cpp:134-325 | every event keeps the two indexes in agreement |
| `Routing.NamesAgree` | phase5/server.cpp:71-72 | after any events a name maps to a descriptor if and only if that connection is live, registered and holds it; no name is held twice |
| `Routing.DroppedIndexed` | phase5/server.cpp:311-325 | a dropped user's name is free again |
| `Routing.LoginDecides` | phase5/server.cpp:134-158 | a login takes effect if and only if the name is well-formed and nobody holds it; then every other user is told once, otherwise only its own connection is told which of the two it was, and closed |
| `Routing.DropTells` | phase5/server.cpp:311-325 | exactly the other users are told of a departure, once, and only if the connection was logged in |
| `Routing.StrangersReachNobody` | phase5/server.cpp:206-215 | before its login a connection changes nothing but itself, and any line but LOGIN closes it |
| `Routing.RefusedAlone` | phase5/server.cpp:206-228 | a second login, a message without recipient or text and an unknown verb get one error line and concern nobody else; QUIT only asks for closing |
| `Routing.NewcomerMustSecure` | phase5/server.cpp:231-291 | a connection that sends a line before its handshake is dropped without trace |
| `Routing.MsgDelivers` | phase5/server.cpp:160-185 | for any recipient word: exactly the connection holding the name gets the line, which reads back as sender and text; without one, exactly the sender gets the error |
| `Routing.WhoLists` | phase5/server.cpp:187-204 | WHO is answered with exactly the users logged in, each smaller than the next at the first difference, and the answer splits back into them |
| `Routing.RelayIsFifo` | phase5/server.cpp:160-185 | between two logged-in users the relay is a FIFO, lossless channel, whatever everybody else does |
| `Routing.StepGrows` | phase5/server.cpp:76-95 | no event takes back or changes a line that was queued for a connection |
| `Grammar.ComposedIsAddressed` | phase5/client.cpp:92 | what a client composes for a word is addressed to it alone, text unchanged |
| `Sizes.ChatFits` | phase5/client.cpp:57-63 | a sealed text of at most 6088 octets always passes the limit; for the longest names exactly those do |
| `Sizes.KexFits` | phase5/client.cpp:57-63 | key-exchange lines always pass the limit |
| `Sizes.WhoFits` | phase5/server.cpp:196-203 | the answer to WHO fits a record for at most 495 users; with the longest names exactly then |
| `Sizes.StepAligned` | phase5/server.cpp:76-95 | a step spends a sequence number without queuing its line if and only if it answers a WHO that is too long |
| `Sizes.NothingSpentInVain` | phase5/server.cpp:76-95 | in every run with at most 495 users at a time, every connection's counter equals its queued lines |
| `Sizes.OneTooMany` | phase5/server.cpp:76-95 | a run of 496 logins after which one WHO breaks that equality |
| `Sizes.WhoStopsClient` | phase5/server.cpp:76-95 | after that answer the asking client, whatever anybody does, has opened at most what was sealed before and refuses every record sealed later |
| `E2e.EncodeKex` | phase5/e2e.cpp:22-31 | version, epoch, length and public value in Base64 |
| `E2e.DecodeKex` | phase5/e2e.cpp:32-41 | the text decodes as Base64 and then as this layout, or is refused |
| `E2e.KexDecodesOnly` | phase5/e2e.cpp:32-41 | a text decodes to an epoch and value if and only if these have their widths and the text is Base64 of exactly their encoding |
| `E2e.KexRoundTrip` | phase5/e2e.cpp:22-41 | a payload decodes to the epoch and value put into it |
| `E2e.KexDecodedRange` | phase5/e2e.cpp:32-41 | whatever decodes is a 32-bit epoch and a full-width value |
| `E2e.Manager.Start` | phase5/e2e.cpp:69-82 | the pending entry and the INIT for epoch 0, or one of two refusals that change nothing |
| `E2e.Manager.OnInit` | phase5/e2e.cpp:84-130 | the tie-break, the retirement of the current epoch, the ACK and every error with what it leaves changed |
| `E2e.Manager.OnAck` | phase5/e2e.cpp:132-161 | the awaited epoch is installed, retiring the current one if there is one; errors change nothing |
| `E2e.Manager.Seal` | phase5/e2e.cpp:163-182 | the tagged Base64 text of the epoch and the ciphertext sealed under it with its counter, which moves by one |
| `E2e.ChatRoundTrip` | phase5/e2e.cpp:177-197 | a chat payload decodes to the epoch and ciphertext put into it |
| `E2e.Manager.Open` | phase5/e2e.cpp:184-218 | the decoded epoch selects the current keys, or the previous ones within their window; every error; only a success moves a counter |
| `E2e.Manager.Tick` | phase5/e2e.cpp:220-245 | every entry is passed over once; the INITs are exactly those due, in the order of the peers' names |
| `Pace.TimerLaw` | phase5/e2e.cpp:226-245 | a pass begins a rotation if and only if the entry is up, has no INIT out, a pair was generated and at least the rekey time (a-side) or fallback time (b-side) has passed since its epoch was installed; it forgets the previous epoch if and only if the window has closed |
| `Pace.InitsLaw` | phase5/e2e.cpp:226-245 | exactly the peers for whom that holds get an INIT, with the next number and the new value |
| `Pace.InitsInOrder` | phase5/e2e.cpp:226-245 | at most one INIT for a peer, in the byte order of the names |
| `Pace.EpochsLast` | phase5/e2e.cpp:226-245 | in every run, an INIT for an epoch above 0 is sent at least the side's period after that side installed the epoch before |
| `Pace.SilenceBeforeFallback` | phase5/e2e.cpp:233-237 | if b begins a rotation, every INIT of a that it ever handled was handled at least the fallback time before |
| `Handlers.InitDecides` | phase5/e2e.cpp:84-130 | an INIT is ignored if and only if the own INIT for its epoch is out and the own name comes first; any other is answered if and only if its value is in range and a pair was generated |
| `Handlers.AckDecides` | phase5/e2e.cpp:132-161 | an ACK is accepted if and only if an INIT is out, the ACK is for its epoch and the value is in range; what it installs and what stays readable |
| `Handlers.SealDecides` | phase5/e2e.cpp:163-182 | a peer seals if and only if it is in session, and then what its mirror image expects next |
| `Handlers.OpenDecides` | phase5/e2e.cpp:184-218 | a message opens if and only if it is the one expected next under the current epoch, or under the previous one within its window; only that counter moves |
| `Rotation.StepKeeps` | phase5/e2e.cpp:69-245 | every start, tick, delivery, message and pause keeps the channel-shape invariant |
| `Rotation.InitAnswered` | phase5/e2e.cpp:102-130 | any other INIT meets a level receiver, puts it exactly one epoch ahead, and keeps the invariant |
| `Rotation.InitIgnored` | phase5/e2e.cpp:95-100 | in a collision, and when a stale INIT arrives after b has moved on, the receiver is left exactly as it was and the invariant holds |
| `Rotation.AckKeeps` | phase5/e2e.cpp:132-161 | an ACK brings its receiver to the answerer's epoch, also when the next INIT is already behind it, and keeps the invariant |
| `Rotation.Agreement` | phase5/e2e.cpp:84-161 | in every run the sides are at most one epoch apart, the installed epochs are numbered without gaps, both share all keys, salt and fingerprint when level, the one ahead holds the other's current keys as its previous ones, and no handler fails |
| `Rotation.Quiescence` | phase5/e2e.cpp:84-161 | once only deliveries happen they end within the channels' weight (INIT 2, others 1), and leave both sides, idle, on the same keys of the furthest epoch either had reached or asked for |
| `Rotation.FirstSession` | phase5/e2e.cpp:69-161 | one request and one answer establish a session, started by either side |
| `Delivery.StepFlows` | phase5/e2e.cpp:163-218 | every step keeps both channels consumable without a refusal and their texts accounted for |
| `Delivery.OpensAtHead` | phase5/e2e.cpp:184-218 | the message next in line opens to the text that was sealed and moves exactly its epoch's counter |
| `Delivery.Lossless` | phase5/e2e.cpp:163-218 | across any number of rotations the texts opened are a prefix of those sealed, all of them once the channel is drained; each belongs to the receiver's current or previous epoch |
| `Grace.NothingExpires` | phase5/e2e.cpp:200-207 | if twice the one-way delay is below the window, no message is ever refused |
| `Expiry.SweepIsInvisible` | phase5/e2e.cpp:226-231 | over any events and from any entry, runs with and without the sweep report the same result of every call |
| `Authentic.OpenedIsInstalled` | phase5/e2e.cpp:111-125 | under an arbitrary network all that can ever be opened was sealed under an installed epoch's key if and only if no pending entry is retired |
| `Authentic.PendingIsRetired` | phase5/e2e.cpp:119-122 | the two events after which a message under the blank epoch is accepted |
| `GraceBound.GraceIsExact` | phase5/e2e.cpp:200-207 | for all honest exponents to draw from: all prompt runs are free of refusals if and only if twice the delay is below the window |
| `GraceBound.LateRun` | phase5/e2e.cpp:200-207 | from any honest exponents, the run that loses a message as soon as twice the delay reaches the window |
| `NonceUse.EventKeeps` | phase5/e2e.cpp:69-245 | every event keeps own key pairs used once, the current epoch the latest installed, and its counter unused |
| `NonceUse.RepeatsOnlyOnCollision` | phase5/e2e.cpp:163-182 | for one entry under an arbitrary network: each own key pair enters at most one epoch, every use is under the key of the installation it names, never an earlier one again, and a key and nonce repeat if and only if two installations agree on epoch and secret |
| `NonceUse.NonceNeverRepeats` | phase5/e2e.cpp:170-177 | without such a collision one entry gives no key and nonce to seal twice |
| `ManagerUse.BookIsManager` | phase5/e2e.cpp:69-245 | what the Manager's methods do to its map is what an event does to the entries |
| `ManagerUse.RepeatsExactly` | phase5/e2e.cpp:163-182 | in every run of a Manager with any peers, two uses are of one key and nonce if and only if sides, epoch, secret and counter agree |
| `ManagerUse.RepeatsWhenCrossed` | phase5/e2e.cpp:84-161 | for different peers, and unless secrets collide otherwise, that is exactly when each was completed with the value generated for the other |
| `ManagerUse.NothingRepeats` | phase5/e2e.cpp:170-177 | if no INIT or ACK carries a value generated here, and secrets do not collide, no two seals of the Manager share key and nonce |
| `ManagerUse.SwappedRepeats` | phase5/e2e.cpp:102-177 | for any two honest values, the run of five calls after which the seals for two peers share key and nonce |
| `ManagerUse.RepeatIsPossible` | phase5/dh.cpp:102-115 | such a run exists with exponents that generation can draw |
| `Client.Client.SendLine` | phase5/client.cpp:57-70 | a line longer than the limit is reported and not sent |
| `Client.Client.SendMsgTo` | phase5/client.cpp:75-95 | reserved text is refused; to a peer in session only the sealed form is sent, as text; every notice |
| `Client.Client.Display` | phase5/client.cpp:97-154 | for every line, which handler it reaches, the answer sent, and what is shown, including the warning for plain text while a session is up |
| `Client.PlainIsMarked` | phase5/client.cpp:132-142 | plain text from a peer in session is shown with the warning, from anybody else without it, and changes nothing |
| `Client.ServerLinesShown` | phase5/client.cpp:143-153 | INFO, ERR, USERS and OK lines are shown as such, any other line in full |
| `Client.UndecodableIsRefused` | phase5/client.cpp:97-132 | a tagged text that is no Base64 is complained about, and neither answered nor acted upon |
| `Client.TypingDecides` | phase5/client.cpp:75-95 | text with the reserved beginning is refused; any other, without a session, is sent and echoed unchanged |
| `Client.Client.RequestSession` | phase5/client.cpp:237-247 | asks the Manager for a session and sends its INIT |
| `Client.Client.TimerPass` | phase5/client.cpp:160-170 | every INIT that is due is sent, in the order of the peers' names |
| `Client.DisplayIsReceived` | phase5/client.cpp:97-132 | displaying the line made of a message, key exchange or chat, changes the entry, and sends, exactly as the two-party system says its receiver does, touches no other entry, and complains exactly when that system counts a failure or refusal |
| `Client.TypedIsSaid` | phase5/client.cpp:75-95 | typing at most 6088 octets to a peer in session seals and sends as the two-party system says |
| `Client.RequestIsStarted` | phase5/e2e.cpp:69-82 | asking for a session is the two-party system's start |
| `Client.TimerIsTicked` | phase5/client.cpp:160-170 | for every peer a pass of the timer over all of them is that peer's tick, and the lines to it are its own INIT or none |
| `Client.UnsentStopsEpoch` | phase5/client.cpp:57-95 | a text sealed but too long to send is shown as sent, sends nothing, and makes the peer refuse everything sealed after it in that epoch |
| `Wire.MessageBack` | phase5/client.cpp:97-126 | the text of any message, key exchange or chat, is read back as that message |
| `Wire.FlightsArrive` | phase5/client.cpp:97-126 | in every run every message in flight is read back at the other end as itself, and fits a line: always for key exchange, up to 6088 octets of text for chat |
| `Mirror.DisplayedMirrors` | phase5/client.cpp:97-132 | a client that displays its node's next message stays in step with the node: entry, tagged texts sent, and what was shown about the peer |
| `Mirror.TimedMirrors` | phase5/client.cpp:160-170 | so does one whose timer passes over all its peers |
| `Network.ComesFromHead` | phase5/server.cpp:160-185 | a tagged text a client is about to display is the one at the head of its peer's channel |
| `Network.StepFollows` | phase5/client.cpp:75-170 | every step of two clients and the relay, with any other users, is at most one step of the two-party system |
| `Network.RunFollows` | phase5/client.cpp:75-170 | every run of them is a run of the two-party system in which no message is late |
| `Network.EverythingArrives` | phase5/client.cpp:75-170 | in every run what one user is shown as end-to-end text from the other is a prefix of what the other sent encrypted, all of it once everything was passed on, and no complaint about the other is shown |
| `Network.SameFingerprint` | phase5/e2e.cpp:45-59 | whenever two users are in session with each other, their fingerprints agree if and only if their epoch numbers do, and if and only if they hold the same keys and salt |
| `Fingerprint.ComparedPrints` | phase5/client.cpp:97-132 | for two clients that any network hands any lines: while both are in session, the fingerprints last shown are the same if and only if they hold the same epoch, keys and salt |
| `Network.LoginsBegin` | phase5/server.cpp:134-158 | two logins at a new relay lead to a state such a run can begin in |

## Left out

- Sockets, `poll`, `accept`, `fcntl`, errno, signals, logging, timestamps, command lines and terminal output. `send` and `recv` are arbitrary partial progress, the clock is a parameter that never runs backwards.
- OpenSSL: random numbers, key generation outcomes, signatures and certificate checks are parameters. Digests, including the 4-octet salt and the 8-octet fingerprint taken from them, and AEAD outputs are terms, so accidental collisions of short prefixes and forgeries do not exist in the model. Computational hardness, secrecy and the primality of the modulus are not claimed.
- The octets of a ciphertext: a term is laid out by a parameter (`Crypto.Codec`), and results about chat as text assume that it keeps the length of, and reads back, the ciphertexts they are about. Everything around it (tag, Base64, epoch, splitting) is real text.
- Fingerprints are kept as octets; their hexadecimal spelling and the wording of the client's notices are not modelled, only which notice is shown.
- The client's three threads (`phase5/client.cpp`): a Manager call and the sending of its payload are one step in `Rotation`, although the client releases the lock in between. `Rotation` and `Network` also assume that the two users call `start` for each other only without an entry, that key generation succeeds with values inside the range check, and that a sealed text is short enough to be sent; `NonceUse` and `ManagerUse` assume none of these.
- The choice of the current chat partner and the client's commands `/who`, `/chat` and `/quit`; recipients are single words, as `@name` gives them.
- `Network`: the two users stay connected, and the record layer between each of them and the relay is a FIFO line channel, as `Pipeline` and `Lockstep` show it to be.
- Peers and pending key pairs are values inside the Manager's map: moving a key pair out of its holder, and reference aliasing between iterator and map, are not represented.
- Zeroisation of keys and secrets, reservation of memory and allocation failures.
- Strictness of Base64: padding inside the text and non-canonical trailing bits are accepted, as in the program, so encoding after decoding is not an identity.
- Negative exponents: exponents are natural numbers.
- A constant bound on a connection's queued octets: the limit is looked at only when the queue is flushed.
- Connections that are still read after closing was asked for are not treated specially: the theorems in `Routing` allow further lines from them.
- `Relay.Server` keeps the lines queued for a connection as lines; their sealing, framing and sending are `Session`, `Framing` and `Pipeline`. Alerts appear in `Dispatch` as outcomes, not as octets in the queue.
- The blocking record reader of the client (`recv_record`) and its retry loops; the format is that of `Framing.Peek`.
- A malformed length, which also ends a connection, is the flag `Framing.RecordReader.Drain` returns; `Dispatch` starts from complete records.
- Strings are sequences of characters standing for octets.
- NonceUse.NonceNeverRepeats: is about one session entry, with counters below 2^64, public values that are generated only once, and no two installations with equal epoch and secret from different public values; the exact conditions for a whole Manager are ManagerUse.RepeatsExactly and ManagerUse.RepeatsWhenCrossed.
- Lockstep.OpenedIsPrefix: is about fewer than 2^64 records in each direction.
- Dispatch.Conversation: takes certificate and signature checks that accept, and lines whose handling does not ask to close the connection.
- Phases 1 to 4, the intercepting proxy and the certificate tools.
