# A verified model of the game server's wire protocol

The server speaks a proprietary game protocol: length-framed bit-packed packets
over TCP, raw bit-packed packets over UDP, a login that ties the two together,
and a tick thread that replicates a small world to every client. This project
models that stack in Dafny and proves what it is meant to guarantee.

The model has two layers. Everything the source updates in place is a class with
the same methods (`BitWriter`, `BitReader`, `TcpFrameAccumulator`,
`ConcurrentQueue`, `Connection`, `Acceptor`, `MvpOnlineBridge`), each method proved
against a function on plain values. The guarantees are then lemmas about those
functions, over every input, every run and every reachable state.

- **Codec.** `Bits`, `Cursors` and `BitStream`: bits, bytes, fields, texts; what
  a script of writes puts in a packet, a script of reads gets back. `Framing`:
  frames and their reassembly. `UdpSplit`: handshake packets batched in a
  datagram. `Quantization`, `EntityCodec`, `ActionInput`, `SpawnRecord`: quantized
  values and the mask-driven records, each with the client's reader or writer as
  its inverse. `Packets`: the other packets, as field lists; `PacketBytes`: the same
  packets spelled byte for byte.
- **Sessions.** `Protocol` and `Connections`: what one TCP chunk or UDP packet
  does. `Sessions`, `Safety`, `Chunking`, `Logins`, `Handshake`: what holds over
  every run of a connection, whatever bytes arrive and however they are cut, and
  what a client that follows the protocol achieves. `Survival`: exactly which frames
  a session survives and what they do. `Greetings`: every byte a client is sent on its
  way in.
- **World.** `Queues` and `Bridge`: the command queue and the tick. `History`:
  runs of the bridge. `Fixtures`, `Answers`, `Spawning`: what stands on a map and what
  each command changes and who is told. `Roster`, `Introduction`, `Sights`, `Crowd`:
  what each client has been told and shown agrees with what the bridge remembers.
- **Server.** `Routing` and `Acceptors`: which session a packet reaches. `Delivery`
  and `Server`: connections and the queue. `Interleaving`: network steps, pushes and
  ticks in any order, with the queue between them. `Records`: what the bridge keeps is
  what a session's own commands made it. `ClientStream`, `Sockets` and `Endpoints`: what
  both threads write to a client's socket, byte by byte, and to its UDP endpoint,
  datagram by datagram.
- **Tools.** `HexDump`: the developer console's dump and the parser of its output.
  `Lists`: increasing lists of numbers.

A client in these proofs is a reader or writer of the wire format as the
repository's tests and tools have it: the mask-driven entity reader
(tests/test_server_net.cpp:157-214), the action encoder (tests/test_server_net.cpp:1830-1860),
the request encoder and the acknowledgement reader (tests/test_server_net.cpp:270-293), and
a roster that folds the roster and stats records of its TCP stream into each player's
team, name and nametag.

## Where a promise fails, and exactly when it holds

Eight promises do not hold for all inputs. For each the exact condition is proved in
both directions, with a concrete input for which it fails.

- A client sees every entity's definition before its updates, and its session's
  memory is exactly the ids it was sent, unless a round's list has an entity beyond
  the 255th that it is the first to mention: the memory is updated before the list
  is cut. The condition is exact for the two together
  (`Introduction.IntroductionDiscipline`); the run that fails, fails the first
  (`Crowd.CrowdLosesOne`).
- Rosters agree, unless two of at least three session ids share a player id
  (`Roster.AgreementExact`, `Roster.CollisionDisagrees`); ids from 0x7fffffff on do
  (`Roster.DistinctPlayersExact`). A pair is never told about itself and always agrees.
- An entity record is read back, unless its mask announces a group that is never
  written or its unit type poses as a decoration or cargo box
  (`EntityCodec.EntityRoundTrip`, `EntityCodec.OutOfSyncExamples`).
- A typed login is read as name and password, unless the name has 255 characters, when
  it is read as an empty name (`Logins.TypedLogin`).
- A client can echo the key it was sent, unless the key is not ASCII or longer than
  255 characters (`Handshake.EchoOfSentKeyLinks`, `Handshake.AccentedKey`); keys made
  by the acceptor are 15 ASCII characters.
- A written value is read back, unless it is wider than 32 bits or a text longer
  than the reader's cap (`Cursors.ScriptRoundTrip`, `Cursors.UnreadableExamples`).
- A quantization level is recovered from its value, unless it is the non-zero level
  that stands for zero, the one with `(level - 1) * range == max * steps`
  (`Quantization.LevelRoundTrip`, `ActionInput.MiddleLevelLost`).
- A fixed-point value is read back within half a unit of its last place, unless its
  scaled value exceeds 32 bits (`BitStream.Fixed1616Accuracy`,
  `BitStream.FixedOverflow`); so for the place of a spawn (`SpawnRecord.SpawnTold`).

## Where code and comments differ

The model follows the code.

- A refused UDP reincarnation request sets the close flag of its step and leaves the
  connection open (src/dll/server/net/connection.cpp:307-309); the router only logs
  the flag (src/dll/server/net/acceptor.cpp:223-229). `Safety.UdpStepSafe` says so.
- The protocol version is called a hard gate, and is one if it is sent; a client that
  never sends it is not stopped (src/dll/server/net/connection.cpp:380-395).
- An update without entries is accepted although its last header field may be cut
  short (src/dll/server/net/action_input.cpp:54-83, `ActionInput.UpdateAccepted`).
- The world provider's entities are said to replace the map's fixtures as well as the
  players' own tanks (include/wfh/server/world_packets.hpp:71); the code sends them
  behind the fixtures (src/dll/server/net/world_packets.cpp:1007-1029).
- A dead length check in the datagram loop (src/dll/server/net/acceptor.cpp:323-325)
  is never taken: the first packet's length is positive and within the datagram.

## Model

| member | source | states |
|---|---|---|
| `Bits.UnpackPack` | src/dll/server/proto/bitstream.cpp:97-100 | packing bits into bytes and unpacking them gives the bits back with zeros up to the byte boundary |
| `Bits.PackUnpack` | src/dll/server/proto/bitstream.cpp:97-100 | unpacking bytes and packing them again is the identity |
| `BitStream.BitWriter.WriteBits` | src/dll/server/proto/bitstream.cpp:25-39 | whatever is in the partial byte, the bits written grow by exactly the low bits of the value, most significant first |
| `BitStream.BitWriter.WriteString` | src/dll/server/proto/bitstream.cpp:71-81 | length with terminator, the bytes with non-ASCII replaced, and a zero byte are appended |
| `BitStream.BitWriter.Align` | src/dll/server/proto/bitstream.cpp:89-95 | zero bits up to the next byte boundary and nothing else |
| `BitStream.BitWriter.WriteBytes` | src/dll/server/proto/bitstream.cpp:83-87 | the bytes are appended whole, from any partial byte |
| `BitStream.BitWriter.BitLength` | src/dll/server/proto/bitstream.cpp:102-104 | the number of bits written so far, which is the width of all fields |
| `BitStream.BitWriter.WriteFixed1616` | src/dll/server/proto/bitstream.cpp:65-69 | the value scaled by 65536, rounded half away from zero, as 32 bits |
| `BitStream.BitWriter.Bytes` | src/dll/server/proto/bitstream.cpp:97-100 | the bytes are the packing of everything written since construction |
| `BitStream.BitReader.ReadBits` | src/dll/server/proto/bitstream.cpp:114-135 | reads the next bits as a number or latches failure, never passing the end; a failed reader stays failed |
| `BitStream.BitReader.ReadByte` | src/dll/server/proto/bitstream.cpp:145-151 | eight bits, or failure |
| `BitStream.BitReader.ReadU16` | src/dll/server/proto/bitstream.cpp:153-159 | sixteen bits, or failure |
| `BitStream.BitReader.ReadI32` | src/dll/server/proto/bitstream.cpp:161-167 | thirty-two bits sign-extended, or failure |
| `BitStream.BitReader.ReadString` | src/dll/server/proto/bitstream.cpp:188-220 | a text of fewer than the allowed characters ending in its counted zero byte, or a latched failure |
| `BitStream.BitReader.ReadBytes` | src/dll/server/proto/bitstream.cpp:222-237 | that many whole bytes, or a latched failure when fewer are left |
| `BitStream.WriteScript` | src/dll/server/proto/bitstream.cpp:25-104 | any sequence of numbers, texts, raw bytes and alignments, written by one writer, is the packing of the ghost script of fields; the bit length is the script's width and the bytes are as many as hold it |
| `Cursors.ScriptRoundTrip` | src/dll/server/proto/bitstream.cpp:114-237 | the same sequence of reads returns every value written, if and only if every width is at most 32 and every text fits the cap |
| `Cursors.UnreadableExamples` | src/dll/server/proto/bitstream.cpp:114-220 | a 33-bit number and a 256-character text under the cap of 256 are not read back |
| `BitStream.Fixed1616Accuracy` | src/dll/server/proto/bitstream.cpp:65-69 | a fixed-point value is read back within half a unit of its last place if and only if its scaled value fits 32 bits; in any case what is read is its low 32 bits |
| `BitStream.FixedOverflow` | src/dll/server/proto/bitstream.cpp:65-69 | a coordinate of 40000 is read as -25536 |
| `Framing.TcpFrameAccumulator.Feed` | src/dll/server/proto/framing.cpp:44-63 | appends the chunk unless failed and latches failure exactly on an undersize header at the front |
| `Framing.TcpFrameAccumulator.Next` | src/dll/server/proto/framing.cpp:65-89 | pops the front frame when it is complete, leaves the buffer alone when it is not |
| `Framing.ParseEncoded` | src/dll/server/proto/framing.cpp:30-42 | a sequence of encoded frames parses back to itself, whatever follows |
| `Framing.ParseExact` | src/dll/server/proto/framing.cpp:65-89 | every stream is the encodings of its parsed frames followed by the rest, which is incomplete or bad |
| `Framing.Reassembly` | src/dll/server/proto/framing.cpp:44-89 | after any interleaving of Feed and Next the popped frames are a prefix of the one-shot parse of all bytes offered, and bytes taken are the popped frames re-encoded followed by the buffer |
| `Framing.FailureExact` | src/dll/server/proto/framing.cpp:44-89 | failure is latched exactly when the bytes looked at start with an undersize header |
| `Framing.DrainReachesAll` | src/dll/server/proto/framing.cpp:65-89 | enough Next calls pop the whole one-shot parse, and one more latches a bad stream |
| `Framing.UdpFrameRoundTrip` | src/dll/server/proto/framing.cpp:91-115 | a datagram decodes to a frame exactly when it is that frame encoded |
| `Quantization.QuantizeLevels` | src/dll/server/net/world_packets.cpp:247-259 | level 0 exactly for zero, and every level fits its field |
| `Quantization.QuantizeAntitone` | src/dll/server/net/world_packets.cpp:247-259 | away from zero a larger clamped value never gets a larger level |
| `Quantization.QuantizeError` | src/dll/server/net/world_packets.cpp:247-259 | the decoded value is at or above the clamped input by less than one step |
| `Quantization.LevelRoundTrip` | src/dll/server/net/world_packets.cpp:247-259 | a level is recovered from its value exactly when it is 0 or does not stand for zero, that is unless (level - 1) * range equals max * steps |
| `Quantization.RequantizeStable` | src/dll/server/net/world_packets.cpp:247-259 | quantizing a decoded value and decoding again changes nothing, for every level |
| `Quantization.FullPriorityWidth` | src/dll/server/net/world_packets.cpp:232-263 | at full priority a value takes the announced total width, but never less than the header can ask for |
| `Quantization.WriteQuantized` | src/dll/server/net/world_packets.cpp:265-280 | a priority header, capped at what it can hold, only when the settings have one, then the level at that priority |
| `Quantization.WriteVec3` | src/dll/server/net/world_packets.cpp:282-288 | one full-priority header and three levels |
| `EntityCodec.WriteEntity` | src/dll/server/net/world_packets.cpp:428-462 | appends exactly the fields the mask asks for, in order |
| `EntityCodec.EntityRoundTrip` | src/dll/server/net/world_packets.cpp:428-462 | the mask-driven client reader ends on the last bit of the record if and only if no unsent group is announced and no unit type poses as a decoration or cargo; then it has read id, manned flag, mask, type, team and all levels |
| `EntityCodec.EntitySeen` | src/dll/server/net/world_packets.cpp:428-462 | from a record in sync the client decodes position, rotation and health to less than one step above the clamped values, zero exactly |
| `EntityCodec.OutOfSyncExamples` | src/dll/server/net/world_packets.cpp:428-462 | two concrete records, an unsent group announced and a type 256 above a decoration, that the reader overruns |
| `EntityCodec.ListAt` | src/dll/server/net/world_packets.cpp:652-673 | in a list, record i+1 always starts where record i ended, for any number of records |
| `EntityCodec.BuildUpdateArray` | src/dll/server/net/world_packets.cpp:652-673 | opcode, timestamp for a view update, sequence, stats, the count cut at 255 and that many records |
| `EntityCodec.DatagramRoundTrip` | src/dll/server/net/world_packets.cpp:652-673 | the client reads back header, stat levels and every record that survives the cut |
| `EntityCodec.EntityFieldsWidth` | src/dll/server/net/world_packets.cpp:428-462 | the bit length of a record by mask and unit type |
| `EntityCodec.BuildViewUpdateSnapshot` | src/dll/server/net/world_packets.cpp:621-639 | the framed snapshot of any entity list, cut at 255 |
| `EntityCodec.SnapshotFits` | src/dll/server/net/world_packets.cpp:199-202 | for any entity list the body has at most 8365 bytes, so framing never falls back to empty bytes |
| `EntityCodec.SnapshotRoundTrip` | src/dll/server/net/world_packets.cpp:621-639 | the client reads every entity of the snapshot up to 255 with its definition, and both stat levels |
| `ActionInput.ReadChannelValue` | src/dll/server/net/action_input.cpp:31-48 | one bit for a digital channel, sixteen for an analog one, as a value |
| `ActionInput.DecodeActionUpdate` | src/dll/server/net/action_input.cpp:54-83 | the decoded update as a function of the body |
| `ActionInput.DecodeActionDump` | src/dll/server/net/action_input.cpp:85-106 | the decoded dump as a function of the body |
| `ActionInput.UpdateAccepted` | src/dll/server/net/action_input.cpp:54-83 | exactly which update bodies are accepted: at most 32 entries announced and, if there is one, a whole header and all entries; with none the last header field may be cut short |
| `ActionInput.DumpAccepted` | src/dll/server/net/action_input.cpp:85-106 | a dump is accepted exactly when it has at least 22 bytes |
| `ActionInput.UpdateRoundTrip` | src/dll/server/net/action_input.cpp:54-83 | decoding inverts the client encoding for any 0 to 32 entries on any 16-bit channels |
| `ActionInput.DumpRoundTrip` | src/dll/server/net/action_input.cpp:85-106 | decoding inverts the client encoding of a dump, for every value of the 21 channels |
| `ActionInput.ChangesInRange` | src/dll/server/net/action_input.cpp:54-83 | every decoded update value is within -1 and 1 |
| `ActionInput.DumpInRange` | src/dll/server/net/action_input.cpp:85-106 | every decoded dump value is within -1 and 1 |
| `ActionInput.AnalogIsDequantize` | src/dll/server/net/action_input.cpp:19-29 | the analog decoder is the inverse ramp of the quantizer on the client settings |
| `ActionInput.AnalogAccuracy` | src/dll/server/net/action_input.cpp:19-29 | an analog value arrives clamped and less than one step of 2/65534 higher; zero arrives exactly |
| `ActionInput.ZeroLevels` | src/dll/server/net/action_input.cpp:19-29 | exactly the levels 0 and 32768 decode to zero |
| `ActionInput.MiddleLevelLost` | src/dll/server/net/action_input.cpp:19-29 | level 32768 decodes to zero, which is sent as level 0 |
| `Queues.ConcurrentQueue.Push` | include/wfh/server/queues.hpp:72-79 | appends at the end |
| `Queues.ConcurrentQueue.TryPop` | include/wfh/server/queues.hpp:81-90 | takes from the front, nothing from an empty queue |
| `Queues.ConcurrentQueue.DrainAll` | include/wfh/server/queues.hpp:92-98 | returns everything in order and leaves it empty |
| `Queues.FirstInFirstOut` | include/wfh/server/queues.hpp:70-98 | over any run, what came out followed by what is queued is what went in: nothing lost, repeated or reordered |
| `Packets.FramedParse` | src/dll/server/net/bringup_packets.cpp:23-26 | a framed packet is whole frames: one under its opcode, or none when the payload is too long |
| `Packets.BuildAddToRoster` | src/dll/server/net/bringup_packets.cpp:162-176 | the roster record field by field |
| `Packets.BuildUdpUpdateStats` | src/dll/server/net/bringup_packets.cpp:224-238 | the stats record as a raw datagram |
| `Packets.BuildUpdateStatsFramed` | src/dll/server/net/world_packets.cpp:583-593 | the same stats record as one TCP frame |
| `Packets.UpdateStatsIsFrame` | src/dll/server/net/world_packets.cpp:583-593 | dropping the opcode byte of the raw record leaves exactly the body of the framed one |
| `Packets.StatsRead` | src/dll/server/net/bringup_packets.cpp:224-238 | a client reads from a stats record, over TCP or UDP, the player and the team written |
| `Packets.RosterRead` | src/dll/server/net/bringup_packets.cpp:162-176 | a client reads from a roster record the player, the team, the name with non-ASCII characters replaced, and an empty nametag |
| `Packets.WorldStatsLength` | src/dll/server/net/bringup_packets.cpp:151-160 | the payload length of the map packet, so when it fits a frame |
| `PacketBytes.SpellExact` | src/dll/server/proto/bitstream.cpp:25-97 | a packet of byte-aligned fields is, byte for byte, its fields spelled one after the other, whole numbers most significant byte first |
| `PacketBytes.UdpConfigBytes` | src/dll/server/net/bringup_packets.cpp:57-65 | the UDP settings packet byte by byte: port, flag and host |
| `PacketBytes.HelloBytes` | src/dll/server/net/bringup_packets.cpp:74-92 | the session key packet, the confirmation and IDENTIFIED_UDP byte by byte |
| `PacketBytes.RosterBytes` | src/dll/server/net/bringup_packets.cpp:162-176 | the roster record byte by byte |
| `PacketBytes.StatsBytes` | src/dll/server/net/bringup_packets.cpp:224-238 | the stats record byte by byte, raw and framed |
| `PacketBytes.AckBytes` | src/dll/server/net/connection.cpp:612-621 | the acknowledgement byte by byte |
| `PacketBytes.PongBytes` | src/dll/server/net/bringup_packets.cpp:215-222 | the answer to a ping byte by byte |
| `PacketBytes.StreamDefsBytes` | src/dll/server/net/bringup_packets.cpp:186-205 | the stream definitions byte by byte, with all names and configurations |
| `Connections.ReadLoginPayload` | src/dll/server/net/connection.cpp:421-443 | the text alone if the body reads as one, else type byte, name and perhaps password; the reader is left alone |
| `Connections.ReadUdpKeyEcho` | src/dll/server/net/connection.cpp:193-208 | the echoed key, if the body is a key echo |
| `Connections.ReadReincarnateRequest` | src/dll/server/net/connection.cpp:210-238 | the request, or nothing if it under-runs |
| `Connections.Connection.OnAccept` | src/dll/server/net/connection.cpp:251-262 | UDP settings, then the session key |
| `Connections.Connection.LinkUdpAndIdentify` | src/dll/server/net/connection.cpp:264-279 | links once, answers once, moves on only from AwaitingKeyEcho |
| `Connections.Connection.OnTcpData` | src/dll/server/net/connection.cpp:341-378 | new state, queued commands, answer and close flag are those of the protocol step, within the backlog and per-drain limits |
| `Connections.Connection.OnUdpPacket` | src/dll/server/net/connection.cpp:281-339 | new state, queued commands, answers and close flag are those of the protocol step |
| `Connections.Connection.HandleFrame` | src/dll/server/net/connection.cpp:623-690 | state, queue, answer and survival after one frame are those of the protocol; which frames survive, and what they do, is Survival.FrameSurvival and Survival.FrameEffects |
| `Connections.HandleAwaitingKeyEcho` | src/dll/server/net/connection.cpp:380-395 | only HELLO before the link, and a version, if sent, must match |
| `Connections.HandlePostLinkHello` | src/dll/server/net/connection.cpp:397-411 | after the link a HELLO must confirm or carry the version |
| `Connections.Connection.HandleLoginUsername` | src/dll/server/net/connection.cpp:457-476 | name taken, password asked for unless it came along |
| `Connections.Connection.HandleLoginPassword` | src/dll/server/net/connection.cpp:478-489 | the password completes the login |
| `Connections.Connection.CompleteLoginWithPassword` | src/dll/server/net/connection.cpp:445-455 | password and connection queued in that order, bring-up sent |
| `Connections.Connection.HandleUdpReincarnateRequest` | src/dll/server/net/connection.cpp:517-554 | queued and acknowledged, or refused |
| `Connections.Connection.HandleUdpActionInput` | src/dll/server/net/connection.cpp:556-580 | one command per change on a drivable channel, malformed bodies dropped |
| `Connections.Connection.QueueTeamReincarnate` | src/dll/server/net/connection.cpp:582-593 | queued exactly for teams 1 and 2 |
| `Connections.Connection.QueueSpawnReincarnate` | src/dll/server/net/connection.cpp:595-610 | queued exactly for non-negative ids |
| `Connections.Connection.EmitBringup` | src/dll/server/net/connection.cpp:692-709 | the ten packets after login, joined in order |
| `Sessions.EveryLife` | src/dll/server/net/connection.cpp:281-378 | for every run of one connection over arbitrary bytes: commands follow the login grammar and are well formed, TCP output is whole frames with one IDENTIFIED_UDP exactly if linked and each packet that belongs to the bring-up alone at most once and only after login (HELLO and LOGIN_STATUS are also sent before it) |
| `Sessions.PhaseShape` | src/dll/server/net/connection.cpp:445-489 | what the grammar means: user name, password, connection, WANT_UPDATES in order, then only requests and input |
| `Sessions.ActionCommandsFacts` | src/dll/server/net/connection.cpp:556-580 | queued input is on channels 0 to 21 with values within -1 and 1 |
| `Sessions.BringupExact` | src/dll/server/net/connection.cpp:692-709 | a completed login sends exactly the ten bring-up opcodes in order if and only if tables, map and user name fit a frame |
| `Sessions.BringupCounts` | src/dll/server/net/connection.cpp:692-709 | whatever fits, each bring-up opcode is sent at most once and no other |
| `Safety.TcpStepSafe` | src/dll/server/net/connection.cpp:341-378 | the close flag says exactly that the connection is now Closed, a live one holds at most 65536 bytes, and the answer is whole frames |
| `Safety.UdpStepSafe` | src/dll/server/net/connection.cpp:281-339 | a UDP packet never closes the connection; the exact condition for its close flag, and for linking |
| `Safety.RunOnward` | src/dll/server/net/connection.cpp:264-378 | over any run the state only moves forward, and session, settings and key never change |
| `Safety.ClosedIsFinal` | src/dll/server/net/connection.cpp:284-288 | a closed connection never sends, queues or reopens |
| `Safety.LinkedExactly` | src/dll/server/net/connection.cpp:318-339 | a session is linked if and only if, while it was not closed, a UDP HELLO arrived carrying exactly its key |
| `Safety.LiveMeansEchoed` | src/dll/server/net/connection.cpp:623-690 | a live state past AwaitingKeyEcho implies such an echo |
| `Safety.VerifiedMeansLoggedIn` | src/dll/server/net/connection.cpp:445-489 | a verified session has queued an accepted user name, then an accepted password, then its connection |
| `Safety.BacklogBounded` | src/dll/server/net/connection.cpp:349-357 | at every point of every run a connection that is not closed holds at most 65536 bytes |
| `Safety.OutputDrains` | src/dll/server/net/connection.cpp:251-378 | whatever is sent on accepting or by any step, a fresh accumulator drains to whole frames with an empty buffer and no failure |
| `Chunking.ChunkCloses` | src/dll/server/net/connection.cpp:341-378 | exactly when a chunk closes a live connection: more than 65536 bytes held, an undersize header in front, a refused frame among the first 256, or fewer than 256 frames ending in an undersize header |
| `Survival.FrameSurvival` | src/dll/server/net/connection.cpp:623-690 | state by state and from the bytes alone, exactly which frames a session survives: before the link a HELLO whose version, if stated, is right; then a HELLO confirmation or a readable LOGIN; logged in, every known packet but a BPS without a rate and, in the game, a request cut short or not allowed |
| `Survival.FrameEffects` | src/dll/server/net/connection.cpp:623-690 | a frame that survives changes nothing and answers nothing, except a login, a BPS, which is granted its own rate, WANT_UPDATES of a verified session, which enters the game, and a request in the game, which queues what its bytes ask for |
| `Survival.LoginEffects` | src/dll/server/net/connection.cpp:413-489 | from the bytes of a login alone: a name with a password verifies the session with exactly the three login commands and the bring-up, a name alone queues itself and is asked for the password, and then the second text, or the only one, is the password |
| `Survival.PacketEffects` | src/dll/server/net/connection.cpp:281-339 | from its bytes alone, what a UDP packet other than a handshake does to an open session: a ping is answered with its own four bytes, a request counts only in the game, input only there and only by queueing commands, the own key links once, and everything else does nothing at all |
| `Survival.UdpRequestTaken` | src/dll/server/net/connection.cpp:517-554 | from its bytes alone, which UDP request is refused, and that any other queues what it asks for and is acknowledged under the next sequence with its own, a team switch being reported |
| `Survival.RequestBytes` | src/dll/server/net/connection.cpp:210-238 | from its bytes alone, the team or the entry and base a request names |
| `Survival.HarmlessFramesBetween` | src/dll/server/net/connection.cpp:623-690 | with any harmless frames before, between and after echo, login and WANT_UPDATES, however the bytes are cut, a client ends in the game with exactly the four login commands queued and exactly accept burst, IDENTIFIED_UDP and bring-up sent |
| `Chunking.HandledIsPrefix` | src/dll/server/net/connection.cpp:264-378 | for any chunking, any limits hit and any UDP packets between, what a connection has done is what handling some prefix of the one-shot parse does, with the packets between in order, and a live one still holds exactly the frames after it |
| `Chunking.SessionIsActs` | src/dll/server/net/connection.cpp:264-378 | as long as no chunk exceeds the per-drain limits, a session is the handling of all frames of the one-shot parse in the order they become complete, every packet where it fell between them |
| `Chunking.ChunkingIndependent` | src/dll/server/net/connection.cpp:264-378 | two ways of cutting the same bytes with the packets between the same frames give the same state, commands and output |
| `Chunking.TcpOnlyActs` | src/dll/server/net/connection.cpp:341-378 | without packets the order is fixed by the bytes alone: the frames of the one-shot parse, and being cut off behind them if it ends in an undersize header |
| `Chunking.CutsIndependent` | src/dll/server/net/connection.cpp:341-378 | any two ways of cutting the same bytes without packets between give the same session |
| `Logins.ReadStringExact` | src/dll/server/proto/bitstream.cpp:188-220 | reading a text is exactly splitting length, bytes and zero off the front, byte for byte |
| `Logins.DirectLogin` | src/dll/server/net/connection.cpp:421-431 | a printable name of at most 255 characters alone reads as itself with no password, whatever follows |
| `Logins.TypedLogin` | src/dll/server/net/connection.cpp:421-443 | a type-0 body reads as name and password, trailing bytes ignored, exactly when the name has at most 254 characters; at 255 the direct reading wins with an empty name |
| `Logins.TypedLoginCompletes` | src/dll/server/net/connection.cpp:457-489 | one typed LOGIN verifies the session under that name with exactly the three login commands and the bring-up |
| `Logins.TwoStepLoginCompletes` | src/dll/server/net/connection.cpp:457-489 | name and password in two messages queue the same commands and end in the same state with the same bring-up |
| `Handshake.EchoOfSentKeyLinks` | src/dll/server/net/connection.cpp:251-279 | a client that echoes the key it was sent is linked if and only if the key is ASCII of at most 255 characters |
| `Handshake.AccentedKey` | src/dll/server/proto/bitstream.cpp:71-81 | with a one-byte non-ASCII key the client echoes a question mark and is never linked |
| `Handshake.FollowingTheProtocol` | tests/test_server_net.cpp:747-760 | echo, one typed login and WANT_UPDATES leave any client in the game, with exactly the four login commands queued and exactly accept burst, IDENTIFIED_UDP and bring-up sent |
| `Greetings.GreetingSpelled` | src/dll/server/net/connection.cpp:251-279 | everything such a client is sent, byte for byte: port and host of the UDP side, its key, IDENTIFIED_UDP and the ten packets of the bring-up with the login code 8, its own player id and name |
| `Greetings.BringupSpelled` | src/dll/server/net/connection.cpp:692-709 | the bring-up of any session, byte for byte |
| `Greetings.PasswordAsked` | src/dll/server/net/connection.cpp:457-476 | a name without a password is answered with the login code 1 |
| `Greetings.HandshakeAnswered` | src/dll/server/net/connection.cpp:281-299 | a UDP handshake of an open session is answered with its acknowledgement, the stream definitions under the session's player id and the unpausing of streams 1 and 3, in order and byte for byte, and changes nothing |
| `Handshake.SpawnRequestRead` | tests/test_server_net.cpp:270-281 | a spawn request is read as the client meant it, for every value |
| `Handshake.TeamRequestRead` | src/dll/server/net/connection.cpp:210-228 | a team request is read as the client meant it |
| `Handshake.RequestReadable` | src/dll/server/net/connection.cpp:210-238 | a request is readable exactly with 13 bytes, or 21 unless it asks for a team |
| `Handshake.AckRead` | tests/test_server_net.cpp:283-293 | an acknowledgement is nine bytes from which the client reads sequence, opcode and the acknowledged sequence |
| `Handshake.UdpSpawnRequest` | src/dll/server/net/connection.cpp:517-554 | a spawn request in the game queues exactly itself and is acknowledged under the next 16-bit sequence; a negative id changes nothing but the close flag |
| `Handshake.UdpTeamRequest` | src/dll/server/net/connection.cpp:517-554 | teams 1 and 2 are queued, acknowledged and reported to the sender; any other team changes nothing but the close flag |
| `Handshake.PingAnswered` | src/dll/server/net/connection.cpp:300-303 | a live session answers a ping in every state with its own timestamp and does nothing else |
| `Handshake.UpdateDelivered` | src/dll/server/net/connection.cpp:556-580 | an encoded update reaches the queue change by change, in order, with exactly the values it stands for; channels above 21 are dropped and the session is untouched |
| `Handshake.DumpDelivered` | src/dll/server/net/connection.cpp:556-580 | an encoded dump queues 21 commands, one per channel, with exactly their values |
| `UdpSplit.SplitDatagram` | src/dll/server/net/acceptor.cpp:316-331 | the loop over a datagram hands on the pieces of the specification |
| `UdpSplit.SplitCovers` | src/dll/server/net/acceptor.cpp:316-331 | the pieces are non-empty and joined give the datagram |
| `UdpSplit.CutExactly` | src/dll/server/net/acceptor.cpp:272-313 | a packet with more behind it is cut off exactly when it is a well-formed HELLO or HelloThere |
| `UdpSplit.SplitInverts` | src/dll/server/net/acceptor.cpp:272-331 | splitting inverts joining if and only if all packets but the last are well-formed handshake packets and the last is not cut |
| `Routing.EchoLinksLowest` | src/dll/server/net/acceptor.cpp:173-202 | a key echo links exactly the lowest live unlinked session with that key, sends it IDENTIFIED_UDP and keeps its endpoint; without one nothing changes |
| `Routing.EchoDatagramLinks` | src/dll/server/net/acceptor.cpp:173-331 | on the raw datagram: a key echo links exactly the lowest live unlinked session with that key and keeps where it came from; without one nothing changes |
| `Routing.LinkedPacketTaken` | src/dll/server/net/acceptor.cpp:209-258 | a datagram that is one known packet and no HELLO, raw or framed, and means nothing to a client not linked yet, gives the lowest session at its endpoint exactly one protocol step: its commands queued, its TCP output to its socket, its answers to that endpoint in order, and nothing else to anyone |
| `Routing.OtherPacketIgnored` | src/dll/server/net/acceptor.cpp:209-258 | an unknown packet, or one from an endpoint nobody has, changes nothing, unless it means something to a client not linked yet |
| `Routing.LowestOpenAnswers` | src/dll/server/net/acceptor.cpp:173-258 | while a session waits for its link, a raw handshake or ping from anyone is answered to its sender by the lowest open one of these, and nothing else changes |
| `Acceptors.Acceptor.AcceptNewConnection` | src/dll/server/net/acceptor.cpp:354-374 | a connection under the next id, greeted with the accept burst; the other clients are untouched |
| `Acceptors.Acceptor.PumpTcpClient` | src/dll/server/net/acceptor.cpp:400-422 | one client steps, the others keep their state, and it is dead exactly when the step says so |
| `Acceptors.Acceptor.TryLinkUdpFrame` | src/dll/server/net/acceptor.cpp:173-202 | unlinked clients in order of id until one links or answers |
| `Acceptors.Acceptor.TryRouteLinkedUdpFrame` | src/dll/server/net/acceptor.cpp:209-230 | the handling of a linked client's packet, which Routing.LinkedPacketTaken and Routing.OtherPacketIgnored characterise |
| `Acceptors.Acceptor.HandleOneUdpPacket` | src/dll/server/net/acceptor.cpp:233-258 | both framings are tried for linking and routing in order |
| `Acceptors.Acceptor.HandleUdpDatagram` | src/dll/server/net/acceptor.cpp:316-331 | every piece of the datagram is handled once, in order |
| `Acceptors.Acceptor.ReapClients` | src/dll/server/net/acceptor.cpp:472-487 | every listed live client is removed and announced once, repeats and unknown ids ignored |
| `Acceptors.Acceptor.FlushOutboundMessages` | src/dll/server/net/acceptor.cpp:442-470 | clients and queue as after sending every message in order; what each socket and endpoint gets is Sockets.FlushReaches, Endpoints.FlushDatagrams and Endpoints.NoEndpointNoDatagram |
| `Delivery.DatagramIsRun` | src/dll/server/net/acceptor.cpp:173-331 | a datagram, however split and routed, amounts to a run of single deliveries in clients, queue and everything sent, over TCP and UDP and in order, and endpoints stay known exactly for linked sessions |
| `Delivery.ReapIsRun` | src/dll/server/net/acceptor.cpp:472-487 | reaping a list is reaping its clients one by one, each announced once, with nothing sent |
| `Delivery.PumpIsRun` | src/dll/server/net/acceptor.cpp:400-422 | bytes on a socket are one delivery, and what it answers, to that socket alone, is all that is sent |
| `Delivery.AcceptIsRun` | src/dll/server/net/acceptor.cpp:354-374 | accepting takes the next id and sends the accept burst to its socket and nothing else |
| `Server.CommandGrammar` | src/dll/server/net/connection.cpp:445-489 | through the shared queue, every session is a prefix of the login commands, then requests and input, with at most one Disconnected at the end |
| `Server.QueueWellFormed` | src/dll/server/net/connection.cpp:556-610 | every command ever queued is well formed and carries an id that was given out |
| `Interleaving.NoStrayCommand` | src/dll/server/net/world_packets.cpp:730-759 | for any interleaving of network steps, single pushes and ticks, the bridge never takes WANT_UPDATES, a request or input for an absent session, nor a second connection |
| `Interleaving.SiteInStep` | include/wfh/server/queues.hpp:70-98 | for any interleaving, even with a drain between two pushes of one network step, commands taken, commands queued and commands about to be queued are all those the network produced, in order, and the bridge is in the state its events lead to |
| `Interleaving.TakesPrefix` | include/wfh/server/queues.hpp:70-98 | at every moment, also between two pushes of one network step, the bridge has taken a prefix of what the network produced |
| `Server.WorldMirrors` | src/dll/server/net/world_packets.cpp:744-759 | a session is in the world exactly between its connection and its disconnection |
| `Server.EventAddressed` | src/dll/server/net/world_packets.cpp:730-1124 | everything the bridge pushes is addressed to a session it has |
| `Interleaving.SilentAfterDisconnect` | src/dll/server/net/world_packets.cpp:808-814 | for any interleaving, from the moment a Disconnected is handled nothing is ever pushed to that session |
| `Interleaving.ServerRosterAgreement` | src/dll/server/net/world_packets.cpp:773-873 | end to end, for any interleaving and after every event: up to 2147483647 accepted sessions, whatever they send, every live client roster gives every other session's name and team as the bridge keeps them |
| `Interleaving.DrivesInRange` | src/dll/server/net/world_packets.cpp:761-771 | for any interleaving, every input call that reached the engine is on channels 0 to 21, within -1 and 1, and for the tank the sending session had spawned when its command was handled |
| `Bridge.MvpOnlineBridge.LoadMapBootstrap` | src/dll/server/net/world_packets.cpp:924-992 | fixtures from the lines, then fallback pads for teams without one |
| `Bridge.MvpOnlineBridge.AddSession` | src/dll/server/net/world_packets.cpp:773-793 | a second connection is ignored; a first one adds a team-less record and introduces it both ways |
| `Bridge.MvpOnlineBridge.EmitRosterCatchup` | src/dll/server/net/world_packets.cpp:994-1005 | one roster record each way per other session, in id order; whose name and team they carry is Answers.JoinAnswered |
| `Bridge.MvpOnlineBridge.MarkWantUpdates` | src/dll/server/net/world_packets.cpp:795-806 | sets the flag of a known session |
| `Bridge.MvpOnlineBridge.RemoveSession` | src/dll/server/net/world_packets.cpp:808-814 | removes the session and tells nobody |
| `Bridge.MvpOnlineBridge.HandleTeamSwitch` | src/dll/server/net/world_packets.cpp:846-873 | new team stored, sender answered, every peer told; an invalid team changes nothing |
| `Bridge.MvpOnlineBridge.HandleReincarnate` | src/dll/server/net/world_packets.cpp:816-844 | team switch, spawn on the resolved pad, or refusal |
| `Bridge.MvpOnlineBridge.SpawnOnPad` | src/dll/server/net/world_packets.cpp:875-922 | entity on the pad under the engine or the next id, notices to the player and birth notice to all |
| `Bridge.MvpOnlineBridge.HandleActionInput` | src/dll/server/net/world_packets.cpp:761-771 | drives the own tank of a spawned session when an engine is hosted |
| `Bridge.MvpOnlineBridge.HandleCommand` | src/dll/server/net/world_packets.cpp:744-759 | one command as a step of the world |
| `Bridge.MvpOnlineBridge.EmitSnapshots` | src/dll/server/net/world_packets.cpp:1057-1124 | one round of snapshots as a step of the world, sessions in id order; who is shown what is in Sights |
| `Bridge.MvpOnlineBridge.Tick` | src/dll/server/net/world_packets.cpp:730-742 | all queued commands in order, then one round of snapshots: the new world, every message pushed and every input call made, each in the world its command met; the queue is left empty |
| `History.TickIsRun` | src/dll/server/net/world_packets.cpp:730-742 | a tick is a run of single events: its commands in order and then one round of snapshots, all under the sequence of the tick |
| `History.SessionsAfter` | src/dll/server/net/world_packets.cpp:744-759 | exactly which events add or remove a session |
| `Answers.JoinAnswered` | src/dll/server/net/world_packets.cpp:773-793 | a connection adds a session under its player id with no team, its name or a numbered one, and nothing else; the newcomer gets one record of every other session in id order, each of them one of the newcomer, byte for byte |
| `Answers.TeamSwitchAnswered` | src/dll/server/net/world_packets.cpp:846-873 | a request for team 1 or 2 changes that team alone; its sender gets the code 17, every other session one stats record of the player with the new team, and nobody more |
| `Answers.InvalidTeamAnswered` | src/dll/server/net/world_packets.cpp:846-873 | any other team gets the code 18 and changes nothing |
| `Answers.NoPadAnswered` | src/dll/server/net/world_packets.cpp:816-844 | without a pad of its team a spawn request gets the code 4 and changes nothing |
| `Answers.SpawnAnswered` | src/dll/server/net/world_packets.cpp:816-922 | with one, a full tank stands on its player's lane beside the pad chosen by selected id, base or order, under the engine's or the next id; the sender gets the spawn notice, the code 0 and a birth notice of its player, every other session the birth notice |
| `Answers.LanesApart` | src/dll/server/net/world_packets.cpp:875-922 | tanks on one pad stand on one of six lanes 100 apart, on the same one exactly when their player ids agree modulo 6 |
| `Answers.QuietCommands` | src/dll/server/net/world_packets.cpp:744-814 | every other command tells nobody anything and touches at most its own session |
| `Records.RecordsFollowCommands` | src/dll/server/net/world_packets.cpp:744-922 | after any run of lawful commands every session's player id, name, team, wish for updates and having a tank are what its own commands alone made them |
| `Records.ServerRecords` | src/dll/server/net/world_packets.cpp:744-922 | the same for the whole server, for any interleaving and after every event |
| `Records.InputsArrive` | src/dll/server/net/world_packets.cpp:761-771 | with an engine hosted, exactly the inputs whose session has a tank by then reach it, once each and in order, for that tank with their own channel and value |
| `Records.NoEngineNoCall` | src/dll/server/net/world_packets.cpp:761-771 | without an engine no input call is made |
| `Introduction.EmissionContents` | src/dll/server/net/world_packets.cpp:1057-1124 | datagram by datagram: an 0x0E from which the client reads every other dynamic entity in order, cut at 255 and left out when there is none, then an 0x0F from which it reads the clock, exactly its own entity, and that entity's health and energy |
| `Introduction.EmissionKeepsDiscipline` | src/dll/server/net/world_packets.cpp:1057-1124 | memory and client stay in step across a round if and only if no entity beyond the 255th is first met in that list |
| `Introduction.IntroductionDiscipline` | src/dll/server/net/world_packets.cpp:1057-1124 | over whole runs every client sees each entity first with its full definition and later with position and rotation only, and the memory of its session is the set of ids it was sent, if and only if no round loses a first mention to the cut |
| `Introduction.EntryMapContents` | src/dll/server/net/world_packets.cpp:1007-1091 | before it spawns a session gets one reliable frame per round, from which it reads full stats and fixtures then dynamic entities, in order, with full definitions, up to 255 |
| `Introduction.FewOthersSuffice` | src/dll/server/net/world_packets.cpp:652-673 | with at most 255 dynamic entities a round loses nothing |
| `Introduction.FewOthersAlwaysRemember` | src/dll/server/net/world_packets.cpp:652-673 | over whole runs, rounds of at most 255 dynamic entities keep every client in step |
| `Sights.RoundShowsTanks` | src/dll/server/net/world_packets.cpp:1007-1124 | after any run, a round without an engine world shows an in-game client the kept tank of every spawned session whose tank id is not its own, in id order and up to 255, then its own with the clock, and nothing else |
| `Sights.EverybodySeen` | src/dll/server/net/world_packets.cpp:1007-1124 | after any run without an engine from any map, that is the tank of every other spawned session, and its own |
| `Sights.EntryMapShowsTanks` | src/dll/server/net/world_packets.cpp:1007-1091 | a client still on the entry map is shown the fixtures and then the tanks of all spawned sessions in id order |
| `Sights.UnwantedUnshown` | src/dll/server/net/world_packets.cpp:1076-1079 | a client that has not asked for updates is shown nothing |
| `Sights.RoundShowsProvided` | src/dll/server/net/world_packets.cpp:1007-1124 | with an engine world a round shows an in-game client exactly that world but its own entity, in order and up to 255, then its own: the last with its id there, or the kept tank if there is none |
| `Sights.EntryMapShowsProvided` | src/dll/server/net/world_packets.cpp:1007-1091 | with an engine world the entry map shows the fixtures and then that world |
| `Crowd.CrowdLosesOne` | src/dll/server/net/world_packets.cpp:1057-1124 | from every map, a run in which one player joins, spawns and is shown 256 others, after which its client has been sent an entity without ever having been sent its definition |
| `Roster.RosterAgreement` | src/dll/server/net/world_packets.cpp:773-873 | under any interleaving of joins, leaves, rejoins, team switches and snapshots, every live client folding its byte stream knows every other live session's team and name, with an empty nametag, as long as no two sessions beside it share a player id |
| `Roster.AgreementExact` | src/dll/server/net/world_packets.cpp:573-581 | over any session ids, all runs agree if and only if no two of them share a player id or there are at most two |
| `Roster.DistinctOthersExact` | src/dll/server/net/world_packets.cpp:573-581 | two sessions beside a viewer can share a player id exactly when two of at least three ids do |
| `Roster.DistinctPlayersExact` | src/dll/server/net/world_packets.cpp:573-581 | player ids are shared exactly by session ids from 0x7fffffff on |
| `Roster.CollisionDisagrees` | src/dll/server/net/world_packets.cpp:573-581 | a concrete run with a shared player id after which a roster is wrong |
| `Server.SilentBeforeJoin` | src/dll/server/net/world_packets.cpp:730-1124 | until a session's connection has been handled nothing is pushed to it |
| `Server.SinceHoldsAll` | src/dll/server/net/world_packets.cpp:773-793 | all messages ever addressed to a live session were pushed since it joined |
| `Roster.StreamIsMessages` | src/dll/server/net/world_packets.cpp:994-1005 | the reliable byte stream parses to the frames of the messages, in order |
| `ClientStream.OwnStep` | src/dll/server/net/connection.cpp:281-378 | whatever arrives, the player records in a connection's own output are about its own player only |
| `ClientStream.WholeStreamAgrees` | src/dll/server/net/world_packets.cpp:773-873 | however a live client's TCP stream mixes its connection's output with the messages of the bridge, the roster folded from all of it gives every other live session's name and team |
| `Sockets.FlushReaches` | src/dll/server/net/acceptor.cpp:442-470 | a flush writes to a live session's socket its reliable messages, in order, and to no other socket anything |
| `Sockets.SocketIsStream` | src/dll/server/net/acceptor.cpp:354-470 | everything written to one socket, in order, is its connection's answers and the messages flushed to it, each whole and in its place |
| `Sockets.FlushedAreWritten` | src/dll/server/net/acceptor.cpp:442-470 | of the messages flushed so far a live session has been written exactly those addressed to it, in order, none dropped |
| `Sockets.ServerSocketAgreement` | src/dll/server/net/acceptor.cpp:694-713 | end to end at the socket: for any interleaving of both threads and the flushes, the bytes written to a live client are whole frames, and the roster folded from them gives names and teams as the bridge had them at the messages flushed |
| `Endpoints.FlushDatagrams` | src/dll/server/net/acceptor.cpp:432-470 | a flush sends to an endpoint that one live session has exactly that session's unreliable messages, whole and in order |
| `Endpoints.NoEndpointNoDatagram` | src/dll/server/net/acceptor.cpp:432-470 | to an endpoint no live session has, a flush sends nothing |
| `Endpoints.RepliesNoUpdates` | src/dll/server/net/connection.cpp:281-378 | no answer of a connection over UDP is an entity update |
| `Endpoints.EndpointIsStream` | src/dll/server/net/acceptor.cpp:173-470 | for any interleaving, the entity updates sent to an endpoint that only one session ever had are exactly those among its flushed unreliable messages, whole, in order and none lost |
| `Endpoints.ServerEndpointDiscipline` | src/dll/server/net/acceptor.cpp:694-713 | end to end at the endpoint: the records a live client reads from the datagrams it was sent introduce every entity before updating it, and the bridge remembers exactly the ids read, as of the messages flushed |
| `Spawning.BootstrapPads` | src/dll/server/net/world_packets.cpp:924-992 | from any state file, teams 1 and 2 each own a repair pad and fixtures are numbered from 1 |
| `Fixtures.LinesStand` | src/dll/server/net/world_packets.cpp:931-954 | every usable line gives one fixture with its type, team, place and rotation, in order and numbered from 1, and other lines give nothing |
| `Fixtures.BootstrapStands` | src/dll/server/net/world_packets.cpp:924-992 | behind them exactly one spare pad for team 1 and one for team 2 where no line held one, placed by the land |
| `Spawning.ResolveExact` | src/dll/server/net/world_packets.cpp:1031-1055 | the resolved pad is the first of the team with the selected id if there is one, else the first with the id of the base, else the first of all, and none exactly if the team has none |
| `Spawning.SpawnExact` | src/dll/server/net/world_packets.cpp:816-922 | a spawn request succeeds if and only if the team owns a pad; otherwise the world is unchanged |
| `Spawning.SpawnGuarantee` | src/dll/server/net/world_packets.cpp:816-992 | from any map, after any run, every spawn request of a team 1 or 2 session succeeds |
| `Spawning.IdsNeverReused` | src/dll/server/net/world_packets.cpp:875-992 | without an engine, ids are handed out in strictly increasing order and all tanks and fixtures have distinct ids below the next |
| `SpawnRecord.SpawnTold` | src/dll/server/net/world_packets.cpp:675-692 | the first message of a spawn is one TANK_SPAWN frame from which the client reads the sequence, the id and team the bridge keeps, exactly when they fit their fields, and the place within 1/131072 if and only if every scaled coordinate fits 32 bits |
| `SpawnRecord.NoticeRead` | src/dll/server/net/world_packets.cpp:675-692 | whatever is spawned where, the client reads every field of the notice as its low bits, coordinates as their fixed-point values |
| `HexDump.HexDumpBytes` | src/dll/server/net/dev_console.cpp:107-130 | the dump text, line by line |
| `HexDump.ParseDump` | tools/dev_poke.py:86-96 | the bytes the parser takes from a text |
| `HexDump.DumpRoundTrip` | tools/dev_poke.py:86-96 | for every address and bytes, parsing the dump gives the bytes back, whatever the ASCII column holds |
| `HexDump.DumpLine` | src/dll/server/net/dev_console.cpp:107-130 | every line names the address of its first byte and shows its characters between bars, a dot for each that has none |
| `HexDump.ParseHexBytes` | src/dll/server/net/dev_console.cpp:88-105 | an even, non-empty, short enough run of hex digits, or nothing |
| `HexDump.HexBytesExact` | src/dll/server/net/dev_console.cpp:88-105 | accepted exactly when every character is a hex digit |
| `HexDump.SpellRoundTrip` | src/dll/server/net/dev_console.cpp:88-105 | bytes spelled in hex parse back |

## Left out

- Float rounding: `float` and `double` are `real`; `WriteFloat`, `ReadFloat` and `ReadFixed1616` have no counterpart.
- Sockets, select, binding, start and stop, timing: the acceptor's methods take what the sockets delivered and return what would be sent, in order. The order of accept, receive, flush and reap within one loop of `Acceptor::Run` is not modelled; the theorems hold for every order.
- BitStream.BitWriter.WriteFixed1616: scaled values beyond the range of a 64-bit integer, which the source's rounding leaves undefined, wrap here like all others.
- Locks and condition variables: a queue operation takes effect at once, as the mutex makes it.
- 64-bit session ids, `next_entity_id_` and collection sizes do not wrap around: they are unbounded here.
- Random session keys are inputs of `AcceptNewConnection`; nothing is assumed about them, not even that they differ.
- Clock, world provider, engine spawn handler and hosting are inputs of a tick; input calls to the engine are recorded, the arguments of its spawn handler are not.
- Map files: a state file is its parsed lines and the land summary is an input; `ParseStateEntityLine`, `ReadLandSummary` and path handling are not part of this model.
- `BuildTeamInfo`, `BuildBehavior` and `BuildTranslation`: constant tables; their bodies are arbitrary byte sequences of the configuration.
- The remaining packet builders of bringup_packets.cpp are field lists in `Packets` instead of methods on a writer; only the roster and stats builders are methods.
- Velocity and spin of an entity snapshot: no mask the server uses sends them, and `WriteEntity` never writes them.
- Routing.PacketOf: both framings of a UDP packet are tried as the code tries them, but no claim is made that the guess between them is right; an answer to a packet of several meanings is only modelled.
- Acceptors.Acceptor.FlushOutboundMessages: sending to a socket is taken to succeed.
- Sockets.ServerSocketAgreement: runs in which `SetPlayerId` is called are excluded; nothing in the repository calls it.
- HexDump.ParseDump: the regular expression of the parser is written out as a scanner, and its trimming of trailing blanks is absorbed by splitting into tokens.
- `ParseHexU32` and the rest of the developer console, `WorldBootstrap`, config parsing, logging, the injected engine glue, loader and crash guards.
- ClientStream.WholeStreamAgrees: a connection that was given another player id by `SetPlayerId` is excluded; nothing in the repository calls it.
- Endpoints.EndpointIsStream: an endpoint that two sessions have had is excluded; its datagrams do not say whose they are.
- Sights.RoundShowsTanks: tank ids outside the 32-bit field of a record are excluded here; without an engine ids count up from 1.
- Departure of a session is not announced to its peers, in the code as in the model; rosters are compared for live sessions only.
