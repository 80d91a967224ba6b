# w3g-info in Dafny

w3g-info collects and rates games of the Warcraft III custom map Island
Defense. It is a set of small services joined by a publish/subscribe bus,
plus a shared library. This project models the core of each one:

- **Replay parser** (`w3g-common/src/parser/parser.rs`). It reads a `.w3g`
  replay file. The file has an uncompressed header, then zlib blocks. The
  model covers the header and the byte stream over the inflated blocks,
  with its buffer and refills. It also covers the game header with its
  player, game and slot records, the replay blocks, the commands inside tick
  blocks, and every arm of the action decoder, including the flag and enum
  decoders.
  - `ReplayParser.ReplayStream` is a class whose methods mirror the stream
    methods of the source, with the corrected action counts of "## Findings".
  - Each method is proved equal to a pure function on a stream value
    (`ReplayStreams`, `ReplayDecode`).
  - Those functions are in turn related to the flat sequence of bytes the
    stream can still deliver (`Readable`).
  - `ReplayAccounting`, `ReplayLoops` and `ReplayFindings` relate the
    `bytes_read` counters of the action and command loops to the bytes that
    are actually consumed.
- **Rating service** (`w3g-rating-ms/src/main.rs`). It turns a parsed replay
  and the player list of the game page into a game result:
  - who played builder,
  - who played titan,
  - which side won, decided from the map script's `ID.D` sync records.

  It also applies the rule that a titan win after more than one hour counts
  as a tie (`GameResult`, with `Collections.ZipMap` for the slot map).
- **Rating maths** (`w3g-common/src/rating/mod.rs`). Both teams are padded to
  the least common multiple of their sizes. They are rated with the
  winners ranked first, then cut back. The "potential ratings" of both
  outcomes are keyed by player (`Rating`).
- **Lobby service** (`w3g-lobby-ms/src/main.rs` and its engine copy
  `w3g-lobby-ms/src/engine/ent.rs`). It parses the `|`-separated game list
  and finds the game a bot hosts (`LobbyText`). It numbers the slots of the
  lobby table and keeps a five-second cache of the result (`LobbySlots`).
- **Stats service** (`w3g-stats-ms/src/main.rs`). A player-statistics store
  keyed by (name, realm) serves look-ups for single players and for whole
  lobbies, and adds each game result to the records of its players
  (`Stats`, on the shared records of `PubSubModel`).
- **Downloader** (`w3g-downloader-ms/src/main.rs`). It reads game ids from the
  250 listing pages. It keeps a window [min, max] of the ids it has already
  handled and handles only ids outside it. It records one status document per
  handled id (`Downloader`).

Rust strings are modelled as their UTF-8 bytes (`Bytes.Text`). The source
panics on arithmetic overflow in debug builds. Where that can happen, the
model has an explicit error outcome (`ParseError.Overflow`,
`LobbySlots.IndexOverflow`), or it says below why the bound is not modelled.
Network, database and bus traffic become parameters of the model: fetched
pages, a map of stored documents, a function giving each id's download
outcome, and a rater function.

## Model

| member | source | states |
|---|---|---|
| Bytes.LeUintOfLeBytes | w3g-common/src/parser/parser.rs:161-169 | decoding the little-endian bytes of any value that fits in `n` bytes gives the value back |
| Bytes.LeBytesOfLeUint | w3g-common/src/parser/parser.rs:161-169 | encoding the value of any byte string gives the byte string back, so fixed-width reads lose nothing |
| Bytes.ToI32 | w3g-common/src/parser/parser.rs:156-159 | a signed dword lies in the `i32` range and agrees with the unsigned dword modulo 2^32 |
| Bytes.AsciiIsUtf8 | w3g-common/src/parser/parser.rs:181-193 | every ASCII text passes the UTF-8 check that the string readers apply |
| Bytes.ParseU8 | w3g-lobby-ms/src/engine/ent.rs:31-33 | `parse::<u8>` succeeds only with a value below 256, and rejects empty text |
| Bytes.ParseU8OfDecimal | w3g-lobby-ms/src/engine/ent.rs:31-33 | parsing the decimal spelling of any byte value returns that value |
| ReplayStreams.Refill | w3g-common/src/parser/parser.rs:111-131 | with no block left the state is unchanged; otherwise exactly one block is used up, so refilling always ends |
| ReplayStreams.NextByteReadable | w3g-common/src/parser/parser.rs:133-149 | one round of the read loop succeeds exactly when a byte is readable, and yields the first one |
| ReplayStreams.TakeReadable | w3g-common/src/parser/parser.rs:133-149 | `read_bytes(n)` succeeds exactly when `n` bytes are readable; it returns the first `n` and leaves the rest readable |
| ReplayStreams.TakeFromBuffer | w3g-common/src/parser/parser.rs:133-149 | a read the buffer can serve pops its front `n` bytes and inflates no block |
| ReplayStreams.UnsignedByteReadable | w3g-common/src/parser/parser.rs:176-179 | a byte read succeeds exactly when a byte is readable, and takes the first one |
| ReplayStreams.UintReadable | w3g-common/src/parser/parser.rs:161-174 | word, dword and qword reads succeed exactly when their width is readable; they return the little-endian value of exactly those bytes |
| ReplayStreams.UnsignedWord | w3g-common/src/parser/parser.rs:171-174 | a word is below 2^16 and consumes input |
| ReplayStreams.UnsignedDword | w3g-common/src/parser/parser.rs:161-164 | a dword is below 2^32 and consumes input |
| ReplayStreams.UnsignedQword | w3g-common/src/parser/parser.rs:166-169 | a qword is below 2^64 and consumes input |
| ReplayStreams.SignedDword | w3g-common/src/parser/parser.rs:156-159 | a signed dword lies in [-2^31, 2^31) |
| ReplayStreams.SignedDwordReadable | w3g-common/src/parser/parser.rs:156-159 | a signed dword succeeds exactly when four bytes are readable; it is `ToI32` of their little-endian value, and the bytes after them stay readable |
| ReplayStreams.Float32 | w3g-common/src/parser/parser.rs:151-154 | a float is four bytes of input |
| ReplayStreams.Float32Readable | w3g-common/src/parser/parser.rs:151-154 | a float succeeds exactly when four bytes are readable; it is those four bytes, and the bytes after them stay readable |
| ReplayStreams.Encoded | w3g-common/src/parser/parser.rs:195-208 | an encoded string is returned with its terminating 0, unchecked |
| ReplayStreams.EncodedReadable | w3g-common/src/parser/parser.rs:195-208 | an encoded string succeeds exactly when a 0 is readable; it is the bytes before the first 0 followed by that 0, and what follows the 0 stays readable |
| ReplayStreams.UntilNulReadable | w3g-common/src/parser/parser.rs:181-193 | the string loop succeeds exactly when a 0 is readable; it returns the bytes before the first 0 and consumes the 0 |
| ReplayStreams.UntilNulFromBuffer | w3g-common/src/parser/parser.rs:181-193 | a string the buffer already holds with its 0 is read without inflating a block |
| ReplayStreams.NulTerminatedReadable | w3g-common/src/parser/parser.rs:181-193 | a NUL-terminated read succeeds exactly when a 0 is readable and the bytes before it are UTF-8 |
| ReplayStreams.NulTerminatedRoundTrip | w3g-common/src/parser/parser.rs:181-193 | writing a UTF-8 text without 0 followed by a 0, then reading it, returns the text and leaves what follows |
| ReplayParser.ReplayStream.FromFile | w3g-common/src/parser/parser.rs:102-109 | a new stream has an empty buffer in front of all the file's blocks |
| ReplayParser.ReplayStream.DecompressData | w3g-common/src/parser/parser.rs:111-131 | the result and the new state are those of `Refill` on the old state |
| ReplayParser.ReplayStream.ReadBytes | w3g-common/src/parser/parser.rs:133-149 | the loop that pops and refills ends with the result and state of `Take`, so `TakeReadable` applies to it |
| ReplayParser.ReplayStream.ReadUnsignedByte | w3g-common/src/parser/parser.rs:176-179 | result and new state are those of `UnsignedByte` |
| ReplayParser.ReplayStream.ReadUnsignedWord | w3g-common/src/parser/parser.rs:171-174 | result and new state are those of `UnsignedWord` |
| ReplayParser.ReplayStream.ReadUnsignedDword | w3g-common/src/parser/parser.rs:161-164 | result and new state are those of `UnsignedDword` |
| ReplayParser.ReplayStream.ReadUnsignedQword | w3g-common/src/parser/parser.rs:166-169 | result and new state are those of `UnsignedQword` |
| ReplayParser.ReplayStream.ReadSignedDword | w3g-common/src/parser/parser.rs:156-159 | the result and new state are those of `SignedDword`: it succeeds exactly when four bytes are readable, and returns `ToI32` of their little-endian value and leaves the bytes after them |
| ReplayParser.ReplayStream.ReadFloat32 | w3g-common/src/parser/parser.rs:151-154 | the result and new state are those of `Float32`: it succeeds exactly when four bytes are readable, and returns those four bytes and leaves the bytes after them |
| ReplayParser.ReplayStream.ReadUntilNul | w3g-common/src/parser/parser.rs:181-193 | the byte loop shared by both string readers ends with the result and state of `UntilNul` |
| ReplayParser.ReplayStream.ReadNullTerminatedString | w3g-common/src/parser/parser.rs:181-193 | result and new state are those of `NulTerminated`, so `NulTerminatedReadable` applies |
| ReplayParser.ReplayStream.ReadEncodedString | w3g-common/src/parser/parser.rs:195-208 | the result and new state are those of `Encoded`: it succeeds exactly when a 0 is readable, and returns the bytes up to and including the first 0, leaving what follows it |
| ReplayParser.ReplayStream.ExtractPlayerRecord | w3g-common/src/parser/parser.rs:248-268 | result and new state are those of `PlayerRecordAt` |
| ReplayParser.ReplayStream.ExtractSlotRecord | w3g-common/src/parser/parser.rs:324-339 | the result and new state are those of `SlotRecordAt`: it succeeds exactly when nine bytes are readable, and the nine fields are those bytes in declaration order, all nine taken |
| ReplayParser.ReplayStream.ExtractSlotRecords | w3g-common/src/parser/parser.rs:302-305 | the slot loop ends with the result and state of `count` repeated slot reads |
| ReplayParser.ReplayStream.ExtractGameRecord | w3g-common/src/parser/parser.rs:294-322 | result and new state are those of `GameRecordAt` |
| ReplayParser.ReplayStream.ExtractPlayers | w3g-common/src/parser/parser.rs:222-229 | the player loop ends with the result and state of `PlayersLoop` |
| ReplayParser.ReplayStream.ExtractGameHeader | w3g-common/src/parser/parser.rs:210-246 | result and new state are those of `GameHeaderAt` |
| ReplayParser.ReplayStream.ExtractGameObject | w3g-common/src/parser/parser.rs:1334-1337 | result and new state are those of `GameObjectAt` |
| ReplayParser.ReplayStream.ExtractGameObjects | w3g-common/src/parser/parser.rs:690-709 | the object loop of the selection arms ends with `count` repeated object reads |
| ReplayParser.ReplayStream.ExtractUnitInventory | w3g-common/src/parser/parser.rs:270-280 | result and new state are those of `InventoryAt` |
| ReplayParser.ReplayStream.ExtractUnitAbilities | w3g-common/src/parser/parser.rs:282-292 | result and new state are those of `AbilitiesAt` |
| ReplayParser.ReplayStream.ReadField | w3g-common/src/parser/parser.rs:501-1332 | one field of an arm is read as `FieldAt` says |
| ReplayParser.ReplayStream.ReadFields | w3g-common/src/parser/parser.rs:501-1332 | the reads of one match arm, in order, give the result and state of `FieldsAt` |
| ReplayParser.ReplayStream.ExtractAction | w3g-common/src/parser/parser.rs:506-1329 | the loop body (an id, then the arm it selects) gives the result and state of `ActionAt` |
| ReplayParser.ReplayStream.ExtractActions | w3g-common/src/parser/parser.rs:501-1332 | the counted action loop gives the result and state of `Actions`, where each action adds its byte count |
| ReplayParser.ReplayStream.ExtractCommand | w3g-common/src/parser/parser.rs:479-499 | one command (player id, byte count, actions) gives the result and state of `CommandAt` |
| ReplayParser.ReplayStream.ExtractCommands | w3g-common/src/parser/parser.rs:479-499 | the counted command loop gives the result and state of `Commands`, where each command adds 3 plus its byte count |
| ReplayParser.ReplayStream.ExtractFixedBlock | w3g-common/src/parser/parser.rs:351-468 | the result and new state are those of `FixedBlockAt`: a fixed-size block succeeds exactly when its whole payload (13, 4, 4, 4, 5, 9 or 8 bytes) is readable, and is the block `FixedBlockOf` spells from those bytes, taking exactly them |
| ReplayParser.ReplayStream.ExtractTickBlock | w3g-common/src/parser/parser.rs:386-415 | the result and new state are those of `TickBlockAt`, and `TickBlockOfBytes` holds of them: fewer than four readable bytes fail, a `num_bytes` word below 2 is the overflow, and a block that reads has the kind of its id, both header words, and the commands `extract_commands(num_bytes - 2)` reads from the fifth byte on, ending where they end |
| ReplayParser.ReplayStream.ExtractChatBlock | w3g-common/src/parser/parser.rs:416-440 | the result and new state are those of `ChatBlockAt`: it succeeds exactly when the header is readable, `num_bytes` is at least 6, the message bytes are UTF-8 and the byte after them is 0; a `num_bytes` below 6 is the overflow; the block is the header bytes and the message, and it takes `num_bytes + 3` bytes |
| ReplayParser.ReplayStream.ReadChatHeader | w3g-common/src/parser/parser.rs:418-421 | the result and new state are those of `ChatHeaderAt`: it succeeds exactly when eight bytes are readable, and is the player byte 0, the word at bytes 1-2, the flags byte 3 and the dword at bytes 4-7, taking those eight bytes |
| ReplayParser.ReplayStream.ReadChatMessage | w3g-common/src/parser/parser.rs:423-429 | the result and new state are those of `ChatMessageAt`: it succeeds exactly when the `num_bytes - 6` message bytes are readable and UTF-8 and the byte after them is 0; a readable UTF-8 message followed by another byte fails with `ChatNotTerminated`; it returns the message and takes the 0 as well |
| ReplayParser.ReplayStream.ExtractBlockBody | w3g-common/src/parser/parser.rs:349-470 | the match on the block id gives the result and state of `BlockBody` |
| ReplayParser.ReplayStream.ExtractBlocks | w3g-common/src/parser/parser.rs:341-477 | the block loop up to the first id 0 gives the result and state of `Blocks` |
| ReplayParser.ParseReplay | w3g-common/src/parser/parser.rs:17-47 | the result is `ParseReplaySpec` of the header bytes and blocks; a file shorter than 68 bytes or with a non-UTF-8 magic or version string does not parse, and a parsed replay holds the magic string of bytes 0-27, the five dwords of bytes 28-47 and the replay header of bytes 48-67 |
| ReplayDecode.PlayerRecordAt | w3g-common/src/parser/parser.rs:248-268 | a player record consumes input, carries exactly `additional_data_size` extra bytes, and keeps a record id it is given |
| ReplayDecode.SlotRecordAt | w3g-common/src/parser/parser.rs:324-339 | a slot record takes at least its nine bytes |
| ReplayDecode.Repeat | w3g-common/src/parser/parser.rs:302-305 | a counted loop that succeeds returns exactly `count` items |
| ReplayDecode.RepeatNext | w3g-common/src/parser/parser.rs:302-305 | one round of a counted loop: a failed read ends the loop with its error, a good one is appended |
| ReplayDecode.GameRecordAt | w3g-common/src/parser/parser.rs:294-322 | a game record holds exactly `num_slot_records` slot records, and keeps a record id it is given |
| ReplayDecode.PlayersLoop | w3g-common/src/parser/parser.rs:222-229 | every record the player loop returns has id 0x16, the id that ends it is not 0x16, and a first id other than 0x16 gives no records |
| ReplayDecode.PlayersNext | w3g-common/src/parser/parser.rs:222-229 | one round of the player loop: a failed record ends it with its error, a good one is appended |
| ReplayDecode.GameHeaderAt | w3g-common/src/parser/parser.rs:210-246 | a game header holds only player records with id 0x16, and its game record's id is not 0x16 |
| ReplayDecode.ObjectListAt | w3g-common/src/parser/parser.rs:690-709 | a selection holds fewer than 2^16 objects |
| ReplayDecode.FieldAt | w3g-common/src/parser/parser.rs:501-1332 | every decoded field has the shape its wire kind produces |
| ReplayDecode.FieldsAt | w3g-common/src/parser/parser.rs:501-1332 | the fields of an arm fit the arm's layout, one for one |
| ReplayDecode.FieldsNext | w3g-common/src/parser/parser.rs:501-1332 | one field of an arm: a failed read ends the arm with its error, a good one is appended |
| ReplayDecode.ActionAt | w3g-common/src/parser/parser.rs:506-1329 | an action consumes input and its fields fit the layout of the kind its id selects |
| ReplayDecode.BlockBody | w3g-common/src/parser/parser.rs:349-470 | a block yields no payload exactly when its id is none of the ten known ids, and then reads nothing |
| ReplayDecode.FixedBlockAt | w3g-common/src/parser/parser.rs:351-468 | a fixed-size block always yields a payload when it succeeds |
| ReplayDecode.TickBlockAt | w3g-common/src/parser/parser.rs:386-415 | a tick block always yields a payload when it succeeds |
| ReplayDecode.ChatMessageAt | w3g-common/src/parser/parser.rs:423-429 | a chat message is `num_bytes - 6` bytes of UTF-8 |
| ReplayDecode.ChatHeaderAt | w3g-common/src/parser/parser.rs:418-421 | a chat header that reads holds a `num_bytes` below 2^16 and a mode below 2^32 |
| ReplayDecode.ChatBlockAt | w3g-common/src/parser/parser.rs:416-440 | a chat block always yields a payload when it succeeds |
| ReplayDecode.BlockEntryAt | w3g-common/src/parser/parser.rs:346-473 | one round of the block loop consumes input |
| ReplayDecode.BlocksNext | w3g-common/src/parser/parser.rs:346-473 | one round of the block loop: a failed block ends it with its error, a known one is appended, an unknown one is skipped |
| ReplayDecode.RawBytes | w3g-common/src/parser/parser.rs:17-47 | an exact read of `n` raw bytes succeeds exactly when `n` bytes remain; it splits the input into those bytes and the rest |
| ReplayDecode.RawUint | w3g-common/src/parser/parser.rs:70-84 | the raw word and dword readers succeed exactly when their width remains, and the value fits that width |
| ReplayDecode.RawUintRoundTrip | w3g-common/src/parser/parser.rs:70-84 | the raw readers invert the little-endian encoding and leave what follows |
| ReplayDecode.RawFixedString | w3g-common/src/parser/parser.rs:86-92 | a fixed-length string succeeds exactly when that many bytes remain and they are UTF-8 |
| ReplayDecode.ReplayHeaderAt | w3g-common/src/parser/parser.rs:56-68 | the replay header takes 20 bytes and its version string is 4 bytes |
| ReplayDecode.ParseReplaySpec | w3g-common/src/parser/parser.rs:17-47 | a parsed replay has a 28-byte magic string and a 4-byte version string, and its game record is not a player record |
| ReplayDecode.FileHeaderAt | w3g-common/src/parser/parser.rs:17-47 | the start of the file holds a 28-byte magic string and a replay header with a 4-byte version string |
| ReplayWire.SlotRecordReadable | w3g-common/src/parser/parser.rs:324-339 | a slot record succeeds exactly when nine bytes are readable; its nine fields are those bytes in declaration order, and it takes exactly nine |
| ReplayWire.GameObjectReadable | w3g-common/src/parser/parser.rs:1334-1337 | a game object succeeds exactly when eight bytes are readable; its two ids are the dwords at bytes 0-3 and 4-7, and it takes exactly eight |
| ReplayWire.ObjectListReadable | w3g-common/src/parser/parser.rs:690-709 | a selection fails when its count word is not readable; one that reads holds as many objects as the word says and takes the word and eight bytes per object |
| ReplayWire.FixedBlockReadable | w3g-common/src/parser/parser.rs:351-468 | a fixed-size block succeeds exactly when its whole payload is readable, is the block its bytes spell, and takes exactly its payload |
| ReplayWire.LeaveGameReadable | w3g-common/src/parser/parser.rs:351-361 | LeaveGame succeeds exactly when 13 bytes are readable; reason, player, result and leave count are the dword, byte, dword and dword at 0, 4, 5 and 9 |
| ReplayWire.RandomSeedReadable | w3g-common/src/parser/parser.rs:441-449 | RandomSeed succeeds exactly when 5 bytes are readable; it is the byte at 0 and the dword at 1 |
| ReplayWire.DesyncReadable | w3g-common/src/parser/parser.rs:450-459 | Desync succeeds exactly when 9 bytes are readable; tick count, checksum and remaining players are the dwords at 0 and 4 and the byte at 8 |
| ReplayWire.CountdownReadable | w3g-common/src/parser/parser.rs:460-468 | ForceGameEndCountdown succeeds exactly when 8 bytes are readable; mode and time are the dwords at 0 and 4 |
| ReplayWire.TickBlockReadable | w3g-common/src/parser/parser.rs:386-415 | a tick block fails when its two header words are not readable; otherwise the words are bytes 0-1 and 2-3 and the commands are read from the fifth byte |
| ReplayWire.TickCommandsParts | w3g-common/src/parser/parser.rs:386-415 | after the header, a `num_bytes` below 2 is the overflow; otherwise the block is `extract_commands(num_bytes - 2)` with both header words, of the kind its id names |
| ReplayWire.TickBlockBytes | w3g-common/src/parser/parser.rs:386-415 | a tick block reads as `TickBlockOfBytes` spells it: fewer than four readable bytes fail, a `num_bytes` word below 2 is the overflow, and a block that reads keeps the words at bytes 0-1 and 2-3, has the kind its id names, and holds the commands read from the fifth byte on, ending where they end |
| ReplayWire.CommandsReach | w3g-common/src/parser/parser.rs:479-499 | with the corrected counts, the commands of a tick block count up to at least its size, and every command but the last starts below it |
| ReplayWire.ChatHeaderReadable | w3g-common/src/parser/parser.rs:418-421 | a chat header succeeds exactly when eight bytes are readable; it is the byte at 0, the word at 1-2, the byte at 3 and the dword at 4-7, taking eight bytes |
| ReplayWire.ChatMessageReadable | w3g-common/src/parser/parser.rs:423-429 | a chat message succeeds exactly when its `num_bytes - 6` bytes are readable and UTF-8 and the byte after them is 0, and then is those bytes, taking the 0 too; a readable UTF-8 message followed by another byte fails with `ChatNotTerminated` |
| ReplayWire.ChatBlockReadable | w3g-common/src/parser/parser.rs:416-440 | PlayerChat succeeds exactly when its header, a `num_bytes` of at least 6, the UTF-8 message and the 0 after it are readable; a `num_bytes` below 6 is the overflow |
| ReplayWire.ChatBlockBytes | w3g-common/src/parser/parser.rs:416-440 | a PlayerChat block that reads is its header bytes and its message bytes, and takes `num_bytes + 3` bytes |
| ReplayWire.ReplayHeaderReadable | w3g-common/src/parser/parser.rs:56-68 | the replay header succeeds exactly when 20 bytes remain and the version string is UTF-8; each field is the little-endian value of its byte range, and the rest follows byte 20 |
| ReplayWire.FileDwordsReadable | w3g-common/src/parser/parser.rs:17-47 | the five dwords after the magic string are bytes 28-47 of the file, four at a time |
| ReplayWire.FileHeaderReadable | w3g-common/src/parser/parser.rs:17-47 | the start of the file succeeds exactly when 68 bytes are there and both strings, bytes 0-27 and 48-51, are UTF-8 |
| ReplayWire.FileHeaderFields | w3g-common/src/parser/parser.rs:17-47 | the magic string is bytes 0-27, the five dwords are at 28 to 44, and the replay header starts at byte 48 |
| ReplayWire.ParseReplayReadable | w3g-common/src/parser/parser.rs:17-47 | a file whose start does not read fails with that error, and a parsed replay keeps the fields of its start |
| ReplayWire.ParseReplayFileFields | w3g-common/src/parser/parser.rs:17-47 | a file shorter than 68 bytes or with a non-UTF-8 string does not parse; a parsed replay holds the magic string of bytes 0-27, the dwords of bytes 28-47 and the replay header of bytes 48-67 |
| ReplayAccounting.UintConsumes | w3g-common/src/parser/parser.rs:161-174 | a fixed-width read takes exactly its width of readable bytes |
| ReplayAccounting.NulTerminatedConsumes | w3g-common/src/parser/parser.rs:181-193 | a string takes its bytes and the 0 after them |
| ReplayAccounting.GameObjectConsumes | w3g-common/src/parser/parser.rs:1334-1337 | a game object takes eight bytes |
| ReplayAccounting.ObjectListConsumes | w3g-common/src/parser/parser.rs:690-709 | a selection takes its word count and eight bytes per object |
| ReplayAccounting.InventoryConsumes | w3g-common/src/parser/parser.rs:270-280 | an inventory takes its dword count and twelve bytes per entry |
| ReplayAccounting.AbilitiesConsumes | w3g-common/src/parser/parser.rs:282-292 | an ability list takes its dword count and eight bytes per entry |
| ReplayAccounting.FieldConsumes | w3g-common/src/parser/parser.rs:501-1332 | a field takes exactly the bytes its wire kind says, strings with their 0 |
| ReplayAccounting.FieldsConsumes | w3g-common/src/parser/parser.rs:501-1332 | the fields of an arm take the sum of their sizes |
| ReplayAccounting.ArmCountIsWireSize | w3g-common/src/parser/parser.rs:501-1332 | every arm's `bytes_read` increment equals the wire size of the fields it reads, once the two omissions below are added back |
| ReplayLoops.ActionConsumes | w3g-common/src/parser/parser.rs:506-1329 | an action takes its id byte and the wire size of its arm's fields |
| ReplayLoops.ActionWeightIsConsumed | w3g-common/src/parser/parser.rs:501-1332 | with every arm counting what it reads, the counter grows by exactly the bytes an action takes |
| ReplayLoops.AsWrittenUndercount | w3g-common/src/parser/parser.rs:501-1332 | with the increments as written, SyncStoredBoolean takes 4 bytes more than it counts, SyncStoredString takes the length of its value more, and every other arm counts exactly what it takes |
| ReplayLoops.UnknownActionFails | w3g-common/src/parser/parser.rs:1327 | an id no arm matches fails with that id after taking only the id byte |
| ReplayLoops.CountedConsumes | w3g-common/src/parser/parser.rs:505-509 | when every step's weight is exact, a counted loop takes the total weight of what it returns |
| ReplayLoops.CountedStops | w3g-common/src/parser/parser.rs:505-509 | a counted loop that succeeds has reached its size, and it was still below the size before its last element |
| ReplayLoops.ActionsConsume | w3g-common/src/parser/parser.rs:501-1332 | with the corrected counts, `extract_actions(size)` takes exactly the bytes its counter adds up, which reach `size`; only the last action may go past it |
| ReplayLoops.CommandConsumes | w3g-common/src/parser/parser.rs:479-499 | a command takes its three header bytes and its actions, which cover at least its `num_bytes` |
| ReplayFindings.PausesCounted | w3g-common/src/parser/parser.rs:513-518 | PauseGame ids that arrive while the counter is below the size are each read as one more one-byte action |
| ReplayFindings.StoredBooleanOverrun | w3g-common/src/parser/parser.rs:1126-1142 | as written, `extract_actions(11)` on an 11-byte SyncStoredBoolean followed by four PauseGame ids also takes the four ids |
| ReplayFindings.StoredBooleanCounted | w3g-common/src/parser/parser.rs:1126-1142 | counting the dword, `extract_actions(11)` stops after that one action |
| ReplayFindings.StoredStringOverrun | w3g-common/src/parser/parser.rs:1219-1235 | as written, `extract_actions(9)` on a 9-byte SyncStoredString followed by a PauseGame id also takes the id |
| ReplayFindings.StoredStringCounted | w3g-common/src/parser/parser.rs:1219-1235 | counting the value string, `extract_actions(9)` stops after that one action |
| ReplayTypes.GameSpeedFromU8 | w3g-common/src/parser/parser.rs:1572-1581 | accepts exactly the codes 0 to 2, names the code it was given, and otherwise reports the bad code |
| ReplayTypes.GameSpeedRoundTrip | w3g-common/src/parser/parser.rs:1572-1581 | decoding the code of a speed gives the speed |
| ReplayTypes.SelectionOperationFromU8 | w3g-common/src/parser/parser.rs:1635-1644 | accepts exactly the codes 1 and 2, and otherwise reports the bad code |
| ReplayTypes.SelectionOperationRoundTrip | w3g-common/src/parser/parser.rs:1635-1644 | decoding the code of an operation gives the operation |
| ReplayTypes.ArrowKeyEventFromU8 | w3g-common/src/parser/parser.rs:1711-1725 | accepts exactly the codes 0 to 7, and otherwise reports the bad code |
| ReplayTypes.ArrowKeyEventRoundTrip | w3g-common/src/parser/parser.rs:1711-1725 | decoding the code of an arrow-key event gives the event |
| ReplayTypes.FlagsFromBits | w3g-common/src/parser/parser.rs:1599-1622 | the removal loop always succeeds and leaves exactly the declared flags whose bit is set |
| ReplayTypes.OrderTypeFromU16 | w3g-common/src/parser/parser.rs:1599-1622 | `OrderType::from_u16` returns the order flags of the word |
| ReplayTypes.AllianceTypeFromU32 | w3g-common/src/parser/parser.rs:1665-1692 | `AllianceType::from_u32` returns the alliance flags of the dword |
| ReplayTypes.SetFlagsMembership | w3g-common/src/parser/parser.rs:1599-1622 | a flag is kept exactly when it is declared and its bit is set |
| ReplayTypes.SetFlagsOrdered | w3g-common/src/parser/parser.rs:1599-1622 | the kept flags stay in declaration order |
| ReplayTypes.SetFlagsOnlyReadsDeclaredBits | w3g-common/src/parser/parser.rs:1599-1622 | two values that agree on the declared bits decode alike |
| ReplayTypes.OrderTypesExact | w3g-common/src/parser/parser.rs:1585-1622 | an order type is in the result exactly when its bit is set, and the result is in increasing bit order |
| ReplayTypes.OrderTypesIgnoreUnknownBits | w3g-common/src/parser/parser.rs:1585-1595 | bit 6 and the bits above 7, which no order type names, do not affect the result |
| ReplayTypes.AllianceTypesExact | w3g-common/src/parser/parser.rs:1648-1692 | an alliance type is in the result exactly when its bit is set, and the result is in increasing bit order |
| ReplayTypes.AllianceTypesIgnoreUnknownBits | w3g-common/src/parser/parser.rs:1648-1661 | bits 11 and above do not affect the result |
| ReplayTypes.ActionIdsDispatch | w3g-common/src/parser/parser.rs:511-1327 | every action kind is selected by its own id, so no two arms share an id |
| GameResult.SlotIndices | w3g-rating-ms/src/main.rs:37-42 | the saver's id and each player's id, each minus one, with none when some id is 0 (where `u8` subtraction overflows) |
| GameResult.CollectSlotIndices | w3g-rating-ms/src/main.rs:37-42 | the index loop gives `SlotIndices` |
| GameResult.SortIndices | w3g-rating-ms/src/main.rs:43 | sorting gives an ascending permutation of the indices |
| GameResult.InsertSorted | w3g-rating-ms/src/main.rs:43 | inserting an index into an ascending sequence keeps it ascending |
| GameResult.RecordOf | w3g-rating-ms/src/main.rs:95-186 | only a SyncStoredInteger action of file `ID.D` is a record the tally reacts to |
| GameResult.FlagVerdict | w3g-rating-ms/src/main.rs:101-134 | a `flag` value 1 makes the player's side win and 0 makes it lose, builders checked first; players on neither side and other values decide nothing |
| GameResult.Enrolment | w3g-rating-ms/src/main.rs:142-180 | a `class` value 0 to 4 of a known slot enrols the player, as titan exactly for value 2 |
| GameResult.VerdictOf | w3g-rating-ms/src/main.rs:101-134 | a decided side is never a tie |
| GameResult.ClassOf | w3g-rating-ms/src/main.rs:135-181 | an enrolled player is one of the slot map's players and is never enrolled as a tie |
| GameResult.RunActionsAppend | w3g-rating-ms/src/main.rs:53-76 | tallying two stretches of actions is tallying the second from where the first stopped, so state passes from block to block |
| GameResult.ExtractPlayersFromCommands | w3g-rating-ms/src/main.rs:87-196 | the nested loop leaves the tally of every action of every command, in order |
| GameResult.ExtractPlayersFromActions | w3g-rating-ms/src/main.rs:91-192 | the inner loop leaves the tally of one command's actions, taken in order |
| GameResult.TallyBlocks | w3g-rating-ms/src/main.rs:53-76 | the block loop tallies the actions of tick blocks only, in order |
| GameResult.GetGameResult | w3g-rating-ms/src/main.rs:31-84 | the method gives `GameResultOf`; `OutcomeDrawsOnListedPlayers` is proved about it |
| GameResult.Records | w3g-rating-ms/src/main.rs:93-191 | keeps only the actions the tally reacts to |
| GameResult.OnlyRecordsCount | w3g-rating-ms/src/main.rs:93-191 | dropping every action that is not an `ID.D` record changes nothing |
| GameResult.StepStarts | w3g-rating-ms/src/main.rs:182-185 | one action starts the game exactly on a `game_start` record |
| GameResult.StepEnrols | w3g-rating-ms/src/main.rs:135-181 | one action enrols exactly the player of a `class` record, and only before the game starts |
| GameResult.StepDecides | w3g-rating-ms/src/main.rs:101-134 | one action changes the result exactly on a decisive `flag` record |
| GameResult.StartIsSticky | w3g-rating-ms/src/main.rs:182-185 | the game counts as started exactly when some `game_start` record has been seen |
| GameResult.SidesFixedOnceStarted | w3g-rating-ms/src/main.rs:137-140 | after the start, `class` records move nobody |
| GameResult.SideMembership | w3g-rating-ms/src/main.rs:135-181 | a player is on a side exactly when some `class` record put them there before the game started |
| GameResult.NoVerdictKeepsResult | w3g-rating-ms/src/main.rs:49 | without a decisive `flag` record the result stays as it began, a tie |
| GameResult.LastVerdictWins | w3g-rating-ms/src/main.rs:101-134 | the last decisive `flag` record decides the winner |
| GameResult.SidesDrawnFromSlotMap | w3g-rating-ms/src/main.rs:45 | every player put on a side comes from the slot map |
| GameResult.OutcomeDrawsOnListedPlayers | w3g-rating-ms/src/main.rs:78-83 | a result has two non-empty sides, made only of players from the game page's list |
| GameResult.ApplyDurationRule | w3g-rating-ms/src/main.rs:232-236 | the sides are kept, and the result is a tie exactly when it was one or was a titan win in a replay longer than one hour |
| Collections.ZipMap | w3g-common/src/rating/mod.rs:43-48 | the keys of a zipped map are exactly the keys that have a partner |
| Collections.ZipMapAt | w3g-common/src/rating/mod.rs:43-48 | a key that no later pair repeats maps to its own partner |
| Collections.ZipMapValues | w3g-rating-ms/src/main.rs:45 | every value of the slot map is one of the listed players |
| Rating.Gcd | w3g-common/src/rating/mod.rs:72 | a positive common divisor of the two sizes |
| Rating.Lcm | w3g-common/src/rating/mod.rs:72 | a positive common multiple of both team sizes, at least as large as each |
| Rating.Cycle | w3g-common/src/rating/mod.rs:78-87 | the padded team has length `n`, and entry `i` is member `i mod size` |
| Rating.CycleIsRepeat | w3g-common/src/rating/mod.rs:78-87 | padding to a multiple of the team size lays down whole copies of the team |
| Rating.Truncate | w3g-common/src/rating/mod.rs:94 | `Vec::truncate` keeps exactly the first `n` entries |
| Rating.TruncateCycle | w3g-common/src/rating/mod.rs:78-98 | cutting a padded team back to its size gives the team back |
| Rating.Padded | w3g-common/src/rating/mod.rs:72-87 | both padded teams have the lcm as their length |
| Rating.PaddedAreCopies | w3g-common/src/rating/mod.rs:72-87 | each padded team is a whole number of copies of its team |
| Rating.NewRatings | w3g-common/src/rating/mod.rs:61-102 | an empty team leaves both teams as they are, and no result is longer than its team |
| Rating.NewRatingsRated | w3g-common/src/rating/mod.rs:90-98 | with both teams non-empty, the result is the rater's first two lists cut to the team sizes, and it fails exactly when the rater fails or returns fewer than two lists |
| Rating.NewRatingsLengths | w3g-common/src/rating/mod.rs:90-98 | a rater that keeps the teams' shape yields one new rating per player of each team |
| Rating.NewRatingsShape | w3g-common/src/rating/mod.rs:90-98 | a successful call with such a rater keeps both team sizes |
| Rating.NewRatingsUnchanged | w3g-common/src/rating/mod.rs:78-98 | a rater that changes nothing gives both teams back: cutting undoes padding |
| Rating.PadTeams | w3g-common/src/rating/mod.rs:74-87 | the padding loop builds `Padded` |
| Rating.ComputeNewRatings | w3g-common/src/rating/mod.rs:61-102 | the method gives `NewRatings` |
| Rating.RatingsOf | w3g-common/src/rating/mod.rs:24-40 | the ratings of the listed keys, position by position |
| Rating.ListTeam | w3g-common/src/rating/mod.rs:24-40 | the listing loop lists every key once, in some order, with each key's rating beside it |
| Rating.Potential | w3g-common/src/rating/mod.rs:21-51 | each result map of a team only has keys of that team |
| Rating.ComputePotentialRatings | w3g-common/src/rating/mod.rs:21-51 | the method gives `Potential` for some listing of each team |
| Rating.PotentialSwapped | w3g-common/src/rating/mod.rs:42-48 | team 2 winning is team 1 winning with the teams passed the other way round |
| Rating.PotentialKeys | w3g-common/src/rating/mod.rs:42-48 | with a shape-keeping rater, every result map has exactly its team's keys |
| Rating.PotentialPlacement | w3g-common/src/rating/mod.rs:42-48 | each player gets the new rating at the position where their old rating was passed |
| LobbyText.SplitN | w3g-lobby-ms/src/engine/ent.rs:27 | `splitn(n, sep)` gives at most `n` pieces, and none only when `n` is 0 |
| LobbyText.SplitNJoin | w3g-lobby-ms/src/engine/ent.rs:27 | joining the pieces with the separator gives the text back |
| LobbyText.SplitNSeparators | w3g-lobby-ms/src/engine/ent.rs:27 | only the last piece can hold a separator, and only when all `n` pieces were used |
| LobbyText.SplitNLength | w3g-lobby-ms/src/engine/ent.rs:27 | there are as many pieces as separators plus one, but never more than `n` |
| LobbyText.SplitNOfJoin | w3g-lobby-ms/src/engine/ent.rs:27 | splitting joined pieces, where only the last may hold a separator, gives the pieces back |
| LobbyText.Lines | w3g-lobby-ms/src/engine/ent.rs:51 | no line holds a newline, and empty text has no lines |
| LobbyText.SplitOfJoin | w3g-lobby-ms/src/engine/ent.rs:51 | splitting pieces joined by a separator none of them holds gives the pieces back, empty ones included |
| LobbyText.LinesOfJoin | w3g-lobby-ms/src/engine/ent.rs:51 | lines without `\n` and without a final `\r`, each written out followed by `\n`, are read back by `lines()` exactly as they were |
| LobbyText.LinesOfJoinUnterminated | w3g-lobby-ms/src/engine/ent.rs:51 | the same lines joined without the last `\n` are read back the same, as long as the last line is not empty |
| LobbyText.FromStr | w3g-lobby-ms/src/engine/ent.rs:25-46 | a game is read only from a line that splits into six fields |
| LobbyText.ShortLineFails | w3g-lobby-ms/src/engine/ent.rs:25-46 | a line with fewer than five separators is never a game |
| LobbyText.FromStrRender | w3g-lobby-ms/src/engine/ent.rs:25-46 | reading a game written out as a line gives the game back, whatever its name holds, when the ids hold no `|` |
| LobbyText.LobbyForBot | w3g-lobby-ms/src/engine/ent.rs:49-63 | the first line that is a game of the bot; not found exactly when no line is one |
| LobbyText.GetLobbyForBot | w3g-lobby-ms/src/main.rs:122-136 | the line loop that returns early gives `LobbyForBot` on the lines of the list |
| LobbySlots.Classify | w3g-lobby-ms/src/engine/ent.rs:77-116 | a player row has a link in its first slot cell, which names the player, and a second cell, which gives the realm |
| LobbySlots.NormaliseRealm | w3g-lobby-ms/src/engine/ent.rs:101-114 | "USEast", "USWest", "Europe" and "Asia" become "useast.battle.net", "uswest.battle.net", "europe.battle.net" and "asia.battle.net"; every other realm, "entconnect" included, is kept as written |
| LobbySlots.NormaliseRealmIdempotent | w3g-lobby-ms/src/engine/ent.rs:96-116 | rewriting a realm twice is rewriting it once |
| LobbySlots.SlotNumber | w3g-lobby-ms/src/engine/ent.rs:65-127 | a row's slot number is at most its position |
| LobbySlots.NumberRows | w3g-lobby-ms/src/engine/ent.rs:65-127 | the counter ends at the number of rows that took a number and stays below the integer bound, and every key is below it |
| LobbySlots.NumberRow | w3g-lobby-ms/src/engine/ent.rs:76-123 | an Empty row or a player row moves the counter on by one and any other row leaves it; a row fails exactly when it would move the counter to the integer bound |
| LobbySlots.SlotNumbersIncrease | w3g-lobby-ms/src/engine/ent.rs:82-86 | a row that takes a number gets a larger one than every row before it |
| LobbySlots.NumberRowsPlacesPlayers | w3g-lobby-ms/src/engine/ent.rs:122-123 | every player row is stored under its own slot number, with its name and realm |
| LobbySlots.VerbatimRealms | w3g-lobby-ms/src/main.rs:189-193 | in the main file's copy, which passes realms through unchanged, every player row is stored under its slot number with the link of its first cell as the name and the text of its second cell as the realm |
| LobbySlots.NumberRowsOnlyPlayers | w3g-lobby-ms/src/engine/ent.rs:65-127 | every key is the slot number of some player row |
| LobbySlots.NumberRowsFailureStays | w3g-lobby-ms/src/main.rs:159-201 | once the counter overflows on some rows it overflows on every longer table |
| LobbySlots.NumberSlots | w3g-lobby-ms/src/engine/ent.rs:65-127 | the row loop succeeds exactly when `NumberRows` does, and returns its map |
| LobbySlots.Respond | w3g-lobby-ms/src/main.rs:56-81 | while fresh, the cached table is the answer and nothing changes; past the expiry, a good fetch is cached for five seconds and answered, and a failed fetch keeps the old table, retries in two seconds and sends no answer |
| LobbySlots.Serve | w3g-lobby-ms/src/main.rs:52-82 | one answer per request, and the expiry never moves back |
| LobbySlots.NoFetchWhileFresh | w3g-lobby-ms/src/main.rs:56-81 | requests before the expiry never fetch, and all get the same table |
| LobbySlots.LobbyCache.constructor | w3g-lobby-ms/src/main.rs:44-45 | the first table is fresh for five seconds from the start |
| LobbySlots.LobbyCache.Request | w3g-lobby-ms/src/main.rs:52-82 | one request updates the state and answers as `Respond` says |
| PubSubModel.NewPlayer | w3g-common/src/pubsub/model.rs:10-16 | a player keeps both texts exactly as given |
| PubSubModel.KeyIdentifiesPlayer | w3g-common/src/pubsub/model.rs:3-6 | two players are the same exactly when their (name, realm) keys agree |
| PubSubModel.DefaultBuilderStats | w3g-common/src/pubsub/model.rs:62-69 | no wins, no losses, a rating of 1500 |
| PubSubModel.DefaultTitanStats | w3g-common/src/pubsub/model.rs:82-89 | no wins, no losses, a rating of 1500 |
| PubSubModel.DefaultStats | w3g-common/src/pubsub/model.rs:42-49 | the default record keeps the player and counts no games on either side |
| Stats.FindPlayerStats | w3g-stats-ms/src/main.rs:31-51 | the stored record of the player when it decodes; the default record when it is missing or does not decode |
| Stats.FindKeepsPlayer | w3g-stats-ms/src/main.rs:31-51 | in a store where each record sits under its own player's key, every lookup answers for the player asked about |
| Stats.Deltas | w3g-stats-ms/src/main.rs:73-77 | a game gives each side exactly one win or one loss, a win exactly for the winning side |
| Stats.AddResults | w3g-stats-ms/src/main.rs:81-83 | adds to one side's wins and losses and keeps the player, the other side and both ratings |
| Stats.Replaced | w3g-stats-ms/src/main.rs:93 | `update_one` without upsert replaces the matching document, leaves every other one, and never adds a key |
| Stats.RecordPlayers | w3g-stats-ms/src/main.rs:79-102 | recording a side never adds or removes a stored key |
| Stats.RecordGameOf | w3g-stats-ms/src/main.rs:71-128 | recording a game never adds or removes a stored key |
| Stats.RecordGamesOf | w3g-stats-ms/src/main.rs:71-128 | recording a batch never adds or removes a stored key |
| Stats.RecordPlayerWellKeyed | w3g-stats-ms/src/main.rs:85-97 | writing back under the record's own key keeps every record under its own player's key |
| Stats.RecordPlayerSelf | w3g-stats-ms/src/main.rs:79-97 | recording a stored player adds the game to that player's record |
| Stats.RecordPlayerOther | w3g-stats-ms/src/main.rs:79-97 | recording one player leaves every other player's record as it was |
| Stats.RecordPlayersTally | w3g-stats-ms/src/main.rs:79-102 | a stored player who appears `c` times on a side gains `c` times that side's result, and nothing else of their record changes |
| Stats.RecordPlayersNoInsert | w3g-stats-ms/src/main.rs:93 | a player with no stored record is not given one and still reads as the default |
| Stats.RecordPlayersOthers | w3g-stats-ms/src/main.rs:79-102 | a record whose key no player of the side has is left as it was |
| Stats.RecordPlayersWellKeyed | w3g-stats-ms/src/main.rs:79-102 | recording a side keeps every record under its own player's key |
| Stats.GameTally | w3g-stats-ms/src/main.rs:71-128 | builders win: each builder appearance is a builder win and each titan appearance a titan loss; titans win: the other way round; ratings untouched |
| Stats.GameTouchesOnlyStoredPlayers | w3g-stats-ms/src/main.rs:71-128 | a game gives no record to a player without one, and leaves non-participants' records as they were |
| Stats.LobbyStats | w3g-stats-ms/src/main.rs:151-157 | the answer has the lobby's slots, each with its player's record |
| Stats.LobbyStatsPlayers | w3g-stats-ms/src/main.rs:151-157 | in a well-keyed store, each slot's answer is about the player in that slot |
| Stats.PlayerStatsStore.UpdateOne | w3g-stats-ms/src/main.rs:93 | the store after the write is `Replaced` |
| Stats.PlayerStatsStore.RecordSide | w3g-stats-ms/src/main.rs:79-102 | the loop over one side leaves the store as `RecordPlayers` says |
| Stats.PlayerStatsStore.RecordGame | w3g-stats-ms/src/main.rs:71-128 | one game leaves the store as `RecordGameOf` says |
| Stats.PlayerStatsStore.RecordGames | w3g-stats-ms/src/main.rs:53-130 | a batch leaves the store as `RecordGamesOf` says |
| Stats.PlayerStatsStore.BulkStats | w3g-stats-ms/src/main.rs:153-157 | the slot loop, in the map's own order, gives `LobbyStats` |
| Stats.PlayerStatsStore.BulkRequests | w3g-stats-ms/src/main.rs:151-164 | one answer per lobby request, under the request's key, each the lobby's statistics |
| Stats.PlayerStatsStore.Requests | w3g-stats-ms/src/main.rs:187-196 | one answer per player request, under the request's key, each that player's record |
| Downloader.ParseI64 | w3g-downloader-ms/src/main.rs:99 | a parsed id fits in 64 bits, and empty text is rejected |
| Downloader.ParseI64OfDecimal | w3g-downloader-ms/src/main.rs:99 | every non-negative 64-bit id written in decimal parses back to itself |
| Downloader.PageIds | w3g-downloader-ms/src/main.rs:95-104 | the ids of a page are exactly the captures that parse, and no more |
| Downloader.GetGameIds | w3g-downloader-ms/src/main.rs:77-107 | a page number outside 1..=250 is refused (the source panics), and any other page gives its ids |
| Downloader.CollectPageIds | w3g-downloader-ms/src/main.rs:95-104 | the capture loop gives `PageIds` |
| Downloader.NewIds | w3g-downloader-ms/src/main.rs:268-270 | exactly the ids outside [min, max], in page order |
| Downloader.NewIdsWithoutHistory | w3g-downloader-ms/src/main.rs:255-270 | with no id recorded as sent, every 64-bit id is new |
| Downloader.Widen | w3g-downloader-ms/src/main.rs:280-281 | the window only grows, and it ends up covering every handled id |
| Downloader.StatusOf | w3g-downloader-ms/src/main.rs:289-306 | the status document of an id is marked sent exactly when it was sent, and parsed exactly when it was parsed |
| Downloader.StatusesOf | w3g-downloader-ms/src/main.rs:278-308 | one status document per handled id, in handling order |
| Downloader.MinSentId | w3g-downloader-ms/src/main.rs:225-251 | the least id recorded as sent, or `i64::MAX` when there is none |
| Downloader.MaxSentId | w3g-downloader-ms/src/main.rs:193-223 | the greatest id recorded as sent, or `i64::MIN` when there is none |
| Downloader.NoSentRecords | w3g-downloader-ms/src/main.rs:209 | with nothing sent, the window starts at the two sentinels |
| Downloader.PageStep | w3g-downloader-ms/src/main.rs:266-309 | a page that stops the pass handles nothing, and every id a page handles is new |
| Downloader.PassFrom | w3g-downloader-ms/src/main.rs:263-310 | a pass only widens the window |
| Downloader.PassPagesValid | w3g-downloader-ms/src/main.rs:79-82 | every page number a pass asks for is accepted, so `get_game_ids` never panics there |
| Downloader.PassHandlesNewIds | w3g-downloader-ms/src/main.rs:263-310 | every id a pass handles was new when the pass began, and lies in the window the pass ends with |
| Downloader.PassSkipsSentIds | w3g-downloader-ms/src/main.rs:255-310 | a pass never fetches again an id that was recorded as sent before it began |
| Downloader.IdWindow.constructor | w3g-downloader-ms/src/main.rs:255-258 | the window starts at the least and greatest ids recorded as sent |
| Downloader.IdWindow.HandleId | w3g-downloader-ms/src/main.rs:280-306 | one id widens the window and appends its status document |
| Downloader.IdWindow.HandleIds | w3g-downloader-ms/src/main.rs:278-308 | the ids of a page widen the window by `Widen` and append their status documents in order |
| Downloader.IdWindow.ScanPage | w3g-downloader-ms/src/main.rs:266-309 | one page does what `PageStep` says, and returns whether the pass stops |
| Downloader.IdWindow.PassPage | w3g-downloader-ms/src/main.rs:263-310 | one page, seen as part of the whole pass: what is left of the pass after it |
| Downloader.IdWindow.Pass | w3g-downloader-ms/src/main.rs:263-310 | the page loop leaves the window and the status documents of `PassFrom` |
| Downloader.PassStops | w3g-downloader-ms/src/main.rs:272-276 | past page 250, or at a page without new ids, the pass is over |
| Downloader.PassGoesOn | w3g-downloader-ms/src/main.rs:278-308 | a page with new ids handles them and the pass goes on with the widened window |

## Left out

- The zlib inflation of the compressed blocks (`libflate`) is not modelled. A
  replay's compressed part is the sequence of blocks it inflates to, and
  `Corrupt` stands for a block that fails to inflate or any read error.
- The file system is not modelled. `from_file` and `parse_replay` receive the
  file's bytes.
- `f32` values (floats in actions, ratings in the stats records) are kept
  as their four raw bytes or as a `real` that is stored and never computed
  on.
- The network, Kafka, MongoDB and BSON are not modelled. They become
  parameters:
  - listing pages as the already-captured id strings;
  - the game list and slot table as lines and rows;
  - database contents as a map of documents;
  - bus messages as the handler's input sequence.
- The regular expressions and HTML selection are not modelled: `get_game`
  with its HTML player list, and the `td.slot` cells. The model starts from
  what they capture.
- `bson::to_bson` is taken to succeed. A failed conversion or a failed
  `update_one`, `insert_one` or `send_to_topic` is only logged by the source,
  and the model does not log.
- A `find_one` that returns an error is treated like a missing document,
  which matches `find_player_stats`. In the downloader it makes
  `download_replays` panic on `unwrap`, which is not modelled.
- The endless service loops, `thread::yield_now`, `sleep` and the bus
  `listen` calls are not modelled. Each handler is modelled for one batch,
  and the downloader for one pass. `Utc::now` is a parameter of each lobby
  request.
- The Bayesian rater (`bbt::Rater::update_ratings`) is not modelled. It is a
  function parameter; its one assumption (`KeepsShape`) is named where a
  lemma needs it.
- Rating.Lcm: the `num` crate's `lcm` is modelled by Euclid's algorithm. It
  is proved to be a positive common multiple no smaller than either size,
  but not the least one; padding only relies on the common-multiple
  property.
- Rating.Gcd: proved to be a positive common divisor, not the greatest.
- Rating.NewRatings: `usize` overflow of the lcm is not modelled; team sizes
  are small.
- Stats.AddResults: `u32` wins and losses are unbounded naturals; wrapping at
  2^32 games is not modelled.
- GameResult.GetGameResult: the builders and titans are sets. The order in
  which the source's `HashSet`s are turned into vectors is not modelled.
- Rating.ComputePotentialRatings: the iteration order of a `HashMap` is
  not modelled; the contract holds for every listing of the keys. The same
  goes for Stats.PlayerStatsStore.BulkStats.
- Downloader.IdWindow.Pass: whether an id is parsed and sent is a function
  `outcome` of the id. The replay download and the bus send are not
  modelled.
- Downloader.PassFrom: an id that occurs twice on one page is handled twice,
  as in the source. The model states no property about duplicates.
- The two service copies of `GameLobby::from_str` and `get_lobby_for_bot`
  (`w3g-lobby-ms/src/main.rs:98-136` and `w3g-lobby-ms/src/engine/ent.rs:25-63`)
  are identical. `LobbyText` models them once.
- The two copies of the slot loop differ in two ways, and both are modelled
  through parameters of `LobbySlots.NumberSlots`:
  - the engine rewrites realm names and counts in `u32`;
  - the main file keeps realms verbatim and counts in `u8`.
- `IdTeam` has no `Tie` in `w3g-common/src/pubsub/model.rs`, which the stats
  service uses. The rating service produces `IdTeam::Tie`.
  `GameResult.Team` carries the tie, and `PubSubModel.IdTeam` does not.
- `extract_game_header` reads the byte after the game name and ignores a
  failure of that read. `ReplayDecode.GameHeaderAt` does the same.
- Arithmetic that would panic in a debug build ends parsing with the
  `Overflow` error:
  - `num_bytes - 2` in the tick blocks;
  - `num_bytes - 6` in the chat block;
  - `player_id - 1` in `get_game_result`, where it gives `GameError`.

- The parse path uses the corrected action counts of "## Findings"; the
  source as written is `ReplayDecode.ActionsAsWritten`. One line per member:
- ExtractActions (`ReplayParser.ReplayStream.ExtractActions`): uses the corrected counts of "## Findings"; the source as written is `ActionsAsWritten`.
- ExtractCommand (`ReplayParser.ReplayStream.ExtractCommand`): uses the corrected counts of "## Findings" for its actions; the source as written is `ActionsAsWritten`.
- ExtractCommands (`ReplayParser.ReplayStream.ExtractCommands`): uses the corrected counts of "## Findings" for the actions of each command; the source as written is `ActionsAsWritten`.
- ExtractTickBlock (`ReplayParser.ReplayStream.ExtractTickBlock`): uses the corrected counts of "## Findings" for the actions of its commands; the source as written is `ActionsAsWritten`.
- ExtractBlockBody (`ReplayParser.ReplayStream.ExtractBlockBody`): uses the corrected counts of "## Findings" in tick blocks; the source as written is `ActionsAsWritten`.
- ExtractBlocks (`ReplayParser.ReplayStream.ExtractBlocks`): uses the corrected counts of "## Findings" in tick blocks; the source as written is `ActionsAsWritten`.
- ParseReplay (`ReplayParser.ParseReplay`): uses the corrected counts of "## Findings" in tick blocks; the source as written is `ActionsAsWritten`.
- TickBlockAt (`ReplayDecode.TickBlockAt`): uses the corrected counts of "## Findings"; the source as written is `ActionsAsWritten`. Its own contract says only that a block that reads has a payload; what its bytes decode to is stated by `ReplayWire.TickBlockReadable`, `TickCommandsParts` and `TickBlockBytes`.
- ParseReplaySpec (`ReplayDecode.ParseReplaySpec`): uses the corrected counts of "## Findings"; the source as written is `ActionsAsWritten`. Its own contract gives the string lengths and the record id; the header fields are tied to their bytes by `ReplayWire.ParseReplayFileFields`.
- ActionsConsume (`ReplayLoops.ActionsConsume`): holds for the corrected counts only; for the counts as written, `ReplayFindings.StoredBooleanOverrun` and `StoredStringOverrun` show inputs where the loop takes more than its counter adds up.
- SignedDword (`ReplayStreams.SignedDword`): its own contract gives the `i32` range; the bytes it reads are stated by `SignedDwordReadable`.
- Float32 (`ReplayStreams.Float32`): its own contract says only that input is taken; which four bytes are returned is stated by `Float32Readable`.
- Encoded (`ReplayStreams.Encoded`): its own contract says only that the result ends in its 0; which bytes are returned is stated by `EncodedReadable`.
- SlotRecordAt (`ReplayDecode.SlotRecordAt`): its own contract says only that at least nine bytes are taken; which byte fills which field is stated by `ReplayWire.SlotRecordReadable`.
- ObjectListAt (`ReplayDecode.ObjectListAt`): its own contract gives the bound 2^16; that the count is the word read is stated by `ReplayWire.ObjectListReadable`.
- FixedBlockAt (`ReplayDecode.FixedBlockAt`): its own contract says only that a block that reads has a payload; the payload's bytes are stated by `ReplayWire.FixedBlockReadable`, and likewise for the per-kind readers `LeaveGameAt`, `RandomSeedAt`, `DesyncAt` and `CountdownAt` it dispatches to.
- ChatHeaderAt (`ReplayDecode.ChatHeaderAt`): its own contract gives bounds only; the values and the eight bytes taken are stated by `ReplayWire.ChatHeaderReadable`.
- ChatMessageAt (`ReplayDecode.ChatMessageAt`): its own contract says the message is `num_bytes - 6` bytes of UTF-8; the terminating 0 and the `ChatNotTerminated` failure are stated by `ReplayWire.ChatMessageReadable`.
- ChatBlockAt (`ReplayDecode.ChatBlockAt`): its own contract says only that a block that reads has a payload; its bytes are stated by `ReplayWire.ChatBlockReadable` and `ChatBlockBytes`.
- ReplayHeaderAt (`ReplayDecode.ReplayHeaderAt`): its own contract gives lengths only; each field's byte range is stated by `ReplayWire.ReplayHeaderReadable`.
- FileHeaderAt (`ReplayDecode.FileHeaderAt`): its own contract gives lengths only; when it reads is stated by `ReplayWire.FileHeaderReadable`, and each field's byte range by `FileHeaderFields`.
- Lines (`LobbyText.Lines`): its own contract says only that no line holds a newline; that writing the lines back out gives the text is stated by `LinesOfJoin` and `LinesOfJoinUnterminated`. Text whose lines end in "\r\n" is not covered by a round trip, since the '\r' is dropped.
- HandleId (`Downloader.IdWindow.HandleId`): always appends the id's status document, so the model assumes every `insert_one` succeeds; a failed insert (`w3g-downloader-ms/src/main.rs:182-186`) is only logged by the source and leaves no document, which the model does not capture.
- Replaced (`Stats.Replaced`): always replaces the matching document, so the model assumes every `update_one` succeeds; a failed update (`w3g-stats-ms/src/main.rs:93-97`) is only logged by the source and leaves the old document, which the model does not capture.

## Findings

| source | as written | input that shows it | evidently intended | confidence | as-written member | corrected member |
|---|---|---|---|---|---|---|
| w3g-common/src/parser/parser.rs:1126-1142 | the SyncStoredBoolean arm (0x6D) adds the key strings and their three 0s to `bytes_read`, but not the four bytes of the dword value it also reads | a command whose `num_bytes` is 11, holding the action `6D 61 00 62 00 63 00 01 00 00 00` (key "a", "b", "c", value 1), followed by four `01` bytes that belong to the next block: the counter stands at 7 after 11 bytes, so the four bytes are read as PauseGame actions of the same command | count the dword as the SyncStoredFloat arm (0x6C) does: `4 +` the key lengths and 3 | not executed | ReplayFindings.StoredBooleanOverrun | ReplayFindings.StoredBooleanCounted |
| w3g-common/src/parser/parser.rs:1219-1235 | the SyncStoredString arm (0x6F) counts four 0 bytes but not the length of the value string it reads | a command whose `num_bytes` is 9, holding the action `6F 61 00 62 00 63 00 64 00` (value "d"), followed by one `01` byte: the counter stands at 8 after 9 bytes, so the `01` is read as a PauseGame action | add `value.len()` to the count | not executed | ReplayFindings.StoredStringOverrun | ReplayFindings.StoredStringCounted |

The whole model uses the corrected counts:
- `ReplayDecode.Actions` and `ReplayTypes.ArmCount` hold the corrected counts;
- `ReplayDecode.ActionsAsWritten` and `ReplayTypes.ArmCountAsWritten` keep the counts as written;
- `ReplayLoops.AsWrittenUndercount` states the gap for every input;
- `ReplayLoops.ActionWeightIsConsumed` proves that the corrected counts match the bytes taken.
