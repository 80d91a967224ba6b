/**
 * What each record and block decoder reads, stated on the readable bytes of
 * the stream: every field is the little-endian value of its own byte range,
 * in the order the source reads them, and the decoder takes exactly those
 * bytes. The uncompressed file header is stated on the raw file bytes.
 */
module ReplayWire {
  import opened Wrappers
  import opened Bytes
  import opened ReplayTypes
  import opened ReplayStreams
  import opened ReplayDecode
  import opened ReplayAccounting
  import opened ReplayLoops

  // ---------------------------------------------------------------------
  // One read after `k` bytes have been taken
  // ---------------------------------------------------------------------

  /** The byte read after the first `k` is byte `k`. */
  lemma ByteAfter(st: Stream, at: Stream, k: nat)
    requires Consumes(st, at, k)
    ensures UnsignedByte(at).result.Ok? <==> k < |Readable(st)|
    ensures UnsignedByte(at).result.Ok? ==>
              UnsignedByte(at).result.value == Readable(st)[k] && Consumes(st, UnsignedByte(at).rest, k + 1)
  {
    UnsignedByteReadable(at);
    if k < |Readable(st)| {
      assert Readable(st)[k..][1..] == Readable(st)[k + 1..];
    }
  }

  /** The `n`-byte value read after the first `k` bytes is that of bytes `k` to `k + n`. */
  lemma UintAfter(st: Stream, at: Stream, k: nat, n: nat)
    requires Consumes(st, at, k)
    ensures Uint(at, n).result.Ok? <==> k + n <= |Readable(st)|
    ensures Uint(at, n).result.Ok? ==>
              Uint(at, n).result.value == LeUint(Readable(st)[k..k + n]) && Consumes(st, Uint(at, n).rest, k + n)
  {
    UintReadable(at, n);
    if k + n <= |Readable(st)| {
      DropTake(Readable(st), k, n);
      assert Readable(st)[k..][n..] == Readable(st)[k + n..];
    }
  }

  lemma WordAfter(st: Stream, at: Stream, k: nat)
    requires Consumes(st, at, k)
    ensures UnsignedWord(at).result.Ok? <==> k + 2 <= |Readable(st)|
    ensures UnsignedWord(at).result.Ok? ==>
              UnsignedWord(at).result.value == LeUint(Readable(st)[k..k + 2]) && Consumes(st, UnsignedWord(at).rest, k + 2)
  {
    UintAfter(st, at, k, 2);
  }

  lemma DwordAfter(st: Stream, at: Stream, k: nat)
    requires Consumes(st, at, k)
    ensures UnsignedDword(at).result.Ok? <==> k + 4 <= |Readable(st)|
    ensures UnsignedDword(at).result.Ok? ==>
              UnsignedDword(at).result.value == LeUint(Readable(st)[k..k + 4]) && Consumes(st, UnsignedDword(at).rest, k + 4)
  {
    UintAfter(st, at, k, 4);
  }

  /** The first `m` bytes after the first `k`. */
  lemma DropTake(s: seq<Byte>, k: nat, m: nat)
    requires k + m <= |s|
    ensures s[k..][..m] == s[k..k + m]
  {
  }

  /** Nothing has been taken yet. */
  lemma ConsumesNothing(st: Stream)
    ensures Consumes(st, st, 0)
  {
    assert Readable(st)[0..] == Readable(st);
  }

  // ---------------------------------------------------------------------
  // Game header records
  // ---------------------------------------------------------------------

  /** `extract_slot_record` reads the next nine bytes into the nine fields, in declaration order. */
  lemma SlotRecordReadable(st: Stream)
    ensures SlotRecordAt(st).result.Ok? <==> 9 <= |Readable(st)|
    ensures SlotRecordAt(st).result.Ok? ==>
              var s := Readable(st);
              SlotRecordAt(st).result.value == SlotRecord(s[0], s[1], s[2], s[3], s[4], s[5], s[6], s[7], s[8])
              && Consumes(st, SlotRecordAt(st).rest, 9)
  {
    TakeReadable(st, 9);
  }

  // ---------------------------------------------------------------------
  // Object lists of the selection actions
  // ---------------------------------------------------------------------

  /** `extract_game_object`: the allocated id from bytes 0-3, the counter id from bytes 4-7. */
  lemma GameObjectReadable(st: Stream)
    ensures GameObjectAt(st).result.Ok? <==> 8 <= |Readable(st)|
    ensures GameObjectAt(st).result.Ok? ==>
              var s := Readable(st);
              GameObjectAt(st).result.value == GameObject(LeUint(s[..4]), LeUint(s[4..8]))
              && Consumes(st, GameObjectAt(st).rest, 8)
  {
    ConsumesNothing(st);
    DwordAfter(st, st, 0);
    var a := UnsignedDword(st);
    if a.result.Ok? {
      DwordAfter(st, a.rest, 4);
    }
  }

  /** The object list holds as many objects as its leading word says, eight bytes each. */
  lemma ObjectListReadable(st: Stream)
    ensures |Readable(st)| < 2 ==> ObjectListAt(st).result.Err?
    ensures ObjectListAt(st).result.Ok? ==>
              2 <= |Readable(st)| && |ObjectListAt(st).result.value| == LeUint(Readable(st)[..2])
              && Consumes(st, ObjectListAt(st).rest, 2 + 8 * |ObjectListAt(st).result.value|)
  {
    ConsumesNothing(st);
    WordAfter(st, st, 0);
    ObjectListConsumes(st);
  }

  // ---------------------------------------------------------------------
  // Fixed-size blocks
  // ---------------------------------------------------------------------

  /** The ids of the blocks whose payload has a fixed size. */
  predicate FixedId(id: Byte)
  {
    id in {0x17, 0x1A, 0x1B, 0x1C, 0x22, 0x23, 0x2F}
  }

  /** The payload size of a fixed-size block. */
  function FixedWidth(id: Byte): (w: nat)
    requires FixedId(id)
    ensures 4 <= w <= 13
  {
    if id == 0x17 then 13
    else if id == 0x22 then 5
    else if id == 0x23 then 9
    else if id == 0x2F then 8
    else 4
  }

  /** A fixed-size block cut out of its payload bytes by position. */
  function FixedBlockOf(id: Byte, s: seq<Byte>): ReplayBlock
    requires FixedId(id) && FixedWidth(id) <= |s|
  {
    if id == 0x17 then LeaveGame(LeUint(s[..4]), s[4], LeUint(s[5..9]), LeUint(s[9..13]))
    else if id == 0x1A then LoadStarted1(LeUint(s[..4]))
    else if id == 0x1B then LoadStarted2(LeUint(s[..4]))
    else if id == 0x1C then GameStarted(LeUint(s[..4]))
    else if id == 0x22 then RandomSeed(s[0], LeUint(s[1..5]))
    else if id == 0x23 then Desync(LeUint(s[..4]), LeUint(s[4..8]), s[8])
    else ForceGameEndCountdown(LeUint(s[..4]), LeUint(s[4..8]))
  }

  /**
   * A fixed-size block reads when its whole payload is readable, and then is
   * the block its payload bytes spell, taking exactly those bytes.
   */
  lemma FixedBlockReadable(st: Stream, id: Byte)
    requires FixedId(id)
    ensures FixedBlockAt(st, id).result.Ok? <==> FixedWidth(id) <= |Readable(st)|
    ensures FixedBlockAt(st, id).result.Ok? ==>
              FixedBlockAt(st, id).result.value == Some(FixedBlockOf(id, Readable(st)))
              && Consumes(st, FixedBlockAt(st, id).rest, FixedWidth(id))
  {
    ConsumesNothing(st);
    if id == 0x17 {
      LeaveGameReadable(st);
    } else if id == 0x22 {
      RandomSeedReadable(st);
    } else if id == 0x23 {
      DesyncReadable(st);
    } else if id == 0x2F {
      CountdownReadable(st);
    } else {
      DwordAfter(st, st, 0);
    }
  }

  lemma LeaveGameReadable(st: Stream)
    ensures LeaveGameAt(st).result.Ok? <==> 13 <= |Readable(st)|
    ensures LeaveGameAt(st).result.Ok? ==>
              LeaveGameAt(st).result.value == Some(LeaveGame(LeUint(Readable(st)[..4]), Readable(st)[4], LeUint(Readable(st)[5..9]), LeUint(Readable(st)[9..13])))
              && Consumes(st, LeaveGameAt(st).rest, 13)
  {
    ConsumesNothing(st);
    DwordAfter(st, st, 0);
    var reason := UnsignedDword(st);
    if reason.result.Ok? {
      ByteAfter(st, reason.rest, 4);
      var player := UnsignedByte(reason.rest);
      if player.result.Ok? {
        DwordAfter(st, player.rest, 5);
        var result := UnsignedDword(player.rest);
        if result.result.Ok? {
          DwordAfter(st, result.rest, 9);
        }
      }
    }
  }

  lemma RandomSeedReadable(st: Stream)
    ensures RandomSeedAt(st).result.Ok? <==> 5 <= |Readable(st)|
    ensures RandomSeedAt(st).result.Ok? ==>
              RandomSeedAt(st).result.value == Some(RandomSeed(Readable(st)[0], LeUint(Readable(st)[1..5])))
              && Consumes(st, RandomSeedAt(st).rest, 5)
  {
    ConsumesNothing(st);
    ByteAfter(st, st, 0);
    var numBytes := UnsignedByte(st);
    if numBytes.result.Ok? {
      DwordAfter(st, numBytes.rest, 1);
    }
  }

  lemma DesyncReadable(st: Stream)
    ensures DesyncAt(st).result.Ok? <==> 9 <= |Readable(st)|
    ensures DesyncAt(st).result.Ok? ==>
              DesyncAt(st).result.value == Some(Desync(LeUint(Readable(st)[..4]), LeUint(Readable(st)[4..8]), Readable(st)[8]))
              && Consumes(st, DesyncAt(st).rest, 9)
  {
    ConsumesNothing(st);
    DwordAfter(st, st, 0);
    var ticks := UnsignedDword(st);
    if ticks.result.Ok? {
      DwordAfter(st, ticks.rest, 4);
      var checksum := UnsignedDword(ticks.rest);
      if checksum.result.Ok? {
        ByteAfter(st, checksum.rest, 8);
      }
    }
  }

  lemma CountdownReadable(st: Stream)
    ensures CountdownAt(st).result.Ok? <==> 8 <= |Readable(st)|
    ensures CountdownAt(st).result.Ok? ==>
              CountdownAt(st).result.value == Some(ForceGameEndCountdown(LeUint(Readable(st)[..4]), LeUint(Readable(st)[4..8])))
              && Consumes(st, CountdownAt(st).rest, 8)
  {
    ConsumesNothing(st);
    DwordAfter(st, st, 0);
    var mode := UnsignedDword(st);
    if mode.result.Ok? {
      DwordAfter(st, mode.rest, 4);
    }
  }

  // ---------------------------------------------------------------------
  // Tick blocks
  // ---------------------------------------------------------------------

  /**
   * A tick block's `num_bytes` and time increment are its first two words,
   * and its commands are read from the byte after them.
   */
  lemma TickBlockReadable(st: Stream, id: Byte)
    requires id == 0x1E || id == 0x1F
    ensures |Readable(st)| < 4 ==> TickBlockAt(st, id).result.Err?
    ensures 4 <= |Readable(st)| ==>
              var header := UnsignedWord(UnsignedWord(st).rest);
              Consumes(st, header.rest, 4) &&
              TickBlockAt(st, id) == TickCommandsAt(header.rest, id, LeUint(Readable(st)[..2]), LeUint(Readable(st)[2..4]))
  {
    ConsumesNothing(st);
    WordAfter(st, st, 0);
    TickBlockHeader(st, id);
    var numBytes := UnsignedWord(st);
    if numBytes.result.Ok? {
      WordAfter(st, numBytes.rest, 2);
    }
  }

  /** After its two header words, a tick block is its commands. */
  lemma TickBlockHeader(st: Stream, id: Byte)
    requires id == 0x1E || id == 0x1F
    ensures var numBytes := UnsignedWord(st); var time := UnsignedWord(numBytes.rest);
      (numBytes.result.Err? || time.result.Err? ==> TickBlockAt(st, id).result.Err?) &&
      (numBytes.result.Ok? && time.result.Ok? ==>
         TickBlockAt(st, id) == TickCommandsAt(time.rest, id, numBytes.result.value, time.result.value))
  {
  }

  /**
   * A `num_bytes` below 2 is the overflow; otherwise the block keeps both
   * header words, its kind follows the id, and its commands are
   * `extract_commands(num_bytes - 2)`.
   */
  lemma TickCommandsParts(st: Stream, id: Byte, numBytes: nat, time: nat)
    requires id == 0x1E || id == 0x1F
    ensures numBytes < 2 ==> TickCommandsAt(st, id, numBytes, time).result == Err(Overflow)
    ensures TickCommandsAt(st, id, numBytes, time).result.Ok? ==>
              2 <= numBytes && Commands(st, numBytes - 2).result.Ok? &&
              var cs := Commands(st, numBytes - 2).result.value;
              TickCommandsAt(st, id, numBytes, time) ==
                Read(Ok(Some(if id == 0x1E then TickPreOverflow(numBytes, time, cs) else Tick(numBytes, time, cs))),
                     Commands(st, numBytes - 2).rest)
  {
  }

  /**
   * `r` is a tick block as the bytes readable from `st` spell it: fewer than
   * four bytes fail, a `num_bytes` below 2 is the overflow, and a block that
   * reads keeps both header words, has the kind its id names and holds
   * `extract_commands(num_bytes - 2)` read from the fifth byte on, ending
   * where they end.
   */
  predicate TickBlockOfBytes(st: Stream, id: Byte, r: Read<Option<ReplayBlock>>)
  {
    var s := Readable(st);
    (|s| < 4 ==> r.result.Err?) &&
    (4 <= |s| && LeUint(s[..2]) < 2 ==> r.result == Err(Overflow)) &&
    (r.result.Ok? ==>
       4 <= |s| && 2 <= LeUint(s[..2]) && r.result.value.Some? &&
       var b := r.result.value.value;
       var header := UnsignedWord(UnsignedWord(st).rest);
       Consumes(st, header.rest, 4) &&
       (if id == 0x1E then b.TickPreOverflow? else b.Tick?) &&
       b.numBytes == LeUint(s[..2]) && b.timeIncrement == LeUint(s[2..4]) &&
       Commands(header.rest, b.numBytes - 2) == Read(Ok(b.commands), r.rest))
  }

  /** A tick block reads as its bytes spell it. */
  lemma TickBlockBytes(st: Stream, id: Byte)
    requires id == 0x1E || id == 0x1F
    ensures TickBlockOfBytes(st, id, TickBlockAt(st, id))
  {
    TickBlockReadable(st, id);
    var s := Readable(st);
    if 4 <= |s| {
      var header := UnsignedWord(UnsignedWord(st).rest);
      TickCommandsParts(header.rest, id, LeUint(s[..2]), LeUint(s[2..4]));
    }
  }

  /**
   * `extract_commands(size)` stops once the counted sizes of its commands
   * reach `size`; every command but the last starts below it.
   */
  lemma CommandsReach(st: Stream, size: nat)
    ensures var r := Commands(st, size);
      r.result.Ok? ==> Total(r.result.value, CommandWeight) >= size
    ensures var r := Commands(st, size);
      r.result.Ok? && r.result.value != [] ==>
        Total(r.result.value[..|r.result.value| - 1], CommandWeight) < size
  {
    CountedStops(st, size, 0, CommandAt, CommandWeight);
  }

  // ---------------------------------------------------------------------
  // Chat blocks
  // ---------------------------------------------------------------------

  /** The chat header: player byte 0, `num_bytes` from bytes 1-2, flags byte 3, mode from bytes 4-7. */
  lemma ChatHeaderReadable(st: Stream)
    ensures ChatHeaderAt(st).result.Ok? <==> 8 <= |Readable(st)|
    ensures ChatHeaderAt(st).result.Ok? ==>
              var s := Readable(st);
              ChatHeaderAt(st).result.value == (s[0], LeUint(s[1..3]), s[3], LeUint(s[4..8]))
              && Consumes(st, ChatHeaderAt(st).rest, 8)
  {
    ConsumesNothing(st);
    ByteAfter(st, st, 0);
    var player := UnsignedByte(st);
    if player.result.Ok? {
      WordAfter(st, player.rest, 1);
      var numBytes := UnsignedWord(player.rest);
      if numBytes.result.Ok? {
        ByteAfter(st, numBytes.rest, 3);
        var flags := UnsignedByte(numBytes.rest);
        if flags.result.Ok? {
          DwordAfter(st, flags.rest, 4);
        }
      }
    }
  }

  /**
   * The message of a chat block reads when its `num_bytes - 6` bytes are UTF-8
   * and the byte after them is 0; it is those bytes, and the 0 is taken too.
   * A readable message followed by any other byte fails with `ChatNotTerminated`.
   */
  lemma ChatMessageReadable(st: Stream, numBytes: nat)
    requires numBytes >= 6
    ensures var s := Readable(st); var m := numBytes - 6;
      ChatMessageAt(st, numBytes).result.Ok? <==> m < |s| && ValidUtf8(s[..m]) && s[m] == 0
    ensures var s := Readable(st); var m := numBytes - 6;
      m < |s| && ValidUtf8(s[..m]) && s[m] != 0 ==> ChatMessageAt(st, numBytes).result == Err(ChatNotTerminated)
    ensures var s := Readable(st); var m := numBytes - 6;
      ChatMessageAt(st, numBytes).result.Ok? ==>
        ChatMessageAt(st, numBytes).result.value == s[..m] && Consumes(st, ChatMessageAt(st, numBytes).rest, m + 1)
  {
    var m := numBytes - 6;
    TakeReadable(st, m);
    var message := Take(st, m);
    if message.result.Ok? {
      ByteAfter(st, message.rest, m);
    }
  }

  /**
   * PlayerChat reads when its header, a `num_bytes` of at least 6, the UTF-8
   * message and the terminating 0 are readable. A `num_bytes` below 6 is the
   * overflow.
   */
  lemma ChatBlockReadable(st: Stream)
    ensures var s := Readable(st);
      ChatBlockAt(st).result.Ok? <==>
        8 <= |s| && var n := LeUint(s[1..3]);
        6 <= n && n + 3 <= |s| && ValidUtf8(s[8..n + 2]) && s[n + 2] == 0
    ensures var s := Readable(st);
      8 <= |s| && LeUint(s[1..3]) < 6 ==> ChatBlockAt(st).result == Err(Overflow)
  {
    ChatHeaderReadable(st);
    ChatBlockParts(st);
    var s := Readable(st);
    var header := ChatHeaderAt(st);
    if header.result.Ok? {
      var n := header.result.value.1;
      assert n == LeUint(s[1..3]);
      if n >= 6 {
        ChatMessageReadable(header.rest, n);
        var t := Readable(header.rest);
        var message := ChatMessageAt(header.rest, n);
        if n + 3 <= |s| {
          DropTake(s, 8, n - 6);
          assert t[n - 6] == s[n + 2];
          assert message.result.Ok? <==> ValidUtf8(s[8..n + 2]) && s[n + 2] == 0;
        } else {
          assert !message.result.Ok?;
        }
      }
    }
  }

  /**
   * A PlayerChat block is made of its bytes: player byte 0, `num_bytes` from
   * bytes 1-2, flags byte 3, mode from bytes 4-7 and the message after them,
   * and it takes `num_bytes + 3` bytes.
   */
  lemma ChatBlockBytes(st: Stream)
    ensures var s := Readable(st);
      ChatBlockAt(st).result.Ok? ==>
        8 <= |s| && var n := LeUint(s[1..3]);
        6 <= n && n + 3 <= |s|
        && ChatBlockAt(st).result.value == Some(PlayerChat(s[0], n, s[3], LeUint(s[4..8]), s[8..n + 2]))
        && Consumes(st, ChatBlockAt(st).rest, n + 3)
  {
    ChatHeaderReadable(st);
    ChatBlockParts(st);
    var s := Readable(st);
    var header := ChatHeaderAt(st);
    if ChatBlockAt(st).result.Ok? {
      var n := header.result.value.1;
      ChatMessageReadable(header.rest, n);
      var t := Readable(header.rest);
      var message := ChatMessageAt(header.rest, n);
      DropTake(s, 8, n - 6);
      assert message.result.value == s[8..n + 2];
      var h := header.result.value;
      assert h == (s[0], n, s[3], LeUint(s[4..8]));
      assert ChatBlockAt(st).result.value == Some(PlayerChat(h.0, h.1, h.2, h.3, s[8..n + 2]));
      ConsumesThen(st, header.rest, message.rest, 8, n - 5, n + 3);
    }
  }

  /** PlayerChat is its header, the overflow check on `num_bytes`, then the message. */
  lemma ChatBlockParts(st: Stream)
    ensures var header := ChatHeaderAt(st);
      ChatBlockAt(st).result.Ok? <==>
        header.result.Ok? && 6 <= header.result.value.1 && ChatMessageAt(header.rest, header.result.value.1).result.Ok?
    ensures var header := ChatHeaderAt(st);
      header.result.Ok? && header.result.value.1 < 6 ==> ChatBlockAt(st).result == Err(Overflow)
    ensures var header := ChatHeaderAt(st);
      ChatBlockAt(st).result.Ok? ==>
        var h := header.result.value;
        var message := ChatMessageAt(header.rest, h.1);
        ChatBlockAt(st) == Read(Ok(Some(PlayerChat(h.0, h.1, h.2, h.3, message.result.value))), message.rest)
  {
  }

  // ---------------------------------------------------------------------
  // The uncompressed file header
  // ---------------------------------------------------------------------

  /** A raw read after the first `k` bytes of `raw` reads bytes `k` to `k + n`. */
  lemma RawUintAfter(raw: seq<Byte>, at: seq<Byte>, k: nat, n: nat)
    requires k <= |raw| && at == raw[k..]
    ensures RawUint(at, n).Ok? <==> k + n <= |raw|
    ensures RawUint(at, n).Ok? ==>
              RawUint(at, n).value.value == LeUint(raw[k..k + n]) && RawUint(at, n).value.rest == raw[k + n..]
  {
    if k + n <= |raw| {
      DropTake(raw, k, n);
      assert at[n..] == raw[k + n..];
    }
  }

  /** The header fields as the file lays them out from offset 0 of `raw`. */
  function ReplayHeaderOf(raw: seq<Byte>): ReplayHeader
    requires 20 <= |raw|
  {
    ReplayHeader(raw[..4], LeUint(raw[4..8]), LeUint(raw[8..10]), LeUint(raw[10..12]),
                 LeUint(raw[12..16]), LeUint(raw[16..20]))
  }

  /**
   * `extract_replay_header` reads when 20 bytes are there and the version
   * string is UTF-8; each field is the little-endian value of its byte range.
   */
  lemma ReplayHeaderReadable(raw: seq<Byte>)
    ensures ReplayHeaderAt(raw).Ok? <==> 20 <= |raw| && ValidUtf8(raw[..4])
    ensures ReplayHeaderAt(raw).Ok? ==>
              ReplayHeaderAt(raw).value.value == ReplayHeaderOf(raw) && ReplayHeaderAt(raw).value.rest == raw[20..]
  {
    var version := RawFixedString(raw, 4);
    if version.Ok? {
      assert version.value.rest == raw[4..];
      RawUintAfter(raw, version.value.rest, 4, 4);
      var number := RawUint(version.value.rest, 4);
      if number.Ok? {
        RawUintAfter(raw, number.value.rest, 8, 2);
        var build := RawUint(number.value.rest, 2);
        if build.Ok? {
          RawUintAfter(raw, build.value.rest, 10, 2);
          var flags := RawUint(build.value.rest, 2);
          if flags.Ok? {
            RawUintAfter(raw, flags.value.rest, 12, 4);
            var duration := RawUint(flags.value.rest, 4);
            if duration.Ok? {
              RawUintAfter(raw, duration.value.rest, 16, 4);
            }
          }
        }
      }
    }
  }

  /**
   * The start of the file reads exactly when its 68 bytes are there and both
   * strings, bytes 0-27 and 48-51, are UTF-8.
   */
  lemma FileHeaderReadable(raw: seq<Byte>)
    ensures FileHeaderAt(raw).Ok? <==> 68 <= |raw| && ValidUtf8(raw[..28]) && ValidUtf8(raw[48..52])
  {
    if |raw| < 68 {
      FileHeaderShort(raw);
    } else {
      FileHeaderStrings(raw);
    }
  }

  /** A file start shorter than 68 bytes does not read. */
  lemma FileHeaderShort(raw: seq<Byte>)
    requires |raw| < 68
    ensures FileHeaderAt(raw).Err?
  {
    FileHeaderSucceeds(raw);
    if 28 <= |raw| {
      FileDwordsReadable(raw);
      if 48 <= |raw| {
        ReplayHeaderReadable(raw[48..]);
      }
    }
  }

  /** With its 68 bytes there, the start of the file reads exactly when both strings are UTF-8. */
  lemma FileHeaderStrings(raw: seq<Byte>)
    requires 68 <= |raw|
    ensures FileHeaderAt(raw).Ok? <==> ValidUtf8(raw[..28]) && ValidUtf8(raw[48..52])
  {
    FileHeaderSucceeds(raw);
    FileDwordsReadable(raw);
    var rest := FileDwords(raw).value.rest;
    assert rest == raw[48..];
    ReplayHeaderReadable(rest);
    DropTake(raw, 48, 4);
    assert rest[..4] == raw[48..52];
  }

  /** The start of the file reads when the magic string, the five dwords and the replay header do. */
  lemma FileHeaderSucceeds(raw: seq<Byte>)
    ensures FileHeaderAt(raw).Ok? <==>
              28 <= |raw| && ValidUtf8(raw[..28]) && FileDwords(raw).Ok? &&
              ReplayHeaderAt(FileDwords(raw).value.rest).Ok?
  {
    FileHeaderParts(raw);
  }

  /**
   * The magic string is bytes 0-27, the five dwords follow at 28, 32, 36, 40
   * and 44, and the replay header starts at byte 48.
   */
  lemma FileHeaderFields(raw: seq<Byte>)
    ensures FileHeaderAt(raw).Ok? ==>
              68 <= |raw| &&
              FileHeaderAt(raw).value ==
                FileHeader(raw[..28], LeUint(raw[28..32]), LeUint(raw[32..36]), LeUint(raw[36..40]),
                           LeUint(raw[40..44]), LeUint(raw[44..48]), ReplayHeaderOf(raw[48..]))
  {
    FileHeaderParts(raw);
    if FileHeaderAt(raw).Ok? {
      FileDwordsReadable(raw);
      var rest := FileDwords(raw).value.rest;
      assert rest == raw[48..];
      ReplayHeaderReadable(rest);
    }
  }

  /** The five dwords after the magic string, with what follows them. */
  function FileDwords(raw: seq<Byte>): Result<Cut<seq<nat>>, ParseError>
    requires 28 <= |raw|
  {
    var offset :- RawUint(raw[28..], 4);
    var compressed :- RawUint(offset.rest, 4);
    var version :- RawUint(compressed.rest, 4);
    var decompressed :- RawUint(version.rest, 4);
    var count :- RawUint(decompressed.rest, 4);
    Ok(Cut([offset.value, compressed.value, version.value, decompressed.value, count.value], count.rest))
  }

  /** `parse_replay`'s five header dwords are bytes 28-47 of the file, four at a time. */
  lemma FileDwordsReadable(raw: seq<Byte>)
    requires 28 <= |raw|
    ensures FileDwords(raw).Ok? <==> 48 <= |raw|
    ensures FileDwords(raw).Ok? ==>
              FileDwords(raw).value == Cut([LeUint(raw[28..32]), LeUint(raw[32..36]), LeUint(raw[36..40]),
                                            LeUint(raw[40..44]), LeUint(raw[44..48])], raw[48..])
  {
    RawUintAfter(raw, raw[28..], 28, 4);
    var offset := RawUint(raw[28..], 4);
    if offset.Ok? {
      RawUintAfter(raw, offset.value.rest, 32, 4);
      var compressed := RawUint(offset.value.rest, 4);
      if compressed.Ok? {
        RawUintAfter(raw, compressed.value.rest, 36, 4);
        var version := RawUint(compressed.value.rest, 4);
        if version.Ok? {
          RawUintAfter(raw, version.value.rest, 40, 4);
          var decompressed := RawUint(version.value.rest, 4);
          if decompressed.Ok? {
            RawUintAfter(raw, decompressed.value.rest, 44, 4);
          }
        }
      }
    }
  }

  /** The start of the file is the magic string, the five dwords, then the replay header. */
  lemma FileHeaderParts(raw: seq<Byte>)
    ensures |raw| < 28 ==> FileHeaderAt(raw).Err?
    ensures 28 <= |raw| ==>
              (!ValidUtf8(raw[..28]) || FileDwords(raw).Err? ==> FileHeaderAt(raw).Err?) &&
              (ValidUtf8(raw[..28]) && FileDwords(raw).Ok? ==>
                 var d := FileDwords(raw).value;
                 var header := ReplayHeaderAt(d.rest);
                 (header.Err? ==> FileHeaderAt(raw).Err?) &&
                 (header.Ok? ==>
                    FileHeaderAt(raw) == Ok(FileHeader(raw[..28], d.value[0], d.value[1], d.value[2], d.value[3],
                                                       d.value[4], header.value.value))))
  {
  }

  /**
   * A parsed replay keeps the fields of the start of its file, and a file
   * whose start does not read does not parse.
   */
  lemma ParseReplayReadable(raw: seq<Byte>, blocks: seq<Block>)
    ensures FileHeaderAt(raw).Err? ==> ParseReplaySpec(raw, blocks) == Err(FileHeaderAt(raw).error)
    ensures ParseReplaySpec(raw, blocks).Ok? ==>
              var r := ParseReplaySpec(raw, blocks).value;
              FileHeaderAt(raw) ==
                Ok(FileHeader(r.magicString, r.fileOffset, r.compressedSize, r.headerVersion,
                              r.decompressedSize, r.numberOfCompressedBlocks, r.replayHeader))
  {
  }

  /**
   * A parsed replay's magic string is bytes 0-27 of the file, its five
   * header dwords are bytes 28-47 and its replay header starts at byte 48; a
   * file too short for these 68 bytes, or whose two strings are not UTF-8,
   * does not parse.
   */
  lemma ParseReplayFileFields(raw: seq<Byte>, blocks: seq<Block>)
    ensures !(68 <= |raw| && ValidUtf8(raw[..28]) && ValidUtf8(raw[48..52])) ==> ParseReplaySpec(raw, blocks).Err?
    ensures ParseReplaySpec(raw, blocks).Ok? ==>
              68 <= |raw| &&
              var r := ParseReplaySpec(raw, blocks).value;
              r.magicString == raw[..28] && r.fileOffset == LeUint(raw[28..32]) &&
              r.compressedSize == LeUint(raw[32..36]) && r.headerVersion == LeUint(raw[36..40]) &&
              r.decompressedSize == LeUint(raw[40..44]) && r.numberOfCompressedBlocks == LeUint(raw[44..48]) &&
              r.replayHeader == ReplayHeaderOf(raw[48..])
  {
    ParseReplayReadable(raw, blocks);
    FileHeaderReadable(raw);
    FileHeaderFields(raw);
  }
}
