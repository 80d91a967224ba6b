/**
 * `ReplayStream`: a FIFO of inflated bytes refilled one compressed block at
 * a time, and the decoders that read a replay from it. Every method is
 * proved to compute what its pure counterpart in ReplayStreams/ReplayDecode
 * says, result and final stream state alike, failures included.
 */
module ReplayParser {
  import opened Wrappers
  import opened Bytes
  import opened ReplayTypes
  import opened ReplayStreams
  import opened ReplayDecode
  import opened ReplayAccounting
  import opened ReplayWire

  class ReplayStream {
    /** `decompressed_bytes`, front first. */
    var buffer: seq<Byte>
    /** The compressed blocks of the file not yet inflated. */
    var source: seq<Block>

    function Model(): Stream
      reads this
    {
      Stream(buffer, source)
    }

    /** `ReplayStream::from_file`: an empty buffer in front of the file's blocks. */
    constructor FromFile(blocks: seq<Block>)
      ensures Model() == Stream([], blocks)
    {
      buffer := [];
      source := blocks;
    }

    /** `decompress_data`: inflate the next block onto the back of the buffer. */
    method DecompressData() returns (r: Result<(), ParseError>)
      modifies this
      ensures Read(r, Model()) == Refill(old(Model()))
    {
      if source == [] {
        return Err(EndOfData);
      }
      var block := source[0];
      source := source[1..];
      match block
      case Corrupt =>
        return Err(BadBlock);
      case Inflated(bytes) =>
        buffer := buffer + bytes;
        return Ok(());
    }

    /** `read_bytes`: `length` bytes off the front, refilling when the buffer runs dry. */
    method ReadBytes(length: nat) returns (r: Result<seq<Byte>, ParseError>)
      modifies this
      ensures Read(r, Model()) == Take(old(Model()), length)
    {
      var bytes: seq<Byte> := [];
      for i := 0 to length
        invariant TakeAcc(Model(), length - i, bytes) == TakeAcc(old(Model()), length, [])
      {
        if |buffer| < 1 {
          var filled := DecompressData();
          if filled.Err? {
            return Err(filled.error);
          }
        }
        if buffer == [] {
          return Err(EndOfData);
        }
        bytes := bytes + [buffer[0]];
        buffer := buffer[1..];
      }
      return Ok(bytes);
    }

    /** `read_unsigned_byte`. */
    method ReadUnsignedByte() returns (r: Result<Byte, ParseError>)
      modifies this
      ensures Read(r, Model()) == UnsignedByte(old(Model()))
    {
      var bytes :- ReadBytes(1);
      return Ok(bytes[0]);
    }

    /** `read_unsigned_word`. */
    method ReadUnsignedWord() returns (r: Result<nat, ParseError>)
      modifies this
      ensures Read(r, Model()) == UnsignedWord(old(Model()))
    {
      var bytes :- ReadBytes(2);
      return Ok(LeUint(bytes));
    }

    /** `read_unsigned_dword`. */
    method ReadUnsignedDword() returns (r: Result<nat, ParseError>)
      modifies this
      ensures Read(r, Model()) == UnsignedDword(old(Model()))
    {
      var bytes :- ReadBytes(4);
      return Ok(LeUint(bytes));
    }

    /** `read_unsigned_qword`. */
    method ReadUnsignedQword() returns (r: Result<nat, ParseError>)
      modifies this
      ensures Read(r, Model()) == UnsignedQword(old(Model()))
    {
      var bytes :- ReadBytes(8);
      return Ok(LeUint(bytes));
    }

    /** `read_signed_dword`. */
    method ReadSignedDword() returns (r: Result<int, ParseError>)
      modifies this
      ensures Read(r, Model()) == SignedDword(old(Model()))
      ensures r.Ok? <==> 4 <= |Readable(old(Model()))|
      ensures r.Ok? ==> LeUint(Readable(old(Model()))[..4]) < 0x1_0000_0000
                        && r.value == ToI32(LeUint(Readable(old(Model()))[..4]))
                        && Readable(Model()) == Readable(old(Model()))[4..]
    {
      SignedDwordReadable(Model());
      var bits :- ReadUnsignedDword();
      return Ok(ToI32(bits));
    }

    /** `read_float32`, kept as raw bytes. */
    method ReadFloat32() returns (r: Result<seq<Byte>, ParseError>)
      modifies this
      ensures Read(r, Model()) == Float32(old(Model()))
      ensures r.Ok? <==> 4 <= |Readable(old(Model()))|
      ensures r.Ok? ==> r.value == Readable(old(Model()))[..4] && Readable(Model()) == Readable(old(Model()))[4..]
    {
      Float32Readable(Model());
      r := ReadBytes(4);
    }

    /** The loop shared by the two string readers: the bytes before the next 0. */
    method ReadUntilNul() returns (r: Result<seq<Byte>, ParseError>)
      modifies this
      ensures Read(r, Model()) == UntilNul(old(Model()), [])
    {
      var bytes: seq<Byte> := [];
      var last :- ReadUnsignedByte();
      while last != 0
        invariant UntilNul(old(Model()), [])
               == if last == 0 then Read(Ok(bytes), Model()) else UntilNul(Model(), bytes + [last])
        decreases Size(Model())
      {
        bytes := bytes + [last];
        last :- ReadUnsignedByte();
      }
      return Ok(bytes);
    }

    /** `read_null_terminated_string`. */
    method ReadNullTerminatedString() returns (r: Result<Text, ParseError>)
      modifies this
      ensures Read(r, Model()) == NulTerminated(old(Model()))
    {
      var bytes :- ReadUntilNul();
      if !ValidUtf8(bytes) {
        return Err(InvalidUtf8);
      }
      return Ok(bytes);
    }

    /** `read_encoded_string`: the bytes and the terminating 0. */
    method ReadEncodedString() returns (r: Result<seq<Byte>, ParseError>)
      modifies this
      ensures Read(r, Model()) == Encoded(old(Model()))
      ensures r.Ok? <==> 0 in Readable(old(Model()))
      ensures r.Ok? ==> var s := Readable(old(Model()));
                        r.value == s[..FirstNul(s) + 1] && Readable(Model()) == s[FirstNul(s) + 1..]
    {
      EncodedReadable(Model());
      var bytes :- ReadUntilNul();
      return Ok(bytes + [0]);
    }

    // -------------------------------------------------------------------
    // Game header
    // -------------------------------------------------------------------

    /** `extract_player_record`. */
    method ExtractPlayerRecord(recordId: Option<Byte>) returns (r: Result<PlayerRecord, ParseError>)
      modifies this
      ensures Read(r, Model()) == PlayerRecordAt(old(Model()), recordId)
    {
      var id: Byte;
      if recordId.Some? {
        id := recordId.value;
      } else {
        id :- ReadUnsignedByte();
      }
      var player :- ReadUnsignedByte();
      var name :- ReadNullTerminatedString();
      var size :- ReadUnsignedByte();
      var data :- ReadBytes(size);
      return Ok(PlayerRecord(id, player, name, size, data));
    }

    /** `extract_slot_record`. */
    method ExtractSlotRecord() returns (r: Result<SlotRecord, ParseError>)
      modifies this
      ensures Read(r, Model()) == SlotRecordAt(old(Model()))
      ensures r.Ok? <==> 9 <= |Readable(old(Model()))|
      ensures r.Ok? ==> var s := Readable(old(Model()));
                        r.value == SlotRecord(s[0], s[1], s[2], s[3], s[4], s[5], s[6], s[7], s[8])
                        && Consumes(old(Model()), Model(), 9)
    {
      SlotRecordReadable(Model());
      var b :- ReadBytes(9);
      return Ok(SlotRecord(b[0], b[1], b[2], b[3], b[4], b[5], b[6], b[7], b[8]));
    }

    /** The slot loop of `extract_game_record`. */
    method ExtractSlotRecords(count: nat) returns (r: Result<seq<SlotRecord>, ParseError>)
      modifies this
      ensures Read(r, Model()) == Repeat(old(Model()), count, SlotRecordAt)
    {
      ghost var whole := Repeat(Model(), count, SlotRecordAt);
      PrependNothing(whole);
      var slots: seq<SlotRecord> := [];
      var left := count;
      while left > 0
        invariant Prepend(slots, Repeat(Model(), left, SlotRecordAt)) == whole
      {
        ghost var oldLeft := left;
        left := left - 1;
        RepeatNext(slots, Model(), oldLeft, left, SlotRecordAt, whole);
        var slot :- ExtractSlotRecord();
        slots := slots + [slot];
      }
      assert slots + [] == slots;
      return Ok(slots);
    }

    /** `extract_game_record`. */
    method ExtractGameRecord(recordId: Option<Byte>) returns (r: Result<GameRecord, ParseError>)
      modifies this
      ensures Read(r, Model()) == GameRecordAt(old(Model()), recordId)
    {
      var id: Byte;
      if recordId.Some? {
        id := recordId.value;
      } else {
        id :- ReadUnsignedByte();
      }
      var numDataBytes :- ReadUnsignedWord();
      var numSlots :- ReadUnsignedByte();
      var slots :- ExtractSlotRecords(numSlots);
      var seed :- ReadUnsignedDword();
      var selectMode :- ReadUnsignedByte();
      var startSpots :- ReadUnsignedByte();
      return Ok(GameRecord(id, numDataBytes, numSlots, slots, seed, selectMode, startSpots));
    }

    /** The player loop of `extract_game_header`, from the first record id on. */
    method ExtractPlayers(firstId: Byte) returns (r: Result<Players, ParseError>)
      modifies this
      ensures Read(r, Model()) == PlayersLoop(old(Model()), firstId)
    {
      ghost var whole := PlayersLoop(Model(), firstId);
      PlayersPrependNothing(whole);
      var players: seq<PlayerRecord> := [];
      var recordId := firstId;
      while recordId == 0x16
        invariant PlayersPrepend(players, PlayersLoop(Model(), recordId)) == whole
        decreases Size(Model())
      {
        PlayersNext(players, Model(), recordId, whole);
        var player :- ExtractPlayerRecord(Some(recordId));
        var _ :- ReadUnsignedDword();
        recordId :- ReadUnsignedByte();
        players := players + [player];
      }
      assert players + [] == players;
      return Ok(Players(players, recordId));
    }

    /** `extract_game_header`. */
    method ExtractGameHeader() returns (r: Result<GameHeader, ParseError>)
      modifies this
      ensures Read(r, Model()) == GameHeaderAt(old(Model()))
    {
      var unknown :- ReadUnsignedDword();
      var saver :- ExtractPlayerRecord(None);
      var name :- ReadNullTerminatedString();
      var _ := ReadBytes(1);
      var encoded :- ReadEncodedString();
      var numPlayers :- ReadUnsignedDword();
      var gameType :- ReadUnsignedDword();
      var language :- ReadUnsignedDword();
      var recordId :- ReadUnsignedByte();
      var players :- ExtractPlayers(recordId);
      var game :- ExtractGameRecord(Some(players.endId));
      return Ok(GameHeader(unknown, saver, name, encoded, numPlayers, gameType, language, players.records, game));
    }

    // -------------------------------------------------------------------
    // Actions
    // -------------------------------------------------------------------

    /** `extract_game_object`. */
    method ExtractGameObject() returns (r: Result<GameObject, ParseError>)
      modifies this
      ensures Read(r, Model()) == GameObjectAt(old(Model()))
    {
      var allocatedId :- ReadUnsignedDword();
      var counterId :- ReadUnsignedDword();
      return Ok(GameObject(allocatedId, counterId));
    }

    /** The target loop of ChangeSelection / AssignGroup. */
    method ExtractGameObjects(count: nat) returns (r: Result<seq<GameObject>, ParseError>)
      modifies this
      ensures Read(r, Model()) == Repeat(old(Model()), count, GameObjectAt)
    {
      ghost var whole := Repeat(Model(), count, GameObjectAt);
      PrependNothing(whole);
      var objs: seq<GameObject> := [];
      var left := count;
      while left > 0
        invariant Prepend(objs, Repeat(Model(), left, GameObjectAt)) == whole
      {
        ghost var oldLeft := left;
        left := left - 1;
        RepeatNext(objs, Model(), oldLeft, left, GameObjectAt, whole);
        var obj :- ExtractGameObject();
        objs := objs + [obj];
      }
      assert objs + [] == objs;
      return Ok(objs);
    }

    /** `extract_unit_inventory`. */
    method ExtractUnitInventory() returns (r: Result<seq<UnitInventory>, ParseError>)
      modifies this
      ensures Read(r, Model()) == InventoryAt(old(Model()))
    {
      var count :- ReadUnsignedDword();
      ghost var whole := Repeat(Model(), count, InventoryEntryAt);
      PrependNothing(whole);
      var items: seq<UnitInventory> := [];
      var left := count;
      while left > 0
        invariant Prepend(items, Repeat(Model(), left, InventoryEntryAt)) == whole
      {
        ghost var oldLeft := left;
        left := left - 1;
        RepeatNext(items, Model(), oldLeft, left, InventoryEntryAt, whole);
        var item :- ReadUnsignedDword();
        var charges :- ReadUnsignedDword();
        var unknown :- ReadUnsignedDword();
        items := items + [UnitInventory(item, charges, unknown)];
      }
      assert items + [] == items;
      return Ok(items);
    }

    /** `extract_unit_abilites`. */
    method ExtractUnitAbilities() returns (r: Result<seq<UnitAbility>, ParseError>)
      modifies this
      ensures Read(r, Model()) == AbilitiesAt(old(Model()))
    {
      var count :- ReadUnsignedDword();
      ghost var whole := Repeat(Model(), count, AbilityEntryAt);
      PrependNothing(whole);
      var skills: seq<UnitAbility> := [];
      var left := count;
      while left > 0
        invariant Prepend(skills, Repeat(Model(), left, AbilityEntryAt)) == whole
      {
        ghost var oldLeft := left;
        left := left - 1;
        RepeatNext(skills, Model(), oldLeft, left, AbilityEntryAt, whole);
        var ability :- ReadUnsignedDword();
        var level :- ReadUnsignedDword();
        skills := skills + [UnitAbility(ability, level)];
      }
      assert skills + [] == skills;
      return Ok(skills);
    }

    /** One field of an action arm. */
    method ReadField(k: FieldKind) returns (r: Result<Field, ParseError>)
      modifies this
      ensures Read(r, Model()) == FieldAt(old(Model()), k)
    {
      match k
      case U8 =>
        var b :- ReadUnsignedByte();
        return Ok(Num(b));
      case U16 =>
        var w :- ReadUnsignedWord();
        return Ok(Num(w));
      case U32 =>
        var d :- ReadUnsignedDword();
        return Ok(Num(d));
      case U64 =>
        var q :- ReadUnsignedQword();
        return Ok(Num(q));
      case I32 =>
        var i :- ReadSignedDword();
        return Ok(Signed(i));
      case F32 =>
        var f :- ReadFloat32();
        return Ok(Float(f));
      case Object =>
        var obj :- ExtractGameObject();
        return Ok(Obj(obj));
      case NulString =>
        var s :- ReadNullTerminatedString();
        return Ok(Str(s));
      case Speed =>
        var b :- ReadUnsignedByte();
        var speed :- GameSpeedFromU8(b);
        return Ok(SpeedField(speed));
      case Selection =>
        var b :- ReadUnsignedByte();
        var op :- SelectionOperationFromU8(b);
        return Ok(SelectionField(op));
      case Arrow =>
        var b :- ReadUnsignedByte();
        var key :- ArrowKeyEventFromU8(b);
        return Ok(ArrowField(key));
      case OrderFlags =>
        var bits :- ReadUnsignedWord();
        var flags := OrderTypeFromU16(bits);
        return Ok(Orders(flags.value));
      case AllianceFlags =>
        var bits :- ReadUnsignedDword();
        var flags := AllianceTypeFromU32(bits);
        return Ok(Alliances(flags.value));
      case ObjectList =>
        var count :- ReadUnsignedWord();
        var objs :- ExtractGameObjects(count);
        return Ok(Objects(objs));
      case Inventory =>
        var items :- ExtractUnitInventory();
        return Ok(Items(items));
      case Abilities =>
        var skills :- ExtractUnitAbilities();
        return Ok(Skills(skills));
    }

    /** The reads of one match arm, in order. */
    method ReadFields(layout: seq<FieldKind>) returns (r: Result<seq<Field>, ParseError>)
      modifies this
      ensures Read(r, Model()) == FieldsAt(old(Model()), layout)
    {
      ghost var whole := FieldsAt(Model(), layout);
      PrependNothing(whole);
      var fields: seq<Field> := [];
      var todo := layout;
      while todo != []
        invariant Prepend(fields, FieldsAt(Model(), todo)) == whole
        decreases |todo|
      {
        FieldsNext(fields, Model(), todo, whole);
        var f :- ReadField(todo[0]);
        fields := fields + [f];
        todo := todo[1..];
      }
      assert fields + [] == fields;
      return Ok(fields);
    }

    /** The body of the `extract_actions` loop: an id and the arm it selects. */
    method ExtractAction() returns (r: Result<Action, ParseError>)
      modifies this
      ensures Read(r, Model()) == ActionAt(old(Model()))
    {
      var id :- ReadUnsignedByte();
      var kind := ActionKindOf(id);
      if kind.None? {
        return Err(UnknownAction(id));
      }
      var fields :- ReadFields(Layout(kind.value));
      return Ok(Action(kind.value, fields));
    }

    /**
     * `extract_actions(size)`: read actions while the byte counter is below
     * `size`; each adds one for its id and its arm's count (see ArmCount).
     */
    method ExtractActions(size: nat) returns (r: Result<seq<Action>, ParseError>)
      modifies this
      ensures Read(r, Model()) == Actions(old(Model()), size)
    {
      ghost var whole := Counted(Model(), size, 0, ActionAt, ActionWeight);
      PrependNothing(whole);
      var actions: seq<Action> := [];
      var bytesRead: nat := 0;
      while bytesRead < size
        invariant Prepend(actions, Counted(Model(), size, bytesRead, ActionAt, ActionWeight)) == whole
        decreases Size(Model())
      {
        ghost var before := Model();
        CountedFail(actions, before, size, bytesRead, ActionAt, ActionWeight, whole);
        var action :- ExtractAction();
        ghost var oldRead := bytesRead;
        bytesRead := bytesRead + 1 + ArmCount(action.kind, action.fields);
        CountedAdvance(actions, before, size, oldRead, bytesRead, ActionAt, ActionWeight, action, Model(), whole);
        actions := actions + [action];
      }
      assert actions + [] == actions;
      return Ok(actions);
    }

    /** The body of the `extract_commands` loop. */
    method ExtractCommand() returns (r: Result<Command, ParseError>)
      modifies this
      ensures Read(r, Model()) == CommandAt(old(Model()))
    {
      var player :- ReadUnsignedByte();
      var numBytes :- ReadUnsignedWord();
      var actions :- ExtractActions(numBytes);
      return Ok(Command(player, numBytes, actions));
    }

    /** `extract_commands(size)`. */
    method ExtractCommands(size: nat) returns (r: Result<seq<Command>, ParseError>)
      modifies this
      ensures Read(r, Model()) == Commands(old(Model()), size)
    {
      ghost var whole := Counted(Model(), size, 0, CommandAt, CommandWeight);
      PrependNothing(whole);
      var commands: seq<Command> := [];
      var bytesRead: nat := 0;
      while bytesRead < size
        invariant Prepend(commands, Counted(Model(), size, bytesRead, CommandAt, CommandWeight)) == whole
        decreases Size(Model())
      {
        ghost var before := Model();
        CountedFail(commands, before, size, bytesRead, CommandAt, CommandWeight, whole);
        var command :- ExtractCommand();
        ghost var oldRead := bytesRead;
        bytesRead := bytesRead + 3 + command.numBytes;
        CountedAdvance(commands, before, size, oldRead, bytesRead, CommandAt, CommandWeight, command, Model(), whole);
        commands := commands + [command];
      }
      assert commands + [] == commands;
      return Ok(commands);
    }

    // -------------------------------------------------------------------
    // Blocks
    // -------------------------------------------------------------------

    /** The arms LeaveGame, LoadStarted1/2, GameStarted, RandomSeed, Desync, ForceGameEndCountdown. */
    method ExtractFixedBlock(id: Byte) returns (r: Result<Option<ReplayBlock>, ParseError>)
      requires id in {0x17, 0x1A, 0x1B, 0x1C, 0x22, 0x23, 0x2F}
      modifies this
      ensures Read(r, Model()) == FixedBlockAt(old(Model()), id)
      ensures r.Ok? <==> FixedWidth(id) <= |Readable(old(Model()))|
      ensures r.Ok? ==> r.value == Some(FixedBlockOf(id, Readable(old(Model()))))
                        && Consumes(old(Model()), Model(), FixedWidth(id))
    {
      FixedBlockReadable(Model(), id);
      if id == 0x17 {
        var reason :- ReadUnsignedDword();
        var player :- ReadUnsignedByte();
        var result :- ReadUnsignedDword();
        var leaves :- ReadUnsignedDword();
        return Ok(Some(LeaveGame(reason, player, result, leaves)));
      } else if id == 0x1A {
        var unknown :- ReadUnsignedDword();
        return Ok(Some(LoadStarted1(unknown)));
      } else if id == 0x1B {
        var unknown :- ReadUnsignedDword();
        return Ok(Some(LoadStarted2(unknown)));
      } else if id == 0x1C {
        var unknown :- ReadUnsignedDword();
        return Ok(Some(GameStarted(unknown)));
      } else if id == 0x22 {
        var numBytes :- ReadUnsignedByte();
        var unknown :- ReadUnsignedDword();
        return Ok(Some(RandomSeed(numBytes, unknown)));
      } else if id == 0x23 {
        var ticks :- ReadUnsignedDword();
        var checksum :- ReadUnsignedDword();
        var remaining :- ReadUnsignedByte();
        return Ok(Some(Desync(ticks, checksum, remaining)));
      } else {
        var mode :- ReadUnsignedDword();
        var time :- ReadUnsignedDword();
        return Ok(Some(ForceGameEndCountdown(mode, time)));
      }
    }

    /** The TickPreOverflow (0x1E) and Tick (0x1F) arms. */
    method ExtractTickBlock(id: Byte) returns (r: Result<Option<ReplayBlock>, ParseError>)
      requires id == 0x1E || id == 0x1F
      modifies this
      ensures Read(r, Model()) == TickBlockAt(old(Model()), id)
      ensures TickBlockOfBytes(old(Model()), id, Read(r, Model()))
    {
      TickBlockBytes(Model(), id);
      var numBytes :- ReadUnsignedWord();
      var time :- ReadUnsignedWord();
      if numBytes < 2 {
        return Err(Overflow);
      }
      var commands :- ExtractCommands(numBytes - 2);
      if id == 0x1E {
        return Ok(Some(TickPreOverflow(numBytes, time, commands)));
      }
      return Ok(Some(Tick(numBytes, time, commands)));
    }

    /** The PlayerChat (0x20) arm. */
    method ExtractChatBlock() returns (r: Result<Option<ReplayBlock>, ParseError>)
      modifies this
      ensures Read(r, Model()) == ChatBlockAt(old(Model()))
      ensures var s := Readable(old(Model()));
        r.Ok? <==> 8 <= |s| && var n := LeUint(s[1..3]);
                   6 <= n && n + 3 <= |s| && ValidUtf8(s[8..n + 2]) && s[n + 2] == 0
      ensures var s := Readable(old(Model()));
        8 <= |s| && LeUint(s[1..3]) < 6 ==> r == Err(Overflow)
      ensures var s := Readable(old(Model()));
        r.Ok? ==> 8 <= |s| && var n := LeUint(s[1..3]);
                  6 <= n && n + 3 <= |s| &&
                  r.value == Some(PlayerChat(s[0], n, s[3], LeUint(s[4..8]), s[8..n + 2])) &&
                  Consumes(old(Model()), Model(), n + 3)
    {
      ChatBlockReadable(Model());
      ChatBlockBytes(Model());
      var header :- ReadChatHeader();
      var (player, numBytes, flags, mode) := header;
      if numBytes < 6 {
        return Err(Overflow);
      }
      var message :- ReadChatMessage(numBytes);
      return Ok(Some(PlayerChat(player, numBytes, flags, mode, message)));
    }

    /** The four header fields of a PlayerChat block. */
    method ReadChatHeader() returns (r: Result<(Byte, nat, Byte, nat), ParseError>)
      modifies this
      ensures Read(r, Model()) == ChatHeaderAt(old(Model()))
      ensures r.Ok? <==> 8 <= |Readable(old(Model()))|
      ensures r.Ok? ==> var s := Readable(old(Model()));
                        r.value == (s[0], LeUint(s[1..3]), s[3], LeUint(s[4..8]))
                        && Consumes(old(Model()), Model(), 8)
    {
      ChatHeaderReadable(Model());
      var player :- ReadUnsignedByte();
      var numBytes :- ReadUnsignedWord();
      var flags :- ReadUnsignedByte();
      var mode :- ReadUnsignedDword();
      return Ok((player, numBytes, flags, mode));
    }

    /** The message of a PlayerChat block and the 0 that must end it. */
    method ReadChatMessage(numBytes: nat) returns (r: Result<Text, ParseError>)
      requires numBytes >= 6
      modifies this
      ensures Read(r, Model()) == ChatMessageAt(old(Model()), numBytes)
      ensures var s := Readable(old(Model())); var m := numBytes - 6;
        r.Ok? <==> m < |s| && ValidUtf8(s[..m]) && s[m] == 0
      ensures var s := Readable(old(Model())); var m := numBytes - 6;
        m < |s| && ValidUtf8(s[..m]) && s[m] != 0 ==> r == Err(ChatNotTerminated)
      ensures var s := Readable(old(Model())); var m := numBytes - 6;
        r.Ok? ==> r.value == s[..m] && Consumes(old(Model()), Model(), m + 1)
    {
      ChatMessageReadable(Model(), numBytes);
      var message :- ReadBytes(numBytes - 6);
      if !ValidUtf8(message) {
        return Err(InvalidUtf8);
      }
      var ending :- ReadUnsignedByte();
      if ending != 0 {
        return Err(ChatNotTerminated);
      }
      return Ok(message);
    }

    /** The match on the block id; unknown ids read nothing. */
    method ExtractBlockBody(id: Byte) returns (r: Result<Option<ReplayBlock>, ParseError>)
      modifies this
      ensures Read(r, Model()) == BlockBody(old(Model()), id)
    {
      if id in {0x17, 0x1A, 0x1B, 0x1C, 0x22, 0x23, 0x2F} {
        r := ExtractFixedBlock(id);
      } else if id == 0x1E || id == 0x1F {
        r := ExtractTickBlock(id);
      } else if id == 0x20 {
        r := ExtractChatBlock();
      } else {
        r := Ok(None);
      }
    }

    /** `extract_blocks`: blocks up to the first id 0. */
    method ExtractBlocks() returns (r: Result<seq<ReplayBlock>, ParseError>)
      modifies this
      ensures Read(r, Model()) == Blocks(old(Model()))
    {
      var blocks: seq<ReplayBlock> := [];
      var blockId :- ReadUnsignedByte();
      ghost var whole := BlocksLoop(Model(), blockId);
      PrependNothing(whole);
      while blockId != 0
        invariant Prepend(blocks, BlocksLoop(Model(), blockId)) == whole
        decreases Size(Model())
      {
        BlocksNext(blocks, Model(), blockId, whole);
        var block :- ExtractBlockBody(blockId);
        blockId :- ReadUnsignedByte();
        blocks := blocks + Listed(block);
      }
      assert blocks + [] == blocks;
      return Ok(blocks);
    }
  }

  /** `parse_replay`: the uncompressed header from the file, then the compressed part. */
  method ParseReplay(raw: seq<Byte>, blocks: seq<Block>) returns (r: Result<Replay, ParseError>)
    ensures r == ParseReplaySpec(raw, blocks)
    ensures !(68 <= |raw| && ValidUtf8(raw[..28]) && ValidUtf8(raw[48..52])) ==> r.Err?
    ensures r.Ok? ==>
              68 <= |raw| &&
              r.value.magicString == raw[..28] && r.value.fileOffset == LeUint(raw[28..32]) &&
              r.value.compressedSize == LeUint(raw[32..36]) && r.value.headerVersion == LeUint(raw[36..40]) &&
              r.value.decompressedSize == LeUint(raw[40..44]) && r.value.numberOfCompressedBlocks == LeUint(raw[44..48]) &&
              r.value.replayHeader == ReplayHeaderOf(raw[48..])
  {
    ParseReplayFileFields(raw, blocks);
    var magic :- RawFixedString(raw, 28);
    var offset :- RawUint(magic.rest, 4);
    var compressed :- RawUint(offset.rest, 4);
    var version :- RawUint(compressed.rest, 4);
    var decompressed :- RawUint(version.rest, 4);
    var count :- RawUint(decompressed.rest, 4);
    var header :- ReplayHeaderAt(count.rest);
    var stream := new ReplayStream.FromFile(blocks);
    var game :- stream.ExtractGameHeader();
    var replayBlocks :- stream.ExtractBlocks();
    return Ok(Replay(magic.value, offset.value, compressed.value, version.value, decompressed.value,
                     count.value, header.value, game, replayBlocks));
  }
}
