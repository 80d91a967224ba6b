/**
 * What the `ReplayStream` decoders compute, as pure functions of the stream
 * state: the game header records, the fields of an action, and the action,
 * command and block loops. Each function follows the reads of its method in
 * order and stops at the first failed read.
 */
module ReplayDecode {
  import opened Wrappers
  import opened Bytes
  import opened ReplayTypes
  import opened ReplayStreams

  // ---------------------------------------------------------------------
  // Game header records
  // ---------------------------------------------------------------------

  /** A reader that consumes at least one byte whenever it succeeds. */
  ghost predicate Advancing<T>(step: Stream -> Read<T>)
  {
    forall st :: Size(step(st).rest) <= Size(st) && (step(st).result.Ok? ==> Size(step(st).rest) < Size(st))
  }

  /**
   * `while bytes_read < size { let x = step()?; bytes_read += weight(x); ... }`:
   * the loops of `extract_actions` and `extract_commands`.
   */
  function Counted<T>(st: Stream, size: nat, bytesRead: nat,
                      step: Stream -> Read<T>, weight: T -> nat): (r: Read<seq<T>>)
    requires Advancing(step)
    ensures Size(r.rest) <= Size(st)
    decreases Size(st)
  {
    if bytesRead >= size then Read(Ok([]), st)
    else
      var x := step(st);
      if x.result.Err? then Read(Err(x.result.error), x.rest)
      else Prepend([x.result.value], Counted(x.rest, size, bytesRead + weight(x.result.value), step, weight))
  }

  /** A failed step ends a counted loop with its error. */
  lemma CountedFail<T>(done: seq<T>, st: Stream, size: nat, bytesRead: nat,
                       step: Stream -> Read<T>, weight: T -> nat, whole: Read<seq<T>>)
    requires Advancing(step) && bytesRead < size
    requires Prepend(done, Counted(st, size, bytesRead, step, weight)) == whole
    ensures step(st).result.Err? ==> whole == Read(Err(step(st).result.error), step(st).rest)
  {
  }

  /** A good step is appended and the counter grows by its weight. */
  lemma CountedAdvance<T>(done: seq<T>, st: Stream, size: nat, bytesRead: nat, next: nat,
                          step: Stream -> Read<T>, weight: T -> nat, x: T, after: Stream, whole: Read<seq<T>>)
    requires Advancing(step) && bytesRead < size
    requires step(st) == Read(Ok(x), after) && next == bytesRead + weight(x)
    requires Prepend(done, Counted(st, size, bytesRead, step, weight)) == whole
    ensures Prepend(done + [x], Counted(after, size, next, step, weight)) == whole
  {
    PrependTwice(done, [x], Counted(after, size, next, step, weight));
  }

  /** `extract_player_record`: the record id is read unless it is given. */
  function PlayerRecordAt(st: Stream, recordId: Option<Byte>): (r: Read<PlayerRecord>)
    ensures Size(r.rest) <= Size(st)
    ensures r.result.Ok? ==> Size(r.rest) < Size(st)
    ensures r.result.Ok? ==> |r.result.value.additionalData| == r.result.value.additionalDataSize
    ensures r.result.Ok? && recordId.Some? ==> r.result.value.recordId == recordId.value
  {
    var id :- if recordId.Some? then Read(Ok(recordId.value), st) else UnsignedByte(st);
    var player :- UnsignedByte(id.rest);
    var name :- NulTerminated(player.rest);
    var size :- UnsignedByte(name.rest);
    var data :- Take(size.rest, size.value);
    Read(Ok(PlayerRecord(id.value, player.value, name.value, size.value, data.value)), data.rest)
  }

  /** `extract_slot_record`: nine bytes in declaration order. */
  function SlotRecordAt(st: Stream): (r: Read<SlotRecord>)
    ensures Size(r.rest) <= Size(st)
    ensures r.result.Ok? ==> Size(r.rest) + 9 <= Size(st)
  {
    var g :- Take(st, 9);
    var b := g.value;
    Read(Ok(SlotRecord(b[0], b[1], b[2], b[3], b[4], b[5], b[6], b[7], b[8])), g.rest)
  }

  /** A finished loop's output in front of what the rest of the loop reads. */
  function Prepend<T>(done: seq<T>, r: Read<seq<T>>): (out: Read<seq<T>>)
    ensures out.rest == r.rest && out.result.Ok? == r.result.Ok?
    ensures r.result.Ok? ==> out.result.value == done + r.result.value
  {
    if r.result.Ok? then Read(Ok(done + r.result.value), r.rest) else r
  }

  lemma PrependTwice<T>(done: seq<T>, x: seq<T>, r: Read<seq<T>>)
    ensures Prepend(done, Prepend(x, r)) == Prepend(done + x, r)
  {
    if r.result.Ok? {
      assert done + (x + r.result.value) == (done + x) + r.result.value;
    }
  }

  lemma PrependNothing<T>(r: Read<seq<T>>)
    ensures Prepend([], r) == r
  {
    if r.result.Ok? {
      assert [] + r.result.value == r.result.value;
    }
  }

  /** A reader that never moves the stream backwards. */
  ghost predicate Forward<T>(step: Stream -> Read<T>)
  {
    forall st :: Size(step(st).rest) <= Size(st)
  }

  /**
   * `for _ in 0..count { v.push(step()?) }`: `count` reads of `step`, in
   * order, stopping at the first failure.
   */
  function Repeat<T>(st: Stream, count: nat, step: Stream -> Read<T>): (r: Read<seq<T>>)
    requires Forward(step)
    ensures Size(r.rest) <= Size(st)
    ensures r.result.Ok? ==> |r.result.value| == count
    decreases count
  {
    if count == 0 then Read(Ok([]), st)
    else
      var x := step(st);
      if x.result.Err? then Read(Err(x.result.error), x.rest)
      else Prepend([x.result.value], Repeat(x.rest, count - 1, step))
  }

  /** One round of a counted loop: a failed step ends it, a good one is appended. */
  lemma RepeatNext<T>(done: seq<T>, st: Stream, left: nat, next: nat, step: Stream -> Read<T>, whole: Read<seq<T>>)
    requires Forward(step) && left == next + 1
    requires Prepend(done, Repeat(st, left, step)) == whole
    ensures step(st).result.Err? ==> whole == Read(Err(step(st).result.error), step(st).rest)
    ensures step(st).result.Ok? ==>
      Prepend(done + [step(st).result.value], Repeat(step(st).rest, next, step)) == whole
  {
    if step(st).result.Ok? {
      PrependTwice(done, [step(st).result.value], Repeat(step(st).rest, next, step));
    }
  }

  /** `extract_game_record`. */
  function GameRecordAt(st: Stream, recordId: Option<Byte>): (r: Read<GameRecord>)
    ensures Size(r.rest) <= Size(st)
    ensures r.result.Ok? ==> |r.result.value.slotRecords| == r.result.value.numSlotRecords
    ensures r.result.Ok? && recordId.Some? ==> r.result.value.recordId == recordId.value
  {
    var id :- if recordId.Some? then Read(Ok(recordId.value), st) else UnsignedByte(st);
    var numDataBytes :- UnsignedWord(id.rest);
    var numSlots :- UnsignedByte(numDataBytes.rest);
    var slots :- Repeat(numSlots.rest, numSlots.value, SlotRecordAt);
    var seed :- UnsignedDword(slots.rest);
    var selectMode :- UnsignedByte(seed.rest);
    var startSpots :- UnsignedByte(selectMode.rest);
    Read(Ok(GameRecord(id.value, numDataBytes.value, numSlots.value, slots.value,
                       seed.value, selectMode.value, startSpots.value)), startSpots.rest)
  }

  /** An item of an id-driven loop and the id read after it. */
  datatype Entry<+T> = Entry(item: T, nextId: Byte)

  /** The player records and the record id that ended them. */
  datatype Players = Players(records: seq<PlayerRecord>, endId: Byte)

  /** One round of the player loop: a record, an ignored dword, the next record id. */
  function PlayerEntryAt(st: Stream, recordId: Byte): (r: Read<Entry<PlayerRecord>>)
    ensures Size(r.rest) <= Size(st)
    ensures r.result.Ok? ==> Size(r.rest) < Size(st) && r.result.value.item.recordId == recordId
  {
    var player :- PlayerRecordAt(st, Some(recordId));
    var ignored :- UnsignedDword(player.rest);
    var next :- UnsignedByte(ignored.rest);
    Read(Ok(Entry(player.value, next.value)), next.rest)
  }

  /** The records found so far in front of what the rest of the player loop reads. */
  function PlayersPrepend(done: seq<PlayerRecord>, r: Read<Players>): (out: Read<Players>)
    ensures out.rest == r.rest && out.result.Ok? == r.result.Ok?
    ensures r.result.Ok? ==> out.result.value == Players(done + r.result.value.records, r.result.value.endId)
  {
    if r.result.Ok? then Read(Ok(Players(done + r.result.value.records, r.result.value.endId)), r.rest) else r
  }

  /**
   * The player loop of `extract_game_header`: while the record id is 0x16,
   * read a player record and an ignored dword, then the next record id.
   */
  function PlayersLoop(st: Stream, recordId: Byte): (r: Read<Players>)
    ensures Size(r.rest) <= Size(st)
    ensures r.result.Ok? ==> r.result.value.endId != 0x16
    ensures r.result.Ok? ==> forall p | p in r.result.value.records :: p.recordId == 0x16
    ensures r.result.Ok? && recordId != 0x16 ==> r.result.value == Players([], recordId)
    decreases Size(st)
  {
    if recordId != 0x16 then Read(Ok(Players([], recordId)), st)
    else
      var e := PlayerEntryAt(st, recordId);
      if e.result.Err? then Read(Err(e.result.error), e.rest)
      else PlayersPrepend([e.result.value.item], PlayersLoop(e.rest, e.result.value.nextId))
  }

  lemma PlayersPrependNothing(r: Read<Players>)
    ensures PlayersPrepend([], r) == r
  {
    if r.result.Ok? {
      assert [] + r.result.value.records == r.result.value.records;
    }
  }

  /** One round of the player loop: a failed entry ends it, a good one is appended. */
  lemma PlayersNext(done: seq<PlayerRecord>, st: Stream, recordId: Byte, whole: Read<Players>)
    requires recordId == 0x16 && PlayersPrepend(done, PlayersLoop(st, recordId)) == whole
    ensures PlayerEntryAt(st, recordId).result.Err? ==>
      whole == Read(Err(PlayerEntryAt(st, recordId).result.error), PlayerEntryAt(st, recordId).rest)
    ensures PlayerEntryAt(st, recordId).result.Ok? ==>
      PlayersPrepend(done + [PlayerEntryAt(st, recordId).result.value.item],
                     PlayersLoop(PlayerEntryAt(st, recordId).rest, PlayerEntryAt(st, recordId).result.value.nextId)) == whole
  {
    var e := PlayerEntryAt(st, recordId);
    if e.result.Ok? {
      PlayersPrependTwice(done, e.result.value.item, PlayersLoop(e.rest, e.result.value.nextId));
    }
  }

  /** Prepending a record and then the earlier ones is prepending them all at once. */
  lemma PlayersPrependTwice(done: seq<PlayerRecord>, x: PlayerRecord, more: Read<Players>)
    ensures PlayersPrepend(done, PlayersPrepend([x], more)) == PlayersPrepend(done + [x], more)
  {
    if more.result.Ok? {
      assert done + ([x] + more.result.value.records) == (done + [x]) + more.result.value.records;
    }
  }

  /** `extract_game_header`. The byte after the game name is read and any failure ignored. */
  function GameHeaderAt(st: Stream): (r: Read<GameHeader>)
    ensures Size(r.rest) <= Size(st)
    ensures r.result.Ok? ==> forall p | p in r.result.value.players :: p.recordId == 0x16
    ensures r.result.Ok? ==> r.result.value.gameRecord.recordId != 0x16
  {
    var unknown :- UnsignedDword(st);
    var saver :- PlayerRecordAt(unknown.rest, None);
    var name :- NulTerminated(saver.rest);
    var afterNullByte := Take(name.rest, 1).rest;
    var encoded :- Encoded(afterNullByte);
    var numPlayers :- UnsignedDword(encoded.rest);
    var gameType :- UnsignedDword(numPlayers.rest);
    var language :- UnsignedDword(gameType.rest);
    var firstId :- UnsignedByte(language.rest);
    var players :- PlayersLoop(firstId.rest, firstId.value);
    var game :- GameRecordAt(players.rest, Some(players.value.endId));
    Read(Ok(GameHeader(unknown.value, saver.value, name.value, encoded.value, numPlayers.value,
                       gameType.value, language.value, players.value.records, game.value)), game.rest)
  }

  // ---------------------------------------------------------------------
  // Fields of an action
  // ---------------------------------------------------------------------

  /** `extract_game_object`: allocated id, then counter id. */
  function GameObjectAt(st: Stream): (r: Read<GameObject>)
    ensures Size(r.rest) <= Size(st)
    ensures r.result.Ok? ==> Size(r.rest) < Size(st)
  {
    var allocatedId :- UnsignedDword(st);
    var counterId :- UnsignedDword(allocatedId.rest);
    Read(Ok(GameObject(allocatedId.value, counterId.value)), counterId.rest)
  }

  /** The selection arms' object list: a word count, then that many objects. */
  function ObjectListAt(st: Stream): (r: Read<seq<GameObject>>)
    ensures Size(r.rest) <= Size(st)
    ensures r.result.Ok? ==> |r.result.value| < 0x1_0000
  {
    var count :- UnsignedWord(st);
    Repeat(count.rest, count.value, GameObjectAt)
  }

  /** `UnitInventory::new(item, charges, unknown)` from three dwords. */
  function InventoryEntryAt(st: Stream): (r: Read<UnitInventory>)
    ensures Size(r.rest) <= Size(st)
  {
    var item :- UnsignedDword(st);
    var charges :- UnsignedDword(item.rest);
    var unknown :- UnsignedDword(charges.rest);
    Read(Ok(UnitInventory(item.value, charges.value, unknown.value)), unknown.rest)
  }

  /** `extract_unit_inventory`: a dword count, then that many entries. */
  function InventoryAt(st: Stream): (r: Read<seq<UnitInventory>>)
    ensures Size(r.rest) <= Size(st)
  {
    var count :- UnsignedDword(st);
    Repeat(count.rest, count.value, InventoryEntryAt)
  }

  /** `UnitAbility::new(ability, level)` from two dwords. */
  function AbilityEntryAt(st: Stream): (r: Read<UnitAbility>)
    ensures Size(r.rest) <= Size(st)
  {
    var ability :- UnsignedDword(st);
    var level :- UnsignedDword(ability.rest);
    Read(Ok(UnitAbility(ability.value, level.value)), level.rest)
  }

  /** `extract_unit_abilites`: a dword count, then that many entries. */
  function AbilitiesAt(st: Stream): (r: Read<seq<UnitAbility>>)
    ensures Size(r.rest) <= Size(st)
  {
    var count :- UnsignedDword(st);
    Repeat(count.rest, count.value, AbilityEntryAt)
  }

  /** Lifts a decoding step that cannot change the stream into a read. */
  function Decoded<T>(r: Result<T, ParseError>, rest: Stream): (out: Read<T>)
    ensures out.rest == rest && out.result == r
  {
    Read(r, rest)
  }

  /** One field of an action, read as its wire kind says. */
  function FieldAt(st: Stream, k: FieldKind): (r: Read<Field>)
    ensures Size(r.rest) <= Size(st)
    ensures r.result.Ok? ==> FieldFits(k, r.result.value)
  {
    match k
    case U8 => var g :- UnsignedByte(st); Read(Ok(Num(g.value)), g.rest)
    case U16 => var g :- UnsignedWord(st); Read(Ok(Num(g.value)), g.rest)
    case U32 => var g :- UnsignedDword(st); Read(Ok(Num(g.value)), g.rest)
    case U64 => var g :- UnsignedQword(st); Read(Ok(Num(g.value)), g.rest)
    case I32 => var g :- SignedDword(st); Read(Ok(Signed(g.value)), g.rest)
    case F32 => var g :- Float32(st); Read(Ok(Float(g.value)), g.rest)
    case Object => var g :- GameObjectAt(st); Read(Ok(Obj(g.value)), g.rest)
    case NulString => var g :- NulTerminated(st); Read(Ok(Str(g.value)), g.rest)
    case Speed =>
      var g :- UnsignedByte(st);
      var speed :- Decoded(GameSpeedFromU8(g.value), g.rest);
      Read(Ok(SpeedField(speed.value)), g.rest)
    case Selection =>
      var g :- UnsignedByte(st);
      var op :- Decoded(SelectionOperationFromU8(g.value), g.rest);
      Read(Ok(SelectionField(op.value)), g.rest)
    case Arrow =>
      var g :- UnsignedByte(st);
      var key :- Decoded(ArrowKeyEventFromU8(g.value), g.rest);
      Read(Ok(ArrowField(key.value)), g.rest)
    case OrderFlags => var g :- UnsignedWord(st); Read(Ok(Orders(OrderTypes(g.value))), g.rest)
    case AllianceFlags => var g :- UnsignedDword(st); Read(Ok(Alliances(AllianceTypes(g.value))), g.rest)
    case ObjectList => var g :- ObjectListAt(st); Read(Ok(Objects(g.value)), g.rest)
    case Inventory => var g :- InventoryAt(st); Read(Ok(Items(g.value)), g.rest)
    case Abilities => var g :- AbilitiesAt(st); Read(Ok(Skills(g.value)), g.rest)
  }

  /** The fields of `layout`, in order. */
  function FieldsAt(st: Stream, layout: seq<FieldKind>): (r: Read<seq<Field>>)
    ensures Size(r.rest) <= Size(st)
    ensures r.result.Ok? ==> Fits(layout, r.result.value)
    decreases |layout|
  {
    if layout == [] then Read(Ok([]), st)
    else
      var f := FieldAt(st, layout[0]);
      if f.result.Err? then Read(Err(f.result.error), f.rest)
      else
        var more := FieldsAt(f.rest, layout[1..]);
        assert more.result.Ok? ==>
          forall i | 1 <= i < |layout| :: ([f.result.value] + more.result.value)[i] == more.result.value[i - 1];
        Prepend([f.result.value], more)
  }

  /** One field of a layout: a failed read ends the arm, a good one is appended. */
  lemma FieldsNext(done: seq<Field>, st: Stream, todo: seq<FieldKind>, whole: Read<seq<Field>>)
    requires todo != [] && Prepend(done, FieldsAt(st, todo)) == whole
    ensures FieldAt(st, todo[0]).result.Err? ==>
      whole == Read(Err(FieldAt(st, todo[0]).result.error), FieldAt(st, todo[0]).rest)
    ensures FieldAt(st, todo[0]).result.Ok? ==>
      Prepend(done + [FieldAt(st, todo[0]).result.value], FieldsAt(FieldAt(st, todo[0]).rest, todo[1..])) == whole
  {
    var f := FieldAt(st, todo[0]);
    if f.result.Ok? {
      PrependTwice(done, [f.result.value], FieldsAt(f.rest, todo[1..]));
    }
  }

  // ---------------------------------------------------------------------
  // The action, command and block loops
  // ---------------------------------------------------------------------

  /** One action: its id, then the fields of the arm the id selects. */
  function ActionAt(st: Stream): (r: Read<Action>)
    ensures Size(r.rest) <= Size(st)
    ensures r.result.Ok? ==> Size(r.rest) < Size(st)
    ensures r.result.Ok? ==> Fits(Layout(r.result.value.kind), r.result.value.fields)
  {
    var id :- UnsignedByte(st);
    match ActionKindOf(id.value)
    case None => Read(Err(UnknownAction(id.value)), id.rest)
    case Some(kind) =>
      var fields :- FieldsAt(id.rest, Layout(kind));
      Read(Ok(Action(kind, fields.value)), fields.rest)
  }

  /** The counter growth of an action: one for the id and the arm's count. */
  function ActionWeight(a: Action): nat
  {
    1 + ArmCount(a.kind, a.fields)
  }

  /** The counter growth of an action with the arm counts as written. */
  function ActionWeightAsWritten(a: Action): nat
  {
    1 + ArmCountAsWritten(a.kind, a.fields)
  }

  /** `extract_actions(size)`, with every arm counting all the bytes it reads. */
  function Actions(st: Stream, size: nat): (r: Read<seq<Action>>)
    ensures Size(r.rest) <= Size(st)
  {
    Counted(st, size, 0, ActionAt, ActionWeight)
  }

  /** `extract_actions(size)` with the arm counts as written. */
  function ActionsAsWritten(st: Stream, size: nat): Read<seq<Action>>
  {
    Counted(st, size, 0, ActionAt, ActionWeightAsWritten)
  }

  /** One command: player id, a word of action bytes and those actions. */
  function CommandAt(st: Stream): (r: Read<Command>)
    ensures Size(r.rest) <= Size(st)
    ensures r.result.Ok? ==> Size(r.rest) < Size(st)
  {
    var player :- UnsignedByte(st);
    var numBytes :- UnsignedWord(player.rest);
    var actions :- Actions(numBytes.rest, numBytes.value);
    Read(Ok(Command(player.value, numBytes.value, actions.value)), actions.rest)
  }

  /** The counter growth of a command: its three header bytes and its actions. */
  function CommandWeight(c: Command): nat
  {
    3 + c.numBytes
  }

  /** `extract_commands(size)`. */
  function Commands(st: Stream, size: nat): Read<seq<Command>>
  {
    Counted(st, size, 0, CommandAt, CommandWeight)
  }

  /** The fixed-size blocks: LeaveGame, LoadStarted1/2, GameStarted, RandomSeed, Desync, ForceGameEndCountdown. */
  function FixedBlockAt(st: Stream, id: Byte): (r: Read<Option<ReplayBlock>>)
    requires id in {0x17, 0x1A, 0x1B, 0x1C, 0x22, 0x23, 0x2F}
    ensures Size(r.rest) <= Size(st)
    ensures r.result.Ok? ==> r.result.value.Some?
  {
    if id == 0x17 then LeaveGameAt(st)
    else if id == 0x1A then var g :- UnsignedDword(st); Read(Ok(Some(LoadStarted1(g.value))), g.rest)
    else if id == 0x1B then var g :- UnsignedDword(st); Read(Ok(Some(LoadStarted2(g.value))), g.rest)
    else if id == 0x1C then var g :- UnsignedDword(st); Read(Ok(Some(GameStarted(g.value))), g.rest)
    else if id == 0x22 then RandomSeedAt(st)
    else if id == 0x23 then DesyncAt(st)
    else CountdownAt(st)
  }

  /** LeaveGame (0x17): reason dword, player byte, result dword, leave-count dword. */
  function LeaveGameAt(st: Stream): (r: Read<Option<ReplayBlock>>)
    ensures Size(r.rest) <= Size(st)
    ensures r.result.Ok? ==> r.result.value.Some?
  {
    var reason :- UnsignedDword(st);
    var player :- UnsignedByte(reason.rest);
    var result :- UnsignedDword(player.rest);
    var leaves :- UnsignedDword(result.rest);
    Read(Ok(Some(LeaveGame(reason.value, player.value, result.value, leaves.value))), leaves.rest)
  }

  /** RandomSeed (0x22): a byte, then a dword. */
  function RandomSeedAt(st: Stream): (r: Read<Option<ReplayBlock>>)
    ensures Size(r.rest) <= Size(st)
    ensures r.result.Ok? ==> r.result.value.Some?
  {
    var numBytes :- UnsignedByte(st);
    var unknown :- UnsignedDword(numBytes.rest);
    Read(Ok(Some(RandomSeed(numBytes.value, unknown.value))), unknown.rest)
  }

  /** Desync (0x23): tick count and checksum dwords, then the remaining-players byte. */
  function DesyncAt(st: Stream): (r: Read<Option<ReplayBlock>>)
    ensures Size(r.rest) <= Size(st)
    ensures r.result.Ok? ==> r.result.value.Some?
  {
    var ticks :- UnsignedDword(st);
    var checksum :- UnsignedDword(ticks.rest);
    var remaining :- UnsignedByte(checksum.rest);
    Read(Ok(Some(Desync(ticks.value, checksum.value, remaining.value))), remaining.rest)
  }

  /** ForceGameEndCountdown (0x2F): mode and time dwords. */
  function CountdownAt(st: Stream): (r: Read<Option<ReplayBlock>>)
    ensures Size(r.rest) <= Size(st)
    ensures r.result.Ok? ==> r.result.value.Some?
  {
    var mode :- UnsignedDword(st);
    var time :- UnsignedDword(mode.rest);
    Read(Ok(Some(ForceGameEndCountdown(mode.value, time.value))), time.rest)
  }

  /**
   * TickPreOverflow (0x1E) and Tick (0x1F): a word of bytes, a word of time and
   * the commands; `num_bytes - 2` panics when it would go below zero.
   */
  function TickBlockAt(st: Stream, id: Byte): (r: Read<Option<ReplayBlock>>)
    requires id == 0x1E || id == 0x1F
    ensures Size(r.rest) <= Size(st)
    ensures r.result.Ok? ==> r.result.value.Some?
  {
    var numBytes :- UnsignedWord(st);
    var time :- UnsignedWord(numBytes.rest);
    TickCommandsAt(time.rest, id, numBytes.value, time.value)
  }

  /** The commands of a tick block whose header words are `numBytes` and `time`. */
  function TickCommandsAt(st: Stream, id: Byte, numBytes: nat, time: nat): (r: Read<Option<ReplayBlock>>)
    requires id == 0x1E || id == 0x1F
    ensures Size(r.rest) <= Size(st)
    ensures r.result.Ok? ==> r.result.value.Some?
  {
    if numBytes < 2 then Read(Err(Overflow), st)
    else
      var commands :- Commands(st, numBytes - 2);
      if id == 0x1E then Read(Ok(Some(TickPreOverflow(numBytes, time, commands.value))), commands.rest)
      else Read(Ok(Some(Tick(numBytes, time, commands.value))), commands.rest)
  }

  /**
   * The message of a chat block whose byte count is `numBytes`: `numBytes - 6`
   * bytes (the flags, the mode and the final 0 are the other six), which must
   * be UTF-8 and be followed by a 0.
   */
  function ChatMessageAt(st: Stream, numBytes: nat): (r: Read<Text>)
    requires numBytes >= 6
    ensures Size(r.rest) <= Size(st)
    ensures r.result.Ok? ==> |r.result.value| == numBytes - 6 && ValidUtf8(r.result.value)
  {
    var message :- Take(st, numBytes - 6);
    if !ValidUtf8(message.value) then Read(Err(InvalidUtf8), message.rest)
    else
      var ending :- UnsignedByte(message.rest);
      if ending.value != 0 then Read(Err(ChatNotTerminated), ending.rest)
      else Read(Ok(message.value), ending.rest)
  }

  /**
   * PlayerChat (0x20): the message is `num_bytes - 6` bytes of UTF-8 (the
   * subtraction panics below zero) followed by a 0.
   */
  function ChatBlockAt(st: Stream): (r: Read<Option<ReplayBlock>>)
    ensures Size(r.rest) <= Size(st)
    ensures r.result.Ok? ==> r.result.value.Some?
  {
    var header :- ChatHeaderAt(st);
    var (player, numBytes, flags, mode) := header.value;
    if numBytes < 6 then Read(Err(Overflow), header.rest)
    else
      var message :- ChatMessageAt(header.rest, numBytes);
      Read(Ok(Some(PlayerChat(player, numBytes, flags, mode, message.value))), message.rest)
  }

  /** The player byte, the word `num_bytes`, the flags byte and the mode dword of a chat block. */
  function ChatHeaderAt(st: Stream): (r: Read<(Byte, nat, Byte, nat)>)
    ensures Size(r.rest) <= Size(st)
    ensures r.result.Ok? ==> r.result.value.1 < 0x1_0000 && r.result.value.3 < 0x1_0000_0000
  {
    var player :- UnsignedByte(st);
    var numBytes :- UnsignedWord(player.rest);
    var flags :- UnsignedByte(numBytes.rest);
    var mode :- UnsignedDword(flags.rest);
    Read(Ok((player.value, numBytes.value, flags.value, mode.value)), mode.rest)
  }

  /** The payload of a block with id `id`; `None`, reading nothing, for an unknown id. */
  function BlockBody(st: Stream, id: Byte): (r: Read<Option<ReplayBlock>>)
    ensures Size(r.rest) <= Size(st)
    ensures r.result == Ok(None) <==> id !in {0x17, 0x1A, 0x1B, 0x1C, 0x1E, 0x1F, 0x20, 0x22, 0x23, 0x2F}
    ensures r.result == Ok(None) ==> r.rest == st
  {
    if id in {0x17, 0x1A, 0x1B, 0x1C, 0x22, 0x23, 0x2F} then FixedBlockAt(st, id)
    else if id == 0x1E || id == 0x1F then TickBlockAt(st, id)
    else if id == 0x20 then ChatBlockAt(st)
    else Read(Ok(None), st)
  }

  /** The blocks a decoded payload contributes: none for an unknown id. */
  function Listed<T>(x: Option<T>): seq<T>
  {
    if x.Some? then [x.value] else []
  }

  /** One round of the block loop: the payload, then the next block id. */
  function BlockEntryAt(st: Stream, id: Byte): (r: Read<Entry<Option<ReplayBlock>>>)
    ensures Size(r.rest) <= Size(st)
    ensures r.result.Ok? ==> Size(r.rest) < Size(st)
  {
    var block :- BlockBody(st, id);
    var next :- UnsignedByte(block.rest);
    Read(Ok(Entry(block.value, next.value)), next.rest)
  }

  /**
   * The loop of `extract_blocks` after an id has been read: stop at id 0,
   * otherwise decode the block and read the next id.
   */
  function BlocksLoop(st: Stream, blockId: Byte): (r: Read<seq<ReplayBlock>>)
    ensures Size(r.rest) <= Size(st)
    decreases Size(st)
  {
    if blockId == 0 then Read(Ok([]), st)
    else
      var e := BlockEntryAt(st, blockId);
      if e.result.Err? then Read(Err(e.result.error), e.rest)
      else Prepend(Listed(e.result.value.item), BlocksLoop(e.rest, e.result.value.nextId))
  }

  /** One round of the block loop: a failed block ends it, a good one is appended. */
  lemma BlocksNext(done: seq<ReplayBlock>, st: Stream, blockId: Byte, whole: Read<seq<ReplayBlock>>)
    requires blockId != 0 && Prepend(done, BlocksLoop(st, blockId)) == whole
    ensures BlockEntryAt(st, blockId).result.Err? ==>
      whole == Read(Err(BlockEntryAt(st, blockId).result.error), BlockEntryAt(st, blockId).rest)
    ensures BlockEntryAt(st, blockId).result.Ok? ==>
      Prepend(done + Listed(BlockEntryAt(st, blockId).result.value.item),
              BlocksLoop(BlockEntryAt(st, blockId).rest, BlockEntryAt(st, blockId).result.value.nextId)) == whole
  {
    var e := BlockEntryAt(st, blockId);
    if e.result.Ok? {
      PrependTwice(done, Listed(e.result.value.item), BlocksLoop(e.rest, e.result.value.nextId));
    }
  }

  /** `extract_blocks`. */
  function Blocks(st: Stream): (r: Read<seq<ReplayBlock>>)
    ensures Size(r.rest) <= Size(st)
  {
    var first :- UnsignedByte(st);
    BlocksLoop(first.rest, first.value)
  }

  // ---------------------------------------------------------------------
  // The uncompressed file header (read directly from the file)
  // ---------------------------------------------------------------------

  /** A value cut off the front of the raw file, with what follows it. */
  datatype Cut<+T> = Cut(value: T, rest: seq<Byte>)

  /** `read_exact` of `n` bytes. */
  function RawBytes(raw: seq<Byte>, n: nat): (r: Result<Cut<seq<Byte>>, ParseError>)
    ensures r.Ok? <==> n <= |raw|
    ensures r.Ok? ==> r.value.value + r.value.rest == raw && |r.value.value| == n
  {
    if |raw| < n then Err(EndOfData) else Ok(Cut(raw[..n], raw[n..]))
  }

  /** `extract_unsigned_word` / `extract_unsigned_dword` for `n` = 2 / 4. */
  function RawUint(raw: seq<Byte>, n: nat): (r: Result<Cut<nat>, ParseError>)
    ensures r.Ok? <==> n <= |raw|
    ensures r.Ok? ==> r.value.value < Pow2(8 * n) && |r.value.rest| == |raw| - n
  {
    var g :- RawBytes(raw, n);
    Ok(Cut(LeUint(g.value), g.rest))
  }

  /** `extract_fixed_length_string`: `n` bytes that must be UTF-8. */
  function RawFixedString(raw: seq<Byte>, n: nat): (r: Result<Cut<Text>, ParseError>)
    ensures r.Ok? <==> n <= |raw| && ValidUtf8(raw[..n])
    ensures r.Ok? ==> |r.value.value| == n
  {
    var g :- RawBytes(raw, n);
    if ValidUtf8(g.value) then Ok(g) else Err(InvalidUtf8)
  }

  /** The raw word and dword readers invert the little-endian encoding. */
  lemma RawUintRoundTrip(v: nat, n: nat, tail: seq<Byte>)
    requires v < Pow2(8 * n)
    ensures RawUint(LeBytes(v, n) + tail, n) == Ok(Cut(v, tail))
  {
    LeUintOfLeBytes(v, n);
    assert (LeBytes(v, n) + tail)[..n] == LeBytes(v, n);
    assert (LeBytes(v, n) + tail)[n..] == tail;
  }

  /** `extract_replay_header`. */
  function ReplayHeaderAt(raw: seq<Byte>): (r: Result<Cut<ReplayHeader>, ParseError>)
    ensures r.Ok? ==> |r.value.value.versionString| == 4 && |r.value.rest| + 20 == |raw|
  {
    var version :- RawFixedString(raw, 4);
    var number :- RawUint(version.rest, 4);
    var build :- RawUint(number.rest, 2);
    var flags :- RawUint(build.rest, 2);
    var duration :- RawUint(flags.rest, 4);
    var crc :- RawUint(duration.rest, 4);
    Ok(Cut(ReplayHeader(version.value, number.value, build.value, flags.value, duration.value, crc.value),
           crc.rest))
  }

  /** The fields `parse_replay` reads from the uncompressed start of the file. */
  datatype FileHeader = FileHeader(
    magicString: Text,
    fileOffset: nat,
    compressedSize: nat,
    headerVersion: nat,
    decompressedSize: nat,
    numberOfCompressedBlocks: nat,
    replayHeader: ReplayHeader)

  /** The magic string, five dwords and the replay header at the start of the file. */
  function FileHeaderAt(raw: seq<Byte>): (r: Result<FileHeader, ParseError>)
    ensures r.Ok? ==> |r.value.magicString| == 28 && |r.value.replayHeader.versionString| == 4
  {
    var magic :- RawFixedString(raw, 28);
    var offset :- RawUint(magic.rest, 4);
    var compressed :- RawUint(offset.rest, 4);
    var version :- RawUint(compressed.rest, 4);
    var decompressed :- RawUint(version.rest, 4);
    var count :- RawUint(decompressed.rest, 4);
    var header :- ReplayHeaderAt(count.rest);
    Ok(FileHeader(magic.value, offset.value, compressed.value, version.value, decompressed.value,
                  count.value, header.value))
  }

  /**
   * `parse_replay` on a file whose uncompressed header bytes are `raw` and
   * whose compressed blocks are `blocks`.
   */
  function ParseReplaySpec(raw: seq<Byte>, blocks: seq<Block>): (r: Result<Replay, ParseError>)
    ensures r.Ok? ==> |r.value.magicString| == 28 && |r.value.replayHeader.versionString| == 4
    ensures r.Ok? ==> r.value.gameHeader.gameRecord.recordId != 0x16
  {
    var file :- FileHeaderAt(raw);
    var st := Stream([], blocks);
    var game := GameHeaderAt(st);
    if game.result.Err? then Err(game.result.error)
    else
      var replayBlocks := Blocks(game.rest);
      if replayBlocks.result.Err? then Err(replayBlocks.result.error)
      else Ok(Replay(file.magicString, file.fileOffset, file.compressedSize, file.headerVersion,
                     file.decompressedSize, file.numberOfCompressedBlocks, file.replayHeader,
                     game.result.value, replayBlocks.result.value))
  }
}
