/**
 * The values a W3G replay decodes to: the closed enums, the bit-flag sets,
 * the header records, the replay blocks and the ~70 action kinds, together
 * with the action table (id, field layout and the byte count each match arm
 * adds to `bytes_read`).
 */
module ReplayTypes {
  import opened Wrappers
  import opened Bytes

  /** Why decoding stopped. `Overflow` stands for an arithmetic-overflow panic. */
  datatype ParseError =
    | EndOfData              // read_exact / pop_front found nothing left
    | BadBlock               // a compressed block could not be read or inflated
    | InvalidUtf8            // String::from_utf8 failed
    | NotAGameSpeed(b: Byte)
    | NotASelectionOperation(b: Byte)
    | NotAnArrowKeyEvent(b: Byte)
    | UnknownAction(id: Byte)
    | ChatNotTerminated      // PlayerChat message not followed by 0
    | Overflow               // `num_bytes - 2` / `num_bytes - 6` below zero

  // ---------------------------------------------------------------------
  // Closed enums decoded from one byte
  // ---------------------------------------------------------------------

  datatype GameSpeed = Slow | Normal | Fast

  function GameSpeedCode(s: GameSpeed): Byte
  {
    match s
    case Slow => 0
    case Normal => 1
    case Fast => 2
  }

  /** `GameSpeed::from_u8`: accepts exactly the codes 0-2. */
  function GameSpeedFromU8(b: Byte): (r: Result<GameSpeed, ParseError>)
    ensures r.Ok? <==> b <= 2
    ensures r.Ok? ==> GameSpeedCode(r.value) == b
    ensures r.Err? ==> r.error == NotAGameSpeed(b)
  {
    match b
    case 0 => Ok(Slow)
    case 1 => Ok(Normal)
    case 2 => Ok(Fast)
    case _ => Err(NotAGameSpeed(b))
  }

  lemma GameSpeedRoundTrip(s: GameSpeed)
    ensures GameSpeedFromU8(GameSpeedCode(s)) == Ok(s)
  {
  }

  datatype SelectionOperation = Add | Remove

  function SelectionOperationCode(op: SelectionOperation): Byte
  {
    match op
    case Add => 1
    case Remove => 2
  }

  /** `SelectionOperation::from_u8`: accepts exactly the codes 1 and 2. */
  function SelectionOperationFromU8(b: Byte): (r: Result<SelectionOperation, ParseError>)
    ensures r.Ok? <==> 1 <= b <= 2
    ensures r.Ok? ==> SelectionOperationCode(r.value) == b
    ensures r.Err? ==> r.error == NotASelectionOperation(b)
  {
    match b
    case 1 => Ok(Add)
    case 2 => Ok(Remove)
    case _ => Err(NotASelectionOperation(b))
  }

  lemma SelectionOperationRoundTrip(op: SelectionOperation)
    ensures SelectionOperationFromU8(SelectionOperationCode(op)) == Ok(op)
  {
  }

  datatype ArrowKeyEvent =
    | PressedLeftArrow | ReleasedLeftArrow
    | PressedRightArrow | ReleasedRightArrow
    | PressedDownArrow | ReleasedDownArrow
    | PressedUpArrow | ReleasedUpArrow

  function ArrowKeyEventCode(e: ArrowKeyEvent): Byte
  {
    match e
    case PressedLeftArrow => 0
    case ReleasedLeftArrow => 1
    case PressedRightArrow => 2
    case ReleasedRightArrow => 3
    case PressedDownArrow => 4
    case ReleasedDownArrow => 5
    case PressedUpArrow => 6
    case ReleasedUpArrow => 7
  }

  /** `ArrowKeyEvent::from_u8`: accepts exactly the codes 0-7. */
  function ArrowKeyEventFromU8(b: Byte): (r: Result<ArrowKeyEvent, ParseError>)
    ensures r.Ok? <==> b <= 7
    ensures r.Ok? ==> ArrowKeyEventCode(r.value) == b
    ensures r.Err? ==> r.error == NotAnArrowKeyEvent(b)
  {
    match b
    case 0 => Ok(PressedLeftArrow)
    case 1 => Ok(ReleasedLeftArrow)
    case 2 => Ok(PressedRightArrow)
    case 3 => Ok(ReleasedRightArrow)
    case 4 => Ok(PressedDownArrow)
    case 5 => Ok(ReleasedDownArrow)
    case 6 => Ok(PressedUpArrow)
    case 7 => Ok(ReleasedUpArrow)
    case _ => Err(NotAnArrowKeyEvent(b))
  }

  lemma ArrowKeyEventRoundTrip(e: ArrowKeyEvent)
    ensures ArrowKeyEventFromU8(ArrowKeyEventCode(e)) == Ok(e)
  {
  }

  // ---------------------------------------------------------------------
  // Bit-flag sets
  // ---------------------------------------------------------------------

  /** OrderType; the enum has no flag for bit 6 (0b100_0000). */
  datatype OrderType = Queue | Train | Construct | Group | NoFormation | Summon | AutoCastOn

  const ORDER_TYPES: seq<OrderType> :=
    [Queue, Train, Construct, Group, NoFormation, Summon, AutoCastOn]

  /** The bit each flag stands for: its discriminant is `1 << OrderBit(o)`. */
  function OrderBit(o: OrderType): nat
  {
    match o
    case Queue => 0
    case Train => 1
    case Construct => 2
    case Group => 3
    case NoFormation => 4
    case Summon => 5
    case AutoCastOn => 7
  }

  datatype AllianceType =
    | Passive | HelpRequest | HelpResponse | SharedXP | SharedSpells | SharedVision
    | SharedControl | FullSharedControl | Rescuable | SharedVisionForced | AlliedVictory

  const ALLIANCE_TYPES: seq<AllianceType> :=
    [Passive, HelpRequest, HelpResponse, SharedXP, SharedSpells, SharedVision,
     SharedControl, FullSharedControl, Rescuable, SharedVisionForced, AlliedVictory]

  function AllianceBit(a: AllianceType): nat
  {
    match a
    case Passive => 0
    case HelpRequest => 1
    case HelpResponse => 2
    case SharedXP => 3
    case SharedSpells => 4
    case SharedVision => 5
    case SharedControl => 6
    case FullSharedControl => 7
    case Rescuable => 8
    case SharedVisionForced => 9
    case AlliedVictory => 10
  }

  /** The flags of `declared` whose bit is set in `bits`, in declaration order. */
  function SetFlags<F>(declared: seq<F>, bitOf: F -> nat, bits: nat): seq<F>
  {
    if declared == [] then []
    else (if BitSet(bits, bitOf(declared[0])) then [declared[0]] else [])
         + SetFlags(declared[1..], bitOf, bits)
  }

  /**
   * The loop of `from_u16` / `from_u32`: walk the declared flags from the last
   * index down and remove each flag whose bit is clear. The index lookup that
   * the source guards with an error never fails.
   */
  method FlagsFromBits<F>(declared: seq<F>, bitOf: F -> nat, bits: nat) returns (r: Result<seq<F>, ParseError>)
    ensures r.Ok?
    ensures r.value == SetFlags(declared, bitOf, bits)
  {
    var flags := declared;
    var x := |declared|;
    while x > 0
      invariant 0 <= x <= |declared|
      invariant flags == declared[..x] + SetFlags(declared[x..], bitOf, bits)
    {
      x := x - 1;
      if x >= |flags| {
        return Err(EndOfData);
      }
      assert declared[x..] == [declared[x]] + declared[x + 1..];
      assert flags[x] == declared[x];
      if !BitSet(bits, bitOf(flags[x])) {
        flags := flags[..x] + flags[x + 1..];
      }
    }
    assert declared[0..] == declared;
    return Ok(flags);
  }

  /** `OrderType::from_u16`. */
  method OrderTypeFromU16(bits: nat) returns (r: Result<seq<OrderType>, ParseError>)
    requires bits < 0x1_0000
    ensures r == Ok(OrderTypes(bits))
  {
    r := FlagsFromBits(ORDER_TYPES, OrderBit, bits);
  }

  /** `AllianceType::from_u32`. */
  method AllianceTypeFromU32(bits: nat) returns (r: Result<seq<AllianceType>, ParseError>)
    requires bits < 0x1_0000_0000
    ensures r == Ok(AllianceTypes(bits))
  {
    r := FlagsFromBits(ALLIANCE_TYPES, AllianceBit, bits);
  }

  function OrderTypes(bits: nat): seq<OrderType>
  {
    SetFlags(ORDER_TYPES, OrderBit, bits)
  }

  function AllianceTypes(bits: nat): seq<AllianceType>
  {
    SetFlags(ALLIANCE_TYPES, AllianceBit, bits)
  }

  lemma {:induction false} SetFlagsMembership<F>(declared: seq<F>, bitOf: F -> nat, bits: nat, f: F)
    ensures f in SetFlags(declared, bitOf, bits) <==> f in declared && BitSet(bits, bitOf(f))
  {
    if declared != [] {
      SetFlagsMembership(declared[1..], bitOf, bits, f);
      assert f in declared <==> f == declared[0] || f in declared[1..];
    }
  }

  /** Each flag's bit is larger than the bits of the flags before it. */
  predicate IncreasingBits<F>(flags: seq<F>, bitOf: F -> nat)
  {
    forall i, j :: 0 <= i < j < |flags| ==> bitOf(flags[i]) < bitOf(flags[j])
  }

  /** Declaration order with strictly increasing bits is kept by the filter. */
  lemma {:induction false} SetFlagsOrdered<F>(declared: seq<F>, bitOf: F -> nat, bits: nat)
    requires IncreasingBits(declared, bitOf)
    ensures IncreasingBits(SetFlags(declared, bitOf, bits), bitOf)
  {
    if declared != [] {
      SetFlagsOrdered(declared[1..], bitOf, bits);
      var tail := SetFlags(declared[1..], bitOf, bits);
      if BitSet(bits, bitOf(declared[0])) {
        var r := [declared[0]] + tail;
        assert SetFlags(declared, bitOf, bits) == r;
        forall i, j | 0 <= i < j < |r|
          ensures bitOf(r[i]) < bitOf(r[j])
        {
          if i == 0 {
            assert r[j] == tail[j - 1] && tail[j - 1] in tail;
            SetFlagsMembership(declared[1..], bitOf, bits, r[j]);
            var k :| 0 <= k < |declared[1..]| && declared[1..][k] == r[j];
            assert declared[k + 1] == r[j];
          }
        }
      } else {
        assert SetFlags(declared, bitOf, bits) == tail;
      }
    }
  }

  /** Flags whose bits agree in two values decode the same way. */
  lemma {:induction false} SetFlagsOnlyReadsDeclaredBits<F>(declared: seq<F>, bitOf: F -> nat, a: nat, b: nat)
    requires forall f :: f in declared ==> (BitSet(a, bitOf(f)) <==> BitSet(b, bitOf(f)))
    ensures SetFlags(declared, bitOf, a) == SetFlags(declared, bitOf, b)
  {
    if declared != [] {
      SetFlagsOnlyReadsDeclaredBits(declared[1..], bitOf, a, b);
    }
  }

  /**
   * `OrderType::from_u16` returns exactly the known flags whose bit is set,
   * in declaration order (increasing bit), each once.
   */
  lemma OrderTypesExact(bits: nat)
    ensures forall o :: o in OrderTypes(bits) <==> BitSet(bits, OrderBit(o))
    ensures IncreasingBits(OrderTypes(bits), OrderBit)
  {
    forall o: OrderType
      ensures o in OrderTypes(bits) <==> BitSet(bits, OrderBit(o))
    {
      SetFlagsMembership(ORDER_TYPES, OrderBit, bits, o);
      assert o in ORDER_TYPES by {
        match o
        case Queue => assert ORDER_TYPES[0] == o;
        case Train => assert ORDER_TYPES[1] == o;
        case Construct => assert ORDER_TYPES[2] == o;
        case Group => assert ORDER_TYPES[3] == o;
        case NoFormation => assert ORDER_TYPES[4] == o;
        case Summon => assert ORDER_TYPES[5] == o;
        case AutoCastOn => assert ORDER_TYPES[6] == o;
      }
    }
    SetFlagsOrdered(ORDER_TYPES, OrderBit, bits);
  }

  /** Bit 6 and the bits above 7 are unknown to OrderType and ignored. */
  lemma OrderTypesIgnoreUnknownBits(a: nat, b: nat)
    requires forall k :: k in {0, 1, 2, 3, 4, 5, 7} ==> (BitSet(a, k) <==> BitSet(b, k))
    ensures OrderTypes(a) == OrderTypes(b)
  {
    forall f | f in ORDER_TYPES
      ensures BitSet(a, OrderBit(f)) <==> BitSet(b, OrderBit(f))
    {
      assert OrderBit(f) in {0, 1, 2, 3, 4, 5, 7};
    }
    SetFlagsOnlyReadsDeclaredBits(ORDER_TYPES, OrderBit, a, b);
  }

  /**
   * `AllianceType::from_u32` returns exactly the known flags whose bit is set,
   * in declaration order (increasing bit), each once.
   */
  lemma AllianceTypesExact(bits: nat)
    ensures forall x :: x in AllianceTypes(bits) <==> BitSet(bits, AllianceBit(x))
    ensures IncreasingBits(AllianceTypes(bits), AllianceBit)
  {
    forall x: AllianceType
      ensures x in AllianceTypes(bits) <==> BitSet(bits, AllianceBit(x))
    {
      SetFlagsMembership(ALLIANCE_TYPES, AllianceBit, bits, x);
      AllianceTypeDeclared(x);
    }
    forall i | 0 <= i < |ALLIANCE_TYPES|
      ensures AllianceBit(ALLIANCE_TYPES[i]) == i
    {
    }
    SetFlagsOrdered(ALLIANCE_TYPES, AllianceBit, bits);
  }

  lemma AllianceTypeDeclared(x: AllianceType)
    ensures x in ALLIANCE_TYPES
  {
    match x
    case Passive => assert ALLIANCE_TYPES[0] == x;
    case HelpRequest => assert ALLIANCE_TYPES[1] == x;
    case HelpResponse => assert ALLIANCE_TYPES[2] == x;
    case SharedXP => assert ALLIANCE_TYPES[3] == x;
    case SharedSpells => assert ALLIANCE_TYPES[4] == x;
    case SharedVision => assert ALLIANCE_TYPES[5] == x;
    case SharedControl => assert ALLIANCE_TYPES[6] == x;
    case FullSharedControl => assert ALLIANCE_TYPES[7] == x;
    case Rescuable => assert ALLIANCE_TYPES[8] == x;
    case SharedVisionForced => assert ALLIANCE_TYPES[9] == x;
    case AlliedVictory => assert ALLIANCE_TYPES[10] == x;
  }

  /** Bits 11 and above are unknown to AllianceType and ignored. */
  lemma AllianceTypesIgnoreUnknownBits(a: nat, b: nat)
    requires forall k :: 0 <= k < 11 ==> (BitSet(a, k) <==> BitSet(b, k))
    ensures AllianceTypes(a) == AllianceTypes(b)
  {
    SetFlagsOnlyReadsDeclaredBits(ALLIANCE_TYPES, AllianceBit, a, b);
  }

  // ---------------------------------------------------------------------
  // Records of the game header
  // ---------------------------------------------------------------------

  datatype GameObject = GameObject(allocatedId: nat, counterId: nat)

  datatype UnitInventory = UnitInventory(item: nat, charges: nat, unknown: nat)

  datatype UnitAbility = UnitAbility(ability: nat, level: nat)

  datatype PlayerRecord = PlayerRecord(
    recordId: Byte,
    playerId: Byte,
    playerName: Text,
    additionalDataSize: Byte,
    additionalData: seq<Byte>)

  datatype SlotRecord = SlotRecord(
    playerId: Byte,
    downloadPercent: Byte,
    slotStatus: Byte,
    playerFlag: Byte,
    teamNumber: Byte,
    color: Byte,
    race: Byte,
    aiStrength: Byte,
    handicap: Byte)

  datatype GameRecord = GameRecord(
    recordId: Byte,
    numDataBytes: nat,
    numSlotRecords: Byte,
    slotRecords: seq<SlotRecord>,
    randomSeed: nat,
    selectMode: Byte,
    startSpotCount: Byte)

  datatype GameHeader = GameHeader(
    unknown: nat,
    replaySaver: PlayerRecord,
    gameName: Text,
    encodedString: seq<Byte>,
    numberOfPlayers: nat,
    gameType: nat,
    languageId: nat,
    players: seq<PlayerRecord>,
    gameRecord: GameRecord)

  datatype ReplayHeader = ReplayHeader(
    versionString: Text,
    versionNumber: nat,
    buildNumber: nat,
    flags: nat,
    duration: nat,          // milliseconds
    crc32: nat)

  // ---------------------------------------------------------------------
  // Actions
  // ---------------------------------------------------------------------

  datatype ActionKind =
    | PauseGame | ResumeGame | SetGameSpeed | IncreaseGameSpeed | DecreaseGameSpeed
    | SaveGame | SaveGameFinish
    | SelfOrder | PointOrder | ObjectOrder | DropOrGiveItem | FogObjectOrder
    | ChangeSelection | AssignGroup | SelectGroup | SelectSubGroup | PreSubSelection
    | TriggerSelectionEvent | SelectGroundItem | CancelHeroRevival | CancelUnitInQueue
    | Unknown21
    | CheatTheDudeAbides | CheatSomebodySetUpUsTheBomb | CheatWarpTen | CheatIocainePowder
    | CheatPointBreak | CheatWhosYourDaddy | CheatKeyserSoze | CheatLeafItToMe
    | CheatThereIsNoSpoon | CheatStrengthAndHonor | CheatItVexesMe | CheatWhoIsJohnGalt
    | CheatGreedIsGood | CheatDaylightSavings | CheatISeeDeadPeople | CheatSynergy
    | CheatSharpAndShiny | CheatAllYourBaseAreBelongToUs
    | ChangeAlly | TransferResources | MapTriggerChat | Esc
    | TriggerSleepOrSyncFinished | TriggerSyncReady
    | TriggerMouseClickedTrackable | TriggerMouseTouchedTrackable
    | EnterHeroSkillSubMenu | EnterBuildingSubMenu | MiniMapSignal
    | DialogButtonClicked | DialogAnyButtonClicked
    | SyncStoredInteger | SyncStoredFloat | SyncStoredBoolean | SyncStoredUnit | SyncStoredString
    | SyncEmptyInteger | SyncEmptyString | SyncEmptyBoolean | SyncEmptyUnit | SyncEmptyFloat
    | TriggerArrow

  /** The action id each kind is read under. */
  function ActionId(k: ActionKind): Byte
  {
    match k
    case PauseGame => 0x01
    case ResumeGame => 0x02
    case SetGameSpeed => 0x03
    case IncreaseGameSpeed => 0x04
    case DecreaseGameSpeed => 0x05
    case SaveGame => 0x06
    case SaveGameFinish => 0x07
    case SelfOrder => 0x10
    case PointOrder => 0x11
    case ObjectOrder => 0x12
    case DropOrGiveItem => 0x13
    case FogObjectOrder => 0x14
    case ChangeSelection => 0x16
    case AssignGroup => 0x17
    case SelectGroup => 0x18
    case SelectSubGroup => 0x19
    case PreSubSelection => 0x1A
    case TriggerSelectionEvent => 0x1B
    case SelectGroundItem => 0x1C
    case CancelHeroRevival => 0x1D
    case CancelUnitInQueue => 0x1E
    case CheatTheDudeAbides => 0x20
    case Unknown21 => 0x21
    case CheatSomebodySetUpUsTheBomb => 0x22
    case CheatWarpTen => 0x23
    case CheatIocainePowder => 0x24
    case CheatPointBreak => 0x25
    case CheatWhosYourDaddy => 0x26
    case CheatKeyserSoze => 0x27
    case CheatLeafItToMe => 0x28
    case CheatThereIsNoSpoon => 0x29
    case CheatStrengthAndHonor => 0x2A
    case CheatItVexesMe => 0x2B
    case CheatWhoIsJohnGalt => 0x2C
    case CheatGreedIsGood => 0x2D
    case CheatDaylightSavings => 0x2E
    case CheatISeeDeadPeople => 0x2F
    case CheatSynergy => 0x30
    case CheatSharpAndShiny => 0x31
    case CheatAllYourBaseAreBelongToUs => 0x32
    case ChangeAlly => 0x50
    case TransferResources => 0x51
    case MapTriggerChat => 0x60
    case Esc => 0x61
    case TriggerSleepOrSyncFinished => 0x62
    case TriggerSyncReady => 0x63
    case TriggerMouseClickedTrackable => 0x64
    case TriggerMouseTouchedTrackable => 0x65
    case EnterHeroSkillSubMenu => 0x66
    case EnterBuildingSubMenu => 0x67
    case MiniMapSignal => 0x68
    case DialogButtonClicked => 0x69
    case DialogAnyButtonClicked => 0x6A
    case SyncStoredInteger => 0x6B
    case SyncStoredFloat => 0x6C
    case SyncStoredBoolean => 0x6D
    case SyncStoredUnit => 0x6E
    case SyncStoredString => 0x6F
    case SyncEmptyInteger => 0x70
    case SyncEmptyString => 0x71
    case SyncEmptyBoolean => 0x72
    case SyncEmptyUnit => 0x73
    case SyncEmptyFloat => 0x74
    case TriggerArrow => 0x75
  }

  /** The dispatch of `extract_actions`: the kind read under an id, if any. */
  function ActionKindOf(id: Byte): Option<ActionKind>
  {
    match id
    case 0x01 => Some(PauseGame)
    case 0x02 => Some(ResumeGame)
    case 0x03 => Some(SetGameSpeed)
    case 0x04 => Some(IncreaseGameSpeed)
    case 0x05 => Some(DecreaseGameSpeed)
    case 0x06 => Some(SaveGame)
    case 0x07 => Some(SaveGameFinish)
    case 0x10 => Some(SelfOrder)
    case 0x11 => Some(PointOrder)
    case 0x12 => Some(ObjectOrder)
    case 0x13 => Some(DropOrGiveItem)
    case 0x14 => Some(FogObjectOrder)
    case 0x16 => Some(ChangeSelection)
    case 0x17 => Some(AssignGroup)
    case 0x18 => Some(SelectGroup)
    case 0x19 => Some(SelectSubGroup)
    case 0x1A => Some(PreSubSelection)
    case 0x1B => Some(TriggerSelectionEvent)
    case 0x1C => Some(SelectGroundItem)
    case 0x1D => Some(CancelHeroRevival)
    case 0x1E => Some(CancelUnitInQueue)
    case 0x20 => Some(CheatTheDudeAbides)
    case 0x21 => Some(Unknown21)
    case 0x22 => Some(CheatSomebodySetUpUsTheBomb)
    case 0x23 => Some(CheatWarpTen)
    case 0x24 => Some(CheatIocainePowder)
    case 0x25 => Some(CheatPointBreak)
    case 0x26 => Some(CheatWhosYourDaddy)
    case 0x27 => Some(CheatKeyserSoze)
    case 0x28 => Some(CheatLeafItToMe)
    case 0x29 => Some(CheatThereIsNoSpoon)
    case 0x2A => Some(CheatStrengthAndHonor)
    case 0x2B => Some(CheatItVexesMe)
    case 0x2C => Some(CheatWhoIsJohnGalt)
    case 0x2D => Some(CheatGreedIsGood)
    case 0x2E => Some(CheatDaylightSavings)
    case 0x2F => Some(CheatISeeDeadPeople)
    case 0x30 => Some(CheatSynergy)
    case 0x31 => Some(CheatSharpAndShiny)
    case 0x32 => Some(CheatAllYourBaseAreBelongToUs)
    case 0x50 => Some(ChangeAlly)
    case 0x51 => Some(TransferResources)
    case 0x60 => Some(MapTriggerChat)
    case 0x61 => Some(Esc)
    case 0x62 => Some(TriggerSleepOrSyncFinished)
    case 0x63 => Some(TriggerSyncReady)
    case 0x64 => Some(TriggerMouseClickedTrackable)
    case 0x65 => Some(TriggerMouseTouchedTrackable)
    case 0x66 => Some(EnterHeroSkillSubMenu)
    case 0x67 => Some(EnterBuildingSubMenu)
    case 0x68 => Some(MiniMapSignal)
    case 0x69 => Some(DialogButtonClicked)
    case 0x6A => Some(DialogAnyButtonClicked)
    case 0x6B => Some(SyncStoredInteger)
    case 0x6C => Some(SyncStoredFloat)
    case 0x6D => Some(SyncStoredBoolean)
    case 0x6E => Some(SyncStoredUnit)
    case 0x6F => Some(SyncStoredString)
    case 0x70 => Some(SyncEmptyInteger)
    case 0x71 => Some(SyncEmptyString)
    case 0x72 => Some(SyncEmptyBoolean)
    case 0x73 => Some(SyncEmptyUnit)
    case 0x74 => Some(SyncEmptyFloat)
    case 0x75 => Some(TriggerArrow)
    case _ => None
  }

  /** Every kind is dispatched from its own id, so the id table is one-to-one. */
  lemma ActionIdsDispatch(k: ActionKind)
    ensures ActionKindOf(ActionId(k)) == Some(k)
  {
    var id := ActionId(k);
    if id < 0x18 {
      OrderIdsDispatch(k);
    } else if id < 0x30 {
      GroupAndCheatIdsDispatch(k);
    } else if id < 0x68 {
      TriggerIdsDispatch(k);
    } else {
      SyncIdsDispatch(k);
    }
  }

  lemma OrderIdsDispatch(k: ActionKind)
    requires ActionId(k) < 0x18
    ensures ActionKindOf(ActionId(k)) == Some(k)
  {
  }

  lemma GroupAndCheatIdsDispatch(k: ActionKind)
    requires 0x18 <= ActionId(k) < 0x30
    ensures ActionKindOf(ActionId(k)) == Some(k)
  {
  }

  lemma TriggerIdsDispatch(k: ActionKind)
    requires 0x30 <= ActionId(k) < 0x68
    ensures ActionKindOf(ActionId(k)) == Some(k)
  {
  }

  lemma SyncIdsDispatch(k: ActionKind)
    requires 0x68 <= ActionId(k)
    ensures ActionKindOf(ActionId(k)) == Some(k)
  {
  }

  /** How one field of an action sits on the wire. */
  datatype FieldKind =
    | U8 | U16 | U32 | U64 | I32 | F32
    | Object                 // two dwords: allocated id, counter id
    | NulString              // bytes up to a 0, UTF-8 checked
    | Speed | Selection | Arrow   // one byte decoded by a closed enum
    | OrderFlags             // a word decoded by OrderType::from_u16
    | AllianceFlags          // a dword decoded by AllianceType::from_u32
    | ObjectList             // a word count, then that many objects
    | Inventory              // a dword count, then that many (item, charges, unknown) dwords
    | Abilities              // a dword count, then that many (ability, level) dwords

  /** A decoded field. `f32` values are kept as their four raw bytes. */
  datatype Field =
    | Num(n: nat)
    | Signed(i: int)
    | Float(raw: seq<Byte>)
    | Obj(obj: GameObject)
    | Str(s: Text)
    | SpeedField(speed: GameSpeed)
    | SelectionField(op: SelectionOperation)
    | ArrowField(key: ArrowKeyEvent)
    | Orders(orders: seq<OrderType>)
    | Alliances(alliances: seq<AllianceType>)
    | Objects(objs: seq<GameObject>)
    | Items(items: seq<UnitInventory>)
    | Skills(skills: seq<UnitAbility>)

  datatype Action = Action(kind: ActionKind, fields: seq<Field>)

  /** The fields each match arm of `extract_actions` reads, in reading order. */
  function Layout(k: ActionKind): seq<FieldKind>
  {
    match k
    case PauseGame => []
    case ResumeGame => []
    case SetGameSpeed => [Speed]
    case IncreaseGameSpeed => []
    case DecreaseGameSpeed => []
    case SaveGame => [NulString]
    case SaveGameFinish => [U32]
    case SelfOrder => [OrderFlags, U32, Object]
    case PointOrder => [OrderFlags, U32, Object, F32, F32]
    case ObjectOrder => [OrderFlags, U32, Object, F32, F32, Object]
    case DropOrGiveItem => [OrderFlags, U32, Object, F32, F32, Object, Object]
    case FogObjectOrder => [OrderFlags, U32, Object, F32, F32, U32, U64, U8, F32, F32]
    case ChangeSelection => [Selection, ObjectList]
    case AssignGroup => [U8, ObjectList]
    case SelectGroup => [U8, U8]
    case SelectSubGroup => [U32, Object]
    case PreSubSelection => []
    case TriggerSelectionEvent => [Selection, Object]
    case SelectGroundItem => [U8, Object]
    case CancelHeroRevival => [Object]
    case CancelUnitInQueue => [U8, U32]
    case Unknown21 => [U32, U32]
    case CheatTheDudeAbides => []
    case CheatSomebodySetUpUsTheBomb => []
    case CheatWarpTen => []
    case CheatIocainePowder => []
    case CheatPointBreak => []
    case CheatWhosYourDaddy => []
    case CheatKeyserSoze => [U8, I32]
    case CheatLeafItToMe => [U8, I32]
    case CheatThereIsNoSpoon => []
    case CheatStrengthAndHonor => []
    case CheatItVexesMe => []
    case CheatWhoIsJohnGalt => []
    case CheatGreedIsGood => [U8, I32]
    case CheatDaylightSavings => [F32]
    case CheatISeeDeadPeople => []
    case CheatSynergy => []
    case CheatSharpAndShiny => []
    case CheatAllYourBaseAreBelongToUs => []
    case ChangeAlly => [U8, AllianceFlags]
    case TransferResources => [U8, I32, I32]
    case MapTriggerChat => [Object, NulString]
    case Esc => []
    case TriggerSleepOrSyncFinished => [Object, U32]
    case TriggerSyncReady => [Object]
    case TriggerMouseClickedTrackable => [Object]
    case TriggerMouseTouchedTrackable => [Object]
    case EnterHeroSkillSubMenu => []
    case EnterBuildingSubMenu => []
    case MiniMapSignal => [F32, F32, F32]
    case DialogButtonClicked => [Object, Object]
    case DialogAnyButtonClicked => [Object, Object]
    case SyncStoredInteger => [NulString, NulString, NulString, I32]
    case SyncStoredFloat => [NulString, NulString, NulString, F32]
    case SyncStoredBoolean => [NulString, NulString, NulString, U32]
    case SyncStoredUnit => UnitLayout()
    case SyncStoredString => [NulString, NulString, NulString, NulString]
    case SyncEmptyInteger => [NulString, NulString, NulString]
    case SyncEmptyString => [NulString, NulString, NulString]
    case SyncEmptyBoolean => [NulString, NulString, NulString]
    case SyncEmptyUnit => [NulString, NulString, NulString]
    case SyncEmptyFloat => [NulString, NulString, NulString]
    case TriggerArrow => [Arrow]
  }

  /**
   * SyncStoredUnit: file, group, key, unit_type, inventory, experience,
   * level_ups, skill_points, proper_name_index, unknown1, base_strength,
   * bonus_strength_per_level, base_agility, bonus_move_speed,
   * bonus_attack_speed, bonus_agility_per_level, base_intelligence,
   * bonus_intelligence_per_level, abilities, bonus_health, bonus_mana,
   * sight_radius_day, unknown2..unknown5, hotkey_flags.
   */
  function UnitLayout(): seq<FieldKind>
  {
    [NulString, NulString, NulString, U32, Inventory, U32, U32, U32, U16, U16]
    + [U32, F32, U32, F32, F32, F32, U32, F32, Abilities, F32]
    + [F32, F32, U32, U32, U32, U32, U16]
  }

  /** Whether a decoded field has the shape its wire kind produces. */
  predicate FieldFits(k: FieldKind, f: Field)
  {
    match k
    case U8 => f.Num? && f.n < 0x100
    case U16 => f.Num? && f.n < 0x1_0000
    case U32 => f.Num? && f.n < 0x1_0000_0000
    case U64 => f.Num?
    case I32 => f.Signed?
    case F32 => f.Float? && |f.raw| == 4
    case Object => f.Obj?
    case NulString => f.Str?
    case Speed => f.SpeedField?
    case Selection => f.SelectionField?
    case Arrow => f.ArrowField?
    case OrderFlags => f.Orders?
    case AllianceFlags => f.Alliances?
    case ObjectList => f.Objects? && |f.objs| < 0x1_0000
    case Inventory => f.Items? && |f.items| < 0x1_0000_0000
    case Abilities => f.Skills? && |f.skills| < 0x1_0000_0000
  }

  predicate Fits(layout: seq<FieldKind>, fields: seq<Field>)
  {
    |layout| == |fields| && forall i :: 0 <= i < |fields| ==> FieldFits(layout[i], fields[i])
  }

  /** Bytes a field occupies on the wire. */
  function FieldSize(k: FieldKind, f: Field): nat
  {
    match k
    case U8 => 1
    case U16 => 2
    case U32 => 4
    case U64 => 8
    case I32 => 4
    case F32 => 4
    case Object => 8
    case NulString => (if f.Str? then |f.s| else 0) + 1
    case Speed => 1
    case Selection => 1
    case Arrow => 1
    case OrderFlags => 2
    case AllianceFlags => 4
    case ObjectList => 2 + 8 * (if f.Objects? then |f.objs| else 0)
    case Inventory => 4 + 12 * (if f.Items? then |f.items| else 0)
    case Abilities => 4 + 8 * (if f.Skills? then |f.skills| else 0)
  }

  function FieldsSize(layout: seq<FieldKind>, fields: seq<Field>): nat
    requires |layout| == |fields|
  {
    if layout == [] then 0
    else FieldSize(layout[0], fields[0]) + FieldsSize(layout[1..], fields[1..])
  }

  /** Length of the text in field `i`, or 0 if there is none. */
  function TextLen(fields: seq<Field>, i: nat): nat
  {
    if i < |fields| && fields[i].Str? then |fields[i].s| else 0
  }

  /** Number of entries of the list in field `i`, or 0 if there is none. */
  function ListLen(fields: seq<Field>, i: nat): nat
  {
    if i >= |fields| then 0
    else match fields[i]
      case Objects(objs) => |objs|
      case Items(items) => |items|
      case Skills(skills) => |skills|
      case _ => 0
  }

  /**
   * What each match arm of `extract_actions` adds to `bytes_read` after the
   * id byte, exactly as written. The SyncStoredBoolean arm leaves out the
   * dword it reads and the SyncStoredString arm the length of its value.
   */
  function ArmCountAsWritten(k: ActionKind, fields: seq<Field>): nat
  {
    match k
    case SetGameSpeed => 1
    case SaveGame => TextLen(fields, 0) + 1
    case SaveGameFinish => 4
    case SelfOrder => 2 + 3 * 4
    case PointOrder => 2 + 5 * 4
    case ObjectOrder => 2 + 7 * 4
    case DropOrGiveItem => 2 + 9 * 4
    case FogObjectOrder => 2 + 8 * 4 + 9
    case ChangeSelection => 1 + 2 + ListLen(fields, 1) * (2 * 4)
    case AssignGroup => 1 + 2 + ListLen(fields, 1) * (2 * 4)
    case SelectGroup => 2 * 1
    case SelectSubGroup => 3 * 4
    case TriggerSelectionEvent => 1 + 2 * 4
    case SelectGroundItem => 1 + 2 * 4
    case CancelHeroRevival => 2 * 4
    case CancelUnitInQueue => 1 + 4
    case Unknown21 => 2 * 4
    case CheatKeyserSoze => 1 + 4
    case CheatLeafItToMe => 1 + 4
    case CheatGreedIsGood => 1 + 4
    case CheatDaylightSavings => 4
    case ChangeAlly => 1 + 4
    case TransferResources => 1 + 4 + 4
    case MapTriggerChat => 2 * 4 + TextLen(fields, 1) + 1
    case TriggerSleepOrSyncFinished => 3 * 4
    case TriggerSyncReady => 2 * 4
    case TriggerMouseClickedTrackable => 2 * 4
    case TriggerMouseTouchedTrackable => 2 * 4
    case MiniMapSignal => 3 * 4
    case DialogButtonClicked => 4 * 4
    case DialogAnyButtonClicked => 4 * 4
    case SyncStoredInteger => 4 + KeyTriple(fields)
    case SyncStoredFloat => 4 + KeyTriple(fields)
    case SyncStoredBoolean => KeyTriple(fields)
    case SyncStoredUnit =>
      KeyTriple(fields) + 4 + ListLen(fields, 4) * 3 * 4 + 4 + 3 * 4 + 2 * 2 + 8 * 4
      + ListLen(fields, 18) * 2 * 4 + 4 + 7 * 4 + 2
    case SyncStoredString => TextLen(fields, 0) + TextLen(fields, 1) + TextLen(fields, 2) + 4 * 1
    case SyncEmptyInteger => KeyTriple(fields)
    case SyncEmptyString => KeyTriple(fields)
    case SyncEmptyBoolean => KeyTriple(fields)
    case SyncEmptyUnit => KeyTriple(fields)
    case SyncEmptyFloat => KeyTriple(fields)
    case TriggerArrow => 1
    case _ => 0
  }

  /** `file.len() + group.len() + key.len() + 3 * NULL_BYTE_LENGTH`. */
  function KeyTriple(fields: seq<Field>): nat
  {
    TextLen(fields, 0) + TextLen(fields, 1) + TextLen(fields, 2) + 3
  }

  /**
   * The arm counts with what two arms leave out added back: the dword value
   * of SyncStoredBoolean and the value string of SyncStoredString.
   */
  function ArmCount(k: ActionKind, fields: seq<Field>): nat
  {
    ArmCountAsWritten(k, fields)
    + (if k == SyncStoredBoolean then 4 else 0)
    + (if k == SyncStoredString then TextLen(fields, 3) else 0)
  }

  // ---------------------------------------------------------------------
  // Commands, blocks and the replay
  // ---------------------------------------------------------------------

  datatype Command = Command(playerId: Byte, numBytes: nat, actions: seq<Action>)

  datatype ReplayBlock =
    | LeaveGame(reason: nat, playerId: Byte, result: nat, sessionLeaveCount: nat)   // 0x17
    | LoadStarted1(unknown: nat)                                                      // 0x1A
    | LoadStarted2(unknown: nat)                                                      // 0x1B
    | GameStarted(unknown: nat)                                                       // 0x1C
    | TickPreOverflow(numBytes: nat, timeIncrement: nat, commands: seq<Command>)      // 0x1E
    | Tick(numBytes: nat, timeIncrement: nat, commands: seq<Command>)                 // 0x1F
    | PlayerChat(playerId: Byte, numBytes: nat, flags: Byte, chatMode: nat, message: Text) // 0x20
    | RandomSeed(numBytes: nat, unknown: nat)                                         // 0x22
    | Desync(tickCount: nat, checksum: nat, remainingPlayers: Byte)                   // 0x23
    | ForceGameEndCountdown(mode: nat, time: nat)                                     // 0x2F

  datatype Replay = Replay(
    magicString: Text,
    fileOffset: nat,
    compressedSize: nat,
    headerVersion: nat,
    decompressedSize: nat,
    numberOfCompressedBlocks: nat,
    replayHeader: ReplayHeader,
    gameHeader: GameHeader,
    replayBlocks: seq<ReplayBlock>)
}
