/**
 * Byte accounting of the action and command loops: how many readable bytes
 * each decoder takes, how that compares with the `bytes_read` counter the
 * loops keep, and where the loops stop.
 */
module ReplayAccounting {
  import opened Wrappers
  import opened Bytes
  import opened ReplayTypes
  import opened ReplayStreams
  import opened ReplayDecode

  // ---------------------------------------------------------------------
  // Consumption of readable bytes
  // ---------------------------------------------------------------------

  /** Going from `st` to `rest` took exactly the first `n` readable bytes. */
  predicate Consumes(st: Stream, rest: Stream, n: nat)
  {
    n <= |Readable(st)| && Readable(rest) == Readable(st)[n..]
  }

  lemma ConsumesThen(a: Stream, b: Stream, c: Stream, m: nat, n: nat, total: nat)
    requires Consumes(a, b, m) && Consumes(b, c, n) && total == m + n
    ensures Consumes(a, c, total)
  {
    assert Readable(a)[m..][n..] == Readable(a)[total..];
  }

  lemma UintConsumes(st: Stream, n: nat)
    ensures Uint(st, n).result.Ok? ==> Consumes(st, Uint(st, n).rest, n)
  {
    UintReadable(st, n);
  }

  lemma UnsignedByteConsumes(st: Stream)
    ensures UnsignedByte(st).result.Ok? ==> Consumes(st, UnsignedByte(st).rest, 1)
  {
    UnsignedByteReadable(st);
  }

  lemma DwordConsumes(st: Stream)
    ensures UnsignedDword(st).result.Ok? ==> Consumes(st, UnsignedDword(st).rest, 4)
    ensures SignedDword(st).result.Ok? ==> Consumes(st, SignedDword(st).rest, 4)
  {
    UintConsumes(st, 4);
  }

  /** A NUL-terminated string takes its bytes and the 0 after them. */
  lemma NulTerminatedConsumes(st: Stream)
    ensures NulTerminated(st).result.Ok? ==>
              Consumes(st, NulTerminated(st).rest, |NulTerminated(st).result.value| + 1)
  {
    NulTerminatedReadable(st);
  }

  lemma GameObjectConsumes(st: Stream)
    ensures GameObjectAt(st).result.Ok? ==> Consumes(st, GameObjectAt(st).rest, 8)
  {
    var a := UnsignedDword(st);
    DwordConsumes(st);
    if a.result.Ok? {
      DwordConsumes(a.rest);
      var b := UnsignedDword(a.rest);
      if b.result.Ok? {
        ConsumesThen(st, a.rest, b.rest, 4, 4, 8);
      }
    }
  }

  lemma InventoryEntryConsumes(st: Stream)
    ensures InventoryEntryAt(st).result.Ok? ==> Consumes(st, InventoryEntryAt(st).rest, 12)
  {
    var a := UnsignedDword(st);
    DwordConsumes(st);
    if a.result.Ok? {
      var b := UnsignedDword(a.rest);
      DwordConsumes(a.rest);
      if b.result.Ok? {
        var c := UnsignedDword(b.rest);
        DwordConsumes(b.rest);
        if c.result.Ok? {
          ConsumesThen(st, a.rest, b.rest, 4, 4, 8);
          ConsumesThen(st, b.rest, c.rest, 8, 4, 12);
        }
      }
    }
  }

  lemma AbilityEntryConsumes(st: Stream)
    ensures AbilityEntryAt(st).result.Ok? ==> Consumes(st, AbilityEntryAt(st).rest, 8)
  {
    var a := UnsignedDword(st);
    DwordConsumes(st);
    if a.result.Ok? {
      DwordConsumes(a.rest);
      var b := UnsignedDword(a.rest);
      if b.result.Ok? {
        ConsumesThen(st, a.rest, b.rest, 4, 4, 8);
      }
    }
  }

  /** Every successful read of `step` takes exactly `width` bytes. */
  ghost predicate ConsumesEach<T>(step: Stream -> Read<T>, width: nat)
  {
    forall st :: step(st).result.Ok? ==> Consumes(st, step(st).rest, width)
  }

  /** `count` reads of a fixed-width entry take `count` times its width. */
  lemma {:induction false} RepeatConsumes<T>(st: Stream, count: nat, step: Stream -> Read<T>, width: nat, total: nat)
    requires Forward(step) && ConsumesEach(step, width) && total == width * count
    ensures Repeat(st, count, step).result.Ok? ==> Consumes(st, Repeat(st, count, step).rest, total)
    decreases count
  {
    if count > 0 {
      var x := step(st);
      if x.result.Ok? {
        var left := total - width;
        assert left == width * (count - 1);
        RepeatConsumes(x.rest, count - 1, step, width, left);
        var more := Repeat(x.rest, count - 1, step);
        if more.result.Ok? {
          ConsumesThen(st, x.rest, more.rest, width, left, total);
        }
      }
    }
  }

  lemma ObjectsConsumeEach()
    ensures Forward(GameObjectAt) && ConsumesEach(GameObjectAt, 8)
  {
    forall s ensures GameObjectAt(s).result.Ok? ==> Consumes(s, GameObjectAt(s).rest, 8) {
      GameObjectConsumes(s);
    }
  }

  lemma InventoryEntriesConsumeEach()
    ensures Forward(InventoryEntryAt) && ConsumesEach(InventoryEntryAt, 12)
  {
    forall s ensures InventoryEntryAt(s).result.Ok? ==> Consumes(s, InventoryEntryAt(s).rest, 12) {
      InventoryEntryConsumes(s);
    }
  }

  lemma AbilityEntriesConsumeEach()
    ensures Forward(AbilityEntryAt) && ConsumesEach(AbilityEntryAt, 8)
  {
    forall s ensures AbilityEntryAt(s).result.Ok? ==> Consumes(s, AbilityEntryAt(s).rest, 8) {
      AbilityEntryConsumes(s);
    }
  }

  lemma ObjectListConsumes(st: Stream)
    ensures ObjectListAt(st).result.Ok? ==>
              Consumes(st, ObjectListAt(st).rest, 2 + 8 * |ObjectListAt(st).result.value|)
  {
    var count := UnsignedWord(st);
    UintConsumes(st, 2);
    if count.result.Ok? {
      ObjectsConsumeEach();
      var n := count.result.value;
      RepeatConsumes(count.rest, n, GameObjectAt, 8, 8 * n);
      var objs := Repeat(count.rest, n, GameObjectAt);
      if objs.result.Ok? {
        ConsumesThen(st, count.rest, objs.rest, 2, 8 * n, 2 + 8 * n);
      }
    }
  }

  lemma InventoryConsumes(st: Stream)
    ensures InventoryAt(st).result.Ok? ==>
              Consumes(st, InventoryAt(st).rest, 4 + 12 * |InventoryAt(st).result.value|)
  {
    var count := UnsignedDword(st);
    DwordConsumes(st);
    if count.result.Ok? {
      InventoryEntriesConsumeEach();
      var n := count.result.value;
      RepeatConsumes(count.rest, n, InventoryEntryAt, 12, 12 * n);
      var items := Repeat(count.rest, n, InventoryEntryAt);
      if items.result.Ok? {
        ConsumesThen(st, count.rest, items.rest, 4, 12 * n, 4 + 12 * n);
      }
    }
  }

  lemma AbilitiesConsumes(st: Stream)
    ensures AbilitiesAt(st).result.Ok? ==>
              Consumes(st, AbilitiesAt(st).rest, 4 + 8 * |AbilitiesAt(st).result.value|)
  {
    var count := UnsignedDword(st);
    DwordConsumes(st);
    if count.result.Ok? {
      AbilityEntriesConsumeEach();
      var n := count.result.value;
      RepeatConsumes(count.rest, n, AbilityEntryAt, 8, 8 * n);
      var skills := Repeat(count.rest, n, AbilityEntryAt);
      if skills.result.Ok? {
        ConsumesThen(st, count.rest, skills.rest, 4, 8 * n, 4 + 8 * n);
      }
    }
  }

  /** A field takes exactly the bytes its wire kind says, strings with their 0. */
  lemma FieldConsumes(st: Stream, k: FieldKind)
    ensures FieldAt(st, k).result.Ok? ==>
              Consumes(st, FieldAt(st, k).rest, FieldSize(k, FieldAt(st, k).result.value))
  {
    if k.U8? || k.U16? || k.U32? || k.U64? || k.I32? || k.F32? {
      NumberFieldConsumes(st, k);
    } else if k.Object? || k.NulString? || k.ObjectList? || k.Inventory? || k.Abilities? {
      CompoundFieldConsumes(st, k);
    } else {
      FlagFieldConsumes(st, k);
    }
  }

  /** FieldConsumes for the plain numbers. */
  lemma NumberFieldConsumes(st: Stream, k: FieldKind)
    requires k.U8? || k.U16? || k.U32? || k.U64? || k.I32? || k.F32?
    ensures FieldAt(st, k).result.Ok? ==>
              Consumes(st, FieldAt(st, k).rest, FieldSize(k, FieldAt(st, k).result.value))
  {
    match k
    case U8 => UnsignedByteConsumes(st);
    case U16 => UintConsumes(st, 2);
    case U32 => DwordConsumes(st);
    case U64 => UintConsumes(st, 8);
    case I32 => DwordConsumes(st);
    case F32 => TakeReadable(st, 4);
  }

  /** FieldConsumes for objects, strings and lists. */
  lemma CompoundFieldConsumes(st: Stream, k: FieldKind)
    requires k.Object? || k.NulString? || k.ObjectList? || k.Inventory? || k.Abilities?
    ensures FieldAt(st, k).result.Ok? ==>
              Consumes(st, FieldAt(st, k).rest, FieldSize(k, FieldAt(st, k).result.value))
  {
    if k.Object? || k.NulString? {
      ObjectOrStringConsumes(st, k);
    } else if k.ObjectList? {
      ObjectListFieldConsumes(st, k);
    } else if k.Inventory? {
      InventoryFieldConsumes(st, k);
    } else {
      AbilitiesFieldConsumes(st, k);
    }
  }

  /** FieldConsumes for an object id or a string. */
  lemma ObjectOrStringConsumes(st: Stream, k: FieldKind)
    requires k.Object? || k.NulString?
    ensures FieldAt(st, k).result.Ok? ==>
              Consumes(st, FieldAt(st, k).rest, FieldSize(k, FieldAt(st, k).result.value))
  {
    match k
    case Object => GameObjectConsumes(st);
    case NulString => NulTerminatedConsumes(st);
  }

  /** FieldConsumes for a list of objects. */
  lemma ObjectListFieldConsumes(st: Stream, k: FieldKind)
    requires k.ObjectList?
    ensures FieldAt(st, k).result.Ok? ==>
              Consumes(st, FieldAt(st, k).rest, FieldSize(k, FieldAt(st, k).result.value))
  {
    ObjectListConsumes(st);
    ObjectListFieldIs(st, k);
    var f := FieldAt(st, k);
    if f.result.Ok? {
      var g := ObjectListAt(st);
      assert f.result.value == Objects(g.result.value) && f.rest == g.rest;
      assert FieldSize(k, f.result.value) == 2 + 8 * |g.result.value|;
    }
  }

  /** FieldConsumes for an inventory. */
  lemma InventoryFieldConsumes(st: Stream, k: FieldKind)
    requires k.Inventory?
    ensures FieldAt(st, k).result.Ok? ==>
              Consumes(st, FieldAt(st, k).rest, FieldSize(k, FieldAt(st, k).result.value))
  {
    InventoryConsumes(st);
    InventoryFieldIs(st, k);
    var f := FieldAt(st, k);
    if f.result.Ok? {
      var g := InventoryAt(st);
      assert f.result.value == Items(g.result.value) && f.rest == g.rest;
      assert FieldSize(k, f.result.value) == 4 + 12 * |g.result.value|;
    }
  }

  /** FieldConsumes for a list of abilities. */
  lemma AbilitiesFieldConsumes(st: Stream, k: FieldKind)
    requires k.Abilities?
    ensures FieldAt(st, k).result.Ok? ==>
              Consumes(st, FieldAt(st, k).rest, FieldSize(k, FieldAt(st, k).result.value))
  {
    AbilitiesConsumes(st);
    AbilitiesFieldIs(st, k);
    var f := FieldAt(st, k);
    if f.result.Ok? {
      var g := AbilitiesAt(st);
      assert f.result.value == Skills(g.result.value) && f.rest == g.rest;
      assert FieldSize(k, f.result.value) == 4 + 8 * |g.result.value|;
    }
  }

  /** The ObjectList field is the list its reader returns. */
  lemma ObjectListFieldIs(st: Stream, k: FieldKind)
    requires k.ObjectList?
    ensures FieldAt(st, k).result.Ok? <==> ObjectListAt(st).result.Ok?
    ensures FieldAt(st, k).result.Ok? ==>
              FieldAt(st, k) == Read(Ok(Objects(ObjectListAt(st).result.value)), ObjectListAt(st).rest)
  {
  }

  /** The Inventory field is the list its reader returns. */
  lemma InventoryFieldIs(st: Stream, k: FieldKind)
    requires k.Inventory?
    ensures FieldAt(st, k).result.Ok? <==> InventoryAt(st).result.Ok?
    ensures FieldAt(st, k).result.Ok? ==>
              FieldAt(st, k) == Read(Ok(Items(InventoryAt(st).result.value)), InventoryAt(st).rest)
  {
  }

  /** The Abilities field is the list its reader returns. */
  lemma AbilitiesFieldIs(st: Stream, k: FieldKind)
    requires k.Abilities?
    ensures FieldAt(st, k).result.Ok? <==> AbilitiesAt(st).result.Ok?
    ensures FieldAt(st, k).result.Ok? ==>
              FieldAt(st, k) == Read(Ok(Skills(AbilitiesAt(st).result.value)), AbilitiesAt(st).rest)
  {
  }

  /** FieldConsumes for the enumerations and flag words. */
  lemma FlagFieldConsumes(st: Stream, k: FieldKind)
    requires k.Speed? || k.Selection? || k.Arrow? || k.OrderFlags? || k.AllianceFlags?
    ensures FieldAt(st, k).result.Ok? ==>
              Consumes(st, FieldAt(st, k).rest, FieldSize(k, FieldAt(st, k).result.value))
  {
    match k
    case Speed => UnsignedByteConsumes(st);
    case Selection => UnsignedByteConsumes(st);
    case Arrow => UnsignedByteConsumes(st);
    case OrderFlags => UintConsumes(st, 2);
    case AllianceFlags => DwordConsumes(st);
  }

  /** The fields of a layout take the sum of their sizes. */
  lemma {:induction false} FieldsConsumes(st: Stream, layout: seq<FieldKind>)
    ensures FieldsAt(st, layout).result.Ok? ==>
              Consumes(st, FieldsAt(st, layout).rest, FieldsSize(layout, FieldsAt(st, layout).result.value))
    decreases |layout|
  {
    var r := FieldsAt(st, layout);
    if layout == [] {
      assert Readable(st)[0..] == Readable(st);
    } else if r.result.Ok? {
      var f := FieldAt(st, layout[0]);
      FieldConsumes(st, layout[0]);
      var more := FieldsAt(f.rest, layout[1..]);
      FieldsConsumes(f.rest, layout[1..]);
      var fields := r.result.value;
      assert fields == [f.result.value] + more.result.value;
      assert fields[1..] == more.result.value;
      ConsumesThen(st, f.rest, more.rest, FieldSize(layout[0], fields[0]),
                   FieldsSize(layout[1..], fields[1..]), FieldsSize(layout, fields));
    }
  }

  // ---------------------------------------------------------------------
  // The arm counts against the wire sizes
  // ---------------------------------------------------------------------

  /** The size of a layout of a given length, field by field. */
  lemma FieldsSize1(layout: seq<FieldKind>, fields: seq<Field>)
    requires |layout| == |fields| == 1
    ensures FieldsSize(layout, fields) ==
              FieldSize(layout[0], fields[0])
  {
  }

  lemma FieldsSize2(layout: seq<FieldKind>, fields: seq<Field>)
    requires |layout| == |fields| == 2
    ensures FieldsSize(layout, fields) ==
              FieldSize(layout[0], fields[0]) + FieldSize(layout[1], fields[1])
  {
    FieldsSize1(layout[1..], fields[1..]);
  }

  lemma FieldsSize3(layout: seq<FieldKind>, fields: seq<Field>)
    requires |layout| == |fields| == 3
    ensures FieldsSize(layout, fields) ==
              FieldSize(layout[0], fields[0]) + FieldSize(layout[1], fields[1]) + FieldSize(layout[2], fields[2])
  {
    FieldsSize2(layout[1..], fields[1..]);
  }

  lemma FieldsSize4(layout: seq<FieldKind>, fields: seq<Field>)
    requires |layout| == |fields| == 4
    ensures FieldsSize(layout, fields) ==
              FieldSize(layout[0], fields[0]) + FieldSize(layout[1], fields[1]) + FieldSize(layout[2], fields[2]) +
              FieldSize(layout[3], fields[3])
  {
    FieldsSize3(layout[1..], fields[1..]);
  }

  lemma FieldsSize5(layout: seq<FieldKind>, fields: seq<Field>)
    requires |layout| == |fields| == 5
    ensures FieldsSize(layout, fields) ==
              FieldSize(layout[0], fields[0]) + FieldSize(layout[1], fields[1]) + FieldSize(layout[2], fields[2]) +
              FieldSize(layout[3], fields[3]) + FieldSize(layout[4], fields[4])
  {
    FieldsSize4(layout[1..], fields[1..]);
  }

  lemma FieldsSize6(layout: seq<FieldKind>, fields: seq<Field>)
    requires |layout| == |fields| == 6
    ensures FieldsSize(layout, fields) ==
              FieldSize(layout[0], fields[0]) + FieldSize(layout[1], fields[1]) + FieldSize(layout[2], fields[2]) +
              FieldSize(layout[3], fields[3]) + FieldSize(layout[4], fields[4]) + FieldSize(layout[5], fields[5])
  {
    FieldsSize5(layout[1..], fields[1..]);
  }

  lemma FieldsSize7(layout: seq<FieldKind>, fields: seq<Field>)
    requires |layout| == |fields| == 7
    ensures FieldsSize(layout, fields) ==
              FieldSize(layout[0], fields[0]) + FieldSize(layout[1], fields[1]) + FieldSize(layout[2], fields[2]) +
              FieldSize(layout[3], fields[3]) + FieldSize(layout[4], fields[4]) + FieldSize(layout[5], fields[5]) +
              FieldSize(layout[6], fields[6])
  {
    FieldsSize6(layout[1..], fields[1..]);
  }

  lemma FieldsSize8(layout: seq<FieldKind>, fields: seq<Field>)
    requires |layout| == |fields| == 8
    ensures FieldsSize(layout, fields) ==
              FieldSize(layout[0], fields[0]) + FieldSize(layout[1], fields[1]) + FieldSize(layout[2], fields[2]) +
              FieldSize(layout[3], fields[3]) + FieldSize(layout[4], fields[4]) + FieldSize(layout[5], fields[5]) +
              FieldSize(layout[6], fields[6]) + FieldSize(layout[7], fields[7])
  {
    FieldsSize7(layout[1..], fields[1..]);
  }

  lemma FieldsSize9(layout: seq<FieldKind>, fields: seq<Field>)
    requires |layout| == |fields| == 9
    ensures FieldsSize(layout, fields) ==
              FieldSize(layout[0], fields[0]) + FieldSize(layout[1], fields[1]) + FieldSize(layout[2], fields[2]) +
              FieldSize(layout[3], fields[3]) + FieldSize(layout[4], fields[4]) + FieldSize(layout[5], fields[5]) +
              FieldSize(layout[6], fields[6]) + FieldSize(layout[7], fields[7]) + FieldSize(layout[8], fields[8])
  {
    FieldsSize8(layout[1..], fields[1..]);
  }

  lemma FieldsSize10(layout: seq<FieldKind>, fields: seq<Field>)
    requires |layout| == |fields| == 10
    ensures FieldsSize(layout, fields) ==
              FieldSize(layout[0], fields[0]) + FieldSize(layout[1], fields[1]) + FieldSize(layout[2], fields[2]) +
              FieldSize(layout[3], fields[3]) + FieldSize(layout[4], fields[4]) + FieldSize(layout[5], fields[5]) +
              FieldSize(layout[6], fields[6]) + FieldSize(layout[7], fields[7]) + FieldSize(layout[8], fields[8]) +
              FieldSize(layout[9], fields[9])
  {
    FieldsSize9(layout[1..], fields[1..]);
  }

  /** The size of two layouts one after the other. */
  lemma {:induction false} FieldsSizeAppend(a: seq<FieldKind>, b: seq<FieldKind>, fields: seq<Field>)
    requires |a| + |b| == |fields|
    ensures FieldsSize(a + b, fields) == FieldsSize(a, fields[..|a|]) + FieldsSize(b, fields[|a|..])
  {
    if a == [] {
      assert a + b == b && fields[|a|..] == fields;
    } else {
      FieldsSizeAppend(a[1..], b, fields[1..]);
      assert (a + b)[1..] == a[1..] + b;
      assert fields[1..][..|a| - 1] == fields[..|a|][1..];
      assert fields[1..][|a| - 1..] == fields[|a|..];
    }
  }

  // One lemma per arm: the arm's count is the wire size of its layout.

  lemma SetGameSpeedArm(fields: seq<Field>)
    requires Fits(Layout(SetGameSpeed), fields)
    ensures ArmCount(SetGameSpeed, fields) == FieldsSize(Layout(SetGameSpeed), fields)
  {
    FieldsSize1(Layout(SetGameSpeed), fields);
  }

  lemma SaveGameArm(fields: seq<Field>)
    requires Fits(Layout(SaveGame), fields)
    ensures ArmCount(SaveGame, fields) == FieldsSize(Layout(SaveGame), fields)
  {
    FieldsSize1(Layout(SaveGame), fields);
  }

  lemma SaveGameFinishArm(fields: seq<Field>)
    requires Fits(Layout(SaveGameFinish), fields)
    ensures ArmCount(SaveGameFinish, fields) == FieldsSize(Layout(SaveGameFinish), fields)
  {
    FieldsSize1(Layout(SaveGameFinish), fields);
  }

  lemma SelfOrderArm(fields: seq<Field>)
    requires Fits(Layout(SelfOrder), fields)
    ensures ArmCount(SelfOrder, fields) == FieldsSize(Layout(SelfOrder), fields)
  {
    FieldsSize3(Layout(SelfOrder), fields);
  }

  lemma PointOrderArm(fields: seq<Field>)
    requires Fits(Layout(PointOrder), fields)
    ensures ArmCount(PointOrder, fields) == FieldsSize(Layout(PointOrder), fields)
  {
    FieldsSize5(Layout(PointOrder), fields);
  }

  lemma ObjectOrderArm(fields: seq<Field>)
    requires Fits(Layout(ObjectOrder), fields)
    ensures ArmCount(ObjectOrder, fields) == FieldsSize(Layout(ObjectOrder), fields)
  {
    FieldsSize6(Layout(ObjectOrder), fields);
  }

  lemma DropOrGiveItemArm(fields: seq<Field>)
    requires Fits(Layout(DropOrGiveItem), fields)
    ensures ArmCount(DropOrGiveItem, fields) == FieldsSize(Layout(DropOrGiveItem), fields)
  {
    FieldsSize7(Layout(DropOrGiveItem), fields);
  }

  lemma FogObjectOrderArm(fields: seq<Field>)
    requires Fits(Layout(FogObjectOrder), fields)
    ensures ArmCount(FogObjectOrder, fields) == FieldsSize(Layout(FogObjectOrder), fields)
  {
    FieldsSize10(Layout(FogObjectOrder), fields);
  }

  lemma ChangeSelectionArm(fields: seq<Field>)
    requires Fits(Layout(ChangeSelection), fields)
    ensures ArmCount(ChangeSelection, fields) == FieldsSize(Layout(ChangeSelection), fields)
  {
    FieldsSize2(Layout(ChangeSelection), fields);
  }

  lemma AssignGroupArm(fields: seq<Field>)
    requires Fits(Layout(AssignGroup), fields)
    ensures ArmCount(AssignGroup, fields) == FieldsSize(Layout(AssignGroup), fields)
  {
    FieldsSize2(Layout(AssignGroup), fields);
  }

  lemma SelectGroupArm(fields: seq<Field>)
    requires Fits(Layout(SelectGroup), fields)
    ensures ArmCount(SelectGroup, fields) == FieldsSize(Layout(SelectGroup), fields)
  {
    FieldsSize2(Layout(SelectGroup), fields);
  }

  lemma SelectSubGroupArm(fields: seq<Field>)
    requires Fits(Layout(SelectSubGroup), fields)
    ensures ArmCount(SelectSubGroup, fields) == FieldsSize(Layout(SelectSubGroup), fields)
  {
    FieldsSize2(Layout(SelectSubGroup), fields);
  }

  lemma TriggerSelectionEventArm(fields: seq<Field>)
    requires Fits(Layout(TriggerSelectionEvent), fields)
    ensures ArmCount(TriggerSelectionEvent, fields) == FieldsSize(Layout(TriggerSelectionEvent), fields)
  {
    FieldsSize2(Layout(TriggerSelectionEvent), fields);
  }

  lemma SelectGroundItemArm(fields: seq<Field>)
    requires Fits(Layout(SelectGroundItem), fields)
    ensures ArmCount(SelectGroundItem, fields) == FieldsSize(Layout(SelectGroundItem), fields)
  {
    FieldsSize2(Layout(SelectGroundItem), fields);
  }

  lemma CancelHeroRevivalArm(fields: seq<Field>)
    requires Fits(Layout(CancelHeroRevival), fields)
    ensures ArmCount(CancelHeroRevival, fields) == FieldsSize(Layout(CancelHeroRevival), fields)
  {
    FieldsSize1(Layout(CancelHeroRevival), fields);
  }

  lemma CancelUnitInQueueArm(fields: seq<Field>)
    requires Fits(Layout(CancelUnitInQueue), fields)
    ensures ArmCount(CancelUnitInQueue, fields) == FieldsSize(Layout(CancelUnitInQueue), fields)
  {
    FieldsSize2(Layout(CancelUnitInQueue), fields);
  }

  lemma Unknown21Arm(fields: seq<Field>)
    requires Fits(Layout(Unknown21), fields)
    ensures ArmCount(Unknown21, fields) == FieldsSize(Layout(Unknown21), fields)
  {
    FieldsSize2(Layout(Unknown21), fields);
  }

  lemma CheatKeyserSozeArm(fields: seq<Field>)
    requires Fits(Layout(CheatKeyserSoze), fields)
    ensures ArmCount(CheatKeyserSoze, fields) == FieldsSize(Layout(CheatKeyserSoze), fields)
  {
    FieldsSize2(Layout(CheatKeyserSoze), fields);
  }

  lemma CheatLeafItToMeArm(fields: seq<Field>)
    requires Fits(Layout(CheatLeafItToMe), fields)
    ensures ArmCount(CheatLeafItToMe, fields) == FieldsSize(Layout(CheatLeafItToMe), fields)
  {
    FieldsSize2(Layout(CheatLeafItToMe), fields);
  }

  lemma CheatGreedIsGoodArm(fields: seq<Field>)
    requires Fits(Layout(CheatGreedIsGood), fields)
    ensures ArmCount(CheatGreedIsGood, fields) == FieldsSize(Layout(CheatGreedIsGood), fields)
  {
    FieldsSize2(Layout(CheatGreedIsGood), fields);
  }

  lemma CheatDaylightSavingsArm(fields: seq<Field>)
    requires Fits(Layout(CheatDaylightSavings), fields)
    ensures ArmCount(CheatDaylightSavings, fields) == FieldsSize(Layout(CheatDaylightSavings), fields)
  {
    FieldsSize1(Layout(CheatDaylightSavings), fields);
  }

  lemma ChangeAllyArm(fields: seq<Field>)
    requires Fits(Layout(ChangeAlly), fields)
    ensures ArmCount(ChangeAlly, fields) == FieldsSize(Layout(ChangeAlly), fields)
  {
    FieldsSize2(Layout(ChangeAlly), fields);
  }

  lemma TransferResourcesArm(fields: seq<Field>)
    requires Fits(Layout(TransferResources), fields)
    ensures ArmCount(TransferResources, fields) == FieldsSize(Layout(TransferResources), fields)
  {
    FieldsSize3(Layout(TransferResources), fields);
  }

  lemma MapTriggerChatArm(fields: seq<Field>)
    requires Fits(Layout(MapTriggerChat), fields)
    ensures ArmCount(MapTriggerChat, fields) == FieldsSize(Layout(MapTriggerChat), fields)
  {
    FieldsSize2(Layout(MapTriggerChat), fields);
  }

  lemma TriggerSleepOrSyncFinishedArm(fields: seq<Field>)
    requires Fits(Layout(TriggerSleepOrSyncFinished), fields)
    ensures ArmCount(TriggerSleepOrSyncFinished, fields) == FieldsSize(Layout(TriggerSleepOrSyncFinished), fields)
  {
    FieldsSize2(Layout(TriggerSleepOrSyncFinished), fields);
  }

  lemma TriggerSyncReadyArm(fields: seq<Field>)
    requires Fits(Layout(TriggerSyncReady), fields)
    ensures ArmCount(TriggerSyncReady, fields) == FieldsSize(Layout(TriggerSyncReady), fields)
  {
    FieldsSize1(Layout(TriggerSyncReady), fields);
  }

  lemma TriggerMouseClickedTrackableArm(fields: seq<Field>)
    requires Fits(Layout(TriggerMouseClickedTrackable), fields)
    ensures ArmCount(TriggerMouseClickedTrackable, fields) == FieldsSize(Layout(TriggerMouseClickedTrackable), fields)
  {
    FieldsSize1(Layout(TriggerMouseClickedTrackable), fields);
  }

  lemma TriggerMouseTouchedTrackableArm(fields: seq<Field>)
    requires Fits(Layout(TriggerMouseTouchedTrackable), fields)
    ensures ArmCount(TriggerMouseTouchedTrackable, fields) == FieldsSize(Layout(TriggerMouseTouchedTrackable), fields)
  {
    FieldsSize1(Layout(TriggerMouseTouchedTrackable), fields);
  }

  lemma MiniMapSignalArm(fields: seq<Field>)
    requires Fits(Layout(MiniMapSignal), fields)
    ensures ArmCount(MiniMapSignal, fields) == FieldsSize(Layout(MiniMapSignal), fields)
  {
    FieldsSize3(Layout(MiniMapSignal), fields);
  }

  lemma DialogButtonClickedArm(fields: seq<Field>)
    requires Fits(Layout(DialogButtonClicked), fields)
    ensures ArmCount(DialogButtonClicked, fields) == FieldsSize(Layout(DialogButtonClicked), fields)
  {
    FieldsSize2(Layout(DialogButtonClicked), fields);
  }

  lemma DialogAnyButtonClickedArm(fields: seq<Field>)
    requires Fits(Layout(DialogAnyButtonClicked), fields)
    ensures ArmCount(DialogAnyButtonClicked, fields) == FieldsSize(Layout(DialogAnyButtonClicked), fields)
  {
    FieldsSize2(Layout(DialogAnyButtonClicked), fields);
  }

  lemma TriggerArrowArm(fields: seq<Field>)
    requires Fits(Layout(TriggerArrow), fields)
    ensures ArmCount(TriggerArrow, fields) == FieldsSize(Layout(TriggerArrow), fields)
  {
    FieldsSize1(Layout(TriggerArrow), fields);
  }

  lemma SyncStoredIntegerArm(fields: seq<Field>)
    requires Fits(Layout(SyncStoredInteger), fields)
    ensures ArmCount(SyncStoredInteger, fields) == FieldsSize(Layout(SyncStoredInteger), fields)
  {
    FieldsSize4(Layout(SyncStoredInteger), fields);
  }

  lemma SyncStoredFloatArm(fields: seq<Field>)
    requires Fits(Layout(SyncStoredFloat), fields)
    ensures ArmCount(SyncStoredFloat, fields) == FieldsSize(Layout(SyncStoredFloat), fields)
  {
    FieldsSize4(Layout(SyncStoredFloat), fields);
  }

  lemma SyncStoredBooleanArm(fields: seq<Field>)
    requires Fits(Layout(SyncStoredBoolean), fields)
    ensures ArmCount(SyncStoredBoolean, fields) == FieldsSize(Layout(SyncStoredBoolean), fields)
  {
    FieldsSize4(Layout(SyncStoredBoolean), fields);
  }

  lemma SyncStoredStringArm(fields: seq<Field>)
    requires Fits(Layout(SyncStoredString), fields)
    ensures ArmCount(SyncStoredString, fields) == FieldsSize(Layout(SyncStoredString), fields)
  {
    FieldsSize4(Layout(SyncStoredString), fields);
  }

  lemma SyncEmptyIntegerArm(fields: seq<Field>)
    requires Fits(Layout(SyncEmptyInteger), fields)
    ensures ArmCount(SyncEmptyInteger, fields) == FieldsSize(Layout(SyncEmptyInteger), fields)
  {
    FieldsSize3(Layout(SyncEmptyInteger), fields);
  }

  lemma SyncEmptyStringArm(fields: seq<Field>)
    requires Fits(Layout(SyncEmptyString), fields)
    ensures ArmCount(SyncEmptyString, fields) == FieldsSize(Layout(SyncEmptyString), fields)
  {
    FieldsSize3(Layout(SyncEmptyString), fields);
  }

  lemma SyncEmptyBooleanArm(fields: seq<Field>)
    requires Fits(Layout(SyncEmptyBoolean), fields)
    ensures ArmCount(SyncEmptyBoolean, fields) == FieldsSize(Layout(SyncEmptyBoolean), fields)
  {
    FieldsSize3(Layout(SyncEmptyBoolean), fields);
  }

  lemma SyncEmptyUnitArm(fields: seq<Field>)
    requires Fits(Layout(SyncEmptyUnit), fields)
    ensures ArmCount(SyncEmptyUnit, fields) == FieldsSize(Layout(SyncEmptyUnit), fields)
  {
    FieldsSize3(Layout(SyncEmptyUnit), fields);
  }

  lemma SyncEmptyFloatArm(fields: seq<Field>)
    requires Fits(Layout(SyncEmptyFloat), fields)
    ensures ArmCount(SyncEmptyFloat, fields) == FieldsSize(Layout(SyncEmptyFloat), fields)
  {
    FieldsSize3(Layout(SyncEmptyFloat), fields);
  }

  /** The first ten fields of SyncStoredUnit: the key triple up to the first word pair. */
  lemma UnitFront(fields: seq<Field>)
    requires |fields| == 10 && fields[4].Items?
    ensures FieldsSize([NulString, NulString, NulString, U32, Inventory, U32, U32, U32, U16, U16], fields)
              == KeyTriple(fields) + 24 + 12 * |fields[4].items|
  {
    FieldsSize10([NulString, NulString, NulString, U32, Inventory, U32, U32, U32, U16, U16], fields);
  }

  /** The next ten fields of SyncStoredUnit, through the abilities. */
  lemma UnitMiddle(fields: seq<Field>)
    requires |fields| == 10 && fields[8].Skills?
    ensures FieldsSize([U32, F32, U32, F32, F32, F32, U32, F32, Abilities, F32], fields)
              == 40 + 8 * |fields[8].skills|
  {
    FieldsSize10([U32, F32, U32, F32, F32, F32, U32, F32, Abilities, F32], fields);
  }

  /** The last seven fields of SyncStoredUnit. */
  lemma UnitBack(fields: seq<Field>)
    requires |fields| == 7
    ensures FieldsSize([F32, F32, U32, U32, U32, U32, U16], fields) == 26
  {
    FieldsSize7([F32, F32, U32, U32, U32, U32, U16], fields);
  }

  /** The wire size of SyncStoredUnit's fields, read in three stretches. */
  lemma UnitWireSize(fields: seq<Field>)
    requires |fields| == 27 && fields[4].Items? && fields[18].Skills?
    ensures FieldsSize(UnitLayout(), fields) ==
              KeyTriple(fields) + 90 + 12 * |fields[4].items| + 8 * |fields[18].skills|
  {
    var front: seq<FieldKind> := [NulString, NulString, NulString, U32, Inventory, U32, U32, U32, U16, U16];
    var middle: seq<FieldKind> := [U32, F32, U32, F32, F32, F32, U32, F32, Abilities, F32];
    var back: seq<FieldKind> := [F32, F32, U32, U32, U32, U32, U16];
    var head := fields[..20];
    FieldsSizeAppend(front + middle, back, fields);
    FieldsSizeAppend(front, middle, head);
    assert head[..10][4] == fields[4] && head[10..][8] == fields[18];
    UnitFront(head[..10]);
    UnitMiddle(head[10..]);
    UnitBack(fields[20..]);
    assert KeyTriple(head[..10]) == KeyTriple(fields);
  }

  lemma UnitArm(fields: seq<Field>)
    requires Fits(Layout(SyncStoredUnit), fields)
    ensures ArmCount(SyncStoredUnit, fields) == FieldsSize(Layout(SyncStoredUnit), fields)
  {
    assert FieldFits(Inventory, fields[4]) && FieldFits(Abilities, fields[18]);
    UnitWireSize(fields);
  }

  /**
   * Every arm of `extract_actions`, with what SyncStoredBoolean and
   * SyncStoredString leave out added back, counts exactly the wire size of
   * the fields it read.
   */
  lemma ArmCountIsWireSize(k: ActionKind, fields: seq<Field>)
    requires Fits(Layout(k), fields)
    ensures ArmCount(k, fields) == FieldsSize(Layout(k), fields)
  {
    match k
    case SetGameSpeed | SaveGame | SaveGameFinish | SelfOrder | PointOrder | ObjectOrder | DropOrGiveItem | FogObjectOrder | ChangeSelection | AssignGroup | SelectGroup | SelectSubGroup | TriggerSelectionEvent | SelectGroundItem => OrderArmsWireSize(k, fields);
    case CancelHeroRevival | CancelUnitInQueue | Unknown21 | CheatKeyserSoze | CheatLeafItToMe | CheatGreedIsGood | CheatDaylightSavings | ChangeAlly | TransferResources | MapTriggerChat | TriggerSleepOrSyncFinished | TriggerSyncReady | TriggerMouseClickedTrackable | TriggerMouseTouchedTrackable => TriggerArmsWireSize(k, fields);
    case MiniMapSignal | DialogButtonClicked | DialogAnyButtonClicked | TriggerArrow | SyncStoredInteger | SyncStoredFloat | SyncStoredBoolean | SyncStoredString | SyncEmptyInteger | SyncEmptyString | SyncEmptyBoolean | SyncEmptyUnit | SyncEmptyFloat | SyncStoredUnit => SyncArmsWireSize(k, fields);
    case PauseGame | ResumeGame | IncreaseGameSpeed | DecreaseGameSpeed | PreSubSelection | CheatTheDudeAbides | CheatSomebodySetUpUsTheBomb | CheatWarpTen | CheatIocainePowder | CheatPointBreak | CheatWhosYourDaddy | CheatThereIsNoSpoon | CheatStrengthAndHonor | CheatItVexesMe | CheatWhoIsJohnGalt | CheatISeeDeadPeople | CheatSynergy | CheatSharpAndShiny | CheatAllYourBaseAreBelongToUs | Esc | EnterHeroSkillSubMenu | EnterBuildingSubMenu =>
  }

  /** The arms for game speed, saves, orders and selections. */
  lemma OrderArmsWireSize(k: ActionKind, fields: seq<Field>)
    requires k.SetGameSpeed? || k.SaveGame? || k.SaveGameFinish? || k.SelfOrder? || k.PointOrder? || k.ObjectOrder? || k.DropOrGiveItem? || k.FogObjectOrder? || k.ChangeSelection? || k.AssignGroup? || k.SelectGroup? || k.SelectSubGroup? || k.TriggerSelectionEvent? || k.SelectGroundItem?
    requires Fits(Layout(k), fields)
    ensures ArmCount(k, fields) == FieldsSize(Layout(k), fields)
  {
    match k
    case SetGameSpeed => SetGameSpeedArm(fields);
    case SaveGame => SaveGameArm(fields);
    case SaveGameFinish => SaveGameFinishArm(fields);
    case SelfOrder => SelfOrderArm(fields);
    case PointOrder => PointOrderArm(fields);
    case ObjectOrder => ObjectOrderArm(fields);
    case DropOrGiveItem => DropOrGiveItemArm(fields);
    case FogObjectOrder => FogObjectOrderArm(fields);
    case ChangeSelection => ChangeSelectionArm(fields);
    case AssignGroup => AssignGroupArm(fields);
    case SelectGroup => SelectGroupArm(fields);
    case SelectSubGroup => SelectSubGroupArm(fields);
    case TriggerSelectionEvent => TriggerSelectionEventArm(fields);
    case SelectGroundItem => SelectGroundItemArm(fields);
  }

  /** The arms for queue cancellations, cheats with arguments, alliances and triggers. */
  lemma TriggerArmsWireSize(k: ActionKind, fields: seq<Field>)
    requires k.CancelHeroRevival? || k.CancelUnitInQueue? || k.Unknown21? || k.CheatKeyserSoze? || k.CheatLeafItToMe? || k.CheatGreedIsGood? || k.CheatDaylightSavings? || k.ChangeAlly? || k.TransferResources? || k.MapTriggerChat? || k.TriggerSleepOrSyncFinished? || k.TriggerSyncReady? || k.TriggerMouseClickedTrackable? || k.TriggerMouseTouchedTrackable?
    requires Fits(Layout(k), fields)
    ensures ArmCount(k, fields) == FieldsSize(Layout(k), fields)
  {
    match k
    case CancelHeroRevival => CancelHeroRevivalArm(fields);
    case CancelUnitInQueue => CancelUnitInQueueArm(fields);
    case Unknown21 => Unknown21Arm(fields);
    case CheatKeyserSoze => CheatKeyserSozeArm(fields);
    case CheatLeafItToMe => CheatLeafItToMeArm(fields);
    case CheatGreedIsGood => CheatGreedIsGoodArm(fields);
    case CheatDaylightSavings => CheatDaylightSavingsArm(fields);
    case ChangeAlly => ChangeAllyArm(fields);
    case TransferResources => TransferResourcesArm(fields);
    case MapTriggerChat => MapTriggerChatArm(fields);
    case TriggerSleepOrSyncFinished => TriggerSleepOrSyncFinishedArm(fields);
    case TriggerSyncReady => TriggerSyncReadyArm(fields);
    case TriggerMouseClickedTrackable => TriggerMouseClickedTrackableArm(fields);
    case TriggerMouseTouchedTrackable => TriggerMouseTouchedTrackableArm(fields);
  }

  /** The arms for minimap signals, dialogs, arrows and sync values. */
  lemma SyncArmsWireSize(k: ActionKind, fields: seq<Field>)
    requires k.MiniMapSignal? || k.DialogButtonClicked? || k.DialogAnyButtonClicked? || k.TriggerArrow? || k.SyncStoredInteger? || k.SyncStoredFloat? || k.SyncStoredBoolean? || k.SyncStoredString? || k.SyncEmptyInteger? || k.SyncEmptyString? || k.SyncEmptyBoolean? || k.SyncEmptyUnit? || k.SyncEmptyFloat? || k.SyncStoredUnit?
    requires Fits(Layout(k), fields)
    ensures ArmCount(k, fields) == FieldsSize(Layout(k), fields)
  {
    match k
    case MiniMapSignal => MiniMapSignalArm(fields);
    case DialogButtonClicked => DialogButtonClickedArm(fields);
    case DialogAnyButtonClicked => DialogAnyButtonClickedArm(fields);
    case TriggerArrow => TriggerArrowArm(fields);
    case SyncStoredInteger => SyncStoredIntegerArm(fields);
    case SyncStoredFloat => SyncStoredFloatArm(fields);
    case SyncStoredBoolean => SyncStoredBooleanArm(fields);
    case SyncStoredString => SyncStoredStringArm(fields);
    case SyncEmptyInteger => SyncEmptyIntegerArm(fields);
    case SyncEmptyString => SyncEmptyStringArm(fields);
    case SyncEmptyBoolean => SyncEmptyBooleanArm(fields);
    case SyncEmptyUnit => SyncEmptyUnitArm(fields);
    case SyncEmptyFloat => SyncEmptyFloatArm(fields);
    case SyncStoredUnit => UnitArm(fields);
  }
}
