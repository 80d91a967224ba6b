/**
 * Two arms of `extract_actions` add fewer bytes to `bytes_read` than they
 * read, so on concrete streams the loop as written runs past the end of the
 * actions it was given and decodes the bytes after them as more actions of
 * the same command. The corrected counts stop where the actions end.
 */
module ReplayFindings {
  import opened Wrappers
  import opened Bytes
  import opened ReplayTypes
  import opened ReplayStreams
  import opened ReplayDecode

  // ---------------------------------------------------------------------
  // Single reads on a stream whose buffer holds them
  // ---------------------------------------------------------------------

  lemma IdAt(id: Byte, tail: seq<Byte>)
    ensures UnsignedByte(Stream([id] + tail, [])) == Read(Ok(id), Stream(tail, []))
  {
    var st := Stream([id] + tail, []);
    TakeFromBuffer(st, 1);
    assert st.buffer[1..] == tail;
  }

  /** A one-letter string and its 0. */
  lemma LetterAt(c: Byte, tail: seq<Byte>)
    requires 0 < c < 0x80
    ensures FieldAt(Stream([c, 0] + tail, []), NulString) == Read(Ok(Str([c])), Stream(tail, []))
  {
    var st := Stream([c, 0] + tail, []);
    assert st.buffer[0] == c && st.buffer[1] == 0;
    assert FirstNul(st.buffer) == 1;
    UntilNulFromBuffer(st, []);
    assert st.buffer[..1] == [c] && st.buffer[2..] == tail;
    AsciiIsUtf8([c]);
  }

  /** The dword 1, little endian. */
  lemma DwordOneAt(tail: seq<Byte>)
    ensures FieldAt(Stream([1, 0, 0, 0] + tail, []), U32) == Read(Ok(Num(1)), Stream(tail, []))
  {
    var st := Stream([1, 0, 0, 0] + tail, []);
    TakeFromBuffer(st, 4);
    assert st.buffer[..4] == [1, 0, 0, 0] && st.buffer[4..] == tail;
    LeUintOne();
  }

  lemma LeUintOne()
    ensures LeUint([1, 0, 0, 0]) == 1
  {
  }

  /** A one-letter string in front of the fields after it. */
  lemma LetterThen(c: Byte, tail: seq<Byte>, more: seq<FieldKind>, v: seq<Field>, after: Stream)
    requires 0 < c < 0x80
    requires FieldsAt(Stream(tail, []), more) == Read(Ok(v), after)
    ensures FieldsAt(Stream([c, 0] + tail, []), [NulString] + more) == Read(Ok([Str([c])] + v), after)
  {
    LetterAt(c, tail);
    assert ([NulString] + more)[0] == NulString && ([NulString] + more)[1..] == more;
  }

  /** A layout of one field. */
  lemma LastFieldAt(st: Stream, last: FieldKind, f: Field, after: Stream)
    requires FieldAt(st, last) == Read(Ok(f), after)
    ensures FieldsAt(st, [last]) == Read(Ok([f] + []), after)
  {
    assert FieldsAt(after, []) == Read(Ok([]), after);
    assert [last][0] == last && [last][1..] == [];
  }

  /** The key "a", "b", "c" and one more field after it. */
  lemma KeyThenAt(tail: seq<Byte>, last: FieldKind, f: Field, after: Stream)
    requires FieldAt(Stream(tail, []), last) == Read(Ok(f), after)
    ensures FieldsAt(Stream([97, 0, 98, 0, 99, 0] + tail, []), [NulString, NulString, NulString, last]) ==
              Read(Ok([Str([97]), Str([98]), Str([99]), f]), after)
  {
    LastFieldAt(Stream(tail, []), last, f, after);
    var l1, v1 := [NulString] + [last], [Str([99])] + ([f] + []);
    LetterThen(99, tail, [last], [f] + [], after);
    var l2, v2 := [NulString] + l1, [Str([98])] + v1;
    LetterThen(98, [99, 0] + tail, l1, v1, after);
    LetterThen(97, [98, 0] + ([99, 0] + tail), l2, v2, after);
    KeyDisplays(tail, last, f);
  }

  lemma KeyDisplays(tail: seq<Byte>, last: FieldKind, f: Field)
    ensures [97, 0] + ([98, 0] + ([99, 0] + tail)) == [97, 0, 98, 0, 99, 0] + tail
    ensures [NulString] + ([NulString] + ([NulString] + [last])) == [NulString, NulString, NulString, last]
    ensures [Str([97])] + ([Str([98])] + ([Str([99])] + ([f] + []))) == [Str([97]), Str([98]), Str([99]), f]
  {
  }

  /** A sync action: its id, then the key and one more field. */
  lemma SyncActionAt(id: Byte, kind: ActionKind, last: FieldKind, tail: seq<Byte>, f: Field, after: Stream)
    requires ActionKindOf(id) == Some(kind) && Layout(kind) == [NulString, NulString, NulString, last]
    requires FieldAt(Stream(tail, []), last) == Read(Ok(f), after)
    ensures ActionAt(Stream([id] + ([97, 0, 98, 0, 99, 0] + tail), [])) ==
              Read(Ok(Action(kind, [Str([97]), Str([98]), Str([99]), f])), after)
  {
    var t0 := [97, 0, 98, 0, 99, 0] + tail;
    IdAt(id, t0);
    KeyThenAt(tail, last, f, after);
    ActionOfReads(Stream([id] + t0, []), id, kind, Stream(t0, []), [Str([97]), Str([98]), Str([99]), f], after);
  }

  /** An action read from a known id and known fields. */
  lemma ActionOfReads(st: Stream, id: Byte, kind: ActionKind, mid: Stream, fields: seq<Field>, after: Stream)
    requires UnsignedByte(st) == Read(Ok(id), mid) && ActionKindOf(id) == Some(kind)
    requires FieldsAt(mid, Layout(kind)) == Read(Ok(fields), after)
    ensures ActionAt(st) == Read(Ok(Action(kind, fields)), after)
  {
  }

  /** One round of a counted loop on known reads. */
  lemma CountedThen<T>(st: Stream, size: nat, bytesRead: nat, step: Stream -> Read<T>, weight: T -> nat,
                       x: T, mid: Stream, v: seq<T>, after: Stream)
    requires Advancing(step) && bytesRead < size && step(st) == Read(Ok(x), mid)
    requires Counted(mid, size, bytesRead + weight(x), step, weight) == Read(Ok(v), after)
    ensures Counted(st, size, bytesRead, step, weight) == Read(Ok([x] + v), after)
  {
  }

  /** The id 0x01 alone is a whole PauseGame action. */
  function Pause(): Action
  {
    Action(PauseGame, [])
  }

  lemma PauseWeights()
    ensures ActionWeightAsWritten(Pause()) == 1 && ActionWeight(Pause()) == 1
  {
  }

  lemma PauseAt(tail: seq<Byte>)
    ensures ActionAt(Stream([1] + tail, [])) == Read(Ok(Pause()), Stream(tail, []))
  {
    IdAt(1, tail);
  }

  /** `n` copies of the byte `b`. */
  function Ids(n: nat, b: Byte): (s: seq<Byte>)
    ensures |s| == n && forall i :: 0 <= i < n ==> s[i] == b
  {
    seq(n, _ => b)
  }

  /** `step` reads the id 0x01 in front of any text as one PauseGame action. */
  predicate ReadsPause(step: Stream -> Read<Action>, t: seq<Byte>)
  {
    step(Stream([1] + t, [])) == Read(Ok(Pause()), Stream(t, []))
  }

  /**
   * PauseGame ids (0x01) that come while the counter is still below `size`
   * are each read as one more action, one counted byte apiece.
   */
  lemma {:induction false} PausesCounted(n: nat, tail: seq<Byte>, size: nat, bytesRead: nat,
                                         step: Stream -> Read<Action>, weight: Action -> nat)
    requires Advancing(step) && forall t :: ReadsPause(step, t)
    requires weight(Pause()) == 1 && bytesRead + n == size
    ensures Counted(Stream(Ids(n, 1) + tail, []), size, bytesRead, step, weight) ==
              Read(Ok(seq(n, _ => Pause())), Stream(tail, []))
    decreases n
  {
    if n == 0 {
      assert Ids(0, 1) + tail == tail;
      assert seq(0, _ => Pause()) == [];
    } else {
      PausesCounted(n - 1, tail, size, bytesRead + 1, step, weight);
      PauseThen(n, tail, size, bytesRead, step, weight);
    }
  }

  /** One more pause id in front of `n - 1` counted pauses is counted too. */
  lemma PauseThen(n: nat, tail: seq<Byte>, size: nat, bytesRead: nat,
                  step: Stream -> Read<Action>, weight: Action -> nat)
    requires n > 0 && Advancing(step) && ReadsPause(step, Ids(n - 1, 1) + tail)
    requires weight(Pause()) == 1 && bytesRead < size
    requires Counted(Stream(Ids(n - 1, 1) + tail, []), size, bytesRead + 1, step, weight) ==
               Read(Ok(seq(n - 1, _ => Pause())), Stream(tail, []))
    ensures Counted(Stream(Ids(n, 1) + tail, []), size, bytesRead, step, weight) ==
              Read(Ok(seq(n, _ => Pause())), Stream(tail, []))
  {
    var rest := Ids(n - 1, 1) + tail;
    assert Ids(n, 1) + tail == [1] + rest;
    CountedThen(Stream([1] + rest, []), size, bytesRead, step, weight, Pause(), Stream(rest, []),
                seq(n - 1, _ => Pause()), Stream(tail, []));
    assert [Pause()] + seq(n - 1, _ => Pause()) == seq(n, _ => Pause());
  }

  /** ActionAt reads every PauseGame id as one action. */
  lemma ActionAtReadsPauses()
    ensures forall t :: ReadsPause(ActionAt, t)
  {
    forall t {
      PauseAt(t);
    }
  }

  // ---------------------------------------------------------------------
  // SyncStoredBoolean (0x6D)
  // ---------------------------------------------------------------------

  /** Key "a", "b", "c" and the dword 1: a SyncStoredBoolean action of 11 bytes. */
  function BooleanSync(): (b: seq<Byte>)
    ensures |b| == 11
  {
    [0x6D, 97, 0, 98, 0, 99, 0, 1, 0, 0, 0]
  }

  function BooleanAction(): Action
  {
    Action(SyncStoredBoolean, [Str([97]), Str([98]), Str([99]), Num(1)])
  }

  lemma BooleanArm()
    ensures ActionKindOf(0x6D) == Some(SyncStoredBoolean)
    ensures Layout(SyncStoredBoolean) == [NulString, NulString, NulString, U32]
  {
  }

  lemma BooleanActionAt(tail: seq<Byte>)
    ensures ActionAt(Stream(BooleanSync() + tail, [])) == Read(Ok(BooleanAction()), Stream(tail, []))
  {
    BooleanArm();
    assert BooleanSync() + tail == [0x6D] + ([97, 0, 98, 0, 99, 0] + ([1, 0, 0, 0] + tail));
    DwordOneAt(tail);
    SyncActionAt(0x6D, SyncStoredBoolean, U32, [1, 0, 0, 0] + tail, Num(1), Stream(tail, []));
  }

  lemma BooleanWeights()
    ensures ActionWeightAsWritten(BooleanAction()) == 7 && ActionWeight(BooleanAction()) == 11
  {
  }

  /**
   * As written, the SyncStoredBoolean arm adds 7 to the counter for its
   * 11 bytes, so `extract_actions(11)` goes on and takes the four PauseGame
   * ids that follow as part of the same command.
   */
  lemma StoredBooleanOverrun(tail: seq<Byte>)
    ensures ActionsAsWritten(Stream(BooleanSync() + Ids(4, 1) + tail, []), 11) ==
              Read(Ok([BooleanAction()] + seq(4, _ => Pause())), Stream(tail, []))
  {
    BooleanWeights();
    PauseWeights();
    ActionAtReadsPauses();
    PausesCounted(4, tail, 11, 7, ActionAt, ActionWeightAsWritten);
    var s0 := Ids(4, 1) + tail;
    BooleanActionAt(s0);
    CountedThen(Stream(BooleanSync() + s0, []), 11, 0, ActionAt, ActionWeightAsWritten, BooleanAction(),
                Stream(s0, []), seq(4, _ => Pause()), Stream(tail, []));
    assert BooleanSync() + Ids(4, 1) + tail == BooleanSync() + s0;
  }

  /** Counting the dword, `extract_actions(11)` stops after the one action. */
  lemma StoredBooleanCounted(tail: seq<Byte>)
    ensures Actions(Stream(BooleanSync() + tail, []), 11) == Read(Ok([BooleanAction()]), Stream(tail, []))
  {
    var step, weight := ActionAt, ActionWeight;
    BooleanWeights();
    assert Counted(Stream(tail, []), 11, 11, step, weight) == Read(Ok([]), Stream(tail, []));
    BooleanActionAt(tail);
    CountedThen(Stream(BooleanSync() + tail, []), 11, 0, step, weight, BooleanAction(), Stream(tail, []),
                [], Stream(tail, []));
    assert [BooleanAction()] + [] == [BooleanAction()];
  }

  // ---------------------------------------------------------------------
  // SyncStoredString (0x6F)
  // ---------------------------------------------------------------------

  /** Key "a", "b", "c" and the value "d": a SyncStoredString action of 9 bytes. */
  function StringSync(): (b: seq<Byte>)
    ensures |b| == 9
  {
    [0x6F, 97, 0, 98, 0, 99, 0, 100, 0]
  }

  function StringAction(): Action
  {
    Action(SyncStoredString, [Str([97]), Str([98]), Str([99]), Str([100])])
  }

  lemma StringArm()
    ensures ActionKindOf(0x6F) == Some(SyncStoredString)
    ensures Layout(SyncStoredString) == [NulString, NulString, NulString, NulString]
  {
  }

  lemma StringActionAt(tail: seq<Byte>)
    ensures ActionAt(Stream(StringSync() + tail, [])) == Read(Ok(StringAction()), Stream(tail, []))
  {
    StringArm();
    assert StringSync() + tail == [0x6F] + ([97, 0, 98, 0, 99, 0] + ([100, 0] + tail));
    LetterAt(100, tail);
    SyncActionAt(0x6F, SyncStoredString, NulString, [100, 0] + tail, Str([100]), Stream(tail, []));
  }

  /**
   * As written, the SyncStoredString arm adds 8 to the counter for its
   * 9 bytes, so `extract_actions(9)` takes the PauseGame id that follows.
   */
  lemma StoredStringOverrun(tail: seq<Byte>)
    ensures ActionsAsWritten(Stream(StringSync() + Ids(1, 1) + tail, []), 9) ==
              Read(Ok([StringAction(), Pause()]), Stream(tail, []))
  {
    StringWeights();
    PauseWeights();
    ActionAtReadsPauses();
    PausesCounted(1, tail, 9, 8, ActionAt, ActionWeightAsWritten);
    var s0 := Ids(1, 1) + tail;
    StringActionAt(s0);
    CountedThen(Stream(StringSync() + s0, []), 9, 0, ActionAt, ActionWeightAsWritten, StringAction(),
                Stream(s0, []), seq(1, _ => Pause()), Stream(tail, []));
    assert StringSync() + Ids(1, 1) + tail == StringSync() + s0;
    assert [StringAction()] + seq(1, _ => Pause()) == [StringAction(), Pause()];
  }

  lemma StringWeights()
    ensures ActionWeightAsWritten(StringAction()) == 8 && ActionWeight(StringAction()) == 9
  {
  }

  /** Counting the value, `extract_actions(9)` stops after the one action. */
  lemma StoredStringCounted(tail: seq<Byte>)
    ensures Actions(Stream(StringSync() + tail, []), 9) == Read(Ok([StringAction()]), Stream(tail, []))
  {
    var step, weight := ActionAt, ActionWeight;
    StringWeights();
    assert Counted(Stream(tail, []), 9, 9, step, weight) == Read(Ok([]), Stream(tail, []));
    StringActionAt(tail);
    CountedThen(Stream(StringSync() + tail, []), 9, 0, step, weight, StringAction(), Stream(tail, []),
                [], Stream(tail, []));
    assert [StringAction()] + [] == [StringAction()];
  }
}
