/**
 * Where the counted loops of `extract_actions` and `extract_commands` stop,
 * and how the `bytes_read` counter they keep relates to the bytes they take
 * off the stream.
 */
module ReplayLoops {
  import opened Wrappers
  import opened Bytes
  import opened ReplayTypes
  import opened ReplayStreams
  import opened ReplayDecode
  import opened ReplayAccounting

  // ---------------------------------------------------------------------
  // Actions
  // ---------------------------------------------------------------------

  /** An action takes its id byte and the wire size of its arm's fields. */
  lemma ActionConsumes(st: Stream)
    ensures ActionAt(st).result.Ok? ==>
              Consumes(st, ActionAt(st).rest,
                       1 + FieldsSize(Layout(ActionAt(st).result.value.kind), ActionAt(st).result.value.fields))
  {
    var id := UnsignedByte(st);
    UnsignedByteConsumes(st);
    if id.result.Ok? && ActionKindOf(id.result.value).Some? {
      var kind := ActionKindOf(id.result.value).value;
      var fields := FieldsAt(id.rest, Layout(kind));
      FieldsConsumes(id.rest, Layout(kind));
      if fields.result.Ok? {
        var n := FieldsSize(Layout(kind), fields.result.value);
        ConsumesThen(st, id.rest, fields.rest, 1, n, 1 + n);
      }
    }
  }

  /** With every arm counting what it reads, the counter grows by exactly the bytes taken. */
  lemma ActionWeightIsConsumed(st: Stream)
    ensures ActionAt(st).result.Ok? ==>
              Consumes(st, ActionAt(st).rest, ActionWeight(ActionAt(st).result.value))
  {
    ActionConsumes(st);
    var r := ActionAt(st);
    if r.result.Ok? {
      ArmCountIsWireSize(r.result.value.kind, r.result.value.fields);
    }
  }

  /**
   * The arm counts as written: SyncStoredBoolean takes four bytes more than
   * it counts and SyncStoredString the length of its value more; every other
   * arm counts what it takes.
   */
  lemma AsWrittenUndercount(st: Stream)
    ensures var r := ActionAt(st);
      r.result.Ok? && r.result.value.kind == SyncStoredBoolean ==>
        Consumes(st, r.rest, ActionWeightAsWritten(r.result.value) + 4)
    ensures var r := ActionAt(st);
      r.result.Ok? && r.result.value.kind == SyncStoredString ==>
        Consumes(st, r.rest, ActionWeightAsWritten(r.result.value) + TextLen(r.result.value.fields, 3))
    ensures var r := ActionAt(st);
      r.result.Ok? && r.result.value.kind !in {SyncStoredBoolean, SyncStoredString} ==>
        Consumes(st, r.rest, ActionWeightAsWritten(r.result.value))
  {
    ActionWeightIsConsumed(st);
    UndercountOf(st, ActionAt(st));
  }

  /** The as-written weight falls short of an exact weight by the two omissions. */
  lemma UndercountOf(st: Stream, r: Read<Action>)
    requires r.result.Ok? ==> Consumes(st, r.rest, ActionWeight(r.result.value))
    ensures r.result.Ok? && r.result.value.kind == SyncStoredBoolean ==>
              Consumes(st, r.rest, ActionWeightAsWritten(r.result.value) + 4)
    ensures r.result.Ok? && r.result.value.kind == SyncStoredString ==>
              Consumes(st, r.rest, ActionWeightAsWritten(r.result.value) + TextLen(r.result.value.fields, 3))
    ensures r.result.Ok? && r.result.value.kind !in {SyncStoredBoolean, SyncStoredString} ==>
              Consumes(st, r.rest, ActionWeightAsWritten(r.result.value))
  {
  }

  /** An id no arm matches fails with that id, after taking only the id byte. */
  lemma UnknownActionFails(st: Stream)
    ensures var id := UnsignedByte(st);
      id.result.Ok? && ActionKindOf(id.result.value).None? ==>
        ActionAt(st) == Read(Err(UnknownAction(id.result.value)), id.rest) &&
        Consumes(st, ActionAt(st).rest, 1)
  {
    UnsignedByteConsumes(st);
  }

  // ---------------------------------------------------------------------
  // Counted loops
  // ---------------------------------------------------------------------

  /** The sum of the weights of `xs`. */
  function Total<T>(xs: seq<T>, weight: T -> nat): (t: nat)
    ensures xs == [] ==> t == 0
  {
    if xs == [] then 0 else weight(xs[0]) + Total(xs[1..], weight)
  }

  /** Every successful step takes exactly as many bytes as its weight. */
  ghost predicate Exact<T>(step: Stream -> Read<T>, weight: T -> nat)
  {
    forall st :: step(st).result.Ok? ==> Consumes(st, step(st).rest, weight(step(st).result.value))
  }

  /** When the weights are exact, a counted loop takes the total weight of what it returns. */
  lemma {:induction false} CountedConsumes<T>(st: Stream, size: nat, bytesRead: nat,
                                              step: Stream -> Read<T>, weight: T -> nat)
    requires Advancing(step) && Exact(step, weight)
    ensures var r := Counted(st, size, bytesRead, step, weight);
      r.result.Ok? ==> Consumes(st, r.rest, Total(r.result.value, weight))
    decreases Size(st)
  {
    var r := Counted(st, size, bytesRead, step, weight);
    if bytesRead >= size {
      assert Readable(st)[0..] == Readable(st);
    } else if r.result.Ok? {
      var x := step(st);
      var more := Counted(x.rest, size, bytesRead + weight(x.result.value), step, weight);
      CountedConsumes(x.rest, size, bytesRead + weight(x.result.value), step, weight);
      assert r.result.value == [x.result.value] + more.result.value;
      assert r.result.value[1..] == more.result.value;
      ConsumesThen(st, x.rest, more.rest, weight(x.result.value),
                   Total(more.result.value, weight), Total(r.result.value, weight));
    }
  }

  /**
   * A counted loop that succeeds has reached `size`, and it was still below
   * `size` before its last element: the last element may cross it.
   */
  lemma {:induction false} CountedStops<T>(st: Stream, size: nat, bytesRead: nat,
                                           step: Stream -> Read<T>, weight: T -> nat)
    requires Advancing(step)
    ensures var r := Counted(st, size, bytesRead, step, weight);
      r.result.Ok? ==> bytesRead + Total(r.result.value, weight) >= size
    ensures var r := Counted(st, size, bytesRead, step, weight);
      r.result.Ok? && r.result.value != [] ==>
        bytesRead + Total(r.result.value[..|r.result.value| - 1], weight) < size
    decreases Size(st)
  {
    var r := Counted(st, size, bytesRead, step, weight);
    if bytesRead < size && r.result.Ok? {
      var x := step(st);
      var next := bytesRead + weight(x.result.value);
      var more := Counted(x.rest, size, next, step, weight);
      CountedStops(x.rest, size, next, step, weight);
      var v := r.result.value;
      assert v == [x.result.value] + more.result.value;
      assert v[1..] == more.result.value;
      if more.result.value != [] {
        var m := more.result.value;
        assert v[..|v| - 1] == [x.result.value] + m[..|m| - 1];
        assert v[..|v| - 1][1..] == m[..|m| - 1];
      } else {
        assert v[..|v| - 1] == [];
      }
    }
  }

  /**
   * With the corrected counts, `extract_actions(size)` takes exactly the bytes
   * its counter adds up, which reach `size`; only the last action may go past it.
   */
  lemma ActionsConsume(st: Stream, size: nat)
    ensures var r := Actions(st, size);
      r.result.Ok? ==> Consumes(st, r.rest, Total(r.result.value, ActionWeight)) &&
                       Total(r.result.value, ActionWeight) >= size
    ensures var r := Actions(st, size);
      r.result.Ok? && r.result.value != [] ==>
        Total(r.result.value[..|r.result.value| - 1], ActionWeight) < size
  {
    forall s ensures ActionAt(s).result.Ok? ==> Consumes(s, ActionAt(s).rest, ActionWeight(ActionAt(s).result.value)) {
      ActionWeightIsConsumed(s);
    }
    CountedConsumes(st, size, 0, ActionAt, ActionWeight);
    CountedStops(st, size, 0, ActionAt, ActionWeight);
  }

  /** The part of `ActionsConsume` a command needs: the bytes taken, which reach `size`. */
  lemma ActionsCover(st: Stream, size: nat)
    ensures var r := Actions(st, size);
      r.result.Ok? ==> Consumes(st, r.rest, Total(r.result.value, ActionWeight)) &&
                       Total(r.result.value, ActionWeight) >= size
  {
    ActionsConsume(st, size);
  }

  /**
   * A command takes its three header bytes and its actions, which cover at
   * least the `num_bytes` its counter adds.
   */
  lemma CommandConsumes(st: Stream)
    ensures var r := CommandAt(st);
      r.result.Ok? ==> Consumes(st, r.rest, 3 + Total(r.result.value.actions, ActionWeight)) &&
                       Total(r.result.value.actions, ActionWeight) >= r.result.value.numBytes
  {
    CommandAtParts(st);
    if CommandAt(st).result.Ok? {
      var numBytes := UnsignedWord(UnsignedByte(st).rest);
      var actions := Actions(numBytes.rest, numBytes.result.value);
      CommandHeaderConsumes(st);
      ActionsCover(numBytes.rest, numBytes.result.value);
      var t := Total(actions.result.value, ActionWeight);
      ConsumesThen(st, numBytes.rest, actions.rest, 3, t, 3 + t);
    }
  }

  /** A command that reads is made of its header and the actions that follow it. */
  lemma CommandAtParts(st: Stream)
    ensures CommandAt(st).result.Ok? ==>
              UnsignedByte(st).result.Ok? && UnsignedWord(UnsignedByte(st).rest).result.Ok? &&
              var numBytes := UnsignedWord(UnsignedByte(st).rest);
              var actions := Actions(numBytes.rest, numBytes.result.value);
              actions.result.Ok? &&
              CommandAt(st) == Read(Ok(Command(UnsignedByte(st).result.value, numBytes.result.value,
                                               actions.result.value)), actions.rest)
  {
  }

  /** The player byte and the `num_bytes` word of a command take three bytes. */
  lemma CommandHeaderConsumes(st: Stream)
    ensures var player := UnsignedByte(st);
      player.result.Ok? && UnsignedWord(player.rest).result.Ok? ==>
        Consumes(st, UnsignedWord(player.rest).rest, 3)
  {
    var player := UnsignedByte(st);
    UnsignedByteConsumes(st);
    if player.result.Ok? {
      UintConsumes(player.rest, 2);
      if UnsignedWord(player.rest).result.Ok? {
        ConsumesThen(st, player.rest, UnsignedWord(player.rest).rest, 1, 2, 3);
      }
    }
  }
}
