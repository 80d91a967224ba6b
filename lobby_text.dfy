/**
 * The game list the lobby service reads: one game per line, six fields
 * separated by '|' (game id, bot id, players, capacity, lobby flag, game
 * name), and the lookup of the game a given bot hosts.
 */
module LobbyText {
  import opened Wrappers
  import opened Bytes

  const Bar: Byte := '|' as int
  const Newline: Byte := '\n' as int
  const Return: Byte := '\r' as int

  /** The position of the first `b` in `s`. */
  function IndexOf(s: Text, b: Byte): (i: nat)
    requires b in s
    ensures i < |s| && s[i] == b && b !in s[..i]
  {
    if s[0] == b then 0
    else
      var i := IndexOf(s[1..], b) + 1;
      assert s[..i] == [s[0]] + s[1..][..i - 1];
      i
  }

  /** How often `b` occurs in `s`. */
  function Count(s: Text, b: Byte): nat
  {
    if s == [] then 0 else (if s[0] == b then 1 else 0) + Count(s[1..], b)
  }

  /**
   * `str::splitn(n, sep)`: at most `n` pieces; the last one is the rest of
   * the text, separators included.
   */
  function SplitN(s: Text, n: nat, sep: Byte): (r: seq<Text>)
    ensures n == 0 <==> r == []
    ensures |r| <= n
  {
    if n == 0 then []
    else if n == 1 || sep !in s then [s]
    else
      var i := IndexOf(s, sep);
      [s[..i]] + SplitN(s[i + 1..], n - 1, sep)
  }

  /** The pieces put back together with `sep` between neighbours. */
  function Join(parts: seq<Text>, sep: Byte): Text
    requires parts != []
  {
    if |parts| == 1 then parts[0] else parts[0] + [sep] + Join(parts[1..], sep)
  }

  /** `s` split around the first `sep`, for any `s` containing one. */
  lemma SplitAtFirst(s: Text, sep: Byte)
    requires sep in s
    ensures s == s[..IndexOf(s, sep)] + [sep] + s[IndexOf(s, sep) + 1..]
  {
    var i := IndexOf(s, sep);
    assert s == s[..i] + [sep] + s[i + 1..];
  }

  /** `splitn` loses nothing: joining the pieces gives the text back. */
  lemma {:induction false} SplitNJoin(s: Text, n: nat, sep: Byte)
    requires n >= 1
    ensures Join(SplitN(s, n, sep), sep) == s
    decreases n
  {
    if n > 1 && sep in s {
      var i := IndexOf(s, sep);
      SplitAtFirst(s, sep);
      SplitNJoin(s[i + 1..], n - 1, sep);
      assert SplitN(s, n, sep)[1..] == SplitN(s[i + 1..], n - 1, sep);
    }
  }

  /**
   * Only the last piece may hold a separator, and only when all `n` pieces
   * were used.
   */
  lemma {:induction false} SplitNSeparators(s: Text, n: nat, sep: Byte)
    requires n >= 1
    ensures var r := SplitN(s, n, sep);
      (forall k :: 0 <= k < |r| - 1 ==> sep !in r[k]) && (|r| < n ==> sep !in r[|r| - 1])
    decreases n
  {
    if n > 1 && sep in s {
      var i := IndexOf(s, sep);
      SplitNSeparators(s[i + 1..], n - 1, sep);
      var r := SplitN(s, n, sep);
      assert forall k :: 1 <= k < |r| ==> r[k] == SplitN(s[i + 1..], n - 1, sep)[k - 1];
    }
  }

  /** There are as many pieces as separators plus one, but never more than `n`. */
  lemma {:induction false} SplitNLength(s: Text, n: nat, sep: Byte)
    requires n >= 1
    ensures |SplitN(s, n, sep)| == if Count(s, sep) + 1 < n then Count(s, sep) + 1 else n
    decreases n
  {
    if n > 1 && sep in s {
      var t := s[IndexOf(s, sep) + 1..];
      CountAfterFirst(s, sep);
      SplitNStep(s, n, sep);
      SplitNLength(t, n - 1, sep);
      assert |SplitN(s, n, sep)| == 1 + |SplitN(t, n - 1, sep)|;
    } else {
      assert SplitN(s, n, sep) == [s];
      if sep !in s {
        CountAbsent(s, sep);
      }
    }
  }


  /** The separators after the first one are one fewer. */
  lemma {:induction false} CountAfterFirst(s: Text, sep: Byte)
    requires sep in s
    ensures Count(s, sep) == Count(s[IndexOf(s, sep) + 1..], sep) + 1
    decreases |s|
  {
    if s[0] != sep {
      assert s == [s[0]] + s[1..];
      CountAfterFirst(s[1..], sep);
      assert s[1..][IndexOf(s[1..], sep) + 1..] == s[IndexOf(s, sep) + 1..];
    }
  }

  /** With room for more pieces, the first one ends at the first separator. */
  lemma SplitNStep(s: Text, n: nat, sep: Byte)
    requires n > 1 && sep in s
    ensures SplitN(s, n, sep) == [s[..IndexOf(s, sep)]] + SplitN(s[IndexOf(s, sep) + 1..], n - 1, sep)
  {
  }

  /** A byte that does not occur is counted zero times. */
  lemma {:induction false} CountAbsent(s: Text, b: Byte)
    requires b !in s
    ensures Count(s, b) == 0
    decreases |s|
  {
    if s != [] {
      assert s == [s[0]] + s[1..];
      CountAbsent(s[1..], b);
    }
  }

  /** Text that does not contain the separator comes first, then the rest of the split. */
  lemma SplitNFront(a: Text, rest: Text, n: nat, sep: Byte)
    requires n >= 2 && sep !in a
    ensures SplitN(a + [sep] + rest, n, sep) == [a] + SplitN(rest, n - 1, sep)
  {
    var s := a + [sep] + rest;
    assert s[|a|] == sep;
    var i := IndexOf(s, sep);
    assert s[..|a|] == a;
    assert s[..i] == a && s[i + 1..] == rest;
  }

  /** Splitting joined pieces, none but the last holding the separator, gives the pieces back. */
  lemma {:induction false} SplitNOfJoin(parts: seq<Text>, sep: Byte)
    requires parts != [] && forall k :: 0 <= k < |parts| - 1 ==> sep !in parts[k]
    ensures SplitN(Join(parts, sep), |parts|, sep) == parts
    decreases |parts|
  {
    if |parts| > 1 {
      SplitNOfJoin(parts[1..], sep);
      SplitNFront(parts[0], Join(parts[1..], sep), |parts|, sep);
      assert [parts[0]] + parts[1..] == parts;
    }
  }

  // ---------------------------------------------------------------------
  // Lines
  // ---------------------------------------------------------------------

  /** `str::split(sep)`: every piece, the empty ones included. */
  function Split(s: Text, sep: Byte): (r: seq<Text>)
    ensures |r| >= 1 && forall k :: 0 <= k < |r| ==> sep !in r[k]
  {
    if sep !in s then [s]
    else
      var i := IndexOf(s, sep);
      [s[..i]] + Split(s[i + 1..], sep)
  }

  /** A line ending in "\r\n" loses the '\r' as well. */
  function StripReturn(line: Text): (r: Text)
    ensures r == line || (line == r + [Return])
  {
    if |line| > 0 && line[|line| - 1] == Return then line[..|line| - 1] else line
  }

  /**
   * `str::lines`: the pieces between '\n's, without a trailing empty
   * piece, each with a final '\r' removed.
   */
  function Lines(s: Text): (r: seq<Text>)
    ensures forall k :: 0 <= k < |r| ==> Newline !in r[k]
    ensures s == [] ==> r == []
  {
    var pieces := Split(s, Newline);
    var kept := if pieces[|pieces| - 1] == [] then pieces[..|pieces| - 1] else pieces;
    StripReturns(kept)
  }

  /** Each line with its final '\r' removed. */
  function StripReturns(lines: seq<Text>): (r: seq<Text>)
    ensures |r| == |lines| && forall k :: 0 <= k < |r| ==> r[k] == StripReturn(lines[k])
  {
    seq(|lines|, k requires 0 <= k < |lines| => StripReturn(lines[k]))
  }

  /** Text without the separator comes first, then the rest of the split. */
  lemma SplitFront(a: Text, rest: Text, sep: Byte)
    requires sep !in a
    ensures Split(a + [sep] + rest, sep) == [a] + Split(rest, sep)
  {
    var s := a + [sep] + rest;
    assert s[|a|] == sep;
    var i := IndexOf(s, sep);
    assert s[..|a|] == a;
    assert s[..i] == a && s[i + 1..] == rest;
  }

  /** Splitting joined pieces, none holding the separator, gives the pieces back. */
  lemma {:induction false} SplitOfJoin(parts: seq<Text>, sep: Byte)
    requires parts != [] && forall k :: 0 <= k < |parts| ==> sep !in parts[k]
    ensures Split(Join(parts, sep), sep) == parts
    decreases |parts|
  {
    if |parts| > 1 {
      SplitOfJoin(parts[1..], sep);
      SplitFront(parts[0], Join(parts[1..], sep), sep);
      assert [parts[0]] + parts[1..] == parts;
    }
  }

  /** A line as `str::lines` yields it: no '\n' in it, and no '\r' at its end. */
  predicate PlainLine(line: Text)
  {
    Newline !in line && (line == [] || line[|line| - 1] != Return)
  }

  /** Plain lines lose nothing to `StripReturns`. */
  lemma StripPlain(ls: seq<Text>)
    requires forall k :: 0 <= k < |ls| ==> PlainLine(ls[k])
    ensures StripReturns(ls) == ls
  {
    var r := StripReturns(ls);
    forall k | 0 <= k < |ls| ensures r[k] == ls[k] {
      assert PlainLine(ls[k]);
    }
  }

  /** Lines written out with a '\n' after each are read back as they were. */
  lemma LinesOfJoin(ls: seq<Text>)
    requires forall k :: 0 <= k < |ls| ==> PlainLine(ls[k])
    ensures Lines(Join(ls + [[]], Newline)) == ls
  {
    var ps := ls + [[]];
    forall k | 0 <= k < |ps| ensures Newline !in ps[k] {
      if k < |ls| { assert PlainLine(ls[k]); }
    }
    SplitOfJoin(ps, Newline);
    LinesOfPieces(Join(ps, Newline), ps);
    assert ps[..|ps| - 1] == ls;
    StripPlain(ls);
  }

  /** Without the final '\n', too, unless the last line is empty. */
  lemma LinesOfJoinUnterminated(ls: seq<Text>)
    requires forall k :: 0 <= k < |ls| ==> PlainLine(ls[k])
    requires ls != [] && ls[|ls| - 1] != []
    ensures Lines(Join(ls, Newline)) == ls
  {
    forall k | 0 <= k < |ls| ensures Newline !in ls[k] {
      assert PlainLine(ls[k]);
    }
    SplitOfJoin(ls, Newline);
    LinesOfPieces(Join(ls, Newline), ls);
    StripPlain(ls);
  }

  /** `Lines` of a text whose pieces are known. */
  lemma LinesOfPieces(s: Text, pieces: seq<Text>)
    requires Split(s, Newline) == pieces
    ensures pieces[|pieces| - 1] == [] ==> Lines(s) == StripReturns(pieces[..|pieces| - 1])
    ensures pieces[|pieces| - 1] != [] ==> Lines(s) == StripReturns(pieces)
  {
  }

  // ---------------------------------------------------------------------
  // One game
  // ---------------------------------------------------------------------

  /** A game of the list. The id fields and the name are kept as text. */
  datatype GameLobby = GameLobby(
    gameId: Text,
    botId: Text,
    numPlayers: Byte,
    totalPlayers: Byte,
    isLobby: bool,
    gameName: Text)

  datatype LobbyField = GameIdField | BotIdField | NumPlayersField | TotalPlayersField | IsLobbyField | GameNameField

  datatype LobbyError =
    | Missing(field: LobbyField)     // `splits.next()` found no piece
    | BadNumber(field: LobbyField)   // the piece is not a u8
    | BotNotFound

  /**
   * `GameLobby::from_str`: six '|'-separated fields, checked in order; the
   * three counts must parse as `u8`, and the lobby flag is set by 1 only.
   */
  function FromStr(raw: Text): (r: Result<GameLobby, LobbyError>)
    ensures r.Ok? ==> |SplitN(raw, 6, Bar)| == 6
  {
    var parts := SplitN(raw, 6, Bar);
    if |parts| < 2 then Err(Missing(BotIdField))
    else if |parts| < 3 then Err(Missing(NumPlayersField))
    else if ParseU8(parts[2]).None? then Err(BadNumber(NumPlayersField))
    else if |parts| < 4 then Err(Missing(TotalPlayersField))
    else if ParseU8(parts[3]).None? then Err(BadNumber(TotalPlayersField))
    else if |parts| < 5 then Err(Missing(IsLobbyField))
    else if ParseU8(parts[4]).None? then Err(BadNumber(IsLobbyField))
    else if |parts| < 6 then Err(Missing(GameNameField))
    else Ok(GameLobby(parts[0], parts[1], ParseU8(parts[2]).value, ParseU8(parts[3]).value,
                      ParseU8(parts[4]).value == 1, parts[5]))
  }

  /** A line with fewer than five separators is never a game. */
  lemma ShortLineFails(raw: Text)
    requires Count(raw, Bar) < 5
    ensures FromStr(raw).Err?
  {
    SplitNLength(raw, 6, Bar);
  }

  /** The six fields of a game as the list spells them, the lobby flag as 1 or 0. */
  function Fields(l: GameLobby): (r: seq<Text>)
    ensures |r| == 6
  {
    [l.gameId, l.botId, DecimalText(l.numPlayers), DecimalText(l.totalPlayers),
     DecimalText(if l.isLobby then 1 else 0), l.gameName]
  }

  /** A game written out as a line of the list. */
  function Render(l: GameLobby): Text
  {
    Join(Fields(l), Bar)
  }

  /**
   * Reading a rendered game gives it back, whatever its name holds ('|'
   * included), as long as the two ids hold no '|'.
   */
  lemma FromStrRender(l: GameLobby)
    requires Bar !in l.gameId && Bar !in l.botId
    ensures FromStr(Render(l)) == Ok(l)
  {
    SplitNOfJoin(Fields(l), Bar);
    ParseU8OfDecimal(l.numPlayers);
    ParseU8OfDecimal(l.totalPlayers);
    ParseU8OfDecimal(if l.isLobby then 1 else 0);
  }

  // ---------------------------------------------------------------------
  // The game a bot hosts
  // ---------------------------------------------------------------------

  /** The line is a game hosted by `botId`. */
  predicate Hosts(botId: Text, line: Text)
  {
    FromStr(line).Ok? && FromStr(line).value.botId == botId
  }

  /**
   * `get_lobby_for_bot` on the lines of the list: the first line that is a
   * game of `botId`; lines that are no game are passed over.
   */
  function LobbyForBot(botId: Text, lines: seq<Text>): (r: Result<GameLobby, LobbyError>)
    ensures r.Ok? ==> r.value.botId == botId &&
                      exists i :: 0 <= i < |lines| && FromStr(lines[i]) == r &&
                                  forall j :: 0 <= j < i ==> !Hosts(botId, lines[j])
    ensures r.Err? <==> forall i :: 0 <= i < |lines| ==> !Hosts(botId, lines[i])
    ensures r.Err? ==> r.error == BotNotFound
  {
    if lines == [] then Err(BotNotFound)
    else if Hosts(botId, lines[0]) then FromStr(lines[0])
    else
      var r := LobbyForBot(botId, lines[1..]);
      assert forall i :: 1 <= i < |lines| ==> lines[i] == lines[1..][i - 1];
      if r.Ok? then
        var i :| 0 <= i < |lines[1..]| && FromStr(lines[1..][i]) == r &&
                 forall j :: 0 <= j < i ==> !Hosts(botId, lines[1..][j]);
        assert FromStr(lines[i + 1]) == r;
        r
      else r
  }

  /** The loop of `get_lobby_for_bot`, returning at the first game of `botId`. */
  method GetLobbyForBot(botId: Text, raw: Text) returns (r: Result<GameLobby, LobbyError>)
    ensures r == LobbyForBot(botId, Lines(raw))
  {
    var lines := Lines(raw);
    var i := 0;
    while i < |lines|
      invariant 0 <= i <= |lines|
      invariant LobbyForBot(botId, lines) == LobbyForBot(botId, lines[i..])
    {
      var lobby := FromStr(lines[i]);
      if lobby.Ok? && lobby.value.botId == botId {
        return lobby;
      }
      assert lines[i..][1..] == lines[i + 1..];
      i := i + 1;
    }
    return Err(BotNotFound);
  }
}
