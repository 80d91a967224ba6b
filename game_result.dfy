/**
 * How the rating service decides who played which side of an Island
 * Defense game and which side won, from the `SyncStoredInteger` records
 * the map script writes into a replay (`ID.D` file, groups `class`, `flag`
 * and `game_start`), and the rule that turns an hour-long Titan win into a
 * tie.
 */
module GameResult {
  import opened Wrappers
  import opened Bytes
  import opened ReplayTypes
  import opened Collections
  import PubSubModel

  type Player = PubSubModel.Player

  /** The winning side as this service uses it: a game can also end level. */
  datatype Team = Builder | Titan | Tie

  datatype GameError =
    | PlayerIdZero                          // `player_id - 1` on a u8 holding 0 panics
    | EmptyTeam(builders: nat, titans: nat)  // a side nobody was enrolled on

  /** Who played each side, and the side that won. */
  datatype Outcome = Outcome(builders: set<Player>, titans: set<Player>, winner: Team)

  // ---------------------------------------------------------------------
  // Slot indices and the slot map
  // ---------------------------------------------------------------------

  /** Some player id, the saver's or another's, is 0. */
  predicate HasZeroId(h: GameHeader)
  {
    h.replaySaver.playerId == 0 || exists i :: 0 <= i < |h.players| && h.players[i].playerId == 0
  }

  /** The ids of the other players, each minus one (0 stays 0; only used when no id is 0). */
  function Decremented(players: seq<PlayerRecord>): (r: seq<Byte>)
    ensures |r| == |players|
  {
    seq(|players|, i requires 0 <= i < |players| =>
      if players[i].playerId == 0 then 0 else players[i].playerId - 1)
  }

  /**
   * The replay's player ids are 1-based and the map script's indices
   * 0-based: the saver's id and every other player's id, each minus one.
   */
  function SlotIndices(h: GameHeader): (r: Option<seq<Byte>>)
    ensures r.Some? <==> !HasZeroId(h)
    ensures r.Some? ==> |r.value| == |h.players| + 1 && r.value[0] as int == h.replaySaver.playerId as int - 1
    ensures r.Some? ==> forall i :: 0 <= i < |h.players| ==> r.value[i + 1] as int == h.players[i].playerId as int - 1
  {
    if HasZeroId(h) then None else Some([h.replaySaver.playerId - 1] + Decremented(h.players))
  }

  predicate Sorted(s: seq<Byte>)
  {
    forall i, j :: 0 <= i < j < |s| ==> s[i] <= s[j]
  }

  /** `x` placed into `s` before the first element not below it. */
  function Insert(x: Byte, s: seq<Byte>): (r: seq<Byte>)
    ensures |r| == |s| + 1 && multiset(r) == multiset(s) + multiset{x}
  {
    if s == [] || x <= s[0] then
      [x] + s
    else
      assert s == [s[0]] + s[1..];
      [s[0]] + Insert(x, s[1..])
  }

  /** Inserting into a sorted sequence keeps it sorted. */
  lemma {:induction false} InsertSorted(x: Byte, s: seq<Byte>)
    requires Sorted(s)
    ensures Sorted(Insert(x, s))
  {
    if s == [] || x <= s[0] {
      HeadBelowSorted(x, s);
    } else {
      var tail := Insert(x, s[1..]);
      InsertSorted(x, s[1..]);
      forall k | 0 <= k < |tail|
        ensures s[0] <= tail[k]
      {
        assert tail[k] in multiset(tail);
        if tail[k] != x {
          HeadIsLeast(s, tail[k]);
        }
      }
      HeadBelowSorted(s[0], tail);
    }
  }

  /** The head of a sorted sequence is below everything in it. */
  lemma HeadIsLeast(s: seq<Byte>, v: Byte)
    requires Sorted(s) && s != [] && v in s
    ensures s[0] <= v
  {
  }

  /** A head below every element of a sorted sequence keeps it sorted. */
  lemma HeadBelowSorted(a: Byte, t: seq<Byte>)
    requires Sorted(t) && forall k :: 0 <= k < |t| ==> a <= t[k]
    ensures Sorted([a] + t)
  {
  }

  /** `Vec::sort` on the indices: ascending, with the same elements. */
  function SortIndices(s: seq<Byte>): (r: seq<Byte>)
    ensures Sorted(r) && multiset(r) == multiset(s)
  {
    if s == [] then []
    else
      assert s == s[..|s| - 1] + [s[|s| - 1]];
      var sorted := SortIndices(s[..|s| - 1]);
      InsertSorted(s[|s| - 1], sorted);
      Insert(s[|s| - 1], sorted)
  }

  // ---------------------------------------------------------------------
  // The stored-integer records
  // ---------------------------------------------------------------------

  /** What one action means to this service, in the order the match arms test it. */
  datatype Record =
    | Flag(index: Byte, value: int)      // ("ID.D", "flag", key parses as u8)
    | Class(index: Byte, value: int)     // ("ID.D", "class", key parses as u8)
    | GameStart                          // ("ID.D", "game_start", any key)
    | Other

  function RecordOf(a: Action): (r: Record)
    ensures r != Other ==> a.kind == SyncStoredInteger && |a.fields| == 4 && a.fields[0] == Str(Ascii("ID.D"))
  {
    if a.kind == SyncStoredInteger && |a.fields| == 4 && a.fields[0].Str? && a.fields[1].Str?
       && a.fields[2].Str? && a.fields[3].Signed? && a.fields[0].s == Ascii("ID.D") then
      var group := a.fields[1].s;
      var index := ParseU8(a.fields[2].s);
      var value := a.fields[3].i;
      if group == Ascii("flag") && index.Some? then Flag(index.value, value)
      else if group == Ascii("class") && index.Some? then Class(index.value, value)
      else if group == Ascii("game_start") then GameStart
      else Other
    else Other
  }

  /** What the script's state amounts to so far. */
  datatype Tally = Tally(started: bool, result: Team, builders: set<Player>, titans: set<Player>)

  /** Nobody enrolled, the game not started, and a tie until a flag says otherwise. */
  const Start: Tally := Tally(false, Tie, {}, {})

  /**
   * A `flag` record: 1 means the player's side won, 0 that it lost; the
   * builders are checked first, and a player on neither side or any other
   * value decides nothing.
   */
  function FlagVerdict(players: map<Byte, Player>, t: Tally, index: Byte, value: int): (r: Option<Team>)
    ensures r.Some? ==> r.value != Tie && index in players && value in {0, 1}
    ensures r == Some(Builder) <==>
              index in players && ((value == 1 && players[index] in t.builders) ||
                                   (value == 0 && players[index] !in t.builders && players[index] in t.titans))
    ensures r == Some(Titan) <==>
              index in players && ((value == 0 && players[index] in t.builders) ||
                                   (value == 1 && players[index] !in t.builders && players[index] in t.titans))
  {
    if index !in players then None
    else
      var p := players[index];
      if value == 1 then
        if p in t.builders then Some(Builder) else if p in t.titans then Some(Titan) else None
      else if value == 0 then
        if p in t.builders then Some(Titan) else if p in t.titans then Some(Builder) else None
      else None
  }

  /**
   * A `class` record: none (0), minion (1), defender (3) and observer (4)
   * play for the builders, titan (2) for the titans; other values and
   * unknown indices enrol nobody.
   */
  function Enrolment(players: map<Byte, Player>, index: Byte, value: int): (r: Option<(Player, Team)>)
    ensures r.Some? <==> index in players && 0 <= value <= 4
    ensures r.Some? ==> r.value.0 == players[index] && (r.value.1 == Titan <==> value == 2)
    ensures r.Some? ==> r.value.1 != Tie
  {
    if index !in players then None
    else if value in {0, 1, 3, 4} then Some((players[index], Builder))
    else if value == 2 then Some((players[index], Titan))
    else None
  }

  /** The side an action declares the winner in state `t`, if any. */
  function VerdictOf(players: map<Byte, Player>, t: Tally, a: Action): (r: Option<Team>)
    ensures r.Some? ==> r.value != Tie
  {
    match RecordOf(a)
    case Flag(index, value) => FlagVerdict(players, t, index, value)
    case _ => None
  }

  /** The enrolment an action carries (whether it takes effect depends on the game not having started). */
  function ClassOf(players: map<Byte, Player>, a: Action): (r: Option<(Player, Team)>)
    ensures r.Some? ==> r.value.1 != Tie && r.value.0 in players.Values
  {
    match RecordOf(a)
    case Class(index, value) => Enrolment(players, index, value)
    case _ => None
  }

  /** One action of `extract_players_from_commands`. */
  function Step(players: map<Byte, Player>, t: Tally, a: Action): (r: Tally)
  {
    match RecordOf(a)
    case Flag(_, _) =>
      (match VerdictOf(players, t, a)
       case Some(team) => t.(result := team)
       case None => t)
    case Class(_, _) =>
      if t.started then t
      else
        (match ClassOf(players, a)
         case Some((p, Builder)) => t.(builders := t.builders + {p})
         case Some((p, _)) => t.(titans := t.titans + {p})
         case None => t)
    case GameStart => t.(started := true)
    case Other => t
  }

  /** The actions in order, each applied to the state the earlier ones left. */
  function RunActions(players: map<Byte, Player>, t: Tally, actions: seq<Action>): (r: Tally)
    ensures actions == [] ==> r == t
  {
    if actions == [] then t
    else Step(players, RunActions(players, t, actions[..|actions| - 1]), actions[|actions| - 1])
  }

  /** The actions of the commands, command by command. */
  function CommandActions(commands: seq<Command>): (r: seq<Action>)
    ensures commands == [] ==> r == []
  {
    if commands == [] then []
    else CommandActions(commands[..|commands| - 1]) + commands[|commands| - 1].actions
  }

  /** The actions a block hands to the tally: those of tick blocks only. */
  function BlockActions(b: ReplayBlock): seq<Action>
  {
    match b
    case Tick(_, _, commands) => CommandActions(commands)
    case TickPreOverflow(_, _, commands) => CommandActions(commands)
    case _ => []
  }

  /** The actions of every tick block, block by block. */
  function TickActions(blocks: seq<ReplayBlock>): (r: seq<Action>)
    ensures blocks == [] ==> r == []
  {
    if blocks == [] then []
    else TickActions(blocks[..|blocks| - 1]) + BlockActions(blocks[|blocks| - 1])
  }

  /** Running two stretches of actions is running the second from where the first stopped. */
  lemma {:induction false} RunActionsAppend(players: map<Byte, Player>, t: Tally, a: seq<Action>, b: seq<Action>)
    ensures RunActions(players, t, a + b) == RunActions(players, RunActions(players, t, a), b)
    decreases |b|
  {
    if b == [] {
      assert a + b == a;
    } else {
      var front := b[..|b| - 1];
      assert (a + b)[..|a + b| - 1] == a + front;
      assert (a + b)[|a + b| - 1] == b[|b| - 1];
      RunActionsAppend(players, t, a, front);
    }
  }

  /** One more action is one more step. */
  lemma RunActionsSnoc(players: map<Byte, Player>, t: Tally, done: seq<Action>, a: Action)
    ensures RunActions(players, t, done + [a]) == Step(players, RunActions(players, t, done), a)
  {
    assert (done + [a])[..|done|] == done;
  }

  // ---------------------------------------------------------------------
  // The service's loops
  // ---------------------------------------------------------------------

  /** `extract_players_from_commands`: every action of every command, in order. */
  method ExtractPlayersFromCommands(commands: seq<Command>, players: map<Byte, Player>, t0: Tally)
    returns (t: Tally)
    ensures t == RunActions(players, t0, CommandActions(commands))
  {
    t := t0;
    var i := 0;
    while i < |commands|
      invariant 0 <= i <= |commands|
      invariant t == RunActions(players, t0, CommandActions(commands[..i]))
    {
      RunActionsAppend(players, t0, CommandActions(commands[..i]), commands[i].actions);
      CommandActionsSnoc(commands, i);
      t := ExtractPlayersFromActions(commands[i].actions, players, t);
      i := i + 1;
    }
    assert commands[..i] == commands;
  }

  /** The inner loop of `extract_players_from_commands`: the actions of one command, in order. */
  method ExtractPlayersFromActions(actions: seq<Action>, players: map<Byte, Player>, t0: Tally)
    returns (t: Tally)
    ensures t == RunActions(players, t0, actions)
  {
    t := t0;
    var j := 0;
    while j < |actions|
      invariant 0 <= j <= |actions|
      invariant t == RunActions(players, t0, actions[..j])
    {
      RunActionsSnoc(players, t0, actions[..j], actions[j]);
      assert actions[..j] + [actions[j]] == actions[..j + 1];
      t := Step(players, t, actions[j]);
      j := j + 1;
    }
    assert actions[..j] == actions;
  }

  /** The actions of one more command follow those of the commands before it. */
  lemma CommandActionsSnoc(commands: seq<Command>, i: nat)
    requires i < |commands|
    ensures CommandActions(commands[..i + 1]) == CommandActions(commands[..i]) + commands[i].actions
  {
    assert commands[..i + 1][..i] == commands[..i];
  }

  /** The actions of one more block follow those of the blocks before it. */
  lemma TickActionsSnoc(blocks: seq<ReplayBlock>, b: nat)
    requires b < |blocks|
    ensures TickActions(blocks[..b + 1]) == TickActions(blocks[..b]) + BlockActions(blocks[b])
  {
    assert blocks[..b + 1][..b] == blocks[..b];
  }

  /** What `get_game_result` returns for the listed players and the replay. */
  function GameResultOf(playerList: seq<Player>, replay: Replay): Result<Outcome, GameError>
  {
    match SlotIndices(replay.gameHeader)
    case None => Err(PlayerIdZero)
    case Some(indices) =>
      var players := ZipMap(SortIndices(indices), playerList);
      var t := RunActions(players, Start, TickActions(replay.replayBlocks));
      if t.builders == {} || t.titans == {} then Err(EmptyTeam(|t.builders|, |t.titans|))
      else Ok(Outcome(t.builders, t.titans, t.result))
  }

  /** The first loop of `get_game_result`: the saver's id and each player's id, minus one. */
  method CollectSlotIndices(header: GameHeader) returns (r: Option<seq<Byte>>)
    ensures r == SlotIndices(header)
  {
    if header.replaySaver.playerId == 0 {
      return None;
    }
    var indices: seq<Byte> := [header.replaySaver.playerId - 1];
    var k := 0;
    while k < |header.players|
      invariant 0 <= k <= |header.players|
      invariant forall i :: 0 <= i < k ==> header.players[i].playerId != 0
      invariant indices == [header.replaySaver.playerId - 1] + Decremented(header.players)[..k]
    {
      if header.players[k].playerId == 0 {
        return None;
      }
      indices := indices + [header.players[k].playerId - 1];
      k := k + 1;
    }
    assert Decremented(header.players)[..k] == Decremented(header.players);
    r := Some(indices);
  }

  /** The block loop of `get_game_result`: tick blocks are tallied, every other block skipped. */
  method TallyBlocks(blocks: seq<ReplayBlock>, players: map<Byte, Player>) returns (t: Tally)
    ensures t == RunActions(players, Start, TickActions(blocks))
  {
    t := Start;
    var b := 0;
    while b < |blocks|
      invariant 0 <= b <= |blocks|
      invariant t == RunActions(players, Start, TickActions(blocks[..b]))
    {
      TickActionsSnoc(blocks, b);
      RunActionsAppend(players, Start, TickActions(blocks[..b]), BlockActions(blocks[b]));
      match blocks[b] {
        case Tick(_, _, commands) =>
          t := ExtractPlayersFromCommands(commands, players, t);
        case TickPreOverflow(_, _, commands) =>
          t := ExtractPlayersFromCommands(commands, players, t);
        case _ =>
      }
      b := b + 1;
    }
    assert blocks[..b] == blocks;
  }

  /**
   * `get_game_result`: number the players by their sorted slot indices,
   * tally every tick block and insist on two non-empty sides.
   */
  method GetGameResult(playerList: seq<Player>, replay: Replay) returns (r: Result<Outcome, GameError>)
    ensures r == GameResultOf(playerList, replay)
  {
    var indices := CollectSlotIndices(replay.gameHeader);
    if indices.None? {
      return Err(PlayerIdZero);
    }
    var players := ZipMap(SortIndices(indices.value), playerList);
    var t := TallyBlocks(replay.replayBlocks, players);
    if t.builders == {} || t.titans == {} {
      return Err(EmptyTeam(|t.builders|, |t.titans|));
    }
    r := Ok(Outcome(t.builders, t.titans, t.result));
  }

  // ---------------------------------------------------------------------
  // What the tally depends on
  // ---------------------------------------------------------------------

  /** The actions the tally reacts to, in order. */
  function Records(actions: seq<Action>): (r: seq<Action>)
    ensures forall a :: a in r ==> RecordOf(a) != Other
    ensures |r| <= |actions|
  {
    if actions == [] then []
    else
      var front := Records(actions[..|actions| - 1]);
      var a := actions[|actions| - 1];
      if RecordOf(a) != Other then front + [a] else front
  }

  /**
   * Only `SyncStoredInteger` actions of the file `ID.D` in a group the
   * service knows count: dropping every other action changes nothing.
   */
  lemma {:induction false} OnlyRecordsCount(players: map<Byte, Player>, t: Tally, actions: seq<Action>)
    ensures RunActions(players, t, Records(actions)) == RunActions(players, t, actions)
    decreases |actions|
  {
    if actions != [] {
      var front := actions[..|actions| - 1];
      var a := actions[|actions| - 1];
      OnlyRecordsCount(players, t, front);
      if RecordOf(a) != Other {
        RunActionsSnoc(players, t, Records(front), a);
      }
    }
  }

  /** One step starts the game exactly on a `game_start` record. */
  lemma StepStarts(players: map<Byte, Player>, t: Tally, a: Action)
    ensures Step(players, t, a).started == (t.started || RecordOf(a) == GameStart)
  {
  }

  /** One step enrols exactly the player of a `class` record, and only before the game starts. */
  lemma StepEnrols(players: map<Byte, Player>, t: Tally, a: Action, x: Player, side: Team)
    requires side != Tie
    ensures x in Side(Step(players, t, a), side) <==>
              x in Side(t, side) || (!t.started && ClassOf(players, a) == Some((x, side)))
  {
  }

  /** One step changes the result exactly on a decisive `flag` record. */
  lemma StepDecides(players: map<Byte, Player>, t: Tally, a: Action)
    ensures Step(players, t, a).result ==
              (if VerdictOf(players, t, a).Some? then VerdictOf(players, t, a).value else t.result)
  {
  }

  /** The last action of a run is one step from the run of the others. */
  lemma RunActionsLast(players: map<Byte, Player>, t: Tally, actions: seq<Action>)
    requires actions != []
    ensures RunActions(players, t, actions) ==
              Step(players, RunActions(players, t, actions[..|actions| - 1]), actions[|actions| - 1])
  {
  }

  /** Once a `game_start` record has been seen the game stays started, whatever follows. */
  lemma {:induction false} StartIsSticky(players: map<Byte, Player>, t: Tally, actions: seq<Action>)
    ensures RunActions(players, t, actions).started <==> t.started || StartSeen(actions)
    decreases |actions|
  {
    if actions != [] {
      StartIsSticky(players, t, actions[..|actions| - 1]);
      StartStep(players, t, actions);
      StartSeenSnoc(actions);
    }
  }

  /** The action is a `game_start` record. */
  predicate IsGameStart(a: Action)
  {
    RecordOf(a) == GameStart
  }

  /** Some action is a `game_start` record. */
  predicate StartSeen(actions: seq<Action>)
  {
    Any(actions, IsGameStart)
  }

  /** A `game_start` record is among the actions exactly when it is among the earlier ones or is the last. */
  lemma StartSeenSnoc(actions: seq<Action>)
    requires actions != []
    ensures StartSeen(actions) <==> StartSeen(actions[..|actions| - 1]) || IsGameStart(actions[|actions| - 1])
  {
    AnySnoc(actions, IsGameStart);
  }

  /** The last action starts the game, or leaves it as the others left it. */
  lemma StartStep(players: map<Byte, Player>, t: Tally, actions: seq<Action>)
    requires actions != []
    ensures RunActions(players, t, actions).started <==>
              RunActions(players, t, actions[..|actions| - 1]).started || RecordOf(actions[|actions| - 1]) == GameStart
  {
    RunActionsLast(players, t, actions);
    StepStarts(players, RunActions(players, t, actions[..|actions| - 1]), actions[|actions| - 1]);
  }

  /** After the game has started, `class` records no longer move anybody. */
  lemma {:induction false} SidesFixedOnceStarted(players: map<Byte, Player>, t: Tally, actions: seq<Action>)
    requires t.started
    ensures var r := RunActions(players, t, actions);
      r.started && r.builders == t.builders && r.titans == t.titans
    decreases |actions|
  {
    if actions != [] {
      SidesFixedOnceStarted(players, t, actions[..|actions| - 1]);
    }
  }

  /** The players enrolled on a side so far. */
  function Side(t: Tally, side: Team): set<Player>
  {
    if side == Builder then t.builders else t.titans
  }

  /** The `i`-th action is a `class` record that puts `x` on `side` before the game starts. */
  predicate EnrolledAt(players: map<Byte, Player>, t: Tally, actions: seq<Action>, i: int, x: Player, side: Team)
  {
    0 <= i < |actions| && !RunActions(players, t, actions[..i]).started &&
    ClassOf(players, actions[i]) == Some((x, side))
  }

  /**
   * A player is on a side exactly when they already were, or some `class`
   * record put them there while the game had not started yet.
   */
  lemma {:induction false} SideMembership(players: map<Byte, Player>, t: Tally, actions: seq<Action>,
                                          x: Player, side: Team)
    requires side != Tie
    ensures x in Side(RunActions(players, t, actions), side) <==>
              x in Side(t, side) || exists i :: EnrolledAt(players, t, actions, i, x, side)
    decreases |actions|
  {
    if actions != [] {
      var n := |actions| - 1;
      SideMembership(players, t, actions[..n], x, side);
      SideStep(players, t, actions, x, side);
      EnrolledSnoc(players, t, actions, n, x, side);
    }
  }

  /** The last action enrols `x`, or leaves the side as the others left it. */
  lemma SideStep(players: map<Byte, Player>, t: Tally, actions: seq<Action>, x: Player, side: Team)
    requires actions != [] && side != Tie
    ensures x in Side(RunActions(players, t, actions), side) <==>
              x in Side(RunActions(players, t, actions[..|actions| - 1]), side) ||
              EnrolledAt(players, t, actions, |actions| - 1, x, side)
  {
    var n := |actions| - 1;
    RunActionsLast(players, t, actions);
    StepEnrols(players, RunActions(players, t, actions[..n]), actions[n], x, side);
  }

  /** An enrolling action is among the earlier ones or is the last. */
  lemma EnrolledSnoc(players: map<Byte, Player>, t: Tally, actions: seq<Action>, n: nat, x: Player, side: Team)
    requires n + 1 == |actions|
    ensures (exists i :: EnrolledAt(players, t, actions, i, x, side)) <==>
              (exists i :: EnrolledAt(players, t, actions[..n], i, x, side)) ||
              EnrolledAt(players, t, actions, n, x, side)
  {
    if exists i :: EnrolledAt(players, t, actions[..n], i, x, side) {
      var i :| EnrolledAt(players, t, actions[..n], i, x, side);
      EnrolledInPrefix(players, t, actions, n, i, x, side);
    }
    if exists i :: EnrolledAt(players, t, actions, i, x, side) {
      var i :| EnrolledAt(players, t, actions, i, x, side);
      EnrolledEarlierOrLast(players, t, actions, n, i, x, side);
    }
  }

  /** An enrolment in the whole run is one in the earlier actions or the last one. */
  lemma EnrolledEarlierOrLast(players: map<Byte, Player>, t: Tally, actions: seq<Action>, n: nat, i: nat,
                              x: Player, side: Team)
    requires n + 1 == |actions| && EnrolledAt(players, t, actions, i, x, side)
    ensures i < n ==> EnrolledAt(players, t, actions[..n], i, x, side)
    ensures i >= n ==> i == n
  {
    if i < n {
      EnrolledInPrefix(players, t, actions, n, i, x, side);
    }
  }

  /** Enrolment at `i` reads the same in a longer run. */
  lemma EnrolledInPrefix(players: map<Byte, Player>, t: Tally, actions: seq<Action>, n: nat, i: nat,
                         x: Player, side: Team)
    requires i < n <= |actions|
    ensures EnrolledAt(players, t, actions[..n], i, x, side) == EnrolledAt(players, t, actions, i, x, side)
  {
    PrefixOfPrefix(actions, n, i);
  }

  /** With no decisive `flag` record the result stays what it was: a tie from the start. */
  lemma {:induction false} NoVerdictKeepsResult(players: map<Byte, Player>, t: Tally, actions: seq<Action>)
    requires forall i :: 0 <= i < |actions| ==> Silent(players, t, actions, i)
    ensures RunActions(players, t, actions).result == t.result
    decreases |actions|
  {
    if actions != [] {
      var n := |actions| - 1;
      SilentAfterInPrefix(players, t, actions, n, -1);
      NoVerdictKeepsResult(players, t, actions[..n]);
      SilentStep(players, t, actions);
    }
  }

  /** The last decisive `flag` record decides the result. */
  lemma {:induction false} LastVerdictWins(players: map<Byte, Player>, t: Tally, actions: seq<Action>, i: nat)
    requires i < |actions|
    requires VerdictOf(players, RunActions(players, t, actions[..i]), actions[i]).Some?
    requires forall j :: i < j < |actions| ==> Silent(players, t, actions, j)
    ensures RunActions(players, t, actions).result ==
              VerdictOf(players, RunActions(players, t, actions[..i]), actions[i]).value
    decreases |actions|
  {
    var n := |actions| - 1;
    var front := actions[..n];
    if i < n {
      PrefixOfPrefix(actions, n, i);
      SilentAfterInPrefix(players, t, actions, n, i);
      LastVerdictWins(players, t, front, i);
      SilentStep(players, t, actions);
    } else {
      DecisiveStep(players, t, actions);
    }
  }

  /** No verdict at the `j`-th action, in the state the earlier ones left. */
  predicate Silent(players: map<Byte, Player>, t: Tally, actions: seq<Action>, j: int)
    requires 0 <= j < |actions|
  {
    VerdictOf(players, RunActions(players, t, actions[..j]), actions[j]).None?
  }

  /** Silence at `j` is the same seen from a longer run. */
  lemma SilentInPrefix(players: map<Byte, Player>, t: Tally, actions: seq<Action>, n: nat, j: nat)
    requires j < n <= |actions|
    ensures Silent(players, t, actions[..n], j) == Silent(players, t, actions, j)
  {
    PrefixOfPrefix(actions, n, j);
  }

  /** Silence after `i` is the same seen from a longer run. */
  lemma SilentAfterInPrefix(players: map<Byte, Player>, t: Tally, actions: seq<Action>, n: nat, i: int)
    requires -1 <= i && n <= |actions|
    requires forall j :: i < j < |actions| ==> Silent(players, t, actions, j)
    ensures forall j :: i < j < n ==> Silent(players, t, actions[..n], j)
  {
    forall j | i < j < n
      ensures Silent(players, t, actions[..n], j)
    {
      SilentInPrefix(players, t, actions, n, j);
    }
  }

  /** A silent last action leaves the result as it was. */
  lemma SilentStep(players: map<Byte, Player>, t: Tally, actions: seq<Action>)
    requires actions != [] && Silent(players, t, actions, |actions| - 1)
    ensures RunActions(players, t, actions).result == RunActions(players, t, actions[..|actions| - 1]).result
  {
    RunActionsLast(players, t, actions);
    StepDecides(players, RunActions(players, t, actions[..|actions| - 1]), actions[|actions| - 1]);
  }

  /** A decisive last action sets the result. */
  lemma DecisiveStep(players: map<Byte, Player>, t: Tally, actions: seq<Action>)
    requires actions != []
    requires VerdictOf(players, RunActions(players, t, actions[..|actions| - 1]), actions[|actions| - 1]).Some?
    ensures RunActions(players, t, actions).result ==
              VerdictOf(players, RunActions(players, t, actions[..|actions| - 1]), actions[|actions| - 1]).value
  {
    RunActionsLast(players, t, actions);
    StepDecides(players, RunActions(players, t, actions[..|actions| - 1]), actions[|actions| - 1]);
  }

  /** Every player the tally puts on a side comes from the slot map. */
  lemma {:induction false} SidesDrawnFromSlotMap(players: map<Byte, Player>, t: Tally, actions: seq<Action>)
    ensures var r := RunActions(players, t, actions);
      r.builders <= t.builders + players.Values && r.titans <= t.titans + players.Values
    decreases |actions|
  {
    if actions != [] {
      SidesDrawnFromSlotMap(players, t, actions[..|actions| - 1]);
    }
  }

  /** A result names two non-empty sides made only of the listed players. */
  lemma OutcomeDrawsOnListedPlayers(playerList: seq<Player>, replay: Replay)
    ensures var r := GameResultOf(playerList, replay);
      r.Ok? ==> r.value.builders != {} && r.value.titans != {} &&
                forall x :: x in r.value.builders + r.value.titans ==> x in playerList
  {
    var indices := SlotIndices(replay.gameHeader);
    if indices.Some? {
      var players := ZipMap(SortIndices(indices.value), playerList);
      SidesDrawnFromSlotMap(players, Start, TickActions(replay.replayBlocks));
      ZipMapValues(SortIndices(indices.value), playerList);
    }
  }

  /** The length of a replay, in milliseconds, past which a Titan win does not count. */
  const OneHourMs: nat := 3_600_000

  /** The rule `replays_handler` applies before publishing a result. */
  function ApplyDurationRule(o: Outcome, durationMs: nat): (r: Outcome)
    ensures r.builders == o.builders && r.titans == o.titans
    ensures r.winner == Tie <==> o.winner == Tie || (o.winner == Titan && durationMs > OneHourMs)
    ensures r.winner != Tie ==> r.winner == o.winner
    ensures r.winner == Titan ==> durationMs <= OneHourMs
  {
    if durationMs > OneHourMs && o.winner == Titan then o.(winner := Tie) else o
  }
}
