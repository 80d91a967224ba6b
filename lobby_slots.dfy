/**
 * How the lobby service numbers the players of a game's slot table, how it
 * names their realms, and how it caches the last table it fetched.
 *
 * The HTML table is abstracted to its rows: for each row, the cells of
 * class `slot` in order, each with its text and the text of its first link.
 */
module LobbySlots {
  import opened Wrappers
  import opened Bytes
  import PubSubModel

  type Player = PubSubModel.Player

  /** A `td.slot` cell: its text, and the text of the first `a` inside it, if any. */
  datatype Cell = Cell(text: Text, link: Option<Text>)

  /** A table row, as the `td.slot` cells it holds. */
  datatype Row = Row(slots: seq<Cell>)

  /** What the row loop makes of one row. */
  datatype RowKind =
    | NoSlot                          // no slot cell: skipped
    | EmptySlot                       // the first slot cell reads "Empty": the slot is counted
    | Incomplete                      // no player link or no realm cell: skipped
    | Occupied(name: Text, realm: Text)

  function Classify(row: Row): (k: RowKind)
    ensures k.Occupied? ==> |row.slots| >= 2 && row.slots[0].link == Some(k.name) && k.realm == row.slots[1].text
  {
    if |row.slots| == 0 then NoSlot
    else if row.slots[0].text == Ascii("Empty") then EmptySlot
    else if row.slots[0].link.None? then Incomplete
    else if |row.slots| < 2 then Incomplete
    else Occupied(row.slots[0].link.value, row.slots[1].text)
  }

  /** A row that takes up a slot number: an empty slot or a player. */
  predicate Advances(row: Row)
  {
    Classify(row).EmptySlot? || Classify(row).Occupied?
  }

  /**
   * The realm names the engine copy rewrites to the host names player
   * statistics are stored under; any other realm is kept as it is.
   */
  function NormaliseRealm(realm: Text): (r: Text)
    ensures realm == Ascii("USEast") ==> r == Ascii("useast.battle.net")
    ensures realm == Ascii("USWest") ==> r == Ascii("uswest.battle.net")
    ensures realm == Ascii("Europe") ==> r == Ascii("europe.battle.net")
    ensures realm == Ascii("Asia") ==> r == Ascii("asia.battle.net")
    ensures realm !in {Ascii("USEast"), Ascii("USWest"), Ascii("Europe"), Ascii("Asia")} ==> r == realm
  {
    RealmNamesDiffer();
    if realm == Ascii("USEast") then Ascii("useast.battle.net")
    else if realm == Ascii("USWest") then Ascii("uswest.battle.net")
    else if realm == Ascii("Europe") then Ascii("europe.battle.net")
    else if realm == Ascii("Asia") then Ascii("asia.battle.net")
    else if realm == Ascii("entconnect") then Ascii("entconnect")
    else realm
  }

  /** The four realm names the service rewrites are different texts. */
  lemma RealmNamesDiffer()
    ensures Ascii("USEast") != Ascii("USWest") && Ascii("USEast") != Ascii("Europe")
    ensures Ascii("USWest") != Ascii("Europe")
    ensures Ascii("Asia") !in {Ascii("USEast"), Ascii("USWest"), Ascii("Europe")}
  {
    assert Ascii("USEast")[2] != Ascii("USWest")[2];
    assert Ascii("USEast")[0] != Ascii("Europe")[0];
    assert Ascii("USWest")[0] != Ascii("Europe")[0];
  }

  /** A realm name that is already a host name stays as it is: rewriting twice is rewriting once. */
  lemma NormaliseRealmIdempotent(realm: Text)
    ensures NormaliseRealm(NormaliseRealm(realm)) == NormaliseRealm(realm)
  {
  }

  datatype SlotError = IndexOverflow   // the slot counter passed the largest value of its integer type

  /** The slot number the `i`-th row would get: the rows before it that took a number. */
  function SlotNumber(rows: seq<Row>, i: nat): (n: nat)
    requires i <= |rows|
    ensures n <= i
  {
    if i == 0 then 0 else SlotNumber(rows, i - 1) + (if Advances(rows[i - 1]) then 1 else 0)
  }

  /**
   * The row loop on the first rows, with the counter kept below `bound`
   * (`u32` in the engine, `u8` in the main file): the map so far and the
   * next slot number.
   */
  function NumberRows(rows: seq<Row>, realm: Text -> Text, bound: nat): (r: Result<(map<nat, Player>, nat), SlotError>)
    ensures r.Ok? ==> r.value.1 == SlotNumber(rows, |rows|) && r.value.1 < bound
    ensures r.Ok? ==> forall k :: k in r.value.0 ==> k < r.value.1
    decreases |rows|
  {
    if rows == [] then (if 0 < bound then Ok((map[], 0)) else Err(IndexOverflow))
    else
      var front :- NumberRows(rows[..|rows| - 1], realm, bound);
      var row := rows[|rows| - 1];
      assert SlotNumber(rows[..|rows| - 1], |rows| - 1) == SlotNumber(rows, |rows| - 1) by {
        SlotNumberPrefix(rows, |rows| - 1, |rows| - 1);
      }
      NumberRow(front, row, realm, bound)
  }

  /** One row of the loop: a slot-taking row moves the counter on, a player row is also stored. */
  function NumberRow(st: (map<nat, Player>, nat), row: Row, realm: Text -> Text, bound: nat): (r: Result<(map<nat, Player>, nat), SlotError>)
    ensures r.Ok? ==> r.value.1 == st.1 + (if Advances(row) then 1 else 0)
    ensures r.Err? <==> Advances(row) && st.1 + 1 >= bound
  {
    var (players, index) := st;
    match Classify(row)
    case EmptySlot =>
      if index + 1 < bound then Ok((players, index + 1)) else Err(IndexOverflow)
    case Occupied(name, realmText) =>
      if index + 1 < bound then Ok((players[index := PubSubModel.NewPlayer(name, realm(realmText))], index + 1))
      else Err(IndexOverflow)
    case _ => Ok(st)
  }

  /** The loop on one more row is one more round of it. */
  lemma NumberRowsSnoc(rows: seq<Row>, realm: Text -> Text, bound: nat, i: nat, st: (map<nat, Player>, nat))
    requires i < |rows| && NumberRows(rows[..i], realm, bound) == Ok(st)
    ensures NumberRows(rows[..i + 1], realm, bound) == NumberRow(st, rows[i], realm, bound)
  {
    assert rows[..i + 1][..i] == rows[..i];
  }

  /** Slot numbers only look at the rows before. */
  lemma {:induction false} SlotNumberPrefix(rows: seq<Row>, n: nat, i: nat)
    requires i <= n <= |rows|
    ensures SlotNumber(rows[..n], i) == SlotNumber(rows, i)
  {
    if i > 0 {
      SlotNumberPrefix(rows, n, i - 1);
      assert rows[..n][i - 1] == rows[i - 1];
    }
  }

  /** A row that takes a number gets a larger one than every row before it. */
  lemma {:induction false} SlotNumbersIncrease(rows: seq<Row>, i: nat, j: nat)
    requires i < j <= |rows| && Advances(rows[i])
    ensures SlotNumber(rows, i) < SlotNumber(rows, j)
    decreases j
  {
    if j > i + 1 {
      SlotNumbersIncrease(rows, i, j - 1);
    }
  }

  /** Every player row is stored under its own slot number, named by its link and realm. */
  lemma {:induction false} NumberRowsPlacesPlayers(rows: seq<Row>, realm: Text -> Text, bound: nat, i: nat)
    requires i < |rows| && Classify(rows[i]).Occupied?
    ensures var r := NumberRows(rows, realm, bound);
      r.Ok? ==> SlotNumber(rows, i) in r.value.0 &&
                r.value.0[SlotNumber(rows, i)] ==
                  PubSubModel.Player(Classify(rows[i]).name, realm(Classify(rows[i]).realm))
    decreases |rows|
  {
    var r := NumberRows(rows, realm, bound);
    var n := |rows| - 1;
    var front := rows[..n];
    SlotNumberPrefix(rows, n, n);
    if r.Ok? && i < n {
      NumberRowsPlacesPlayers(front, realm, bound, i);
      SlotNumberPrefix(rows, n, i);
      SlotNumbersIncrease(rows, i, n);
    }
  }

  /**
   * With realms kept as written (the copy in the service's main file), each
   * stored player is named by the link of its row's first slot cell and its
   * realm is exactly the text of the second.
   */
  lemma VerbatimRealms(rows: seq<Row>, bound: nat, i: nat)
    requires i < |rows| && Classify(rows[i]).Occupied?
    ensures var r := NumberRows(rows, t => t, bound);
      r.Ok? ==> SlotNumber(rows, i) in r.value.0 &&
                Some(r.value.0[SlotNumber(rows, i)].name) == rows[i].slots[0].link &&
                r.value.0[SlotNumber(rows, i)].realm == rows[i].slots[1].text
  {
    NumberRowsPlacesPlayers(rows, t => t, bound, i);
  }

  /** No key is stored but the slot number of a player row. */
  lemma {:induction false} NumberRowsOnlyPlayers(rows: seq<Row>, realm: Text -> Text, bound: nat)
    ensures var r := NumberRows(rows, realm, bound);
      r.Ok? ==> forall k :: k in r.value.0 ==>
                  exists i :: 0 <= i < |rows| && Classify(rows[i]).Occupied? && SlotNumber(rows, i) == k
    decreases |rows|
  {
    var r := NumberRows(rows, realm, bound);
    if rows != [] && r.Ok? {
      var n := |rows| - 1;
      var front := rows[..n];
      NumberRowsOnlyPlayers(front, realm, bound);
      var f := NumberRows(front, realm, bound);
      SlotNumberPrefix(rows, n, n);
      forall k | k in r.value.0
        ensures exists i :: 0 <= i < |rows| && Classify(rows[i]).Occupied? && SlotNumber(rows, i) == k
      {
        if k in f.value.0 {
          var i :| 0 <= i < |front| && Classify(front[i]).Occupied? && SlotNumber(front, i) == k;
          SlotNumberPrefix(rows, n, i);
          assert Classify(rows[i]).Occupied? && SlotNumber(rows, i) == k;
        } else {
          assert Classify(rows[n]).Occupied? && SlotNumber(rows, n) == k;
        }
      }
    }
  }

  /** Once the counter overflows on some rows, it overflows on every longer table. */
  lemma {:induction false} NumberRowsFailureStays(rows: seq<Row>, realm: Text -> Text, bound: nat, n: nat)
    requires n <= |rows| && NumberRows(rows[..n], realm, bound).Err?
    ensures NumberRows(rows, realm, bound).Err?
    decreases |rows|
  {
    if n < |rows| {
      var m := |rows| - 1;
      PrefixOfPrefixRows(rows, m, n);
      NumberRowsFailureStays(rows[..m], realm, bound, n);
    } else {
      assert rows[..n] == rows;
    }
  }

  lemma PrefixOfPrefixRows(rows: seq<Row>, m: nat, n: nat)
    requires n <= m <= |rows|
    ensures rows[..m][..n] == rows[..n]
  {
  }

  /**
   * The row loop of `get_players_for_lobby` (engine, realms rewritten,
   * `u32` counter) and of `get_players_for_bot` (main file, realms
   * verbatim, `u8` counter).
   */
  method NumberSlots(rows: seq<Row>, realm: Text -> Text, bound: nat) returns (r: Result<map<nat, Player>, SlotError>)
    requires bound > 0
    ensures NumberRows(rows, realm, bound).Ok? <==> r.Ok?
    ensures r.Ok? ==> r.value == NumberRows(rows, realm, bound).value.0
  {
    var players: map<nat, Player> := map[];
    var index: nat := 0;
    var i := 0;
    while i < |rows|
      invariant 0 <= i <= |rows|
      invariant NumberRows(rows[..i], realm, bound) == Ok((players, index))
    {
      NumberRowsSnoc(rows, realm, bound, i, (players, index));
      match Classify(rows[i]) {
        case EmptySlot =>
          if index + 1 >= bound {
            NumberRowsFailureStays(rows, realm, bound, i + 1);
            return Err(IndexOverflow);
          }
          index := index + 1;
        case Occupied(name, realmText) =>
          if index + 1 >= bound {
            NumberRowsFailureStays(rows, realm, bound, i + 1);
            return Err(IndexOverflow);
          }
          players := players[index := PubSubModel.NewPlayer(name, realm(realmText))];
          index := index + 1;
        case _ =>
      }
      i := i + 1;
    }
    assert rows[..i] == rows;
    r := Ok(players);
  }

  // ---------------------------------------------------------------------
  // The refresh-on-expiry cache of `lobby_request_handler`
  // ---------------------------------------------------------------------

  /** The last fetched table (`None` when the first fetch failed) and when it goes stale, in seconds. */
  datatype CacheState = CacheState(cached: Option<map<nat, Player>>, expiration: int)

  /** Seconds a table stays fresh after a successful fetch, and before retrying after a failed one. */
  const FreshFor: int := 5
  const RetryAfter: int := 2

  /**
   * One request at time `now`: past the expiration the table is fetched
   * again (`fetched` is what that fetch returns); the request is answered
   * with the cached table, unless the fetch just failed or there is none.
   */
  function Respond(s: CacheState, now: int, fetched: Option<map<nat, Player>>): (r: (CacheState, Option<map<nat, Player>>))
    ensures r.1.Some? ==> r.1 == r.0.cached
    ensures r.0.expiration >= s.expiration
    ensures now <= s.expiration ==> r == (s, s.cached)
    ensures now > s.expiration && fetched.Some? ==> r == (CacheState(fetched, now + FreshFor), fetched)
    ensures now > s.expiration && fetched.None? ==> r == (s.(expiration := now + RetryAfter), None)
  {
    if now > s.expiration then
      if fetched.Some? then (CacheState(fetched, now + FreshFor), fetched)
      else (s.(expiration := now + RetryAfter), None)
    else (s, s.cached)
  }

  /** Requests that come before the expiration never fetch, and all get the same table. */
  lemma {:induction false} NoFetchWhileFresh(s: CacheState, times: seq<int>, fetches: seq<Option<map<nat, Player>>>)
    requires |times| == |fetches| && forall i :: 0 <= i < |times| ==> times[i] <= s.expiration
    ensures var (last, replies) := Serve(s, times, fetches);
      last == s && forall i :: 0 <= i < |replies| ==> replies[i] == s.cached
    decreases |times|
  {
    if times != [] {
      assert Respond(s, times[0], fetches[0]) == (s, s.cached);
      assert forall i :: 0 <= i < |times[1..]| ==> times[1..][i] == times[i + 1];
      NoFetchWhileFresh(s, times[1..], fetches[1..]);
    }
  }

  /** A run of requests: the state it leaves and the reply to each. */
  function Serve(s: CacheState, times: seq<int>, fetches: seq<Option<map<nat, Player>>>): (r: (CacheState, seq<Option<map<nat, Player>>>))
    requires |times| == |fetches|
    ensures |r.1| == |times|
    ensures r.0.expiration >= s.expiration
    decreases |times|
  {
    if times == [] then (s, [])
    else
      var (next, reply) := Respond(s, times[0], fetches[0]);
      var (last, replies) := Serve(next, times[1..], fetches[1..]);
      (last, [reply] + replies)
  }

  /** The request loop's state: the cached table and its expiration. */
  class LobbyCache {
    var cached: Option<map<nat, Player>>
    var expiration: int

    function State(): CacheState
      reads this
    {
      CacheState(cached, expiration)
    }

    /** Before the loop: the first fetch, fresh for five seconds from `start`. */
    constructor(start: int, first: Option<map<nat, Player>>)
      ensures State() == CacheState(first, start + FreshFor)
    {
      cached := first;
      expiration := start + FreshFor;
    }

    /** One request of `lobby_request_handler`. */
    method Request(now: int, fetched: Option<map<nat, Player>>) returns (reply: Option<map<nat, Player>>)
      modifies this
      ensures (State(), reply) == Respond(old(State()), now, fetched)
    {
      if now > expiration {
        if fetched.Some? {
          expiration := now + FreshFor;
          cached := fetched;
        } else {
          expiration := now + RetryAfter;
          return None;
        }
      }
      reply := cached;
    }
  }
}
