/**
 * The replay downloader's scan of the game list: pages 1 to 250 are read
 * for game ids, only ids outside the window [min, max] of ids already
 * handled are fetched, the window widens as ids are handled, and every
 * handled id leaves one status record in the collection.
 *
 * The web pages, the replay fetch and the message bus are parameters: a
 * page is given as the texts its id pattern captured (or none when the
 * request failed), and the fate of each id as an outcome.
 */
module Downloader {
  import opened Wrappers
  import opened Bytes

  const I64Min: int := -0x8000_0000_0000_0000
  const I64Max: int := 0x7FFF_FFFF_FFFF_FFFF

  predicate InI64(x: int)
  {
    I64Min <= x <= I64Max
  }

  /** A game id as the service stores it (`i64`, since BSON has no unsigned integers). */
  type I64 = x: int | I64Min <= x <= I64Max

  /**
   * `str::parse::<i64>`: an optional '+' or '-', then at least one ASCII
   * digit, and a value that fits in 64 bits.
   */
  function ParseI64(s: Text): (r: Option<int>)
    ensures r.Some? ==> InI64(r.value)
    ensures s == [] ==> r.None?
  {
    var negative := |s| > 0 && s[0] == '-' as int;
    var digits := if |s| > 0 && (s[0] == '-' as int || s[0] == '+' as int) then s[1..] else s;
    if digits == [] || exists i :: 0 <= i < |digits| && !IsDigit(digits[i]) then None
    else
      var v: int := if negative then 0 - DecimalValue(digits) as int else DecimalValue(digits);
      if InI64(v) then Some(v) else None
  }

  /** Every non-negative id written out in decimal parses back to itself. */
  lemma ParseI64OfDecimal(n: nat)
    requires n <= I64Max
    ensures ParseI64(DecimalText(n)) == Some(n)
  {
    DecimalValueOfText(n);
    var t := DecimalText(n);
    assert IsDigit(t[0]);
  }

  /** The ids of the captures that parse, in page order; the others are dropped. */
  function PageIds(captures: seq<Text>): (ids: seq<I64>)
    ensures |ids| <= |captures|
    ensures forall c :: c in captures && ParseI64(c).Some? ==> ParseI64(c).value in ids
    ensures forall id :: id in ids ==> exists c :: c in captures && ParseI64(c) == Some(id)
  {
    if captures == [] then []
    else
      var rest := PageIds(captures[1..]);
      assert forall c :: c in captures[1..] ==> c in captures;
      match ParseI64(captures[0])
      case None => rest
      case Some(id) => [id] + rest
  }

  datatype PageError =
    | InvalidPage   // a page number outside 1..=250: the service panics
    | FetchFailed   // the page could not be read

  /** `get_game_ids`: the page number must lie in 1..=250. */
  function GetGameIds(page: Byte, fetched: Option<seq<Text>>): (r: Result<seq<I64>, PageError>)
    ensures r == Err(InvalidPage) <==> page < 1 || page > 250
    ensures r.Ok? ==> fetched.Some? && r.value == PageIds(fetched.value)
  {
    if page < 1 || page > 250 then Err(InvalidPage)
    else if fetched.None? then Err(FetchFailed)
    else Ok(PageIds(fetched.value))
  }

  /** The capture loop of `get_game_ids`. */
  method CollectPageIds(captures: seq<Text>) returns (ids: seq<I64>)
    ensures ids == PageIds(captures)
  {
    ids := [];
    var i := |captures|;
    while i > 0
      invariant 0 <= i <= |captures|
      invariant ids == PageIds(captures[i..])
    {
      i := i - 1;
      assert captures[i..][1..] == captures[i + 1..];
      match ParseI64(captures[i]) {
        case None =>
        case Some(id) => ids := [id] + ids;
      }
    }
  }

  // ---------------------------------------------------------------------
  // The window of handled ids
  // ---------------------------------------------------------------------

  /** An id is new when it lies strictly outside [lo, hi]. */
  predicate IsNew(id: int, lo: int, hi: int)
  {
    id < lo || id > hi
  }

  /** The filter of `download_replays`: the new ids, in page order. */
  function NewIds(ids: seq<I64>, lo: int, hi: int): (r: seq<I64>)
    ensures |r| <= |ids|
    ensures forall i :: 0 <= i < |r| ==> r[i] in ids && IsNew(r[i], lo, hi)
    ensures forall i :: 0 <= i < |ids| && IsNew(ids[i], lo, hi) ==> ids[i] in r
  {
    if ids == [] then []
    else
      var rest := NewIds(ids[1..], lo, hi);
      assert forall i :: 1 <= i < |ids| ==> ids[i] == ids[1..][i - 1];
      if IsNew(ids[0], lo, hi) then [ids[0]] + rest else rest
  }

  /** With no history the window is empty (lo = i64::MAX, hi = i64::MIN): every 64-bit id is new. */
  lemma {:induction false} NewIdsWithoutHistory(ids: seq<I64>)
    ensures NewIds(ids, I64Max, I64Min) == ids
  {
    if ids != [] {
      NewIdsWithoutHistory(ids[1..]);
    }
  }

  /** The window after handling `ids` in order: `min` and `max` with each. */
  function Widen(lo: int, hi: int, ids: seq<I64>): (w: (int, int))
    ensures w.0 <= lo && w.1 >= hi
    ensures forall i :: 0 <= i < |ids| ==> w.0 <= ids[i] <= w.1
    decreases |ids|
  {
    if ids == [] then (lo, hi)
    else
      var w := Widen(if ids[0] < lo then ids[0] else lo, if ids[0] > hi then ids[0] else hi, ids[1..]);
      assert forall i :: 1 <= i < |ids| ==> ids[i] == ids[1..][i - 1];
      w
  }

  // ---------------------------------------------------------------------
  // Status records
  // ---------------------------------------------------------------------

  /** What became of a handled id. */
  datatype IdOutcome =
    | Sent          // fetched, parsed and sent over the message bus
    | SendFailed    // fetched and parsed, but the send failed
    | NotParsed     // the game page or the replay could not be fetched or parsed

  /** A `GameIdDto` document. */
  datatype GameIdDto = GameIdDto(gameId: I64, wasParsed: bool, wasSentOverPubsub: bool)

  /** The record stored for one handled id. */
  function StatusOf(id: I64, outcome: IdOutcome): (d: GameIdDto)
    ensures d.gameId == id
    ensures d.wasSentOverPubsub <==> outcome == Sent
    ensures d.wasParsed <==> outcome != NotParsed
  {
    match outcome
    case Sent => GameIdDto(id, true, true)
    case SendFailed => GameIdDto(id, true, false)
    case NotParsed => GameIdDto(id, false, false)
  }

  /** One record per handled id, in handling order. */
  function StatusesOf(ids: seq<I64>, outcome: I64 -> IdOutcome): (r: seq<GameIdDto>)
    ensures |r| == |ids|
    ensures forall i :: 0 <= i < |ids| ==> r[i] == StatusOf(ids[i], outcome(ids[i]))
  {
    seq(|ids|, i requires 0 <= i < |ids| => StatusOf(ids[i], outcome(ids[i])))
  }

  lemma StatusesOfAppend(a: seq<I64>, b: seq<I64>, outcome: I64 -> IdOutcome)
    ensures StatusesOf(a + b, outcome) == StatusesOf(a, outcome) + StatusesOf(b, outcome)
  {
  }

  /** `find_minimum_game_id`: the least id recorded as sent, or i64::MAX when there is none. */
  function MinSentId(records: seq<GameIdDto>): (r: int)
    ensures forall i :: 0 <= i < |records| && records[i].wasSentOverPubsub ==> r <= records[i].gameId
    ensures r == I64Max || exists i :: 0 <= i < |records| && records[i].wasSentOverPubsub && records[i].gameId == r
  {
    if records == [] then I64Max
    else
      var rest := MinSentId(records[1..]);
      assert forall i :: 1 <= i < |records| ==> records[i] == records[1..][i - 1];
      if records[0].wasSentOverPubsub && records[0].gameId < rest then records[0].gameId else rest
  }

  /** `find_maximum_game_id`: the greatest id recorded as sent, or i64::MIN when there is none. */
  function MaxSentId(records: seq<GameIdDto>): (r: int)
    ensures forall i :: 0 <= i < |records| && records[i].wasSentOverPubsub ==> r >= records[i].gameId
    ensures r == I64Min || exists i :: 0 <= i < |records| && records[i].wasSentOverPubsub && records[i].gameId == r
  {
    if records == [] then I64Min
    else
      var rest := MaxSentId(records[1..]);
      assert forall i :: 1 <= i < |records| ==> records[i] == records[1..][i - 1];
      if records[0].wasSentOverPubsub && records[0].gameId > rest then records[0].gameId else rest
  }

  predicate SomeSent(records: seq<GameIdDto>)
  {
    exists i :: 0 <= i < |records| && records[i].wasSentOverPubsub
  }

  /** No record sent: the sentinels. */
  lemma NoSentRecords(records: seq<GameIdDto>)
    requires !SomeSent(records)
    ensures MinSentId(records) == I64Max && MaxSentId(records) == I64Min
  {
    if records != [] {
      assert !SomeSent(records[1..]) by {
        forall i | 0 <= i < |records[1..]|
          ensures !records[1..][i].wasSentOverPubsub
        {
          assert records[1..][i] == records[i + 1];
        }
      }
      NoSentRecords(records[1..]);
    }
  }

  // ---------------------------------------------------------------------
  // One pass over the pages
  // ---------------------------------------------------------------------

  /** The window after a pass and the ids the pass handled, in order. */
  datatype PassResult = PassResult(lo: int, hi: int, handled: seq<I64>)

  /**
   * One page of a pass: a page that cannot be read yields nothing; a page
   * without new ids stops the pass; otherwise its new ids are handled.
   */
  function PageStep(lo: int, hi: int, fetched: Option<seq<Text>>, page: Byte): (r: (bool, seq<I64>))
    ensures r.0 ==> r.1 == []
    ensures forall i :: 0 <= i < |r.1| ==> IsNew(r.1[i], lo, hi)
  {
    match GetGameIds(page, fetched)
    case Err(_) => (false, [])
    case Ok(ids) =>
      var unseen := NewIds(ids, lo, hi);
      (unseen == [], unseen)
  }

  /**
   * Pages `page` to 250 of one pass of `download_replays`, with the window
   * widened after each page's new ids.
   */
  function PassFrom(lo: int, hi: int, fetch: nat -> Option<seq<Text>>, page: nat): (r: PassResult)
    requires 1 <= page
    ensures r.lo <= lo && r.hi >= hi
    decreases 251 - page
  {
    if page > 250 then PassResult(lo, hi, [])
    else
      var step := PageStep(lo, hi, fetch(page), page);
      if step.0 then PassResult(lo, hi, [])
      else
        var w := Widen(lo, hi, step.1);
        var r := PassFrom(w.0, w.1, fetch, page + 1);
        PassResult(r.lo, r.hi, step.1 + r.handled)
  }

  /** Every page number a pass asks for is in range: `get_game_ids` never panics there. */
  lemma PassPagesValid(page: nat, fetched: Option<seq<Text>>)
    requires 1 <= page <= 250
    ensures GetGameIds(page, fetched) != Err(InvalidPage)
  {
  }

  /** Every handled id was new for [lo, hi] and lies in the final window. */
  predicate HandledNew(r: PassResult, lo: int, hi: int)
  {
    forall i :: 0 <= i < |r.handled| ==> r.lo <= r.handled[i] <= r.hi && IsNew(r.handled[i], lo, hi)
  }

  /**
   * Every id a pass handles was new when the pass began, and lies in the
   * window the pass ends with.
   */
  lemma {:induction false} PassHandlesNewIds(lo: int, hi: int, fetch: nat -> Option<seq<Text>>, page: nat)
    requires 1 <= page
    ensures HandledNew(PassFrom(lo, hi, fetch, page), lo, hi)
    decreases 251 - page
  {
    if page <= 250 {
      var step := PageStep(lo, hi, fetch(page), page);
      if !step.0 {
        var w := Widen(lo, hi, step.1);
        PassHandlesNewIds(w.0, w.1, fetch, page + 1);
        var rest := PassFrom(w.0, w.1, fetch, page + 1);
        assert PassFrom(lo, hi, fetch, page) == PassResult(rest.lo, rest.hi, step.1 + rest.handled);
        HandledNewPrepend(lo, hi, w, step.1, rest);
      }
    }
  }

  /** New ids inside the widened window, followed by a rest that handled only ids new to that window. */
  lemma HandledNewPrepend(lo: int, hi: int, w: (int, int), unseen: seq<I64>, rest: PassResult)
    requires forall i :: 0 <= i < |unseen| ==> IsNew(unseen[i], lo, hi) && w.0 <= unseen[i] <= w.1
    requires w.0 <= lo && hi <= w.1 && rest.lo <= w.0 && w.1 <= rest.hi
    requires HandledNew(rest, w.0, w.1)
    ensures HandledNew(PassResult(rest.lo, rest.hi, unseen + rest.handled), lo, hi)
  {
    var handled := unseen + rest.handled;
    forall i | 0 <= i < |handled|
      ensures rest.lo <= handled[i] <= rest.hi && IsNew(handled[i], lo, hi)
    {
      if i >= |unseen| {
        assert handled[i] == rest.handled[i - |unseen|];
      }
    }
  }

  /** A pass never fetches an id recorded as sent before it began. */
  lemma PassSkipsSentIds(records: seq<GameIdDto>, fetch: nat -> Option<seq<Text>>, k: nat)
    requires k < |records| && records[k].wasSentOverPubsub
    ensures records[k].gameId !in PassFrom(MinSentId(records), MaxSentId(records), fetch, 1).handled
  {
    PassHandlesNewIds(MinSentId(records), MaxSentId(records), fetch, 1);
  }

  /** The downloader's window and the status collection it appends to. */
  class IdWindow {
    var minId: int
    var maxId: int
    var records: seq<GameIdDto>

    /** The start of `download_replays`: the window spans the ids already sent. */
    constructor(stored: seq<GameIdDto>)
      ensures minId == MinSentId(stored) && maxId == MaxSentId(stored) && records == stored
    {
      minId := MinSentId(stored);
      maxId := MaxSentId(stored);
      records := stored;
    }

    /** One id of a page: widen the window, then store its status. */
    method HandleId(id: I64, outcome: IdOutcome)
      modifies this
      ensures (minId, maxId) == Widen(old(minId), old(maxId), [id])
      ensures records == old(records) + [StatusOf(id, outcome)]
    {
      minId := if id < minId then id else minId;
      maxId := if id > maxId then id else maxId;
      records := records + [StatusOf(id, outcome)];
    }

    /** The new ids of one page, in order. */
    method HandleIds(ids: seq<I64>, outcome: I64 -> IdOutcome)
      modifies this
      ensures (minId, maxId) == Widen(old(minId), old(maxId), ids)
      ensures records == old(records) + StatusesOf(ids, outcome)
    {
      var i := 0;
      while i < |ids|
        invariant 0 <= i <= |ids|
        invariant Widen(old(minId), old(maxId), ids) == Widen(minId, maxId, ids[i..])
        invariant records == old(records) + StatusesOf(ids[..i], outcome)
      {
        assert ids[i..][1..] == ids[i + 1..];
        HandleId(ids[i], outcome(ids[i]));
        assert ids[..i + 1] == ids[..i] + [ids[i]];
        StatusesOfAppend(ids[..i], [ids[i]], outcome);
        i := i + 1;
      }
      assert ids[..i] == ids;
    }

    /** One page of a pass: returns whether the pass stops here. */
    method ScanPage(page: Byte, fetch: nat -> Option<seq<Text>>, outcome: I64 -> IdOutcome) returns (stop: bool)
      modifies this
      ensures var step := PageStep(old(minId), old(maxId), fetch(page), page);
        stop == step.0 && (minId, maxId) == Widen(old(minId), old(maxId), step.1) &&
        records == old(records) + StatusesOf(step.1, outcome)
    {
      var pageIds := GetGameIds(page, fetch(page));
      if pageIds.Err? {
        return false;
      }
      var unseen := NewIds(pageIds.value, minId, maxId);
      if unseen == [] {
        return true;
      }
      HandleIds(unseen, outcome);
      return false;
    }

    /**
     * A page of the pass in terms of the whole pass: `whole` is what the pass
     * does from its first page, and `done` the ids handled before this page.
     */
    method PassPage(page: nat, fetch: nat -> Option<seq<Text>>, outcome: I64 -> IdOutcome,
                    ghost whole: PassResult, ghost done: seq<I64>, ghost start: seq<GameIdDto>)
      returns (stop: bool, ghost done': seq<I64>)
      requires 1 <= page <= 250
      requires Resumes(whole, done, PassFrom(minId, maxId, fetch, page))
      requires records == start + StatusesOf(done, outcome)
      modifies this
      ensures stop ==> whole == PassResult(minId, maxId, done')
      ensures !stop ==> Resumes(whole, done', PassFrom(minId, maxId, fetch, page + 1))
      ensures records == start + StatusesOf(done', outcome)
    {
      ghost var lo, hi := minId, maxId;
      stop := ScanPage(page, fetch, outcome);
      if stop {
        PassStops(lo, hi, fetch, page, whole, done);
        done' := done;
      } else {
        ghost var unseen := PageStep(lo, hi, fetch(page), page).1;
        done' := PassGoesOn(lo, hi, fetch, page, whole, done, outcome);
        AppendAssoc(start, StatusesOf(done, outcome), StatusesOf(unseen, outcome));
      }
    }

    /** One pass of `download_replays` over pages 1..=250. */
    method Pass(fetch: nat -> Option<seq<Text>>, outcome: I64 -> IdOutcome)
      modifies this
      ensures var r := PassFrom(old(minId), old(maxId), fetch, 1);
        minId == r.lo && maxId == r.hi && records == old(records) + StatusesOf(r.handled, outcome)
    {
      ghost var whole := PassFrom(minId, maxId, fetch, 1);
      ghost var done: seq<I64> := [];
      ghost var start := records;
      var page, stop := 1, false;
      assert Resumes(whole, done, PassFrom(minId, maxId, fetch, page)) by {
        assert done + whole.handled == whole.handled;
      }
      while page <= 250 && !stop
        invariant 1 <= page <= 251
        invariant stop ==> whole == PassResult(minId, maxId, done)
        invariant !stop ==> Resumes(whole, done, PassFrom(minId, maxId, fetch, page))
        invariant records == start + StatusesOf(done, outcome)
        decreases 251 - page, !stop
      {
        stop, done := PassPage(page, fetch, outcome, whole, done, start);
        if !stop {
          page := page + 1;
        }
      }
      if !stop {
        PassStops(minId, maxId, fetch, page, whole, done);
      }
      assert whole == PassResult(minId, maxId, done);
    }
  }

  lemma AppendAssoc<T>(a: seq<T>, b: seq<T>, c: seq<T>)
    ensures (a + b) + c == a + (b + c)
  {
  }

  /** `whole` is the ids `done` so far followed by what the rest of the pass does. */
  ghost predicate Resumes(whole: PassResult, done: seq<I64>, rest: PassResult)
  {
    whole == PassResult(rest.lo, rest.hi, done + rest.handled)
  }

  /** Past the last page, or at a page without new ids, the pass is over. */
  lemma PassStops(lo: int, hi: int, fetch: nat -> Option<seq<Text>>, page: nat, whole: PassResult, done: seq<I64>)
    requires 1 <= page && (page > 250 || PageStep(lo, hi, fetch(page), page).0)
    requires Resumes(whole, done, PassFrom(lo, hi, fetch, page))
    ensures whole == PassResult(lo, hi, done)
  {
    assert PassFrom(lo, hi, fetch, page) == PassResult(lo, hi, []);
    assert done + [] == done;
  }

  lemma PassGoesOn(lo: int, hi: int, fetch: nat -> Option<seq<Text>>, page: nat, whole: PassResult, done: seq<I64>, outcome: I64 -> IdOutcome)
    returns (done': seq<I64>)
    requires 1 <= page <= 250 && !PageStep(lo, hi, fetch(page), page).0
    requires Resumes(whole, done, PassFrom(lo, hi, fetch, page))
    ensures var unseen := PageStep(lo, hi, fetch(page), page).1;
      var w := Widen(lo, hi, unseen);
      done' == done + unseen &&
      Resumes(whole, done', PassFrom(w.0, w.1, fetch, page + 1)) &&
      StatusesOf(done', outcome) == StatusesOf(done, outcome) + StatusesOf(unseen, outcome)
  {
    var unseen := PageStep(lo, hi, fetch(page), page).1;
    done' := done + unseen;
    StatusesOfAppend(done, unseen, outcome);
    var w := Widen(lo, hi, unseen);
    var r := PassFrom(w.0, w.1, fetch, page + 1);
    PassFromStep(lo, hi, fetch, page);
    AppendAssoc(done, unseen, r.handled);
  }

  /** A page with new ids hands them in front of what the rest of the pass handles. */
  lemma PassFromStep(lo: int, hi: int, fetch: nat -> Option<seq<Text>>, page: nat)
    requires 1 <= page <= 250 && !PageStep(lo, hi, fetch(page), page).0
    ensures var unseen := PageStep(lo, hi, fetch(page), page).1;
      var w := Widen(lo, hi, unseen);
      var r := PassFrom(w.0, w.1, fetch, page + 1);
      PassFrom(lo, hi, fetch, page) == PassResult(r.lo, r.hi, unseen + r.handled)
  {
  }
}
