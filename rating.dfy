/**
 * The team padding the rating service wraps around its Bayesian rater:
 * uneven teams are cycled up to a common length, rated, and cut back to
 * their own sizes; ratings keyed by player are listed, rated and re-keyed.
 *
 * The rater itself is a parameter: it is given the rater's beta, the teams
 * and their ranks, and returns new ratings for each team, or fails.
 */
module Rating {
  import opened Wrappers
  import Collections

  datatype RatingError =
    | RaterFailed         // `update_ratings` returned an error
    | NoWinnerRatings     // the rater returned no list for the winners
    | NoLoserRatings      // ... or none for the losers

  /** The rater's beta: 1500 / 6. */
  const Beta: real := 1500.0 / 6.0

  /** Winners are ranked first, losers second. */
  const Ranks: seq<nat> := [1, 2]

  /** `Rater::update_ratings`, with the beta it was built with. */
  type Rater<!R> = (real, seq<seq<R>>, seq<nat>) -> Option<seq<seq<R>>>

  /** A rater that returns one list per team, each as long as that team. */
  ghost predicate KeepsShape<R(!new)>(rater: Rater<R>)
  {
    forall beta, teams, ranks :: rater(beta, teams, ranks).Some? ==>
      |rater(beta, teams, ranks).value| == |teams| &&
      forall k :: 0 <= k < |teams| ==> |rater(beta, teams, ranks).value[k]| == |teams[k]|
  }

  // ---------------------------------------------------------------------
  // Least common multiple (`num::Integer::lcm`)
  // ---------------------------------------------------------------------

  /** Euclid's greatest common divisor. */
  function Gcd(a: nat, b: nat): (g: nat)
    requires a > 0 || b > 0
    ensures g > 0 && a % g == 0 && b % g == 0
    decreases b
  {
    if b == 0 then a
    else
      var g := Gcd(b, a % b);
      assert a % g == 0 by {
        var q := a / b;
        assert a == q * b + a % b;
        assert a == g * (q * (b / g) + (a % b) / g);
        MultipleMod(g, q * (b / g) + (a % b) / g);
      }
      g
  }

  /** `a.lcm(&b)` for positive sizes: a positive common multiple of both. */
  function Lcm(a: nat, b: nat): (l: nat)
    requires a > 0 && b > 0
    ensures l > 0 && l % a == 0 && l % b == 0
    ensures l >= a && l >= b
  {
    var g := Gcd(a, b);
    var l := a * (b / g);
    assert b / g > 0;
    MultipleMod(a, b / g);
    assert l == (a / g) * b by {
      assert a == g * (a / g);
      assert b == g * (b / g);
    }
    MultipleMod(b, a / g);
    assert l >= a by { MulAtLeast(a, b / g); }
    assert l >= b by { MulAtLeast(b, a / g); }
    l
  }

  lemma MulAtLeast(a: nat, m: nat)
    requires m > 0
    ensures a * m >= a
  {
  }

  /** Division with remainder is unique. */
  lemma ModUnique(x: int, n: nat, q: int, r: int)
    requires n > 0 && 0 <= r < n && x == q * n + r
    ensures x % n == r && x / n == q
  {
    var q', r' := x / n, x % n;
    assert x == q' * n + r';
    assert (q - q') * n == r' - r;
    if q - q' > 0 {
      MulAtLeast(n, q - q');
      assert false;
    } else if q' - q > 0 {
      MulAtLeast(n, q' - q);
      assert false;
    }
  }

  lemma MultipleMod(g: nat, m: nat)
    requires g > 0
    ensures (g * m) % g == 0
  {
    ModUnique(g * m, g, m, 0);
  }

  lemma ModShift(k: nat, n: nat, j: nat)
    requires j < n
    ensures (k * n + j) % n == j
  {
    ModUnique(k * n + j, n, k, j);
  }

  lemma DivExact(x: nat, n: nat)
    requires n > 0 && x % n == 0
    ensures (x / n) * n == x
  {
  }

  // ---------------------------------------------------------------------
  // Padding and truncation
  // ---------------------------------------------------------------------

  /** A team cycled to length `n`: entry `i` is member `i mod |team|`. */
  function Cycle<R>(team: seq<R>, n: nat): (r: seq<R>)
    requires |team| > 0
    ensures |r| == n && forall i :: 0 <= i < n ==> r[i] == team[i % |team|]
  {
    seq(n, i requires 0 <= i < n => team[i % |team|])
  }

  /** `k` copies of the team, one after the other. */
  function Repeat<R>(team: seq<R>, k: nat): (r: seq<R>)
    ensures |r| == k * |team|
  {
    if k == 0 then [] else Repeat(team, k - 1) + team
  }

  /** Cycling to a multiple of the team's size lays down whole copies of the team. */
  lemma {:induction false} CycleIsRepeat<R>(team: seq<R>, k: nat)
    requires |team| > 0
    ensures Cycle(team, k * |team|) == Repeat(team, k)
  {
    if k > 0 {
      CycleIsRepeat(team, k - 1);
      var m := (k - 1) * |team|;
      assert k * |team| == m + |team|;
      ModShift(k - 1, |team|, 0);
      CycleGrows(team, m);
    }
  }

  /** Cycling one team's length further, from a multiple of it, adds one copy of the team. */
  lemma CycleGrows<R>(team: seq<R>, m: nat)
    requires |team| > 0 && m % |team| == 0
    ensures Cycle(team, m + |team|) == Cycle(team, m) + team
  {
    var n := |team|;
    var c := Cycle(team, m + n);
    DivExact(m, n);
    forall j | 0 <= j < n
      ensures c[m + j] == team[j]
    {
      ModShift(m / n, n, j);
    }
    assert c == Cycle(team, m) + team;
  }

  /** `Vec::truncate`: nothing past the first `n` entries. */
  function Truncate<R>(s: seq<R>, n: nat): (r: seq<R>)
    ensures |r| == (if |s| < n then |s| else n)
    ensures forall i :: 0 <= i < |r| ==> r[i] == s[i]
  {
    if |s| <= n then s else s[..n]
  }

  /** Truncating a padded team to its size gives the team back. */
  lemma TruncateCycle<R>(team: seq<R>, n: nat)
    requires |team| > 0 && n >= |team|
    ensures Truncate(Cycle(team, n), |team|) == team
  {
    var c := Cycle(team, n);
    forall i | 0 <= i < |team|
      ensures c[i] == team[i]
    {
      assert i % |team| == i;
    }
  }

  /** The two teams as the rater sees them: both cycled to the lcm of their sizes. */
  function Padded<R>(winners: seq<R>, losers: seq<R>): (r: seq<seq<R>>)
    requires |winners| > 0 && |losers| > 0
    ensures |r| == 2 && |r[0]| == |r[1]| == Lcm(|winners|, |losers|)
  {
    var n := Lcm(|winners|, |losers|);
    [Cycle(winners, n), Cycle(losers, n)]
  }

  /** Cycling to a multiple of the team's size gives that many copies. */
  lemma CycleToMultiple<R>(team: seq<R>, n: nat)
    requires |team| > 0 && n % |team| == 0
    ensures Cycle(team, n) == Repeat(team, n / |team|)
  {
    var k := n / |team|;
    DivExact(n, |team|);
    assert k * |team| == n;
    CycleIsRepeat(team, k);
  }

  /** Each padded team is a whole number of copies of its team. */
  lemma PaddedAreCopies<R>(winners: seq<R>, losers: seq<R>)
    requires |winners| > 0 && |losers| > 0
    ensures var n := Lcm(|winners|, |losers|);
      Padded(winners, losers) == [Repeat(winners, n / |winners|), Repeat(losers, n / |losers|)]
  {
    var n := Lcm(|winners|, |losers|);
    CycleToMultiple(winners, n);
    CycleToMultiple(losers, n);
  }

  // ---------------------------------------------------------------------
  // compute_new_ratings
  // ---------------------------------------------------------------------

  /**
   * `compute_new_ratings`: an empty team leaves both teams as they are;
   * otherwise both are padded, rated with winners first, and cut back.
   */
  function NewRatings<R>(winners: seq<R>, losers: seq<R>, rater: Rater<R>): (r: Result<(seq<R>, seq<R>), RatingError>)
    ensures winners == [] || losers == [] ==> r == Ok((winners, losers))
    ensures r.Ok? ==> |r.value.0| <= |winners| && |r.value.1| <= |losers|
  {
    if winners == [] || losers == [] then Ok((winners, losers))
    else
      match rater(Beta, Padded(winners, losers), Ranks)
      case None => Err(RaterFailed)
      case Some(outs) =>
        if |outs| < 1 then Err(NoWinnerRatings)
        else if |outs| < 2 then Err(NoLoserRatings)
        else Ok((Truncate(outs[0], |winners|), Truncate(outs[1], |losers|)))
  }

  /** With both teams non-empty, the result is the rater's first two lists, each cut to its team's size. */
  lemma NewRatingsRated<R>(winners: seq<R>, losers: seq<R>, rater: Rater<R>)
    requires winners != [] && losers != []
    ensures var o := rater(Beta, Padded(winners, losers), [1, 2]);
      var r := NewRatings(winners, losers, rater);
      (r.Ok? <==> o.Some? && |o.value| >= 2) &&
      (r.Ok? ==> forall i :: 0 <= i < |r.value.0| ==> r.value.0[i] == o.value[0][i]) &&
      (r.Ok? ==> forall i :: 0 <= i < |r.value.1| ==> r.value.1[i] == o.value[1][i]) &&
      (o.None? ==> r == Err(RaterFailed))
  {
  }

  /** A rater that keeps the shape of the teams yields ratings for exactly the given players. */
  lemma NewRatingsLengths<R(!new)>(winners: seq<R>, losers: seq<R>, rater: Rater<R>)
    requires KeepsShape(rater)
    requires winners == [] || losers == [] || rater(Beta, Padded(winners, losers), Ranks).Some?
    ensures var r := NewRatings(winners, losers, rater);
      r.Ok? && |r.value.0| == |winners| && |r.value.1| == |losers|
  {
    if winners != [] && losers != [] {
      var teams := Padded(winners, losers);
      assert |rater(Beta, teams, Ranks).value| == |teams|;
      assert |rater(Beta, teams, Ranks).value[0]| == |teams[0]|;
      assert |rater(Beta, teams, Ranks).value[1]| == |teams[1]|;
    }
  }

  /** Truncation undoes padding: a rater that changes nothing gives both teams back. */
  lemma NewRatingsUnchanged<R>(winners: seq<R>, losers: seq<R>)
    ensures NewRatings(winners, losers, (beta, teams, ranks) => Some(teams)) == Ok((winners, losers))
  {
    if winners != [] && losers != [] {
      var n := Lcm(|winners|, |losers|);
      TruncateCycle(winners, n);
      TruncateCycle(losers, n);
    }
  }

  /** The loop of `compute_new_ratings` that pads both teams to their lcm. */
  method PadTeams<R>(winners: seq<R>, losers: seq<R>) returns (paddedWinners: seq<R>, paddedLosers: seq<R>)
    requires |winners| > 0 && |losers| > 0
    ensures [paddedWinners, paddedLosers] == Padded(winners, losers)
  {
    var n := Lcm(|winners|, |losers|);
    paddedWinners, paddedLosers := [], [];
    for i := 0 to n
      invariant |paddedWinners| == i && forall j :: 0 <= j < i ==> paddedWinners[j] == winners[j % |winners|]
      invariant |paddedLosers| == i && forall j :: 0 <= j < i ==> paddedLosers[j] == losers[j % |losers|]
    {
      paddedWinners := paddedWinners + [winners[i % |winners|]];
      paddedLosers := paddedLosers + [losers[i % |losers|]];
    }
    assert paddedWinners == Cycle(winners, n);
    assert paddedLosers == Cycle(losers, n);
  }

  /** `compute_new_ratings` step by step. */
  method ComputeNewRatings<R>(winners: seq<R>, losers: seq<R>, rater: Rater<R>) returns (r: Result<(seq<R>, seq<R>), RatingError>)
    ensures r == NewRatings(winners, losers, rater)
  {
    if winners == [] || losers == [] {
      return Ok((winners, losers));
    }
    var paddedWinners, paddedLosers := PadTeams(winners, losers);
    var rated := rater(Beta, [paddedWinners, paddedLosers], [1, 2]);
    if rated.None? {
      return Err(RaterFailed);
    }
    var outs := rated.value;
    if |outs| < 1 {
      return Err(NoWinnerRatings);
    }
    var winnerRatings := Truncate(outs[0], |winners|);
    if |outs| < 2 {
      return Err(NoLoserRatings);
    }
    var loserRatings := Truncate(outs[1], |losers|);
    r := Ok((winnerRatings, loserRatings));
  }

  // ---------------------------------------------------------------------
  // compute_potential_ratings
  // ---------------------------------------------------------------------

  /** `keys` lists every key of `team` once, in some order. */
  ghost predicate Listing<K(!new), R>(team: map<K, R>, keys: seq<K>)
  {
    (forall k :: k in team <==> k in keys) &&
    (forall i, j :: 0 <= i < j < |keys| ==> keys[i] != keys[j])
  }

  /** The ratings of the listed keys, in the same order. */
  function RatingsOf<K, R>(team: map<K, R>, keys: seq<K>): (r: seq<R>)
    requires forall i :: 0 <= i < |keys| ==> keys[i] in team
    ensures |r| == |keys| && forall i :: 0 <= i < |keys| ==> r[i] == team[keys[i]]
  {
    seq(|keys|, i requires 0 <= i < |keys| => team[keys[i]])
  }

  /** The loop over `team.iter()`: the keys, in the map's own order, and their ratings alongside. */
  method ListTeam<K(==,!new), R>(team: map<K, R>) returns (keys: seq<K>, ratings: seq<R>)
    ensures Listing(team, keys)
    ensures |ratings| == |keys| && forall i :: 0 <= i < |keys| ==> keys[i] in team && ratings[i] == team[keys[i]]
  {
    var rest := team.Keys;
    keys, ratings := [], [];
    while rest != {}
      invariant forall k :: k in team <==> k in keys || k in rest
      invariant forall k :: k in keys ==> k !in rest
      invariant forall i, j :: 0 <= i < j < |keys| ==> keys[i] != keys[j]
      invariant |ratings| == |keys| && forall i :: 0 <= i < |keys| ==> keys[i] in team && ratings[i] == team[keys[i]]
      decreases rest
    {
      var k :| k in rest;
      keys := keys + [k];
      ratings := ratings + [team[k]];
      rest := rest - {k};
    }
  }

  /** Both scenarios, each as the new ratings of team 1 and team 2, keyed by player. */
  type Scenarios<K, R> = ((map<K, R>, map<K, R>), (map<K, R>, map<K, R>))

  /**
   * `compute_potential_ratings` for given listings of the two teams: team 1
   * wins, then team 2 wins, each re-keyed by zipping the listing with the
   * new ratings.
   */
  function Potential<K(==,!new), R>(team1: map<K, R>, team2: map<K, R>, keys1: seq<K>, keys2: seq<K>, rater: Rater<R>): (r: Result<Scenarios<K, R>, RatingError>)
    requires forall i :: 0 <= i < |keys1| ==> keys1[i] in team1
    requires forall i :: 0 <= i < |keys2| ==> keys2[i] in team2
    ensures r.Ok? ==> forall k :: k in r.value.0.0 || k in r.value.1.0 ==> k in keys1
    ensures r.Ok? ==> forall k :: k in r.value.0.1 || k in r.value.1.1 ==> k in keys2
  {
    var ratings1, ratings2 := RatingsOf(team1, keys1), RatingsOf(team2, keys2);
    var first :- NewRatings(ratings1, ratings2, rater);
    var second :- NewRatings(ratings2, ratings1, rater);
    Ok(((Collections.ZipMap(keys1, first.0), Collections.ZipMap(keys2, first.1)),
        (Collections.ZipMap(keys1, second.1), Collections.ZipMap(keys2, second.0))))
  }

  /** `compute_potential_ratings`: the teams are listed in whatever order the maps give. */
  method ComputePotentialRatings<K(==,!new), R>(team1: map<K, R>, team2: map<K, R>, rater: Rater<R>) returns (r: Result<Scenarios<K, R>, RatingError>)
    ensures exists keys1, keys2 :: Listing(team1, keys1) && Listing(team2, keys2) &&
                                  r == Potential(team1, team2, keys1, keys2, rater)
  {
    var keys1, ratings1 := ListTeam(team1);
    var keys2, ratings2 := ListTeam(team2);
    assert ratings1 == RatingsOf(team1, keys1);
    assert ratings2 == RatingsOf(team2, keys2);
    var first := ComputeNewRatings(ratings1, ratings2, rater);
    if first.Err? {
      return Err(first.error);
    }
    var team1WinsTeam1 := Collections.ZipMap(keys1, first.value.0);
    var team1WinsTeam2 := Collections.ZipMap(keys2, first.value.1);
    var second := ComputeNewRatings(ratings2, ratings1, rater);
    if second.Err? {
      return Err(second.error);
    }
    var team2WinsTeam1 := Collections.ZipMap(keys1, second.value.1);
    var team2WinsTeam2 := Collections.ZipMap(keys2, second.value.0);
    r := Ok(((team1WinsTeam1, team1WinsTeam2), (team2WinsTeam1, team2WinsTeam2)));
  }

  /** Team 2 winning is team 1 winning with the teams passed the other way round. */
  lemma PotentialSwapped<K(!new), R>(team1: map<K, R>, team2: map<K, R>, keys1: seq<K>, keys2: seq<K>, rater: Rater<R>)
    requires forall i :: 0 <= i < |keys1| ==> keys1[i] in team1
    requires forall i :: 0 <= i < |keys2| ==> keys2[i] in team2
    ensures var r, s := Potential(team1, team2, keys1, keys2, rater), Potential(team2, team1, keys2, keys1, rater);
      (r.Ok? <==> s.Ok?) && (r.Ok? ==> r.value.1 == (s.value.0.1, s.value.0.0) && r.value.0 == (s.value.1.1, s.value.1.0))
  {
  }

  /** With a shape-keeping rater that succeeds, every result map has exactly its team's keys. */
  lemma PotentialKeys<K(!new), R(!new)>(team1: map<K, R>, team2: map<K, R>, keys1: seq<K>, keys2: seq<K>, rater: Rater<R>)
    requires Listing(team1, keys1) && Listing(team2, keys2) && KeepsShape(rater)
    requires Potential(team1, team2, keys1, keys2, rater).Ok?
    ensures var s := Potential(team1, team2, keys1, keys2, rater).value;
      s.0.0.Keys == s.1.0.Keys == team1.Keys && s.0.1.Keys == s.1.1.Keys == team2.Keys
  {
    var ratings1, ratings2 := RatingsOf(team1, keys1), RatingsOf(team2, keys2);
    var first, second := NewRatings(ratings1, ratings2, rater), NewRatings(ratings2, ratings1, rater);
    NewRatingsShape(ratings1, ratings2, rater);
    NewRatingsShape(ratings2, ratings1, rater);
  }

  /** A successful call with a shape-keeping rater keeps both teams' sizes. */
  lemma NewRatingsShape<R(!new)>(winners: seq<R>, losers: seq<R>, rater: Rater<R>)
    requires KeepsShape(rater) && NewRatings(winners, losers, rater).Ok?
    ensures |NewRatings(winners, losers, rater).value.0| == |winners|
    ensures |NewRatings(winners, losers, rater).value.1| == |losers|
  {
    if winners != [] && losers != [] {
      NewRatingsLengths(winners, losers, rater);
    }
  }

  /** Each player gets the new rating at the position its old rating was passed in. */
  lemma PotentialPlacement<K(!new), R>(team1: map<K, R>, team2: map<K, R>, keys1: seq<K>, keys2: seq<K>, rater: Rater<R>, i: nat)
    requires Listing(team1, keys1) && Listing(team2, keys2)
    requires Potential(team1, team2, keys1, keys2, rater).Ok?
    ensures var ratings1, ratings2 := RatingsOf(team1, keys1), RatingsOf(team2, keys2);
      var s := Potential(team1, team2, keys1, keys2, rater).value;
      var first, second := NewRatings(ratings1, ratings2, rater).value, NewRatings(ratings2, ratings1, rater).value;
      (i < |first.0| ==> s.0.0[keys1[i]] == first.0[i]) &&
      (i < |first.1| ==> s.0.1[keys2[i]] == first.1[i]) &&
      (i < |second.1| ==> s.1.0[keys1[i]] == second.1[i]) &&
      (i < |second.0| ==> s.1.1[keys2[i]] == second.0[i])
  {
    var ratings1, ratings2 := RatingsOf(team1, keys1), RatingsOf(team2, keys2);
    var first, second := NewRatings(ratings1, ratings2, rater).value, NewRatings(ratings2, ratings1, rater).value;
    if i < |first.0| { Collections.ZipMapAt(keys1, first.0, i); }
    if i < |first.1| { Collections.ZipMapAt(keys2, first.1, i); }
    if i < |second.1| { Collections.ZipMapAt(keys1, second.1, i); }
    if i < |second.0| { Collections.ZipMapAt(keys2, second.0, i); }
  }
}
