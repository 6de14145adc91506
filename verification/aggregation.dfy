/**
 * The stats aggregator: `processPlayerStats` rebuilds the page-wide
 * `playerStats` map from the bet history, counting only the first bet of
 * every round.
 */
module Aggregation {
  import opened Bets

  /** The per-player record `processPlayerStats` keeps. */
  datatype PlayerStats = PlayerStats(totalBets: nat, wins: nat, losses: nat, totalSpent: int)

  /** The record created for a player seen for the first time. */
  const Zero := PlayerStats(0, 0, 0, 0)

  /**
   * What one counted bet does to its player's record: one more bet, which
   * is a win exactly when it paid out and a loss otherwise, and its stake
   * added to the total spent.
   */
  function Record(s: PlayerStats, b: Bet): (r: PlayerStats)
    ensures r.totalBets == s.totalBets + 1
    ensures r.wins + r.losses - r.totalBets == s.wins + s.losses - s.totalBets
    ensures r.wins == s.wins + 1 <==> IsWin(b)
    ensures r.losses == s.losses + 1 <==> !IsWin(b)
    ensures r.totalSpent == s.totalSpent + b.amount
  {
    PlayerStats(
      s.totalBets + 1,
      if IsWin(b) then s.wins + 1 else s.wins,
      if IsWin(b) then s.losses else s.losses + 1,
      s.totalSpent + b.amount)
  }

  /**
   * One iteration of the `forEach` body, applied to the map: the bettor
   * gets a key (a zeroed record if new) and one more bet; every other
   * player's record is untouched.
   */
  function Tally(m: map<Address, PlayerStats>, b: Bet): (r: map<Address, PlayerStats>)
    ensures r.Keys == m.Keys + {b.player}
    ensures r[b.player] == Record(if b.player in m then m[b.player] else Zero, b)
    ensures forall q :: q in m && q != b.player ==> r[q] == m[q]
  {
    var s := if b.player in m then m[b.player] else Zero;
    m[b.player := Record(s, b)]
  }

  /** Every stored player has at least one bet, and wins and losses add up to the bets. */
  predicate Consistent(m: map<Address, PlayerStats>) {
    forall p :: p in m ==> m[p].totalBets >= 1 && m[p].wins + m[p].losses == m[p].totalBets
  }

  /**
   * The map `processPlayerStats` leaves behind: the single pass, from an
   * empty map. Its keys are the first bettors, each with at least one bet
   * and with wins and losses adding up to the bets.
   */
  function Aggregate(h: seq<Round>): (r: map<Address, PlayerStats>)
    requires AllHaveFirstBet(h)
    ensures Consistent(r)
  {
    if h == [] then map[] else Tally(Aggregate(h[..|h| - 1]), h[|h| - 1].bets[0])
  }

  // ---------------------------------------------------------------------
  // An independent description of each player's record: filter the first
  // bets by player, then count and sum.
  // ---------------------------------------------------------------------

  /** The first bets of the rounds whose first bettor is `p`, in history order. */
  function BetsOf(h: seq<Round>, p: Address): seq<Bet>
    requires AllHaveFirstBet(h)
  {
    if h == [] then []
    else (if h[0].bets[0].player == p then [h[0].bets[0]] else []) + BetsOf(h[1..], p)
  }

  /** Number of bets in `bs` with a positive payout. */
  function Wins(bs: seq<Bet>): nat {
    if bs == [] then 0 else (if IsWin(bs[0]) then 1 else 0) + Wins(bs[1..])
  }

  /** Number of bets in `bs` with a zero or negative payout. */
  function Losses(bs: seq<Bet>): nat {
    if bs == [] then 0 else (if IsWin(bs[0]) then 0 else 1) + Losses(bs[1..])
  }

  /** Sum of the stakes in `bs`. */
  function Spent(bs: seq<Bet>): int {
    if bs == [] then 0 else bs[0].amount + Spent(bs[1..])
  }

  /** The record a list of bets amounts to. */
  function Summary(bs: seq<Bet>): PlayerStats {
    PlayerStats(|bs|, Wins(bs), Losses(bs), Spent(bs))
  }

  // ---------------------------------------------------------------------
  // Lemmas
  // ---------------------------------------------------------------------

  /** Every bet is either a win or a loss, never both. */
  lemma {:induction false} WinsPlusLosses(bs: seq<Bet>)
    ensures Wins(bs) + Losses(bs) == |bs|
  {
    if bs != [] {
      WinsPlusLosses(bs[1..]);
    }
  }

  /** Appending one bet to a list records it, exactly as `Record` does. */
  lemma {:induction false} SummarySnoc(bs: seq<Bet>, b: Bet)
    ensures Summary(bs + [b]) == Record(Summary(bs), b)
  {
    if bs == [] {
      assert [b][1..] == [];
    } else {
      assert (bs + [b])[1..] == bs[1..] + [b];
      SummarySnoc(bs[1..], b);
    }
  }

  /** Filtering a history extended by one round. */
  lemma {:induction false} BetsOfSnoc(h: seq<Round>, r: Round, p: Address)
    requires AllHaveFirstBet(h) && |r.bets| > 0
    ensures AllHaveFirstBet(h + [r])
    ensures BetsOf(h + [r], p) == BetsOf(h, p) + (if r.bets[0].player == p then [r.bets[0]] else [])
  {
    assert forall i :: 0 <= i < |h| ==> (h + [r])[i] == h[i];
    if h == [] {
      assert [r][1..] == [];
    } else {
      assert (h + [r])[1..] == h[1..] + [r];
      BetsOfSnoc(h[1..], r, p);
    }
  }

  /**
   * The map built by the single pass holds, for each player, exactly the
   * record of that player's first bets: a key exists iff the player was the
   * first bettor of some round, and its record counts those rounds, their
   * wins and losses and sums their stakes.
   */
  lemma {:induction false} AggregateMatchesHistory(h: seq<Round>, p: Address)
    requires AllHaveFirstBet(h)
    ensures p in Aggregate(h) <==> p in FirstBettors(h)
    ensures p in Aggregate(h) <==> |BetsOf(h, p)| > 0
    ensures p in Aggregate(h) ==> Aggregate(h)[p] == Summary(BetsOf(h, p))
  {
    if h != [] {
      var h', r := h[..|h| - 1], h[|h| - 1];
      assert h == h' + [r];
      AggregateMatchesHistory(h', p);
      BetsOfSnoc(h', r, p);
      var b := r.bets[0];
      assert Aggregate(h) == Tally(Aggregate(h'), b);
      if b.player == p {
        SummarySnoc(BetsOf(h', p), b);
        if p !in Aggregate(h') {
          assert BetsOf(h', p) == [];
          assert Summary(BetsOf(h', p)) == Zero;
        }
        assert BetsOf(h, p) == BetsOf(h', p) + [b];
        assert Aggregate(h)[p] == Record(Summary(BetsOf(h', p)), b);
      } else {
        assert BetsOf(h, p) == BetsOf(h', p) + [] == BetsOf(h', p);
      }
    }
  }

  /** The keys of the map are exactly the first bettors of the history. */
  lemma AggregateKeys(h: seq<Round>)
    requires AllHaveFirstBet(h)
    ensures Aggregate(h).Keys == set p | p in FirstBettors(h)
  {
    forall p ensures p in Aggregate(h) <==> p in FirstBettors(h) {
      AggregateMatchesHistory(h, p);
    }
  }

  /**
   * Every stored record is consistent: each counted round is a win or a
   * loss, and every stored player has at least one bet (so the roster's
   * win rate never divides by zero). This is `Aggregate`'s own guarantee;
   * `SummaryConsistent` derives the same facts from the independent
   * description.
   */
  lemma StatsConsistent(h: seq<Round>)
    requires AllHaveFirstBet(h)
    ensures forall p :: p in Aggregate(h) ==>
      Aggregate(h)[p].wins + Aggregate(h)[p].losses == Aggregate(h)[p].totalBets
    ensures forall p :: p in Aggregate(h) ==> Aggregate(h)[p].totalBets >= 1
  {
  }

  /**
   * The independent description is consistent too: a player who was the
   * first bettor of some round has a summary with at least one bet, whose
   * wins and losses add up to its bets.
   */
  lemma SummaryConsistent(h: seq<Round>, p: Address)
    requires AllHaveFirstBet(h)
    requires p in FirstBettors(h)
    ensures Summary(BetsOf(h, p)).totalBets >= 1
    ensures Summary(BetsOf(h, p)).wins + Summary(BetsOf(h, p)).losses == Summary(BetsOf(h, p)).totalBets
  {
    AggregateMatchesHistory(h, p);
    WinsPlusLosses(BetsOf(h, p));
  }

  /** Counting two bets commutes, whoever placed them. */
  lemma TallyCommutes(m: map<Address, PlayerStats>, a: Bet, b: Bet)
    ensures Tally(Tally(m, a), b) == Tally(Tally(m, b), a)
  {
  }

  /** Extending the history by one round counts that round's first bet. */
  lemma AggregateSnoc(h: seq<Round>, r: Round)
    requires AllHaveFirstBet(h) && |r.bets| > 0
    ensures AllHaveFirstBet(h + [r])
    ensures Aggregate(h + [r]) == Tally(Aggregate(h), r.bets[0])
  {
    assert (h + [r])[..|h|] == h;
  }

  /**
   * The order of the history does not matter: swapping two neighbouring
   * rounds, wherever they are, gives the same map.
   */
  lemma {:induction false} AggregateSwap(p: seq<Round>, a: Round, b: Round, s: seq<Round>)
    requires AllHaveFirstBet(p + [a, b] + s)
    ensures AllHaveFirstBet(p + [b, a] + s)
    ensures Aggregate(p + [b, a] + s) == Aggregate(p + [a, b] + s)
    decreases |s|
  {
    var x, y := p + [a, b] + s, p + [b, a] + s;
    assert x[|p|] == a && x[|p| + 1] == b;
    assert forall i :: 0 <= i < |x| ==> y[i] == (if i == |p| then b else if i == |p| + 1 then a else x[i]);
    if s == [] {
      assert p == x[..|p|];
      assert x == p + [a] + [b] && y == p + [b] + [a];
      AggregateSnoc(p, a);
      AggregateSnoc(p + [a], b);
      AggregateSnoc(p, b);
      AggregateSnoc(p + [b], a);
      TallyCommutes(Aggregate(p), a.bets[0], b.bets[0]);
    } else {
      var s', c := s[..|s| - 1], s[|s| - 1];
      assert x == (p + [a, b] + s') + [c] && y == (p + [b, a] + s') + [c];
      assert (p + [a, b] + s') == x[..|x| - 1] && c == x[|x| - 1];
      AggregateSwap(p, a, b, s');
      AggregateSnoc(p + [a, b] + s', c);
      AggregateSnoc(p + [b, a] + s', c);
    }
  }

  /** A round can be moved past any stretch of later rounds without changing the map. */
  lemma {:induction false} AggregateMoveToEnd(p: seq<Round>, x: Round, s: seq<Round>)
    requires AllHaveFirstBet(p + [x] + s)
    ensures AllHaveFirstBet(p + s + [x])
    ensures Aggregate(p + s + [x]) == Aggregate(p + [x] + s)
    decreases |s|
  {
    if s == [] {
      assert p + s + [x] == p + [x] + s;
    } else {
      var c, s'' := s[0], s[1..];
      var y, z, w := p + [x] + s, p + [c] + [x] + s'', p + s + [x];
      assert y == p + [x, c] + s'';
      assert z == p + [c, x] + s'';
      assert w == (p + [c]) + s'' + [x];
      AggregateSwap(p, x, c, s'');
      AggregateMoveToEnd(p + [c], x, s'');
    }
  }

  /** A reordered history still has a first bet in every round. */
  lemma PermutationHasFirstBets(h: seq<Round>, g: seq<Round>)
    requires AllHaveFirstBet(h) && multiset(h) == multiset(g)
    ensures AllHaveFirstBet(g)
  {
    forall i | 0 <= i < |g| ensures |g[i].bets| > 0 {
      assert g[i] in multiset(h);
      var j :| 0 <= j < |h| && h[j] == g[i];
    }
  }

  /** Taking the last round of `h` out of `g` where it occurs leaves two histories that are still reorderings of each other. */
  lemma SplitAt(h: seq<Round>, g: seq<Round>) returns (g1: seq<Round>, g2: seq<Round>)
    requires h != [] && multiset(h) == multiset(g)
    ensures g == g1 + [h[|h| - 1]] + g2
    ensures multiset(h[..|h| - 1]) == multiset(g1 + g2)
  {
    var x := h[|h| - 1];
    assert h == h[..|h| - 1] + [x];
    assert x in multiset(g);
    var k :| 0 <= k < |g| && g[k] == x;
    g1, g2 := g[..k], g[k + 1..];
    assert g == g1 + [x] + g2;
    var h' := h[..|h| - 1];
    assert multiset(g) == multiset(g1 + g2) + multiset{x} by {
      assert g == (g1 + g2)[..k] + [x] + (g1 + g2)[k..];
      assert g1 + g2 == (g1 + g2)[..k] + (g1 + g2)[k..];
    }
    assert multiset(h) == multiset(h') + multiset{x};
    assert multiset(h') == multiset(h) - multiset{x};
    assert multiset(g1 + g2) == multiset(g) - multiset{x};
  }

  /**
   * The order of the history does not matter: any reordering of the rounds
   * (two histories with the same multiset of rounds) gives the same map.
   */
  lemma {:induction false} AggregatePermutation(h: seq<Round>, g: seq<Round>)
    requires AllHaveFirstBet(h) && multiset(h) == multiset(g)
    ensures AllHaveFirstBet(g)
    ensures Aggregate(g) == Aggregate(h)
    decreases |h|
  {
    PermutationHasFirstBets(h, g);
    if h != [] {
      var h', x := h[..|h| - 1], h[|h| - 1];
      assert h == h' + [x];
      var g1, g2 := SplitAt(h, g);
      assert AllHaveFirstBet(h');
      AggregateMoveToEnd(g1, x, g2);
      AggregatePermutation(h', g1 + g2);
      calc {
        Aggregate(g);
        Aggregate(g1 + g2 + [x]);
        { AggregateSnoc(g1 + g2, x); }
        Tally(Aggregate(g1 + g2), x.bets[0]);
        Tally(Aggregate(h'), x.bets[0]);
        { AggregateSnoc(h', x); }
        Aggregate(h);
      }
    }
  }

  /** The scenario of two rounds by one player: a paid round and an unpaid one. */
  lemma TwoRoundScenario()
    ensures var h := [Round(1, 0, [Bet("0xA", 10, 20, "red")]), Round(2, 0, [Bet("0xA", 5, 0, "black")])];
      AllHaveFirstBet(h) && Aggregate(h) == map["0xA" := PlayerStats(2, 1, 1, 15)]
  {
    var h := [Round(1, 0, [Bet("0xA", 10, 20, "red")]), Round(2, 0, [Bet("0xA", 5, 0, "black")])];
    assert h[..1][..0] == [];
  }

  /** One turn of the loop in `processPlayerStats` extends the aggregate by round `i`. */
  lemma LoopStep(history: seq<Round>, i: nat, m: map<Address, PlayerStats>, s: PlayerStats)
    requires i < |history| && |history[i].bets| > 0
    requires AllHaveFirstBet(history[..i]) && m == Aggregate(history[..i])
    requires var b := history[i].bets[0]; s == Record(if b.player in m then m[b.player] else Zero, b)
    ensures AllHaveFirstBet(history[..i + 1])
    ensures Aggregate(history[..i + 1]) == m[history[i].bets[0].player := s]
  {
    assert history[..i + 1] == history[..i] + [history[i]];
    AggregateSnoc(history[..i], history[i]);
  }

  // ---------------------------------------------------------------------
  // The page-wide `playerStats` map and the method that rebuilds it
  // ---------------------------------------------------------------------

  /** How a run of `processPlayerStats` ends. */
  datatype Outcome =
    | Completed
      /** `item.bets[0].player` threw because round `at` has no bets. */
    | NoFirstBet(at: nat)

  class StatsTable {
    /** `playerStats`: player address to record. */
    var playerStats: map<Address, PlayerStats>

    constructor ()
      ensures playerStats == map[]
    {
      playerStats := map[];
    }

    /**
     * `processPlayerStats(history)`. It clears the map, so the result does
     * not depend on earlier calls. A round without bets throws in the
     * source; the model returns `NoFirstBet` instead, with the map holding
     * what the rounds before it had already recorded.
     */
    method ProcessPlayerStats(history: seq<Round>) returns (outcome: Outcome)
      modifies this
      ensures outcome.Completed? <==> AllHaveFirstBet(history)
      ensures outcome.Completed? ==> playerStats == Aggregate(history)
      ensures outcome.NoFirstBet? ==>
        && outcome.at < |history|
        && |history[outcome.at].bets| == 0
        && AllHaveFirstBet(history[..outcome.at])
        && playerStats == Aggregate(history[..outcome.at])
    {
      playerStats := map[];
      var i := 0;
      while i < |history|
        invariant 0 <= i <= |history|
        invariant AllHaveFirstBet(history[..i])
        invariant playerStats == Aggregate(history[..i])
      {
        var item := history[i];
        if |item.bets| == 0 {
          return NoFirstBet(i);
        }
        ghost var before := playerStats;
        var bet := item.bets[0];
        var player := bet.player;
        if player !in playerStats {
          playerStats := playerStats[player := Zero];
        }
        var stats := playerStats[player];
        stats := stats.(totalBets := stats.totalBets + 1, totalSpent := stats.totalSpent + bet.amount);
        if bet.winAmount > 0 {
          stats := stats.(wins := stats.wins + 1);
        } else {
          stats := stats.(losses := stats.losses + 1);
        }
        assert stats == Record(if player in before then before[player] else Zero, bet);
        playerStats := playerStats[player := stats];
        assert playerStats == before[player := stats];
        LoopStep(history, i, before, stats);
        i := i + 1;
      }
      assert history[..i] == history;
      return Completed;
    }
  }
}
