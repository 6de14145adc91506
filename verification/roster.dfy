/**
 * The roster's player list: `new Set(history.map(item => item.bets[0].player))`,
 * iterated in insertion order, and what the roster reads from the stats map
 * for each listed player.
 */
module Roster {
  import opened Bets
  import Aggregation

  /**
   * Adding the elements of `s` one by one to a JavaScript `Set` and reading
   * it back in insertion order. Nothing is invented and nothing is lost, and
   * the list is never longer than the input.
   */
  function Distinct(s: seq<Address>): (r: seq<Address>)
    ensures |r| <= |s|
    ensures forall x :: x in r <==> x in s
  {
    if s == [] then []
    else
      var d := Distinct(s[..|s| - 1]);
      if s[|s| - 1] in d then d else d + [s[|s| - 1]]
  }

  /** Index of the first occurrence of `x` in `s`. */
  function FirstIndex(s: seq<Address>, x: Address): (i: nat)
    requires x in s
    ensures i < |s| && s[i] == x && x !in s[..i]
  {
    if s[0] == x then 0 else 1 + FirstIndex(s[1..], x)
  }

  /** The first occurrence of an element is unaffected by appending to the sequence. */
  lemma {:induction false} FirstIndexSnoc(s: seq<Address>, y: Address, x: Address)
    requires x in s
    ensures FirstIndex(s + [y], x) == FirstIndex(s, x)
  {
    if s[0] != x {
      assert (s + [y])[1..] == s[1..] + [y];
      FirstIndexSnoc(s[1..], y, x);
    }
  }

  /** An element first seen at the end of the sequence has its first occurrence there. */
  lemma {:induction false} FirstIndexLast(s: seq<Address>, y: Address)
    requires y !in s
    ensures FirstIndex(s + [y], y) == |s|
  {
    if s != [] {
      assert (s + [y])[1..] == s[1..] + [y];
      FirstIndexLast(s[1..], y);
    }
  }

  /** The list holds the same players as the input, each exactly once. */
  lemma {:induction false} DistinctElements(s: seq<Address>)
    ensures forall x :: x in Distinct(s) <==> x in s
    ensures forall i, j :: 0 <= i < j < |Distinct(s)| ==> Distinct(s)[i] != Distinct(s)[j]
  {
    if s != [] {
      var s' := s[..|s| - 1];
      assert s == s' + [s[|s| - 1]];
      DistinctElements(s');
    }
  }

  /** The list is in first-seen order: earlier entries were first seen earlier in the input. */
  lemma {:induction false} DistinctFirstSeenOrder(s: seq<Address>)
    ensures forall x :: x in Distinct(s) ==> x in s
    ensures forall i, j :: 0 <= i < j < |Distinct(s)| ==>
      FirstIndex(s, Distinct(s)[i]) < FirstIndex(s, Distinct(s)[j])
  {
    DistinctElements(s);
    if s != [] {
      var s', y := s[..|s| - 1], s[|s| - 1];
      assert s == s' + [y];
      DistinctFirstSeenOrder(s');
      DistinctElements(s');
      var d', d := Distinct(s'), Distinct(s);
      forall x | x in d' ensures FirstIndex(s, x) == FirstIndex(s', x) {
        FirstIndexSnoc(s', y, x);
      }
      if y !in d' {
        FirstIndexLast(s', y);
        forall i | 0 <= i < |d'| ensures FirstIndex(s', d'[i]) < |s'| {
        }
      }
      forall i, j | 0 <= i < j < |d| ensures FirstIndex(s, d[i]) < FirstIndex(s, d[j]) {
        if j < |d'| {
          assert d[i] == d'[i] && d[j] == d'[j];
        } else {
          assert d[j] == y && d[i] == d'[i];
        }
      }
    }
  }

  /**
   * `uniquePlayers`: the first bettor of every round, once each, in
   * first-seen order.
   */
  function UniquePlayers(h: seq<Round>): (r: seq<Address>)
    requires AllHaveFirstBet(h)
    ensures forall p :: p in r <==> exists i :: 0 <= i < |h| && h[i].bets[0].player == p
    ensures forall i, j :: 0 <= i < j < |r| ==> r[i] != r[j]
    ensures forall i, j :: 0 <= i < j < |r| ==>
      r[i] in FirstBettors(h) && r[j] in FirstBettors(h) &&
      FirstIndex(FirstBettors(h), r[i]) < FirstIndex(FirstBettors(h), r[j])
  {
    DistinctElements(FirstBettors(h));
    DistinctFirstSeenOrder(FirstBettors(h));
    Distinct(FirstBettors(h))
  }

  /**
   * Every listed player has a record in the stats map with at least one
   * bet, so `playerStats.get(player)` is defined and the win rate
   * `wins / totalBets` never divides by zero; and every player in the map
   * is listed.
   */
  lemma RosterMatchesStats(h: seq<Round>)
    requires AllHaveFirstBet(h)
    ensures forall p :: p in UniquePlayers(h) <==> p in Aggregation.Aggregate(h)
    ensures forall p :: p in UniquePlayers(h) ==> Aggregation.Aggregate(h)[p].totalBets >= 1
  {
    DistinctElements(FirstBettors(h));
    Aggregation.AggregateKeys(h);
    Aggregation.StatsConsistent(h);
  }
}
