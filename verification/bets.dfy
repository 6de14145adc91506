/** The records the dashboard reads from the history API and the ENS API. */
module Bets {

  /** A player's wallet address, as the history API spells it. */
  type Address = string

  /** JavaScript's `null` / absent value. */
  datatype Option<T> = None | Some(value: T)

  /**
   * One bet of a round. Amounts are JSON numbers in the source; here they
   * are integers (the model leaves floating point out).
   */
  datatype Bet = Bet(player: Address, amount: int, winAmount: int, spinResult: string)

  /** One history item: a roulette round and the bets placed in it, in API order. */
  datatype Round = Round(round: int, timestamp: int, bets: seq<Bet>)

  /** The JSON object the ENS API returns for an address; both fields may be absent. */
  datatype Identity = Identity(displayName: Option<string>, avatar: Option<string>)

  /** A bet is a win exactly when it paid out something: `winAmount > 0`. */
  predicate IsWin(b: Bet) {
    b.winAmount > 0
  }

  /** Every round has a first bet, so `item.bets[0].player` can be read. */
  predicate AllHaveFirstBet(h: seq<Round>) {
    forall i :: 0 <= i < |h| ==> |h[i].bets| > 0
  }

  /** `history.map(item => item.bets[0].player)`: the first bettor of every round, in order. */
  function FirstBettors(h: seq<Round>): (ps: seq<Address>)
    requires AllHaveFirstBet(h)
    ensures |ps| == |h|
    ensures forall i :: 0 <= i < |h| ==> ps[i] == h[i].bets[0].player
  {
    if h == [] then [] else FirstBettors(h[..|h| - 1]) + [h[|h| - 1].bets[0].player]
  }
}
