/**
 * The game snapshot, its players and the actions a player can send.
 * Snapshots are values: every transition builds a new one and never
 * alters the previous snapshot.
 */
module GameModel {
  import opened Options
  import opened Cards

  datatype Status = Pending | InProgress | RoundEnded | Ended

  /** A player's standing after a round; the scoring breakdown is not modelled. */
  datatype Score = Score(total: nat, isWinning: bool)

  /**
   * `scopa` holds one marker per sweep: the last card of the captured pile at
   * that moment, or `None` where the pile was empty (lodash `last` gives undefined).
   */
  datatype Player = Player(
    username: string,
    hand: seq<Card>,
    captured: seq<Card>,
    scopa: seq<Option<Card>>,
    score: Option<Score>)

  datatype GameState = GameState(
    deck: seq<Card>,
    table: seq<Card>,
    players: seq<Player>,
    activePlayer: string,
    latestCaptured: Option<string>,
    status: Status)

  datatype Action =
    | PlayOnTable(card: Card, playerName: string)
    | Capture(card: Card, tableCards: seq<Card>, playerName: string)
    | Undo(playerName: string)

  /**
   * The split into active player and opponent needs exactly two players,
   * exactly one of whom is the active player.
   */
  predicate TwoPlayers(s: GameState)
  {
    |s.players| == 2 &&
    ((s.players[0].username == s.activePlayer) != (s.players[1].username == s.activePlayer))
  }

  function ActiveIndex(s: GameState): (i: nat)
    requires TwoPlayers(s)
    ensures i < 2
    ensures s.players[i].username == s.activePlayer
    ensures s.players[1 - i].username != s.activePlayer
  {
    if s.players[0].username == s.activePlayer then 0 else 1
  }

  function Active(s: GameState): Player
    requires TwoPlayers(s)
  {
    s.players[ActiveIndex(s)]
  }

  function Opponent(s: GameState): Player
    requires TwoPlayers(s)
  {
    s.players[1 - ActiveIndex(s)]
  }

  /** The cards a player holds: hand and captured pile (scopa markers are copies). */
  function Holding(p: Player): multiset<Card>
  {
    multiset(p.hand) + multiset(p.captured)
  }

  /** The multisets `f` gives for each element of `ps`, added up from the back. */
  function SumBy<P>(ps: seq<P>, f: P -> multiset<Card>): multiset<Card>
  {
    if ps == [] then multiset{} else SumBy(ps[..|ps| - 1], f) + f(ps[|ps| - 1])
  }

  /** The cards all the players hold. */
  function Holdings(ps: seq<Player>): multiset<Card>
  {
    SumBy(ps, Holding)
  }

  /** Every card of the snapshot: deck, table, hands and captured piles. */
  function AllCards(s: GameState): multiset<Card>
  {
    multiset(s.deck) + multiset(s.table) + Holdings(s.players)
  }

  lemma HoldingsOfTwo(ps: seq<Player>)
    requires |ps| == 2
    ensures Holdings(ps) == Holding(ps[0]) + Holding(ps[1])
  {
    HoldingsPrefix(ps, 2);
    HoldingsPrefix(ps, 1);
    assert ps[..0] == [] && ps[..2] == ps;
  }

  /** With two players, the holdings are the active player's plus the opponent's. */
  lemma HoldingsOfActive(s: GameState)
    requires TwoPlayers(s)
    ensures Holdings(s.players) == Holding(Active(s)) + Holding(Opponent(s))
  {
    HoldingsOfTwo(s.players);
  }

  /** The holdings of a prefix of players: those of the shorter prefix plus the next player's. */
  lemma HoldingsPrefix(ps: seq<Player>, n: nat)
    requires 0 < n <= |ps|
    ensures Holdings(ps[..n]) == Holdings(ps[..n - 1]) + Holding(ps[n - 1])
  {
    assert ps[..n][..n - 1] == ps[..n - 1];
  }

  /**
   * Changing the elements one at a time: when every element but `k` gives
   * the same multiset and element `k` gains `m`, the sum gains `m`.
   */
  lemma {:induction false} SumGain<P>(ps: seq<P>, qs: seq<P>, f: P -> multiset<Card>, k: nat, m: multiset<Card>)
    requires |ps| == |qs| && k < |ps|
    requires forall i :: 0 <= i < |ps| && i != k ==> f(qs[i]) == f(ps[i])
    requires f(qs[k]) == f(ps[k]) + m
    ensures SumBy(qs, f) == SumBy(ps, f) + m
  {
    var n := |ps|;
    if k == n - 1 {
      SumSame(ps[..n - 1], qs[..n - 1], f);
    } else {
      SumGain(ps[..n - 1], qs[..n - 1], f, k, m);
    }
  }

  /** Regrouping a sum of four multisets. */
  lemma Regroup<T>(a: multiset<T>, b: multiset<T>, c: multiset<T>, d: multiset<T>)
    ensures (a + b) + (c + d) == (a + c) + (b + d)
  {
  }

  /** Elements that each give the same multiset give the same sum. */
  lemma {:induction false} SumSame<P>(ps: seq<P>, qs: seq<P>, f: P -> multiset<Card>)
    requires |ps| == |qs|
    requires forall i :: 0 <= i < |ps| ==> f(qs[i]) == f(ps[i])
    ensures SumBy(qs, f) == SumBy(ps, f)
  {
    if ps != [] {
      var n := |ps|;
      SumSame(ps[..n - 1], qs[..n - 1], f);
    }
  }
}
