/**
 * The end of a turn, `calculatePlayerTurn`: closes out a finished round,
 * awards a scopa when the table was swept, and deals three more cards to
 * each player when every hand is empty.
 */
module RoundLifecycle {
  import opened Options
  import opened Cards
  import opened GameModel

  /** Every player's hand is empty. */
  predicate TurnFinished(s: GameState)
  {
    forall i :: 0 <= i < |s.players| ==> s.players[i].hand == []
  }

  /** Every hand and the deck are empty: nothing is left to deal or play. */
  predicate RoundFinished(s: GameState)
  {
    TurnFinished(s) && s.deck == []
  }

  function Min(a: int, b: int): int
  {
    if a < b then a else b
  }

  /** Lodash `last`: the top card of a pile, `None` for an empty pile. */
  function Last(cs: seq<Card>): Option<Card>
  {
    if cs == [] then None else Some(cs[|cs| - 1])
  }

  predicate Named(p: Player, who: Option<string>)
  {
    who == Some(p.username)
  }

  /** The player after the close-out: the last capturer takes the table. */
  function ClosedOut(p: Player, who: Option<string>, table: seq<Card>): Player
  {
    if Named(p, who) then p.(captured := p.captured + table) else p
  }

  /** The player after a sweep: the last capturer's top card becomes a scopa marker. */
  function Swept(p: Player, who: Option<string>): Player
  {
    if Named(p, who) then p.(scopa := p.scopa + [Last(p.captured)]) else p
  }

  /** The cards the player at position `i` receives: the i-th group of three from the front, fewer at the end. */
  function DealtTo(deck: seq<Card>, i: nat): seq<Card>
  {
    deck[Min(3 * i, |deck|)..Min(3 * i + 3, |deck|)]
  }

  function ClosedOutAll(ps: seq<Player>, who: Option<string>, table: seq<Card>): seq<Player>
  {
    seq(|ps|, i requires 0 <= i < |ps| => ClosedOut(ps[i], who, table))
  }

  function SweptAll(ps: seq<Player>, who: Option<string>): seq<Player>
  {
    seq(|ps|, i requires 0 <= i < |ps| => Swept(ps[i], who))
  }

  function DealtAll(ps: seq<Player>, deck: seq<Card>): seq<Player>
  {
    seq(|ps|, i requires 0 <= i < |ps| => ps[i].(hand := DealtTo(deck, i)))
  }

  function AfterSweep(s: GameState): seq<Player>
  {
    if |s.table| == 0 then SweptAll(s.players, s.latestCaptured) else s.players
  }

  /** The snapshot at the end of the turn. */
  function Turn(s: GameState): GameState
  {
    if RoundFinished(s) then
      if |s.table| > 0 then
        s.(players := ClosedOutAll(s.players, s.latestCaptured, s.table), table := [], status := Ended)
      else
        s.(status := Ended)
    else if TurnFinished(s) then
      s.(players := DealtAll(AfterSweep(s), s.deck), deck := s.deck[Min(3 * |s.players|, |s.deck|)..])
    else
      s.(players := AfterSweep(s))
  }

  /** The close-out `forEach`: the last capturer's pile receives the table. */
  method AwardTable(players: seq<Player>, who: Option<string>, table: seq<Card>) returns (ps: seq<Player>)
    ensures ps == ClosedOutAll(players, who, table)
  {
    ps := players;
    var i := 0;
    while i < |ps|
      invariant 0 <= i <= |ps| == |players|
      invariant forall j :: 0 <= j < i ==> ps[j] == ClosedOut(players[j], who, table)
      invariant forall j :: i <= j < |ps| ==> ps[j] == players[j]
    {
      if Some(ps[i].username) == who {
        ps := ps[i := ps[i].(captured := ps[i].captured + table)];
      }
      i := i + 1;
    }
  }

  /** The scopa `forEach`: the last capturer records the top card of their pile. */
  method AwardScopa(players: seq<Player>, who: Option<string>) returns (ps: seq<Player>)
    ensures ps == SweptAll(players, who)
  {
    ps := players;
    var i := 0;
    while i < |ps|
      invariant 0 <= i <= |ps| == |players|
      invariant forall j :: 0 <= j < i ==> ps[j] == Swept(players[j], who)
      invariant forall j :: i <= j < |ps| ==> ps[j] == players[j]
    {
      if Some(ps[i].username) == who {
        ps := ps[i := ps[i].(scopa := ps[i].scopa + [Last(ps[i].captured)])];
      }
      i := i + 1;
    }
  }

  /** The redeal `forEach`: each player in turn takes `deck.splice(0, 3)`. */
  method Deal(players: seq<Player>, deck: seq<Card>) returns (ps: seq<Player>, rest: seq<Card>)
    ensures ps == DealtAll(players, deck)
    ensures rest == deck[Min(3 * |players|, |deck|)..]
  {
    ps, rest := [], deck;
    var i := 0;
    while i < |players|
      invariant 0 <= i <= |players|
      invariant rest == deck[Min(3 * i, |deck|)..]
      invariant ps == DealtAll(players[..i], deck)
    {
      var k := Min(3, |rest|);
      DealStep(deck, rest, i);
      DealtAllGrows(players, deck, i);
      ps := ps + [players[i].(hand := rest[..k])];
      rest := rest[k..];
      i := i + 1;
    }
    assert players[..i] == players;
  }

  /** Dealing to one more player appends that player with their group of cards. */
  lemma DealtAllGrows(players: seq<Player>, deck: seq<Card>, i: nat)
    requires i < |players|
    ensures DealtAll(players[..i + 1], deck) ==
            DealtAll(players[..i], deck) + [players[i].(hand := DealtTo(deck, i))]
  {
    var longer, shorter := DealtAll(players[..i + 1], deck), DealtAll(players[..i], deck);
    assert forall j :: 0 <= j < i ==> longer[j] == shorter[j];
  }

  /** One `splice(0, 3)`: the next group of three leaves the front of what is left. */
  lemma DealStep(deck: seq<Card>, rest: seq<Card>, i: nat)
    requires rest == deck[Min(3 * i, |deck|)..]
    ensures rest[..Min(3, |rest|)] == DealtTo(deck, i)
    ensures rest[Min(3, |rest|)..] == deck[Min(3 * (i + 1), |deck|)..]
  {
    assert 3 * (i + 1) == 3 * i + 3;
  }

  /**
   * `calculatePlayerTurn`: works on a copy of the snapshot and reports
   * whether the round is finished.
   */
  method EndTurn(s: GameState) returns (t: GameState, roundFinished: bool)
    ensures t == Turn(s)
    ensures roundFinished <==> RoundFinished(s)
  {
    var players, deck, table := s.players, s.deck, s.table;
    var turnFinished := TurnFinished(s);
    roundFinished := turnFinished && |s.deck| == 0;
    t := s;
    if roundFinished {
      if |table| > 0 {
        players := AwardTable(players, s.latestCaptured, table);
        table := [];
      }
      t := t.(status := Ended);
    } else {
      if |table| == 0 {
        players := AwardScopa(players, s.latestCaptured);
      }
      if turnFinished {
        players, deck := Deal(players, deck);
      }
    }
    t := t.(players := players, deck := deck, table := table);
  }

  // ---- what the end of a turn guarantees ----

  /** The hands of the players, concatenated in player order. */
  function HandsInOrder(ps: seq<Player>): seq<Card>
  {
    if ps == [] then [] else HandsInOrder(ps[..|ps| - 1]) + ps[|ps| - 1].hand
  }

  /** The end of a turn keeps the seats: usernames, order, active player and last capturer. */
  lemma TurnKeepsSeats(s: GameState)
    ensures var t := Turn(s);
      |t.players| == |s.players| &&
      (forall i :: 0 <= i < |s.players| ==> t.players[i].username == s.players[i].username) &&
      t.activePlayer == s.activePlayer && t.latestCaptured == s.latestCaptured &&
      (TwoPlayers(s) ==> TwoPlayers(t))
  {
  }

  /**
   * Round close-out: with every hand and the deck empty, the table goes to
   * the last capturer's pile and is cleared, and the round is over.
   */
  lemma RoundCloseOut(s: GameState)
    requires RoundFinished(s)
    ensures var t := Turn(s);
      t.table == [] && t.status == Ended && t.deck == s.deck &&
      |t.players| == |s.players| &&
      forall i :: 0 <= i < |s.players| ==>
        t.players[i] == ClosedOut(s.players[i], s.latestCaptured, s.table)
  {
    var t := Turn(s);
    if |s.table| == 0 {
      forall i | 0 <= i < |s.players|
        ensures t.players[i] == ClosedOut(s.players[i], s.latestCaptured, s.table)
      {
        assert s.players[i].captured + s.table == s.players[i].captured;
      }
    }
  }

  /**
   * Scopa: when the round goes on and the table is empty, the last
   * capturer's markers grow by exactly the top card of their pile; every
   * other player's markers and every pile stay as they were.
   */
  lemma SweepBonus(s: GameState)
    requires !RoundFinished(s) && s.table == []
    ensures var t := Turn(s);
      |t.players| == |s.players| &&
      forall i :: 0 <= i < |s.players| ==>
        t.players[i].captured == s.players[i].captured &&
        t.players[i].scopa ==
          if Named(s.players[i], s.latestCaptured)
          then s.players[i].scopa + [Last(s.players[i].captured)]
          else s.players[i].scopa
  {
  }

  /** With cards still in some hand, the deck and the hands are left alone. */
  lemma MidTurn(s: GameState)
    requires !TurnFinished(s)
    ensures var t := Turn(s);
      t.deck == s.deck && t.table == s.table && t.status == s.status &&
      |t.players| == |s.players| &&
      forall i :: 0 <= i < |s.players| ==> t.players[i].hand == s.players[i].hand
  {
  }

  lemma {:induction false} DealtPrefix(ps: seq<Player>, deck: seq<Card>, n: nat)
    requires n <= |ps|
    ensures HandsInOrder(DealtAll(ps, deck)[..n]) == deck[..Min(3 * n, |deck|)]
  {
    var qs := DealtAll(ps, deck);
    if n == 0 {
      assert qs[..0] == [];
    } else {
      DealtPrefix(ps, deck, n - 1);
      assert qs[..n][..n - 1] == qs[..n - 1];
      DealStep(deck, deck[Min(3 * (n - 1), |deck|)..], n - 1);
      assert deck[..Min(3 * n, |deck|)] ==
             deck[..Min(3 * (n - 1), |deck|)] + DealtTo(deck, n - 1);
    }
  }

  /**
   * Redeal: when every hand is empty and the deck is not, the players, in
   * list order, take consecutive groups of three from the front of the deck;
   * read in player order, the new hands followed by the new deck are the old
   * deck.
   */
  lemma RedealFromFront(s: GameState)
    requires TurnFinished(s) && !RoundFinished(s)
    ensures var t := Turn(s);
      HandsInOrder(t.players) + t.deck == s.deck &&
      |t.players| == |s.players| &&
      forall i :: 0 <= i < |s.players| ==> t.players[i].hand == DealtTo(s.deck, i)
  {
    var t := Turn(s);
    DealtPrefix(AfterSweep(s), s.deck, |s.players|);
    assert t.players[..|s.players|] == t.players;
  }

  /** With enough cards in the deck, each player receives exactly three. */
  lemma RedealThree(s: GameState)
    requires TurnFinished(s) && |s.deck| >= 3 * |s.players| > 0
    ensures var t := Turn(s);
      |t.deck| == |s.deck| - 3 * |s.players| &&
      forall i :: 0 <= i < |s.players| ==> t.players[i].hand == s.deck[3 * i..3 * i + 3]
  {
  }

  lemma {:induction false} DealtHoldings(ps: seq<Player>, deck: seq<Card>, n: nat)
    requires n <= |ps|
    requires forall i :: 0 <= i < |ps| ==> ps[i].hand == []
    ensures Holdings(DealtAll(ps, deck)[..n]) == Holdings(ps[..n]) + multiset(deck[..Min(3 * n, |deck|)])
  {
    var qs := DealtAll(ps, deck);
    if n == 0 {
      assert qs[..0] == [] && ps[..0] == [];
    } else {
      var before, given := deck[..Min(3 * (n - 1), |deck|)], DealtTo(deck, n - 1);
      var hq, hp := Holdings(qs[..n - 1]), Holdings(ps[..n - 1]);
      assert hq == hp + multiset(before) by {
        DealtHoldings(ps, deck, n - 1);
      }
      assert multiset(deck[..Min(3 * n, |deck|)]) == multiset(before) + multiset(given) by {
        DealStep(deck, deck[Min(3 * (n - 1), |deck|)..], n - 1);
        assert deck[..Min(3 * n, |deck|)] == before + given;
      }
      assert Holding(qs[n - 1]) == Holding(ps[n - 1]) + multiset(given) by {
        assert qs[n - 1].hand == given && ps[n - 1].hand == [];
      }
      assert Holdings(qs[..n]) == hq + Holding(qs[n - 1]) by {
        HoldingsPrefix(qs, n);
      }
      assert Holdings(ps[..n]) == hp + Holding(ps[n - 1]) by {
        HoldingsPrefix(ps, n);
      }
      DealtOneMoreBalance(Holdings(qs[..n]), hq, Holding(qs[n - 1]), Holdings(ps[..n]), hp, Holding(ps[n - 1]),
                          multiset(deck[..Min(3 * n, |deck|)]), multiset(before), multiset(given));
    }
  }

  /** The bookkeeping of one more player dealt to, over abstract multisets. */
  lemma DealtOneMoreBalance<T>(q: multiset<T>, q0: multiset<T>, q1: multiset<T>, p: multiset<T>, p0: multiset<T>,
                               p1: multiset<T>, d: multiset<T>, d0: multiset<T>, d1: multiset<T>)
    requires q == q0 + q1 && p == p0 + p1 && d == d0 + d1
    requires q0 == p0 + d0 && q1 == p1 + d1
    ensures q == p + d
  {
  }

  /** Exactly one player bears the name `who`. */
  predicate NamesOne(ps: seq<Player>, who: Option<string>)
  {
    exists k :: 0 <= k < |ps| && Named(ps[k], who) &&
      forall i :: 0 <= i < |ps| && i != k ==> !Named(ps[i], who)
  }

  /**
   * The end of a turn neither creates nor loses cards, provided that a round
   * closing with cards on the table has exactly one last capturer to take them.
   */
  lemma TurnConserves(s: GameState)
    requires RoundFinished(s) && s.table != [] ==> NamesOne(s.players, s.latestCaptured)
    ensures AllCards(Turn(s)) == AllCards(s)
  {
    var t := Turn(s);
    var ps := s.players;
    if RoundFinished(s) {
      if s.table != [] {
        var k :| 0 <= k < |ps| && Named(ps[k], s.latestCaptured) &&
          forall i :: 0 <= i < |ps| && i != k ==> !Named(ps[i], s.latestCaptured);
        SumGain(ps, t.players, Holding, k, multiset(s.table));
        TableToPileBalance(multiset(s.deck), multiset(s.table), Holdings(ps), Holdings(t.players));
      }
    } else if TurnFinished(s) {
      DealConserves(s);
    } else {
      SumSame(ps, AfterSweep(s), Holding);
    }
  }

  lemma DealConserves(s: GameState)
    requires TurnFinished(s) && !RoundFinished(s)
    ensures AllCards(Turn(s)) == AllCards(s)
  {
    var t := Turn(s);
    var ps := s.players;
    var swept := AfterSweep(s);
    var m := Min(3 * |ps|, |s.deck|);
    assert Holdings(swept) == Holdings(ps) by {
      SumSame(ps, swept, Holding);
    }
    assert Holdings(t.players) == Holdings(swept) + multiset(s.deck[..m]) by {
      DealtHoldings(swept, s.deck, |swept|);
      assert DealtAll(swept, s.deck)[..|swept|] == t.players && swept[..|swept|] == swept;
    }
    assert multiset(s.deck) == multiset(s.deck[..m]) + multiset(t.deck) by {
      assert s.deck == s.deck[..m] + s.deck[m..];
    }
    DeckToHandsBalance(multiset(s.deck), multiset(s.deck[..m]), multiset(t.deck), multiset(s.table),
                       Holdings(ps), Holdings(t.players));
  }

  /** Cards moving from the table to a pile, over abstract multisets. */
  lemma TableToPileBalance<T>(deck: multiset<T>, table: multiset<T>, h: multiset<T>, h': multiset<T>)
    requires h' == h + table
    ensures deck + h' == deck + table + h
  {
  }

  /** Cards moving from the deck into the hands, over abstract multisets. */
  lemma DeckToHandsBalance<T>(d: multiset<T>, d0: multiset<T>, d1: multiset<T>, table: multiset<T>,
                              h: multiset<T>, h': multiset<T>)
    requires d == d0 + d1 && h' == h + d0
    ensures d1 + table + h' == d + table + h
  {
  }
}
