/**
 * `updateGameState` and `restartGameState` over one room. A room keeps the
 * ordered list of its snapshots; a move appends the next snapshot, an undo
 * pops the last one, and a restart appends the first snapshot of a new round.
 */
module Engine {
  import opened Options
  import opened Cards
  import opened GameModel
  import opened TurnResolver
  import opened RoundLifecycle
  import opened GameLifecycle

  /** A scoring module (`finalScore`) gives one total per player, in player order. */
  ghost predicate Aligned(score: seq<Player> -> seq<nat>)
  {
    forall ps: seq<Player> :: |score(ps)| == |ps|
  }

  /** The snapshot a move produces: resolve the action, end the turn, score a finished round. */
  function Step(s: GameState, a: Action, score: seq<Player> -> seq<nat>): GameState
    requires TwoPlayers(s) && !a.Undo? && Aligned(score)
  {
    var mid := Resolve(s, a);
    var t := Turn(mid);
    if RoundFinished(mid) then Standings(t, score(t.players)) else t
  }

  /**
   * Turn alternation: after a move the opponent is the active player, seated
   * first, and the mover is seated second.
   */
  lemma StepPassesTurn(s: GameState, a: Action, score: seq<Player> -> seq<nat>)
    requires TwoPlayers(s) && !a.Undo? && Aligned(score)
    ensures var t := Step(s, a, score);
      TwoPlayers(t) && t.activePlayer == Opponent(s).username != s.activePlayer &&
      t.players[0].username == Opponent(s).username &&
      t.players[1].username == s.activePlayer
  {
    var mid := Resolve(s, a);
    TurnKeepsSeats(mid);
    if RoundFinished(mid) {
      var t := Turn(mid);
      StandingsKeepCards(t, score(t.players));
    }
  }

  /** The preconditions under which resolving an action keeps every card. */
  lemma ResolveConserves(s: GameState, a: Action)
    requires TwoPlayers(s) && !a.Undo?
    requires multiset(Active(s).hand)[a.card] == 1
    requires a.Capture? ==>
      (forall i, j :: 0 <= i < j < |a.tableCards| ==> a.tableCards[i] != a.tableCards[j]) &&
      (forall i :: 0 <= i < |a.tableCards| ==> multiset(s.table)[a.tableCards[i]] == 1)
    ensures AllCards(Resolve(s, a)) == AllCards(s)
  {
    if a.PlayOnTable? {
      PlayOnTableConserves(s, a.card, a.playerName);
    } else {
      CaptureConserves(s, a.card, a.tableCards, a.playerName);
    }
  }

  /**
   * After a capture, or a card played while the last capturer is one of the
   * two players, exactly one player is the last capturer.
   */
  lemma CapturerNamed(s: GameState, a: Action)
    requires TwoPlayers(s) && !a.Undo?
    requires a.PlayOnTable? ==>
      s.latestCaptured == Some(s.players[0].username) || s.latestCaptured == Some(s.players[1].username)
    ensures NamesOne(Resolve(s, a).players, Resolve(s, a).latestCaptured)
  {
    var mid := Resolve(s, a);
    var ps, who := mid.players, mid.latestCaptured;
    assert who == if a.Capture? then Some(s.activePlayer) else s.latestCaptured;
    assert ps[0].username != ps[1].username;
    assert who == Some(ps[0].username) || who == Some(ps[1].username) by {
      assert ps[0].username == Opponent(s).username && ps[1].username == s.activePlayer;
      assert s.players[0].username == Opponent(s).username || s.players[0].username == s.activePlayer;
      assert s.players[1].username == Opponent(s).username || s.players[1].username == s.activePlayer;
    }
    var k := if who == Some(ps[0].username) then 0 else 1;
    assert Named(ps[k], who) && forall i :: 0 <= i < |ps| && i != k ==> !Named(ps[i], who);
  }

  /**
   * A whole move neither creates nor loses cards when the played card is in
   * the hand once, the captured cards are distinct and each lies once on the
   * table, and a round that closes after a card was played on the table has
   * a last capturer among the players.
   */
  lemma StepConserves(s: GameState, a: Action, score: seq<Player> -> seq<nat>)
    requires TwoPlayers(s) && !a.Undo? && Aligned(score)
    requires multiset(Active(s).hand)[a.card] == 1
    requires a.Capture? ==>
      (forall i, j :: 0 <= i < j < |a.tableCards| ==> a.tableCards[i] != a.tableCards[j]) &&
      (forall i :: 0 <= i < |a.tableCards| ==> multiset(s.table)[a.tableCards[i]] == 1)
    requires a.PlayOnTable? && RoundFinished(Resolve(s, a)) ==>
      s.latestCaptured == Some(s.players[0].username) || s.latestCaptured == Some(s.players[1].username)
    ensures AllCards(Step(s, a, score)) == AllCards(s)
  {
    var mid := Resolve(s, a);
    var t := Turn(mid);
    assert AllCards(mid) == AllCards(s) by {
      ResolveConserves(s, a);
    }
    assert AllCards(t) == AllCards(mid) by {
      if RoundFinished(mid) && mid.table != [] {
        CapturerNamed(s, a);
      }
      TurnConserves(mid);
    }
    if RoundFinished(mid) {
      StandingsKeepCards(t, score(t.players));
    }
  }

  /**
   * Scopa after a capture: a capture that clears the table while the round
   * goes on gives the capturer one marker, the last card they took; the
   * opponent's markers are unchanged.
   */
  lemma SweepAfterCapture(s: GameState, card: Card, picked: seq<Card>, name: string, score: seq<Player> -> seq<nat>)
    requires TwoPlayers(s) && Aligned(score)
    requires var mid := Resolve(s, Capture(card, picked, name)); mid.table == [] && !RoundFinished(mid)
    ensures var t := Step(s, Capture(card, picked, name), score);
      t.players[1].scopa == Active(s).scopa + [Some(([card] + picked)[|picked|])] &&
      t.players[0].scopa == Opponent(s).scopa
  {
    var mid := Resolve(s, Capture(card, picked, name));
    assert Step(s, Capture(card, picked, name), score) == Turn(mid);
    SweepBonus(mid);
    assert mid.players[1].captured == Active(s).captured + [card] + picked;
    assert Last(mid.players[1].captured) == Some(([card] + picked)[|picked|]);
  }

  /** The next round is started by the player who made the round's last move. */
  lemma NextStarterIsLastMover(s: GameState, a: Action, score: seq<Player> -> seq<nat>)
    requires TwoPlayers(s) && !a.Undo? && Aligned(score)
    requires RoundFinished(Resolve(s, a))
    ensures var t := Step(s, a, score);
      (forall i :: 0 <= i < |t.players| ==> t.players[i].score.Some?) &&
      RestartInputs(t).starter == s.activePlayer
  {
    var t := Turn(Resolve(s, a));
    var u := Step(s, a, score);
    assert u == Standings(t, score(t.players));
    assert forall i :: 0 <= i < |u.players| ==> u.players[i].score.Some?;
    StepPassesTurn(s, a, score);
    assert Opponent(u) == u.players[1];
  }

  /**
   * A worked move: P1 holds the three of Golds, the three of Cups lies alone
   * on the table and P2 still holds a card. P1 captures the three of Cups:
   * the table empties, P1's pile gains both threes, P1 becomes the last
   * capturer and earns a scopa marker, and the turn passes to P2.
   */
  lemma CaptureScenario(other: Card, score: seq<Player> -> seq<nat>)
    requires Aligned(score)
    ensures
      var p1 := Player("P1", [Card(3, Golds)], [], [], None);
      var p2 := Player("P2", [other], [], [], None);
      var s := GameState([], [Card(3, Cups)], [p1, p2], "P1", None, InProgress);
      var t := Step(s, Capture(Card(3, Golds), [Card(3, Cups)], "P1"), score);
      t.table == [] && t.activePlayer == "P2" && t.latestCaptured == Some("P1") &&
      t.players == [p2, Player("P1", [], [Card(3, Golds), Card(3, Cups)], [Some(Card(3, Cups))], None)]
  {
    var p2 := Player("P2", [other], [], [], None);
    var taker := Player("P1", [], [Card(3, Golds), Card(3, Cups)], [], None);
    var p1 := Player("P1", [Card(3, Golds)], [], [], None);
    var s := GameState([], [Card(3, Cups)], [p1, p2], "P1", None, InProgress);
    var a := Capture(Card(3, Golds), [Card(3, Cups)], "P1");
    var mid := GameState([], [], [p2, taker], "P2", Some("P1"), InProgress);
    assert Resolve(s, a) == mid by {
      ScenarioResolved(other);
    }
    assert !RoundFinished(mid) && !TurnFinished(mid) by {
      assert mid.players[0].hand != [];
    }
    assert Step(s, a, score) == Turn(mid);
    assert Turn(mid) == mid.(players := SweptAll([p2, taker], Some("P1")));
    assert Swept(taker, Some("P1")) == taker.(scopa := [Some(Card(3, Cups))]);
  }

  /** The resolver's part of the worked move. */
  lemma ScenarioResolved(other: Card)
    ensures
      var p1 := Player("P1", [Card(3, Golds)], [], [], None);
      var p2 := Player("P2", [other], [], [], None);
      var s := GameState([], [Card(3, Cups)], [p1, p2], "P1", None, InProgress);
      Resolve(s, Capture(Card(3, Golds), [Card(3, Cups)], "P1")) ==
        GameState([], [], [p2, Player("P1", [], [Card(3, Golds), Card(3, Cups)], [], None)], "P2", Some("P1"), InProgress)
  {
    var p1 := Player("P1", [Card(3, Golds)], [], [], None);
    var p2 := Player("P2", [other], [], [], None);
    var s := GameState([], [Card(3, Cups)], [p1, p2], "P1", None, InProgress);
    var mid := Resolve(s, Capture(Card(3, Golds), [Card(3, Cups)], "P1"));
    assert mid.players[1].hand == [] by {
      assert multiset(mid.players[1].hand) == multiset{};
    }
    assert mid.table == [] by {
      assert Card(3, Cups) !in mid.table;
    }
    assert mid.players[1].captured == [] + [Card(3, Golds)] + [Card(3, Cups)];
    assert mid.players[0] == p2;
    assert Active(s) == p1;
    assert mid.players[1].username == "P1" && mid.players[1].scopa == [] && mid.players[1].score == None;
    var taker := Player("P1", [], [Card(3, Golds), Card(3, Cups)], [], None);
    assert mid.players[1] == taker;
    assert mid.players == [p2, taker];
  }

  /**
   * One room's history of snapshots; the last one is the current state.
   * Undo pops, every other event appends.
   */
  class Room {
    var states: seq<GameState>

    constructor (initial: GameState)
      ensures states == [initial]
    {
      states := [initial];
    }

    function Current(): GameState
      reads this
      requires states != []
    {
      states[|states| - 1]
    }

    /** `addState`. */
    method AddState(s: GameState)
      modifies this
      ensures states == old(states) + [s]
    {
      states := states + [s];
    }

    /** The Undo branch: pop the last snapshot; the one before becomes current. */
    method Undo() returns (current: GameState)
      requires |states| >= 2
      modifies this
      ensures states == old(states)[..|old(states)| - 1]
      ensures current == Current() == old(states)[|old(states)| - 2]
    {
      states := states[..|states| - 1];
      current := states[|states| - 1];
    }

    /**
     * The default branch: resolve the action on the current snapshot, end
     * the turn, score a finished round, and append the result.
     */
    method Play(a: Action, cardName: Card -> string, score: seq<Player> -> seq<nat>)
      returns (current: GameState, description: string)
      requires states != [] && TwoPlayers(Current()) && !a.Undo? && Aligned(score)
      modifies this
      ensures states == old(states) + [Step(old(Current()), a, score)]
      ensures current == Current()
      ensures description == Describe(a, cardName)
    {
      var oldState := states[|states| - 1];
      var tempState := Resolve(oldState, a);
      description := Describe(a, cardName);
      var finalState, roundFinished := EndTurn(tempState);
      if roundFinished {
        finalState := ScoreRound(finalState, score(finalState.players));
      }
      assert finalState == Step(oldState, a, score);
      AddState(finalState);
      current := finalState;
    }

    /** `updateGameState`: dispatch on the action. */
    method Update(a: Action, cardName: Card -> string, score: seq<Player> -> seq<nat>)
      returns (current: GameState, description: string)
      requires states != []
      requires a.Undo? ==> |states| >= 2
      requires !a.Undo? ==> TwoPlayers(Current()) && Aligned(score)
      modifies this
      ensures a.Undo? ==> states == old(states)[..|old(states)| - 1]
      ensures !a.Undo? ==> states == old(states) + [Step(old(Current()), a, score)]
      ensures current == Current()
      ensures description == Describe(a, cardName)
    {
      if a.Undo? {
        current := Undo();
        description := Describe(a, cardName);
      } else {
        current, description := Play(a, cardName, score);
      }
    }

    /**
     * `restartGameState`: the next round's snapshot, built by `generate`
     * (`generateGameState`) from the players, the starter and the carried
     * totals, is appended.
     */
    method Restart(generate: NextRound -> GameState) returns (setup: NextRound)
      requires states != []
      requires forall i :: 0 <= i < |Current().players| ==> Current().players[i].score.Some?
      modifies this
      ensures setup == RestartInputs(old(Current()))
      ensures states == old(states) + [generate(setup)]
    {
      setup := RestartInputs(Current());
      AddState(generate(setup));
    }
  }

  /** Undoing right after a move gives the room back the history it had before the move. */
  method PlayThenUndo(room: Room, a: Action, cardName: Card -> string, score: seq<Player> -> seq<nat>)
    requires room.states != [] && TwoPlayers(room.Current()) && !a.Undo? && Aligned(score)
    modifies room
    ensures room.states == old(room.states)
    ensures room.Current() == old(room.Current())
  {
    ghost var before := room.states;
    var _, _ := room.Play(a, cardName, score);
    assert room.states[..|room.states| - 1] == before;
    var current := room.Undo();
  }
}
