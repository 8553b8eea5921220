/**
 * The end-of-round decision of `updateGameState` and the inputs of
 * `restartGameState`: whether the game is over, who is winning, and who
 * starts the next round with which carried-over totals.
 */
module GameLifecycle {
  import opened Options
  import opened Cards
  import opened GameModel

  const END_OF_GAME_SCORE: nat := 11

  /** Lodash `maxBy`: the first position holding the greatest total. */
  function FirstMax(totals: seq<nat>): (k: nat)
    requires |totals| > 0
    ensures k < |totals|
    ensures forall j :: 0 <= j < |totals| ==> totals[j] <= totals[k]
    ensures forall j :: 0 <= j < k ==> totals[j] < totals[k]
  {
    if |totals| == 1 then 0
    else
      var k := FirstMax(totals[..|totals| - 1]);
      if totals[|totals| - 1] > totals[k] then |totals| - 1 else k
  }

  /** How many players have total `v`: the size of `v`'s group in `groupBy`. */
  function Occurrences(totals: seq<nat>, v: nat): nat
  {
    if totals == [] then 0 else (if totals[0] == v then 1 else 0) + Occurrences(totals[1..], v)
  }

  /**
   * The rule of the doc comment: the player with the most points has reached
   * END_OF_GAME_SCORE and no other player has the same total.
   */
  predicate GameFinished(totals: seq<nat>)
  {
    |totals| > 0 &&
    var top := totals[FirstMax(totals)];
    top >= END_OF_GAME_SCORE && !(Occurrences(totals, top) > 1)
  }

  lemma {:induction false} OccurrencesOfTwo(totals: seq<nat>, i: nat, j: nat)
    requires i < j < |totals| && totals[i] == totals[j]
    ensures Occurrences(totals, totals[i]) >= 2
  {
    var v := totals[i];
    if i == 0 {
      OccurrencesAt(totals[1..], j - 1);
    } else {
      OccurrencesOfTwo(totals[1..], i - 1, j - 1);
    }
  }

  lemma {:induction false} OccurrencesAt(totals: seq<nat>, i: nat)
    requires i < |totals|
    ensures Occurrences(totals, totals[i]) >= 1
  {
    if i > 0 {
      OccurrencesAt(totals[1..], i - 1);
    }
  }

  lemma {:induction false} OccurrencesOnly(totals: seq<nat>, k: nat)
    requires k < |totals|
    requires forall j :: 0 <= j < |totals| && j != k ==> totals[j] != totals[k]
    ensures Occurrences(totals, totals[k]) == 1
  {
    var v := totals[k];
    if k == 0 {
      OccurrencesNone(totals[1..], v);
    } else {
      OccurrencesOnly(totals[1..], k - 1);
    }
  }

  lemma {:induction false} OccurrencesNone(totals: seq<nat>, v: nat)
    requires forall j :: 0 <= j < |totals| ==> totals[j] != v
    ensures Occurrences(totals, v) == 0
  {
    if totals != [] {
      OccurrencesNone(totals[1..], v);
    }
  }

  /**
   * The game is over exactly when some player has at least END_OF_GAME_SCORE
   * points and strictly more than every other player.
   */
  lemma GameFinishedIff(totals: seq<nat>)
    ensures GameFinished(totals) <==>
      exists k :: 0 <= k < |totals| && totals[k] >= END_OF_GAME_SCORE &&
        forall j :: 0 <= j < |totals| && j != k ==> totals[j] < totals[k]
  {
    if GameFinished(totals) {
      var k := FirstMax(totals);
      forall j | 0 <= j < |totals| && j != k ensures totals[j] < totals[k] {
        if totals[j] == totals[k] {
          assert k < j;
          OccurrencesOfTwo(totals, k, j);
        }
      }
    }
    if exists k :: 0 <= k < |totals| && totals[k] >= END_OF_GAME_SCORE &&
         forall j :: 0 <= j < |totals| && j != k ==> totals[j] < totals[k] {
      var k :| 0 <= k < |totals| && totals[k] >= END_OF_GAME_SCORE &&
        forall j :: 0 <= j < |totals| && j != k ==> totals[j] < totals[k];
      assert FirstMax(totals) == k;
      OccurrencesOnly(totals, k);
    }
  }

  /** The username of the player `maxBy` picks, if there is any player. */
  function Winner(s: GameState, totals: seq<nat>): Option<string>
    requires |totals| == |s.players|
  {
    if |totals| == 0 then None else Some(s.players[FirstMax(totals)].username)
  }

  /** A player's new `score`: the round's total and whether it is the leader's. */
  function Scored(p: Player, total: nat, winner: Option<string>): Player
  {
    p.(score := Some(Score(total, winner == Some(p.username))))
  }

  /** The snapshot after the round has been scored. */
  function Standings(s: GameState, totals: seq<nat>): GameState
    requires |totals| == |s.players|
  {
    var winner := Winner(s, totals);
    s.(status := if GameFinished(totals) then Ended else RoundEnded,
       players := seq(|s.players|, i requires 0 <= i < |s.players| => Scored(s.players[i], totals[i], winner)))
  }

  /**
   * The end-of-round code: sets the status, then gives every player, in a
   * loop, the total the scoring module computed and the winning mark.
   */
  method ScoreRound(s: GameState, totals: seq<nat>) returns (t: GameState)
    requires |totals| == |s.players|
    ensures t == Standings(s, totals)
  {
    var winner := if |totals| == 0 then None else Some(s.players[FirstMax(totals)].username);
    var finished := |totals| > 0 && totals[FirstMax(totals)] >= END_OF_GAME_SCORE &&
                    !(Occurrences(totals, totals[FirstMax(totals)]) > 1);
    var players := s.players;
    var i := 0;
    while i < |players|
      invariant 0 <= i <= |players| == |s.players|
      invariant forall j :: 0 <= j < i ==> players[j] == Scored(s.players[j], totals[j], winner)
      invariant forall j :: i <= j < |players| ==> players[j] == s.players[j]
    {
      players := players[i := players[i].(score := Some(Score(totals[i], winner == Some(players[i].username))))];
      i := i + 1;
    }
    t := s.(status := if finished then Ended else RoundEnded, players := players);
  }

  /** Scoring touches neither cards nor seats. */
  lemma StandingsKeepCards(s: GameState, totals: seq<nat>)
    requires |totals| == |s.players|
    ensures var t := Standings(s, totals);
      AllCards(t) == AllCards(s) && t.activePlayer == s.activePlayer &&
      t.latestCaptured == s.latestCaptured && |t.players| == |s.players| &&
      (forall i :: 0 <= i < |s.players| ==> t.players[i].username == s.players[i].username) &&
      (TwoPlayers(s) ==> TwoPlayers(t))
  {
    SumSame(s.players, Standings(s, totals).players, Holding);
  }

  /**
   * Scoring a round of two players: each receives their total; the winning
   * mark goes to exactly the first player with the top total; the game is
   * over exactly under the END_OF_GAME_SCORE rule, otherwise the round ends.
   */
  lemma StandingsOfTwo(s: GameState, totals: seq<nat>)
    requires TwoPlayers(s) && |totals| == 2
    ensures var t := Standings(s, totals);
      (t.status == Ended <==> GameFinished(totals)) &&
      (t.status != Ended ==> t.status == RoundEnded) &&
      forall i :: 0 <= i < 2 ==>
        t.players[i].score == Some(Score(totals[i], i == FirstMax(totals))) &&
        (t.players[i].score.value.isWinning ==> forall j :: 0 <= j < 2 ==> totals[j] <= totals[i])
  {
    var t := Standings(s, totals);
    assert t.status == if GameFinished(totals) then Ended else RoundEnded;
    forall i | 0 <= i < 2
      ensures t.players[i].score == Some(Score(totals[i], i == FirstMax(totals)))
      ensures t.players[i].score.value.isWinning ==> forall j :: 0 <= j < 2 ==> totals[j] <= totals[i]
    {
      SeatScore(s, totals, i);
    }
  }

  /** The score of one of two seats: its own total, marked winning exactly at the first top total. */
  lemma SeatScore(s: GameState, totals: seq<nat>, i: nat)
    requires TwoPlayers(s) && |totals| == 2 && i < 2
    ensures Standings(s, totals).players[i].score == Some(Score(totals[i], i == FirstMax(totals)))
  {
    var k := FirstMax(totals);
    assert (s.players[k].username == s.players[i].username) == (i == k);
  }

  // ---- the next round ----

  /** What `restartGameState` hands to `generateGameState`. */
  datatype NextRound = NextRound(usernames: seq<string>, starter: string, totals: seq<nat>)

  /** `players.find((p) => p.username !== activePlayer)`. */
  function FindOther(ps: seq<Player>, active: string): (r: Option<Player>)
    ensures r.Some? ==> exists k :: 0 <= k < |ps| && ps[k] == r.value && r.value.username != active &&
                          forall j :: 0 <= j < k ==> ps[j].username == active
    ensures r.None? ==> forall j :: 0 <= j < |ps| ==> ps[j].username == active
  {
    if ps == [] then None
    else if ps[0].username != active then Some(ps[0])
    else
      var r := FindOther(ps[1..], active);
      if r.Some? then
        var k :| 0 <= k < |ps[1..]| && ps[1..][k] == r.value && r.value.username != active &&
                 forall j :: 0 <= j < k ==> ps[1..][j].username == active;
        assert ps[k + 1] == r.value;
        r
      else r
  }

  /**
   * The inputs of the next round: every username, the first player who is
   * not the active one as the starter (the text "undefined" when there is
   * none), and every player's total carried over.
   */
  function RestartInputs(s: GameState): (r: NextRound)
    requires forall i :: 0 <= i < |s.players| ==> s.players[i].score.Some?
    ensures |r.usernames| == |r.totals| == |s.players|
    ensures forall i :: 0 <= i < |s.players| ==>
      r.usernames[i] == s.players[i].username && r.totals[i] == s.players[i].score.value.total
    ensures TwoPlayers(s) ==> r.starter == Opponent(s).username != s.activePlayer
  {
    var next := FindOther(s.players, s.activePlayer);
    NextRound(
      seq(|s.players|, i requires 0 <= i < |s.players| => s.players[i].username),
      if next.Some? then next.value.username else "undefined",
      seq(|s.players|, i requires 0 <= i < |s.players| => s.players[i].score.value.total))
  }

  // ---- the end-of-round decision as written ----

  /** The greatest of the totals `maxBy` can read; `None` when no player has one. */
  function TopDefined(xs: seq<Option<nat>>): (r: Option<nat>)
    ensures r.Some? ==> (exists k :: 0 <= k < |xs| && xs[k] == r) &&
                        forall j :: 0 <= j < |xs| && xs[j].Some? ==> xs[j].value <= r.value
    ensures r.None? ==> forall j :: 0 <= j < |xs| ==> xs[j].None?
  {
    if xs == [] then None
    else
      var rest := TopDefined(xs[1..]);
      var r :=
        if xs[0].None? then rest
        else if rest.Some? && rest.value > xs[0].value then rest
        else xs[0];
      assert rest.Some? ==> exists k :: 0 <= k < |xs| && xs[k] == rest by {
        if rest.Some? {
          var k :| 0 <= k < |xs[1..]| && xs[1..][k] == rest;
          assert xs[k + 1] == rest;
        }
      }
      r
  }

  /**
   * The decision as the code computes it: `maxBy` reads each player's
   * `score` from before this round's totals are stored (here `stale`), and
   * the tie test never fires because `groupBy` groups by the path
   * 'scores.total', which no player has, so the only group is "undefined".
   */
  predicate GameFinishedAsWritten(stale: seq<Option<nat>>)
  {
    var top := TopDefined(stale);
    top.Some? && top.value >= END_OF_GAME_SCORE
  }

  /** Fed the current totals, the code as written ends the game on any top total of 11 or more, tie or not. */
  lemma AsWrittenIgnoresTies(totals: seq<nat>)
    requires |totals| > 0
    ensures GameFinishedAsWritten(seq(|totals|, i requires 0 <= i < |totals| => Some(totals[i]))) <==>
            totals[FirstMax(totals)] >= END_OF_GAME_SCORE
  {
    var xs := seq(|totals|, i requires 0 <= i < |totals| => Some(totals[i]));
    var top := TopDefined(xs);
    var k :| 0 <= k < |xs| && xs[k] == top;
    assert top.value == totals[FirstMax(totals)] by {
      assert xs[FirstMax(totals)].Some?;
    }
  }

  /** A tie at 11 ends the game as written; by the rule it does not. */
  lemma TieIgnoredAsWritten()
    ensures GameFinishedAsWritten([Some(11), Some(11)])
    ensures !GameFinished([11, 11])
  {
    assert Occurrences([11, 11], 11) == 2 by {
      assert [11, 11][1..] == [11];
      assert [11][1..] == [];
    }
  }

  /** The totals `maxBy` reads at the end of a round: each player's `score` from before this round. */
  function StaleTotals(ps: seq<Player>): seq<Option<nat>>
  {
    seq(|ps|, i requires 0 <= i < |ps| => if ps[i].score.Some? then Some(ps[i].score.value.total) else None)
  }

  /**
   * Lodash `maxBy` over totals that may be unset: the first position holding
   * the greatest set total, `None` when no total is set.
   */
  function FirstMaxDefined(xs: seq<Option<nat>>): (k: Option<nat>)
    ensures k.Some? ==> k.value < |xs| && xs[k.value].Some?
    ensures k.Some? ==> forall j :: 0 <= j < |xs| && xs[j].Some? ==> xs[j].value <= xs[k.value].value
    ensures k.Some? ==> forall j :: 0 <= j < k.value && xs[j].Some? ==> xs[j].value < xs[k.value].value
    ensures k.None? <==> forall j :: 0 <= j < |xs| ==> xs[j].None?
  {
    if xs == [] then None
    else
      var n := |xs| - 1;
      var k := FirstMaxDefined(xs[..n]);
      assert forall j :: 0 <= j < n ==> xs[..n][j] == xs[j];
      if xs[n].Some? && (k.None? || xs[n].value > xs[k.value].value) then Some(n) else k
  }

  /**
   * The snapshot as the code scores it: every player receives this round's
   * total, but the status and the winning mark follow the stale totals.
   */
  function StandingsAsWritten(s: GameState, totals: seq<nat>): GameState
    requires |totals| == |s.players|
  {
    var stale := StaleTotals(s.players);
    var k := FirstMaxDefined(stale);
    var winner := if k.Some? then Some(s.players[k.value].username) else None;
    s.(status := if GameFinishedAsWritten(stale) then Ended else RoundEnded,
       players := seq(|s.players|, i requires 0 <= i < |s.players| => Scored(s.players[i], totals[i], winner)))
  }

  /**
   * In a first round no player has a `score` yet: as written, a round won
   * 12 to 3 marks nobody as winning and does not end the game, while the
   * rule ends it and marks the first player.
   */
  lemma StaleWinnerAsWritten(s: GameState)
    requires TwoPlayers(s) && s.players[0].score.None? && s.players[1].score.None?
    ensures var w := StandingsAsWritten(s, [12, 3]);
      w.status == RoundEnded &&
      w.players[0].score == Some(Score(12, false)) && w.players[1].score == Some(Score(3, false))
    ensures var t := Standings(s, [12, 3]);
      t.status == Ended &&
      t.players[0].score == Some(Score(12, true)) && t.players[1].score == Some(Score(3, false))
  {
    var stale := StaleTotals(s.players);
    assert stale == [None, None];
    StaleScoreAsWritten();
    assert FirstMax([12, 3]) == 0;
    SeatScore(s, [12, 3], 0);
    SeatScore(s, [12, 3], 1);
  }

  /** In the first round no `score` is set yet, so as written a 12-3 round does not end the game. */
  lemma StaleScoreAsWritten()
    ensures !GameFinishedAsWritten([None, None])
    ensures GameFinished([12, 3])
  {
    assert Occurrences([12, 3], 12) == 1 by {
      assert [12, 3][1..] == [3];
      assert [3][1..] == [];
    }
  }
}
