/**
 * The turn resolver, `calculatePlayerAction`: applies one PlayOnTable or
 * Capture action to a snapshot and renders the action's description.
 * The result is an intermediate snapshot; the end of the turn is handled by
 * RoundLifecycle.
 */
module TurnResolver {
  import opened Options
  import opened Cards
  import opened GameModel

  /** `Array.prototype.filter`: the elements `keep` accepts, in their order. */
  function Filter(xs: seq<Card>, keep: Card -> bool): seq<Card>
  {
    if xs == [] then []
    else (if keep(xs[0]) then [xs[0]] else []) + Filter(xs[1..], keep)
  }

  /** Each accepted card keeps all its copies; each rejected card loses all of them. */
  lemma {:induction false} FilterCount(xs: seq<Card>, keep: Card -> bool)
    ensures forall c :: multiset(Filter(xs, keep))[c] == if keep(c) then multiset(xs)[c] else 0
  {
    if xs != [] {
      assert xs == [xs[0]] + xs[1..];
      FilterCount(xs[1..], keep);
    }
  }

  /** Filtering a concatenation filters each part: the kept elements stay in order. */
  lemma {:induction false} FilterConcat(a: seq<Card>, b: seq<Card>, keep: Card -> bool)
    ensures Filter(a + b, keep) == Filter(a, keep) + Filter(b, keep)
  {
    if a == [] {
      assert a + b == b;
    } else {
      var head := if keep(a[0]) then [a[0]] else [];
      assert (a + b)[0] == a[0] && (a + b)[1..] == a[1..] + b;
      assert Filter(a + b, keep) == head + Filter(a[1..] + b, keep);
      FilterConcat(a[1..], b, keep);
      assert Filter(a, keep) == head + Filter(a[1..], keep);
      assert head + (Filter(a[1..], keep) + Filter(b, keep)) == (head + Filter(a[1..], keep)) + Filter(b, keep);
    }
  }

  /** A sequence whose every element is kept passes the filter unchanged. */
  lemma {:induction false} FilterKeepsAll(xs: seq<Card>, keep: Card -> bool)
    requires forall i :: 0 <= i < |xs| ==> keep(xs[i])
    ensures Filter(xs, keep) == xs
  {
    if xs != [] {
      FilterKeepsAll(xs[1..], keep);
    }
  }

  /** The test `(c) => cardKey(c) !== card`. */
  function KeyDiffers(card: Card): Card -> bool
  {
    c => CardKey(c) != CardKey(card)
  }

  /** The hand without the played card: the hand filtered by `KeyDiffers(card)`. */
  function WithoutCard(hand: seq<Card>, card: Card): (r: seq<Card>)
    ensures multiset(r) == multiset(hand)[card := 0]
  {
    KeyIdentifies(card);
    FilterCount(hand, KeyDiffers(card));
    Filter(hand, KeyDiffers(card))
  }

  /** The keys of the chosen table cards, as the action carries them. */
  function KeysOf(cards: seq<Card>): (keys: seq<string>)
    ensures forall c: Card :: CardKey(c) in keys <==> c in cards
  {
    var keys := seq(|cards|, i requires 0 <= i < |cards| => CardKey(cards[i]));
    assert forall c: Card :: CardKey(c) in keys <==> c in cards by {
      forall c: Card ensures CardKey(c) in keys <==> c in cards {
        KeyIdentifies(c);
        if c in cards {
          var i :| 0 <= i < |cards| && cards[i] == c;
          assert keys[i] == CardKey(c);
        }
      }
    }
    keys
  }

  /** The table without the captured cards: `table.filter((c) => !tableCards.includes(cardKey(c)))`. */
  function TableWithout(table: seq<Card>, picked: seq<Card>): (r: seq<Card>)
    ensures forall c :: multiset(r)[c] == if c in picked then 0 else multiset(table)[c]
    ensures forall c :: c in r <==> c in table && c !in picked
  {
    var keys := KeysOf(picked);
    FilterCount(table, c => CardKey(c) !in keys);
    Filter(table, c => CardKey(c) !in keys)
  }

  /** Removing the chosen cards from two stretches of table in turn: the kept cards stay in order. */
  lemma TableWithoutConcat(a: seq<Card>, b: seq<Card>, picked: seq<Card>)
    ensures TableWithout(a + b, picked) == TableWithout(a, picked) + TableWithout(b, picked)
  {
    var keys := KeysOf(picked);
    FilterConcat(a, b, c => CardKey(c) !in keys);
  }

  /** A stretch of table holding none of the chosen cards is kept whole and in order. */
  lemma TableWithoutKeeps(a: seq<Card>, picked: seq<Card>)
    requires forall i :: 0 <= i < |a| ==> a[i] !in picked
    ensures TableWithout(a, picked) == a
  {
    var keys := KeysOf(picked);
    FilterKeepsAll(a, c => CardKey(c) !in keys);
  }

  /**
   * The intermediate snapshot after the active player plays `a.card`: the
   * card leaves the hand, the turn passes to the opponent and the players
   * are reordered as [opponent, active player].
   */
  function Resolve(s: GameState, a: Action): (r: GameState)
    requires TwoPlayers(s) && !a.Undo?
    ensures TwoPlayers(r)
    ensures r.activePlayer == Opponent(s).username != s.activePlayer
    ensures r.players[0] == Opponent(s)
    ensures r.players[1].username == s.activePlayer
    ensures multiset(r.players[1].hand) == multiset(Active(s).hand)[a.card := 0]
    ensures r.players[1].scopa == Active(s).scopa && r.players[1].score == Active(s).score
    ensures r.deck == s.deck && r.status == s.status
  {
    var me, opp := Active(s), Opponent(s);
    var hand := WithoutCard(me.hand, a.card);
    if a.PlayOnTable? then
      s.(activePlayer := opp.username,
         players := [opp, me.(hand := hand)],
         table := s.table + [a.card])
    else
      s.(activePlayer := opp.username,
         players := [opp, me.(hand := hand, captured := me.captured + [a.card] + a.tableCards)],
         table := TableWithout(s.table, a.tableCards),
         latestCaptured := Some(me.username))
  }

  /** The hand keeps its order: a card held once leaves exactly its own slot. */
  lemma HandKeepsOrder(hand: seq<Card>, i: nat)
    requires i < |hand|
    requires forall j :: 0 <= j < |hand| && j != i ==> hand[j] != hand[i]
    ensures WithoutCard(hand, hand[i]) == hand[..i] + hand[i + 1..]
  {
    var card := hand[i];
    var left, right := hand[..i], hand[i + 1..];
    assert hand == left + ([card] + right);
    SlotRemoved(left, card, right);
  }

  /** Removing a card that sits between two runs of other cards leaves the two runs. */
  lemma SlotRemoved(left: seq<Card>, card: Card, right: seq<Card>)
    requires forall j :: 0 <= j < |left| ==> left[j] != card
    requires forall j :: 0 <= j < |right| ==> right[j] != card
    ensures Filter(left + ([card] + right), KeyDiffers(card)) == left + right
  {
    var keep := KeyDiffers(card);
    OthersKept(left, card);
    OthersKept(right, card);
    assert Filter([card], keep) == [] by {
      assert [card][1..] == [];
    }
    FilterConcat(left, [card] + right, keep);
    FilterConcat([card], right, keep);
    assert [] + right == right;
  }

  /** Cards other than `card` all pass the test `cardKey(c) !== card`. */
  lemma OthersKept(xs: seq<Card>, card: Card)
    requires forall j :: 0 <= j < |xs| ==> xs[j] != card
    ensures Filter(xs, KeyDiffers(card)) == xs
  {
    forall j | 0 <= j < |xs| ensures KeyDiffers(card)(xs[j]) {
      KeyInjective(xs[j], card);
    }
    FilterKeepsAll(xs, KeyDiffers(card));
  }

  /**
   * Playing on the table: the card is appended to the table; captured piles
   * and the last capturer stay as they were.
   */
  lemma PlayOnTableEffect(s: GameState, card: Card, name: string)
    requires TwoPlayers(s)
    ensures var r := Resolve(s, PlayOnTable(card, name));
      r.table == s.table + [card] &&
      r.latestCaptured == s.latestCaptured &&
      r.players[0].captured == Opponent(s).captured &&
      r.players[1].captured == Active(s).captured
  {
  }

  /** A card held once that is played on the table moves from the hand to the table. */
  lemma {:induction false} PlayOnTableConserves(s: GameState, card: Card, name: string)
    requires TwoPlayers(s) && multiset(Active(s).hand)[card] == 1
    ensures var r := Resolve(s, PlayOnTable(card, name));
      |r.players[1].hand| + |r.table| == |Active(s).hand| + |s.table| &&
      AllCards(r) == AllCards(s)
  {
    var r := Resolve(s, PlayOnTable(card, name));
    var me, me' := Active(s), r.players[1];
    assert multiset(me.hand) == multiset(me'.hand) + multiset{card};
    assert Holding(me) == Holding(me') + multiset{card};
    assert |multiset(me.hand)| == |multiset(me'.hand)| + 1;
    HoldingsOfTwo(s.players);
    HoldingsOfTwo(r.players);
    assert Holdings(s.players) == Holding(me) + Holding(Opponent(s));
    Regroup(multiset(s.table), multiset{card}, Holding(me'), Holding(Opponent(s)));
  }

  /**
   * Capturing: the played card and the chosen cards, in that order, are
   * appended to the capturer's pile; the table loses exactly the chosen
   * cards; the capturer becomes the last capturer.
   */
  lemma CaptureEffect(s: GameState, card: Card, picked: seq<Card>, name: string)
    requires TwoPlayers(s)
    ensures var r := Resolve(s, Capture(card, picked, name));
      r.players[1].captured == Active(s).captured + [card] + picked &&
      (forall c :: c in r.table <==> c in s.table && c !in picked) &&
      r.latestCaptured == Some(s.activePlayer)
  {
  }

  /** Occurrences of a card in a sequence without repeats. */
  lemma {:induction false} DistinctCount(xs: seq<Card>, c: Card)
    requires forall i, j :: 0 <= i < j < |xs| ==> xs[i] != xs[j]
    ensures multiset(xs)[c] == if c in xs then 1 else 0
  {
    if xs != [] {
      assert xs == [xs[0]] + xs[1..];
      DistinctCount(xs[1..], c);
    }
  }

  /**
   * When the played card is held once and the chosen cards are distinct and
   * each lies once on the table, a capture moves cards and loses none.
   */
  lemma CaptureConserves(s: GameState, card: Card, picked: seq<Card>, name: string)
    requires TwoPlayers(s) && multiset(Active(s).hand)[card] == 1
    requires forall i, j :: 0 <= i < j < |picked| ==> picked[i] != picked[j]
    requires forall i :: 0 <= i < |picked| ==> multiset(s.table)[picked[i]] == 1
    ensures var r := Resolve(s, Capture(card, picked, name));
      |r.players[1].hand| + |r.table| + |r.players[1].captured| ==
        |Active(s).hand| + |s.table| + |Active(s).captured| &&
      AllCards(r) == AllCards(s)
  {
    var r := Resolve(s, Capture(card, picked, name));
    var me, me', opp := Active(s), r.players[1], Opponent(s);
    var hand, hand' := multiset(me.hand), multiset(me'.hand);
    var pile, pile' := multiset(me.captured), multiset(me'.captured);
    var table, table' := multiset(s.table), multiset(r.table);
    assert hand == hand' + multiset{card};
    assert table == table' + multiset(picked) by {
      TableLoses(s.table, picked);
    }
    assert pile' == pile + multiset{card} + multiset(picked) by {
      assert me'.captured == me.captured + [card] + picked;
    }
    assert AllCards(s) == multiset(s.deck) + table + (hand + pile + Holding(opp)) by {
      HoldingsOfActive(s);
    }
    assert AllCards(r) == multiset(s.deck) + table' + (hand' + pile' + Holding(opp)) by {
      HoldingsOfTwo(r.players);
    }
    HandTableToPileBalance(hand, hand', pile, pile', multiset{card}, multiset(picked), table, table',
                           multiset(s.deck), Holding(opp), AllCards(s), AllCards(r));
    assert |me.hand| == |me'.hand| + 1 by {
      assert |hand| == |hand'| + 1;
    }
    assert |s.table| == |r.table| + |picked| by {
      assert |table| == |table'| + |multiset(picked)|;
    }
  }

  /** The multiset bookkeeping of a capture, over abstract piles. */
  lemma HandTableToPileBalance<T>(hand: multiset<T>, hand': multiset<T>, pile: multiset<T>, pile': multiset<T>,
                                 card: multiset<T>, picked: multiset<T>, table: multiset<T>, table': multiset<T>,
                                 deck: multiset<T>, other: multiset<T>, before: multiset<T>, after: multiset<T>)
    requires hand == hand' + card && pile' == pile + card + picked && table == table' + picked
    requires before == deck + table + (hand + pile + other)
    requires after == deck + table' + (hand' + pile' + other)
    ensures after == before
  {
  }

  /** Removing distinct chosen cards that each lie once on the table. */
  lemma TableLoses(table: seq<Card>, picked: seq<Card>)
    requires forall i, j :: 0 <= i < j < |picked| ==> picked[i] != picked[j]
    requires forall i :: 0 <= i < |picked| ==> multiset(table)[picked[i]] == 1
    ensures multiset(table) == multiset(TableWithout(table, picked)) + multiset(picked)
  {
    var rest := TableWithout(table, picked);
    forall c ensures multiset(table)[c] == multiset(rest)[c] + multiset(picked)[c] {
      DistinctCount(picked, c);
      if c in picked {
        var i :| 0 <= i < |picked| && picked[i] == c;
      }
    }
  }

  // ---- the action description ----

  function Strong(t: string): string
  {
    "<strong>" + t + "</strong>"
  }

  /** The separator placed before the item at `index` of a list of `length` items. */
  function Separator(index: nat, length: nat): string
  {
    if index == 0 then "" else if index < length - 1 then ", " else " and "
  }

  /** The `reduce` over the chosen cards' names, from `index` on, onto `text`. */
  function Joined(text: string, items: seq<string>, index: nat): string
    requires index <= |items|
    decreases |items| - index
  {
    if index == |items| then text
    else Joined(text + Separator(index, |items|) + items[index], items, index + 1)
  }

  function CardsText(items: seq<string>): string
  {
    Joined("", items, 0)
  }

  /** An English list: "A", "A and B", "A, B and C", ... */
  function Listing(items: seq<string>): string
    decreases |items|
  {
    if |items| == 0 then ""
    else if |items| == 1 then items[0]
    else if |items| == 2 then items[0] + " and " + items[1]
    else items[0] + ", " + Listing(items[1..])
  }

  lemma {:induction false} JoinedOnto(text: string, items: seq<string>, index: nat)
    requires index <= |items|
    ensures Joined(text, items, index) == text + Joined("", items, index)
    decreases |items| - index
  {
    if index < |items| {
      var piece := Separator(index, |items|) + items[index];
      var rest := Joined("", items, index + 1);
      assert Joined(text, items, index) == text + piece + rest by {
        assert text + Separator(index, |items|) + items[index] == text + piece;
        JoinedOnto(text + piece, items, index + 1);
      }
      assert Joined("", items, index) == piece + rest by {
        assert "" + Separator(index, |items|) + items[index] == piece;
        JoinedOnto(piece, items, index + 1);
      }
      Associate(text, piece, rest);
    }
  }

  lemma Associate(a: string, b: string, c: string)
    ensures a + b + c == a + (b + c)
  {
  }

  lemma {:induction false} JoinedTail(items: seq<string>, i: nat)
    requires i < |items|
    ensures items[i] + Joined("", items, i + 1) == Listing(items[i..])
    decreases |items| - i
  {
    var n := |items|;
    if i == n - 1 {
      assert items[i..] == [items[i]];
      assert items[i] + "" == items[i];
    } else {
      var sep, next := Separator(i + 1, n), items[i + 1];
      var rest := Joined("", items, i + 2);
      assert Joined("", items, i + 1) == sep + next + rest by {
        assert "" + sep + next == sep + next;
        JoinedOnto(sep + next, items, i + 2);
      }
      assert items[i..][1..] == items[i + 1..];
      if i == n - 2 {
        assert rest == "" && sep == " and ";
        assert sep + next + rest == sep + next;
        Associate(items[i], sep, next);
      } else {
        assert sep == ", ";
        assert next + rest == Listing(items[i + 1..]) by {
          JoinedTail(items, i + 1);
        }
        Associate(sep, next, rest);
        Associate(items[i], sep, next + rest);
      }
    }
  }

  /** The description's list of captured cards is an English list of their names. */
  lemma CardsTextIsListing(items: seq<string>)
    ensures CardsText(items) == Listing(items)
  {
    if items != [] {
      assert Joined("", items, 0) == Joined("" + "" + items[0], items, 1);
      JoinedOnto("" + "" + items[0], items, 1);
      JoinedTail(items, 0);
      assert items[0..] == items;
    }
  }

  /** The rendered description of an action; `cardName` stands for `getCardName`. */
  function Describe(a: Action, cardName: Card -> string): (d: string)
    ensures a.Capture? ==>
      d == "Player " + Strong(a.playerName) + " captured " +
           Listing(seq(|a.tableCards|, i requires 0 <= i < |a.tableCards| => Strong(cardName(a.tableCards[i])))) +
           " with a " + Strong(cardName(a.card))
  {
    match a
    case PlayOnTable(card, who) =>
      "Player " + Strong(who) + " placed " + Strong(cardName(card)) + " on the table"
    case Capture(card, picked, who) =>
      var items := seq(|picked|, i requires 0 <= i < |picked| => Strong(cardName(picked[i])));
      CardsTextIsListing(items);
      "Player " + Strong(who) + " captured " + CardsText(items) + " with a " + Strong(cardName(card))
    case Undo(who) =>
      "Player " + Strong(who) + " reverted their last turn"
  }
}
