/** The usual optional value; `None` stands for JavaScript's `undefined`. */
module Options {
  datatype Option<+T> = None | Some(value: T)
}

/**
 * Cards of the Italian 40-card deck and their canonical string key
 * ("<rank>-<suit>"), which the engine uses to compare cards.
 */
module Cards {
  import opened Options

  datatype Suit = Golds | Clubs | Cups | Swords

  type Rank = r: int | 1 <= r <= 10 witness 1

  datatype Card = Card(rank: Rank, suit: Suit)

  function SuitName(s: Suit): string
  {
    match s
    case Golds => "Golds"
    case Clubs => "Clubs"
    case Cups => "Cups"
    case Swords => "Swords"
  }

  function ParseSuit(t: string): (r: Option<Suit>)
    ensures r.Some? ==> SuitName(r.value) == t
    ensures forall s: Suit :: t == SuitName(s) ==> r == Some(s)
  {
    if t == "Golds" then Some(Golds)
    else if t == "Clubs" then Some(Clubs)
    else if t == "Cups" then Some(Cups)
    else if t == "Swords" then Some(Swords)
    else None
  }

  /** Decimal text of a rank: one digit, or "10". */
  function RankText(r: Rank): string
  {
    if r == 10 then "10" else [('0' as int + r) as char]
  }

  /** The canonical key of a card, `cardKey` of the shared package. */
  function CardKey(c: Card): string
  {
    RankText(c.rank) + "-" + SuitName(c.suit)
  }

  /** Reads a key back into a card, `fromCardKey`; only canonical keys are accepted. */
  function FromCardKey(k: string): (r: Option<Card>)
    ensures r.Some? ==> CardKey(r.value) == k
  {
    if |k| >= 3 && k[..3] == "10-" then
      match ParseSuit(k[3..])
      case Some(s) => assert k == "10-" + k[3..]; Some(Card(10, s))
      case None => None
    else if |k| >= 2 && '1' <= k[0] <= '9' && k[1] == '-' then
      match ParseSuit(k[2..])
      case Some(s) =>
        var c := Card(k[0] as int - '0' as int, s);
        assert RankText(c.rank) == [k[0]];
        assert k == [k[0]] + "-" + k[2..];
        Some(c)
      case None => None
    else None
  }

  /** The key conversion is lossless: reading a card's key gives the card back. */
  lemma KeyRoundTrip(c: Card)
    ensures FromCardKey(CardKey(c)) == Some(c)
  {
    var k := CardKey(c);
    var name := SuitName(c.suit);
    if c.rank == 10 {
      assert k[..3] == "10-" && k[3..] == name;
    } else {
      assert k == [('0' as int + c.rank) as char] + "-" + name;
      assert k[..3] != "10-" by {
        if |k| >= 3 { assert k[1] == '-'; }
      }
      assert k[2..] == name;
    }
  }

  /** Two cards have the same key exactly when they are the same card. */
  lemma KeyInjective(a: Card, b: Card)
    ensures CardKey(a) == CardKey(b) <==> a == b
  {
    KeyRoundTrip(a);
    KeyRoundTrip(b);
  }

  /** The same fact for one card against every other card. */
  lemma KeyIdentifies(card: Card)
    ensures forall c: Card :: CardKey(c) == CardKey(card) <==> c == card
  {
    forall c: Card ensures CardKey(c) == CardKey(card) <==> c == card {
      KeyInjective(c, card);
    }
  }
}
