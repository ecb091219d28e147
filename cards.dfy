/** Playing cards, decks and bridge hands (Unit05 cards.py). A `Hand` is a
    deck assigned to a player, and a `BridgeHand` a hand that can be scored;
    both are the `Deck` class here, with the player's name as a field. */
module Cards {
  import opened Wrappers
  import opened Sequences

  datatype Card = Card(suit: int, rank: int)

  // ---------------------------------------------------------------------------
  // Ordering

  /** Python's `<` on tuples of integers: the first differing position decides,
      and a proper prefix is smaller. */
  predicate TupleLess(a: seq<int>, b: seq<int>)
    decreases |a|
  {
    if a == [] then b != []
    else if b == [] then false
    else if a[0] != b[0] then a[0] < b[0]
    else TupleLess(a[1..], b[1..])
  }

  /** `turn_into_tuple`. */
  function AsTuple(c: Card): seq<int> {
    [c.suit, c.rank]
  }

  /** `__lt__`, `__le__`, `__gt__` and `__ge__`, each through the tuple. */
  predicate Less(a: Card, b: Card) { TupleLess(AsTuple(a), AsTuple(b)) }
  predicate LessEq(a: Card, b: Card) { TupleLess(AsTuple(a), AsTuple(b)) || AsTuple(a) == AsTuple(b) }
  predicate Greater(a: Card, b: Card) { TupleLess(AsTuple(b), AsTuple(a)) }
  predicate GreaterEq(a: Card, b: Card) { TupleLess(AsTuple(b), AsTuple(a)) || AsTuple(a) == AsTuple(b) }

  /** `__eq__` compares rank and suit, which is equality of cards, and the
      four comparisons are exactly the lexicographic order on (suit, rank). */
  lemma {:induction false} OrderIsSuitThenRank(a: Card, b: Card)
    ensures AsTuple(a) == AsTuple(b) <==> a == b
    ensures Less(a, b) <==> a.suit < b.suit || (a.suit == b.suit && a.rank < b.rank)
    ensures LessEq(a, b) <==> a.suit < b.suit || (a.suit == b.suit && a.rank <= b.rank)
    ensures Greater(a, b) <==> Less(b, a)
    ensures GreaterEq(a, b) <==> LessEq(b, a)
  {
    var ta, tb := AsTuple(a), AsTuple(b);
    assert ta[1..] == [a.rank] && tb[1..] == [b.rank];
    assert ta[1..][1..] == [] && tb[1..][1..] == [];
    assert TupleLess(ta, tb) == (if a.suit != b.suit then a.suit < b.suit else TupleLess([a.rank], [b.rank]));
    assert TupleLess([a.rank], [b.rank]) == (if a.rank != b.rank then a.rank < b.rank else TupleLess([], []));
    assert TupleLess(tb, ta) == (if a.suit != b.suit then b.suit < a.suit else TupleLess([b.rank], [a.rank]));
    assert TupleLess([b.rank], [a.rank]) == (if a.rank != b.rank then b.rank < a.rank else TupleLess([], []));
  }

  /** Card order is a total order: `<` is irreflexive and transitive, and any
      two cards compare one way or are equal. */
  lemma CardOrderTotal(a: Card, b: Card, c: Card)
    ensures !Less(a, a)
    ensures Less(a, b) && Less(b, c) ==> Less(a, c)
    ensures Less(a, b) || a == b || Less(b, a)
    ensures LessEq(a, b) <==> !Less(b, a)
  {
    OrderIsSuitThenRank(a, a);
    OrderIsSuitThenRank(a, b);
    OrderIsSuitThenRank(b, a);
    OrderIsSuitThenRank(b, c);
    OrderIsSuitThenRank(a, c);
  }

  // ---------------------------------------------------------------------------
  // Sorting

  predicate CardsSorted(s: seq<Card>) {
    SortedBy(LessEq, s)
  }

  /** `<=` on cards is transitive. */
  lemma LessEqTrans(a: Card, b: Card, c: Card)
    requires LessEq(a, b) && LessEq(b, c)
    ensures LessEq(a, c)
  {
    OrderIsSuitThenRank(a, b);
    OrderIsSuitThenRank(b, c);
    OrderIsSuitThenRank(a, c);
  }

  /** `<=` on cards orders any two cards and is transitive. */
  lemma CardOrderPreorder()
    ensures TotalPreorder(LessEq)
  {
    forall a, b ensures LessEq(a, b) || LessEq(b, a) {
      OrderIsSuitThenRank(a, b);
      OrderIsSuitThenRank(b, a);
    }
    forall a, b, c | LessEq(a, b) && LessEq(b, c) ensures LessEq(a, c) {
      LessEqTrans(a, b, c);
    }
  }

  /** `list.sort()` on cards: ascending under `<=`, and a permutation. */
  function SortedCards(s: seq<Card>): (r: seq<Card>)
    ensures CardsSorted(r)
    ensures multiset(r) == multiset(s)
  {
    CardOrderPreorder();
    SortBy(LessEq, s)
  }

  /** The first card of a sorted sequence is at most every card in it. */
  lemma SortedHeadLeast(a: seq<Card>, x: Card)
    requires CardsSorted(a) && x in multiset(a)
    ensures LessEq(a[0], x)
  {
    var i :| 0 <= i < |a| && a[i] == x;
    if i > 0 {
      assert LessEq(a[0], a[i]);
    } else {
      OrderIsSuitThenRank(x, x);
    }
  }

  /** Sorting determines the result: two sorted arrangements of the same cards
      are equal, so any correct sort (Python's included) gives `SortedCards`. */
  lemma {:induction false} SortedUnique(a: seq<Card>, b: seq<Card>)
    requires CardsSorted(a) && CardsSorted(b) && multiset(a) == multiset(b)
    ensures a == b
    decreases |a|
  {
    assert |a| == |b| by {
      assert |a| == |multiset(a)| && |b| == |multiset(b)|;
    }
    if a != [] {
      assert a[0] == b[0] by {
        assert a[0] in multiset(b) && b[0] in multiset(a);
        SortedHeadLeast(b, a[0]);
        SortedHeadLeast(a, b[0]);
        OrderIsSuitThenRank(a[0], b[0]);
        OrderIsSuitThenRank(b[0], a[0]);
      }
      assert multiset(a[1..]) == multiset(b[1..]) by {
        assert a == [a[0]] + a[1..] && b == [b[0]] + b[1..];
        assert multiset(a[1..]) == multiset(a) - multiset{a[0]};
        assert multiset(b[1..]) == multiset(b) - multiset{b[0]};
      }
      assert CardsSorted(a[1..]) && CardsSorted(b[1..]) by {
        SortedTail(LessEq, a);
        SortedTail(LessEq, b);
      }
      SortedUnique(a[1..], b[1..]);
      assert a == [a[0]] + a[1..] && b == [b[0]] + b[1..];
    }
  }

  // ---------------------------------------------------------------------------
  // The standard deck

  /** The 52 cards of `make_cards`, suit by suit, ranks 2 to 14 within a suit. */
  function StandardDeck(): (d: seq<Card>)
    ensures |d| == 52
  {
    seq(52, i => Card(i / 13, i % 13 + 2))
  }

  /** The standard deck holds every suit 0..3 with every rank 2..14, nothing
      else, and no card twice. */
  lemma StandardDeckComplete()
    ensures forall i :: 0 <= i < 52 ==> 0 <= StandardDeck()[i].suit < 4 && 2 <= StandardDeck()[i].rank < 15
    ensures forall s, r :: 0 <= s < 4 && 2 <= r < 15 ==> StandardDeck()[13 * s + r - 2] == Card(s, r)
    ensures forall i, j :: 0 <= i < j < 52 ==> StandardDeck()[i] != StandardDeck()[j]
  {
    var d := StandardDeck();
    forall s, r | 0 <= s < 4 && 2 <= r < 15 ensures d[13 * s + r - 2] == Card(s, r) {
      DivMod13(s, r - 2);
    }
    forall i, j | 0 <= i < j < 52 ensures d[i] != d[j] {
      DivMod13(i / 13, i % 13);
      DivMod13(j / 13, j % 13);
    }
  }

  lemma DivMod13(q: int, k: int)
    requires 0 <= k < 13
    ensures (13 * q + k) / 13 == q && (13 * q + k) % 13 == k
  {
  }

  // ---------------------------------------------------------------------------
  // Bridge points

  /** `Card.rank_names`. */
  const RankNames: seq<Option<string>> :=
    [None, Some("Ace"), Some("2"), Some("3"), Some("4"), Some("5"), Some("6"), Some("7"),
     Some("8"), Some("9"), Some("10"), Some("Jack"), Some("Queen"), Some("King"), Some("Ace")]

  /** Python's `rank_names[rank]`: negative ranks count from the end; other
      ranks outside -15..14 raise IndexError, which callers rule out. */
  predicate ValidRank(rank: int) {
    -|RankNames| <= rank < |RankNames|
  }

  function RankName(rank: int): Option<string>
    requires ValidRank(rank)
  {
    if rank >= 0 then RankNames[rank] else RankNames[|RankNames| + rank]
  }

  /** `high_card_point_count.get(name, 0)`. */
  function HighCardPoints(name: Option<string>): nat {
    if name == Some("Ace") then 4
    else if name == Some("King") then 3
    else if name == Some("Queen") then 2
    else if name == Some("Jack") then 1
    else 0
  }

  /** `card_rank_score`: the rank's name and its high-card points. */
  function CardRankScore(rank: int): (r: (Option<string>, nat))
    requires ValidRank(rank)
    ensures r.1 <= 4
  {
    var name := RankName(rank);
    (name, HighCardPoints(name))
  }

  /** Ace (rank 1 or 14) scores 4, King 3, Queen 2, Jack 1, every pip card 0;
      through Python's negative indexing, ranks -1..-4 score like 14..11. */
  lemma RankScores(rank: int)
    requires 1 <= rank <= 14
    ensures CardRankScore(rank).1 ==
      if rank == 1 || rank == 14 then 4
      else if rank == 13 then 3
      else if rank == 12 then 2
      else if rank == 11 then 1
      else 0
    ensures CardRankScore(rank - 15) == CardRankScore(rank)
  {
    assert RankNames[1] == Some("Ace") && RankNames[14] == Some("Ace") && RankNames[13] == Some("King");
    assert RankNames[12] == Some("Queen") && RankNames[11] == Some("Jack");
    if 2 <= rank <= 10 {
      assert RankNames[rank] == Some(RankNames[rank].value);
      assert |RankNames[rank].value| <= 2;
    }
  }

  predicate ValidRanks(cards: seq<Card>) {
    forall i :: 0 <= i < |cards| ==> ValidRank(cards[i].rank)
  }

  /** Reference sum of the high-card points of `cards`. */
  function HandPoints(cards: seq<Card>): nat
    requires ValidRanks(cards)
  {
    if cards == [] then 0
    else HandPoints(cards[..|cards| - 1]) + CardRankScore(cards[|cards| - 1].rank).1
  }

  /** A hand scores at most 4 points a card. */
  lemma {:induction false} HandPointsBound(cards: seq<Card>)
    requires ValidRanks(cards)
    ensures HandPoints(cards) <= 4 * |cards|
  {
    if cards != [] {
      HandPointsBound(cards[..|cards| - 1]);
    }
  }

  /** The largest of `points`, starting from 0 as `winning_among` does. */
  function MaxPoints(points: seq<nat>): nat {
    if points == [] then 0
    else if points[|points| - 1] > MaxPoints(points[..|points| - 1]) then points[|points| - 1]
    else MaxPoints(points[..|points| - 1])
  }

  /** Since points are never negative, the running maximum is the largest
      score and is reached by some hand. */
  lemma {:induction false} MaxPointsIsMax(points: seq<nat>)
    ensures forall i :: 0 <= i < |points| ==> points[i] <= MaxPoints(points)
    ensures points != [] ==> exists i :: 0 <= i < |points| && points[i] == MaxPoints(points)
  {
    if points != [] {
      var init := points[..|points| - 1];
      MaxPointsIsMax(init);
      assert forall i :: 0 <= i < |init| ==> points[i] == init[i];
      if init == [] {
        assert points[0] == MaxPoints(points);
      }
    }
  }

  /** The players, in order, whose points equal `best`. */
  function Collect(players: seq<string>, points: seq<nat>, best: nat): (r: seq<string>)
    requires |players| == |points|
    ensures |r| <= |players|
  {
    if players == [] then []
    else Collect(players[..|players| - 1], points[..|points| - 1], best)
         + (if points[|points| - 1] == best then [players[|players| - 1]] else [])
  }

  /** The positions, in increasing order, of the hands that score `best`. */
  function BestPositions(points: seq<nat>, best: nat): (r: seq<nat>)
    ensures forall k :: 0 <= k < |r| ==> r[k] < |points| && points[r[k]] == best
    ensures forall k, l :: 0 <= k < l < |r| ==> r[k] < r[l]
    ensures forall i :: 0 <= i < |points| && points[i] == best ==> i in r
  {
    if points == [] then []
    else
      var init := points[..|points| - 1];
      assert forall i :: 0 <= i < |init| ==> init[i] == points[i];
      BestPositions(init, best) + (if points[|points| - 1] == best then [|points| - 1] else [])
  }

  /** The collected names are the players at the best-scoring positions: each
      such player once, in the order of the hands. */
  lemma {:induction false} CollectAtBestPositions(players: seq<string>, points: seq<nat>, best: nat)
    requires |players| == |points|
    ensures |Collect(players, points, best)| == |BestPositions(points, best)|
    ensures forall k :: 0 <= k < |BestPositions(points, best)| ==>
              Collect(players, points, best)[k] == players[BestPositions(points, best)[k]]
  {
    if players != [] {
      var ip, jp := players[..|players| - 1], points[..|points| - 1];
      CollectAtBestPositions(ip, jp, best);
      var pos := BestPositions(jp, best);
      forall k | 0 <= k < |pos| ensures ip[pos[k]] == players[pos[k]] {
      }
    }
  }

  /** Every player that scores `best` is collected. */
  lemma {:induction false} CollectSpec(players: seq<string>, points: seq<nat>, best: nat, i: nat)
    requires |players| == |points| && i < |players| && points[i] == best
    ensures Collect(players, points, best) != []
    ensures players[i] in Collect(players, points, best)
  {
    if i < |players| - 1 {
      CollectSpec(players[..|players| - 1], points[..|points| - 1], best, i);
    }
  }

  lemma {:induction false} CollectOnlyBest(players: seq<string>, points: seq<nat>, best: nat)
    requires |players| == |points|
    ensures forall w :: w in Collect(players, points, best) ==>
              exists i :: 0 <= i < |players| && players[i] == w && points[i] == best
  {
    if players != [] {
      CollectOnlyBest(players[..|players| - 1], points[..|points| - 1], best);
    }
  }

  /** Reference result of `winning_among`. */
  function Winners(players: seq<string>, points: seq<nat>): seq<string>
    requires |players| == |points|
  {
    if players == [] then [] else Collect(players, points, MaxPoints(points))
  }

  /** With at least one hand there is at least one winner, and every winner has
      the top score. */
  lemma WinnersNonEmpty(players: seq<string>, points: seq<nat>)
    requires |players| == |points| && players != []
    ensures Winners(players, points) != []
    ensures forall w :: w in Winners(players, points) ==>
              exists i :: 0 <= i < |players| && players[i] == w && points[i] == MaxPoints(points)
  {
    MaxPointsIsMax(points);
    var i :| 0 <= i < |points| && points[i] == MaxPoints(points);
    CollectSpec(players, points, MaxPoints(points), i);
    CollectOnlyBest(players, points, MaxPoints(points));
  }

  // ---------------------------------------------------------------------------
  // Decks and hands

  class Deck {
    var cards: seq<Card>
    const player: string

    /** `Deck(cards)`. */
    constructor (cards: seq<Card>)
      ensures this.cards == cards && player == ""
    {
      this.cards := cards;
      player := "";
    }

    /** `Hand(player)`: an empty deck assigned to a player. */
    constructor Hand(player: string)
      ensures cards == [] && this.player == player
    {
      cards := [];
      this.player := player;
    }

    /** `make_cards`: 52 cards, suit 0..3 outer, rank 2..14 inner. */
    static method MakeCards() returns (cards: seq<Card>)
      ensures cards == StandardDeck()
    {
      cards := [];
      for suit := 0 to 4
        invariant |cards| == 13 * suit
        invariant forall i :: 0 <= i < |cards| ==> cards[i] == Card(i / 13, i % 13 + 2)
      {
        for rank := 2 to 15
          invariant |cards| == 13 * suit + rank - 2
          invariant forall i :: 0 <= i < |cards| ==> cards[i] == Card(i / 13, i % 13 + 2)
        {
          DivMod13(suit, rank - 2);
          cards := cards + [Card(suit, rank)];
        }
      }
    }

    /** `take_card`: removes and returns the last card; none on an empty deck,
        where the source raises IndexError. */
    method TakeCard() returns (r: Option<Card>)
      modifies this`cards
      ensures old(cards) == [] ==> r == None && cards == []
      ensures old(cards) != [] ==> r.Some? && old(cards) == cards + [r.value]
    {
      if cards == [] {
        return None;
      }
      r := Some(cards[|cards| - 1]);
      cards := cards[..|cards| - 1];
    }

    /** `add_card`. */
    method AddCard(card: Card)
      modifies this`cards
      ensures cards == old(cards) + [card]
    {
      cards := cards + [card];
    }

    /** `sort_cards`. */
    method SortCards()
      modifies this`cards
      ensures cards == SortedCards(old(cards))
    {
      cards := SortedCards(cards);
    }

    /** `move_cards(other, num)`: takes the last card and gives it to `other`,
        `num` times. Onto another deck the last min(num, n) cards arrive in
        reverse order and no card is lost; there is a failure (IndexError in the
        source) iff `num` exceeds the cards held. Onto itself nothing changes. */
    method MoveCards(other: Deck, num: int) returns (ok: bool)
      modifies this`cards, other`cards
      ensures other != this ==>
        var n := |old(cards)|;
        var m := if num <= 0 then 0 else if num < n then num else n;
        && ok == (num <= n)
        && cards == old(cards)[..n - m]
        && other.cards == old(other.cards) + Reverse(old(cards)[n - m..])
        && |cards| + |other.cards| == |old(cards)| + |old(other.cards)|
      ensures other == this ==> cards == old(cards) && ok == (num <= 0 || old(cards) != [])
    {
      ghost var mine, theirs := cards, other.cards;
      var i := 0;
      while i < num
        invariant 0 <= i && (num <= 0 ==> i == 0) && (num > 0 ==> i <= num)
        invariant other != this ==>
          i <= |mine| && cards == mine[..|mine| - i] && other.cards == theirs + Reverse(mine[|mine| - i..])
        invariant other == this ==> cards == mine && (i > 0 ==> mine != [])
        decreases num - i
      {
        var card := TakeCard();
        if card.None? {
          assert other != this ==> i == |mine|;
          return false;
        }
        other.AddCard(card.value);
        if other != this {
          ghost var tail := mine[|mine| - i - 1..];
          assert tail[1..] == mine[|mine| - i..];
          assert tail[0] == card.value;
        }
        i := i + 1;
      }
      return true;
    }

    /** `points_in_hand`: adds up the high-card points card by card. */
    method PointsInHand() returns (count: nat)
      requires ValidRanks(cards)
      ensures count == HandPoints(cards)
      ensures count <= 4 * |cards|
    {
      count := 0;
      for i := 0 to |cards|
        invariant count == HandPoints(cards[..i])
      {
        var rankName := RankName(cards[i].rank);
        count := count + HighCardPoints(rankName);
        assert cards[..i + 1][..i] == cards[..i];
      }
      assert cards[..|cards|] == cards;
      HandPointsBound(cards);
    }

    /** `winning_hand`: this hand's player wins on strictly more points, and
        `other`'s player otherwise (ties go to `other`); the winner never has
        fewer points than the loser. Printing becomes the returned name. */
    method WinningHand(other: Deck) returns (winner: string)
      requires ValidRanks(cards) && ValidRanks(other.cards)
      ensures winner == if HandPoints(cards) > HandPoints(other.cards) then player else other.player
      ensures winner == player ==> HandPoints(cards) >= HandPoints(other.cards) || player == other.player
      ensures winner == other.player ==> HandPoints(other.cards) >= HandPoints(cards) || player == other.player
    {
      var mine := PointsInHand();
      var theirs := other.PointsInHand();
      if mine > theirs {
        winner := player;
      } else {
        winner := other.player;
      }
    }
  }

  /** Adding a card and taking one gives the card back and restores the deck. */
  method AddThenTake(deck: Deck, card: Card) returns (r: Option<Card>)
    modifies deck`cards
    ensures r == Some(card) && deck.cards == old(deck.cards)
  {
    ghost var before := deck.cards;
    deck.AddCard(card);
    ghost var mid := deck.cards;
    r := deck.TakeCard();
    assert mid[|mid| - 1] == card && mid[..|mid| - 1] == before;
  }

  /** The players of `hands`, in order. */
  function Players(hands: seq<Deck>): (r: seq<string>)
    ensures |r| == |hands|
    ensures forall i :: 0 <= i < |hands| ==> r[i] == hands[i].player
  {
    if hands == [] then [] else Players(hands[..|hands| - 1]) + [hands[|hands| - 1].player]
  }

  predicate AllRanksValid(hands: seq<Deck>)
    reads hands
  {
    forall i :: 0 <= i < |hands| ==> ValidRanks(hands[i].cards)
  }

  /** The points of each of `hands`, in order. */
  function PointsOf(hands: seq<Deck>): (r: seq<nat>)
    requires AllRanksValid(hands)
    reads hands
    ensures |r| == |hands|
    ensures forall i :: 0 <= i < |hands| ==> r[i] == HandPoints(hands[i].cards)
  {
    if hands == [] then [] else PointsOf(hands[..|hands| - 1]) + [HandPoints(hands[|hands| - 1].cards)]
  }

  /** The highest score among `hands` (0 when there are none). */
  method BestPoints(hands: seq<Deck>) returns (maxPoints: nat)
    requires AllRanksValid(hands)
    ensures maxPoints == MaxPoints(PointsOf(hands))
  {
    ghost var points := PointsOf(hands);
    maxPoints := 0;
    for i := 0 to |hands|
      invariant maxPoints == MaxPoints(points[..i])
    {
      var p := hands[i].PointsInHand();
      assert points[..i + 1][..i] == points[..i];
      if p > maxPoints {
        maxPoints := p;
      }
    }
    assert points[..|hands|] == points;
  }

  /** The players of `hands`, in order, whose points equal `best`. */
  method PlayersWith(hands: seq<Deck>, best: nat) returns (winners: seq<string>)
    requires AllRanksValid(hands)
    ensures winners == Collect(Players(hands), PointsOf(hands), best)
  {
    ghost var points := PointsOf(hands);
    ghost var players := Players(hands);
    winners := [];
    for i := 0 to |hands|
      invariant winners == Collect(players[..i], points[..i], best)
    {
      var p := hands[i].PointsInHand();
      assert players[..i + 1][..i] == players[..i];
      assert points[..i + 1][..i] == points[..i];
      if p == best {
        winners := winners + [hands[i].player];
      }
    }
    assert players[..|hands|] == players;
    assert points[..|hands|] == points;
  }

  /** `winning_among(*hands)`: no hands give no winners; otherwise the players,
      in argument order, whose points equal the highest score, of whom there is
      at least one. */
  method WinningAmong(hands: seq<Deck>) returns (winners: seq<string>)
    requires AllRanksValid(hands)
    ensures winners == Winners(Players(hands), PointsOf(hands))
    ensures hands != [] ==> winners != []
  {
    if hands == [] {
      return [];
    }
    var maxPoints := BestPoints(hands);
    winners := PlayersWith(hands, maxPoints);
    WinnersNonEmpty(Players(hands), PointsOf(hands));
  }
}
