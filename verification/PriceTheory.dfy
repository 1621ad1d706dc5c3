/** `FeeModderByPriceTheory`: per peer, a small game of cards that walks the fee
    level towards the best-earning price.  Prices of a round lie around a center;
    each card is in play for a while and collects the fees earned meanwhile. */
module PriceTheory {
  import opened Wrappers

  type Node = nat

  const INITIAL_PRICE := 0
  const INITIAL_LIFETIME := 288
  const MAX_STEP := 2

  datatype Pos = Deck | InPlay | Discarded
  datatype Card = Card(pos: Pos, deckorder: nat, price: int, lifetime: int, earnings: nat)

  /** The rows of one peer: the stored center price and its cards, and the fees
      credited to them since they were made. */
  datatype Game = Game(center: Option<int>, cards: seq<Card>, credited: nat)

  const NoGame := Game(None, [], 0)

  function CenterOf(g: Game): int {
    match g.center case None => INITIAL_PRICE case Some(c) => c
  }

  // ------------------------------------------------------------ what steps do

  function PricesAround(c: int): seq<int> {
    [c, c + 1, c - 1, c + 2, c - 2]
  }

  /** A permutation of the five prices around the center. */
  predicate Spread(prices: seq<int>, c: int) {
    multiset(prices) == multiset(PricesAround(c))
  }

  lemma SpreadFacts(prices: seq<int>, c: int)
    requires Spread(prices, c)
    ensures |prices| == 5
    ensures forall p :: Times(prices, p) == if -2 <= p - c <= 2 then 1 else 0
    ensures forall i :: 0 <= i < |prices| ==> -2 <= prices[i] - c <= 2
  {
    assert |prices| == |multiset(prices)| == |multiset(PricesAround(c))|;
    forall i | 0 <= i < |prices| ensures -2 <= prices[i] - c <= 2 {
      assert prices[i] in multiset(prices);
    }
  }

  function Times(prices: seq<int>, p: int): nat {
    multiset(prices)[p]
  }

  /** New cards in a shuffled order. */
  function NewCards(prices: seq<int>): (cards: seq<Card>)
    ensures |cards| == |prices|
    ensures forall i :: 0 <= i < |cards| ==> cards[i] == Card(Deck, i, prices[i], INITIAL_LIFETIME, 0)
  {
    seq(|prices|, i requires 0 <= i < |prices| => Card(Deck, i, prices[i], INITIAL_LIFETIME, 0))
  }

  predicate IsBest(cards: seq<Card>, i: int) {
    && 0 <= i < |cards| && cards[i].pos == Discarded
    && forall j :: 0 <= j < |cards| && cards[j].pos == Discarded ==> cards[j].earnings <= cards[i].earnings
  }

  /** `update_centerprice`: the best-earning discarded price, the old center if
      nothing was earned, the initial price before the first round. */
  ghost predicate UpdatesCenter(g: Game, center: Option<int>) {
    || (exists i :: IsBest(g.cards, i)
          && center == if g.cards[i].earnings == 0 then g.center else Some(g.cards[i].price))
    || ((forall j :: 0 <= j < |g.cards| ==> g.cards[j].pos != Discarded) && center == Some(INITIAL_PRICE))
  }

  predicate Has(cards: seq<Card>, pos: Pos) {
    exists i :: 0 <= i < |cards| && cards[i].pos == pos
  }

  /** `end_game_round`. */
  ghost predicate NewRound(g: Game, g': Game) {
    && !Has(g.cards, Deck) && !Has(g.cards, InPlay)
    && UpdatesCenter(g, g'.center) && g'.credited == 0
    && HasNewCards(g'.cards, CenterOf(g'))
  }

  /** `reshuffle_deck`: one new card for each price around the center, in any order. */
  ghost predicate HasNewCards(cards: seq<Card>, c: int) {
    exists prices :: Spread(prices, c) && cards == NewCards(prices)
  }

  predicate IsTop(cards: seq<Card>, i: int) {
    && 0 <= i < |cards| && cards[i].pos == Deck
    && forall j :: 0 <= j < |cards| && cards[j].pos == Deck ==> cards[j].deckorder <= cards[i].deckorder
  }

  /** Put the topmost card of the deck in play. */
  ghost predicate Draws(g: Game, g': Game) {
    && !Has(g.cards, InPlay)
    && exists i :: IsTop(g.cards, i) && g' == g.(cards := g.cards[i := g.cards[i].(pos := InPlay)])
  }

  /** `get_price`: use the card in play, or draw one, after a new round if the deck
      is empty. */
  ghost predicate Plays(g: Game, g': Game) {
    || (Has(g.cards, InPlay) && g' == g)
    || Draws(g, g')
    || exists mid :: NewRound(g, mid) && Draws(mid, g')
  }

  function TickCard(c: Card, connected: bool): Card {
    if c.pos != InPlay then c
    else
      var left := if connected then c.lifetime - 1 else c.lifetime;
      c.(lifetime := left, pos := if left <= 0 then Discarded else InPlay)
  }

  /** `update_10_minutes` for one peer. */
  function Tick(g: Game, connected: bool): Game {
    g.(cards := seq(|g.cards|, i requires 0 <= i < |g.cards| => TickCard(g.cards[i], connected)))
  }

  function CreditCard(c: Card, fee: nat): Card {
    if c.pos == InPlay then c.(earnings := c.earnings + fee) else c
  }

  /** `forward_fee` for one peer; a fee earned with no card in play is not counted. */
  function Credit(g: Game, fee: nat): Game {
    g.(cards := seq(|g.cards|, i requires 0 <= i < |g.cards| => CreditCard(g.cards[i], fee)),
       credited := g.credited + if Has(g.cards, InPlay) then fee else 0)
  }

  // -------------------------------------------------------------- the invariant

  function Prices(cards: seq<Card>): (p: seq<int>)
    ensures |p| == |cards| && forall i :: 0 <= i < |p| ==> p[i] == cards[i].price
  {
    seq(|cards|, i requires 0 <= i < |cards| => cards[i].price)
  }

  function Earned(cards: seq<Card>): nat {
    if cards == [] then 0 else cards[0].earnings + Earned(cards[1..])
  }

  predicate OneInPlay(cards: seq<Card>) {
    forall i, j :: 0 <= i < j < |cards| ==> !(cards[i].pos == InPlay && cards[j].pos == InPlay)
  }

  /** A card has its whole life before it in the deck, some of it left in play, and
      none when discarded; it earns nothing before it is in play. */
  predicate LifeFits(c: Card) {
    match c.pos
    case Deck => c.lifetime == INITIAL_LIFETIME && c.earnings == 0
    case InPlay => 0 < c.lifetime <= INITIAL_LIFETIME
    case Discarded => c.lifetime == 0
  }

  predicate Lifetimes(cards: seq<Card>) {
    forall i :: 0 <= i < |cards| ==> LifeFits(cards[i])
  }

  /** The cards lie in the order of the shuffle, and the deck is what is left at the
      bottom. */
  predicate DrawnFromTop(cards: seq<Card>) {
    && (forall i :: 0 <= i < |cards| ==> cards[i].deckorder == i)
    && (forall i, j :: 0 <= i < j < |cards| && cards[j].pos == Deck ==> cards[i].pos == Deck)
  }

  /** Either no cards, or one for each price within two of the center; at most one in
      play, still alive; the cards' earnings are the fees credited this round. */
  ghost predicate Inv(g: Game) {
    && (g.cards == [] <==> g.center == None)
    && (g.cards != [] ==> Spread(Prices(g.cards), CenterOf(g)))
    && OneInPlay(g.cards) && Lifetimes(g.cards) && DrawnFromTop(g.cards)
    && Earned(g.cards) == g.credited
  }

  lemma {:induction false} EarnedPointwise(a: seq<Card>, b: seq<Card>)
    requires |a| == |b| && forall i :: 0 <= i < |a| ==> b[i].earnings == a[i].earnings
    ensures Earned(b) == Earned(a)
  {
    if a != [] {
      EarnedPointwise(a[1..], b[1..]);
    }
  }

  lemma {:induction false} NothingEarned(cards: seq<Card>)
    requires forall i :: 0 <= i < |cards| ==> cards[i].earnings == 0
    ensures Earned(cards) == 0
  {
    if cards != [] {
      NothingEarned(cards[1..]);
    }
  }

  lemma {:induction false} EarnedWithFee(a: seq<Card>, b: seq<Card>, fee: nat)
    requires |a| == |b| && OneInPlay(a)
    requires forall i :: 0 <= i < |a| ==> b[i] == CreditCard(a[i], fee)
    ensures Earned(b) == Earned(a) + if Has(a, InPlay) then fee else 0
  {
    if a != [] {
      EarnedWithFee(a[1..], b[1..], fee);
      HasCons(a, InPlay);
      if a[0].pos == InPlay {
        assert forall i :: 0 <= i < |a[1..]| ==> a[1..][i] == a[i + 1] && a[i + 1].pos != InPlay;
      }
    }
  }

  lemma HasCons(cards: seq<Card>, pos: Pos)
    requires cards != []
    ensures Has(cards, pos) <==> cards[0].pos == pos || Has(cards[1..], pos)
  {
    assert forall i :: 0 <= i < |cards[1..]| ==> cards[1..][i] == cards[i + 1];
    if Has(cards, pos) && cards[0].pos != pos {
      var i :| 0 <= i < |cards| && cards[i].pos == pos;
      assert cards[1..][i - 1].pos == pos;
    }
  }

  lemma DrawsInv(g: Game, g': Game)
    requires Inv(g) && Draws(g, g')
    ensures Inv(g') && Has(g'.cards, InPlay) && g'.center == g.center && g'.credited == g.credited
  {
    hide Spread, Earned, Lifetimes, OneInPlay, DrawnFromTop;
    var i :| IsTop(g.cards, i) && g' == g.(cards := g.cards[i := g.cards[i].(pos := InPlay)]);
    assert Prices(g'.cards) == Prices(g.cards);
    EarnedPointwise(g.cards, g'.cards);
    DrawnCards(g.cards, i);
    assert g'.cards[i].pos == InPlay;
  }

  lemma DrawnCards(cards: seq<Card>, i: nat)
    requires IsTop(cards, i) && !Has(cards, InPlay) && Lifetimes(cards) && DrawnFromTop(cards)
    ensures var cards' := cards[i := cards[i].(pos := InPlay)];
            OneInPlay(cards') && Lifetimes(cards') && DrawnFromTop(cards')
  {
    assert LifeFits(cards[i]);
  }

  lemma NewDeckInv(g: Game, prices: seq<int>)
    requires Spread(prices, CenterOf(g)) && g.cards == NewCards(prices) && g.center.Some? && g.credited == 0
    ensures Inv(g) && Has(g.cards, Deck) && !Has(g.cards, InPlay)
  {
    SpreadFacts(prices, CenterOf(g));
    hide Spread, Times, Earned;
    assert Prices(g.cards) == prices;
    NothingEarned(g.cards);
    assert g.cards[0].pos == Deck;
  }

  lemma CenterMoves(g: Game, center: Option<int>)
    requires Inv(g) && !Has(g.cards, Deck) && !Has(g.cards, InPlay) && UpdatesCenter(g, center)
    ensures center.Some? && -MAX_STEP <= center.value - CenterOf(g) <= MAX_STEP
    ensures center.value != CenterOf(g) ==>
              exists i :: IsBest(g.cards, i) && g.cards[i].earnings > 0 && center.value == g.cards[i].price
  {
    hide Spread, Earned, OneInPlay, Lifetimes, DrawnFromTop;
    if g.cards != [] {
      SomeDiscarded(g.cards);
    }
    if i :| IsBest(g.cards, i) && center == if g.cards[i].earnings == 0 then g.center else Some(g.cards[i].price) {
      PriceIsNear(g, i);
    }
  }

  lemma SomeDiscarded(cards: seq<Card>)
    requires cards != [] && !Has(cards, Deck) && !Has(cards, InPlay)
    ensures Has(cards, Discarded)
  {
    assert cards[0].pos == Discarded;
  }

  /** A new round starts with a full deck, and the center moves at most two, only to
      a discarded price of maximal and positive earnings. */
  lemma NewRoundInv(g: Game, g': Game)
    requires Inv(g) && NewRound(g, g')
    ensures Inv(g') && Has(g'.cards, Deck) && !Has(g'.cards, InPlay)
    ensures -MAX_STEP <= CenterOf(g') - CenterOf(g) <= MAX_STEP
    ensures CenterOf(g') != CenterOf(g) ==>
              exists i :: IsBest(g.cards, i) && g.cards[i].earnings > 0 && CenterOf(g') == g.cards[i].price
  {
    hide Inv, UpdatesCenter, Has, Spread, IsBest;
    assert HasNewCards(g'.cards, CenterOf(g'));
    var prices :| Spread(prices, CenterOf(g')) && g'.cards == NewCards(prices);
    CenterMoves(g, g'.center);
    NewDeckInv(g', prices);
  }

  lemma PriceIsNear(g: Game, i: nat)
    requires Inv(g) && i < |g.cards|
    ensures -MAX_STEP <= g.cards[i].price - CenterOf(g) <= MAX_STEP
  {
    SpreadFacts(Prices(g.cards), CenterOf(g));
    hide Spread, Times;
    assert Prices(g.cards)[i] == g.cards[i].price;
  }

  lemma PlaysInv(g: Game, g': Game)
    requires Inv(g) && Plays(g, g')
    ensures Inv(g') && Has(g'.cards, InPlay)
    ensures -MAX_STEP <= CenterOf(g') - CenterOf(g) <= MAX_STEP
    ensures CenterOf(g') != CenterOf(g) ==>
              exists i :: IsBest(g.cards, i) && g.cards[i].earnings > 0 && CenterOf(g') == g.cards[i].price
    ensures g'.credited == g.credited || g'.credited == 0
  {
    hide Inv;
    if Has(g.cards, InPlay) && g' == g {
    } else if Draws(g, g') {
      DrawsInv(g, g');
    } else {
      var mid :| NewRound(g, mid) && Draws(mid, g');
      NewRoundInv(g, mid);
      DrawsInv(mid, g');
    }
  }

  lemma TickInv(g: Game, connected: bool)
    requires Inv(g)
    ensures Inv(Tick(g, connected))
  {
    hide Spread, Earned;
    var g' := Tick(g, connected);
    assert Prices(g'.cards) == Prices(g.cards);
    EarnedPointwise(g.cards, g'.cards);
  }

  lemma CreditInv(g: Game, fee: nat)
    requires Inv(g)
    ensures Inv(Credit(g, fee))
  {
    hide Spread, Earned;
    var g' := Credit(g, fee);
    assert Prices(g'.cards) == Prices(g.cards);
    EarnedWithFee(g.cards, g'.cards, fee);
  }

  // -------------------------------------------------------------------- runs

  datatype Event = GetPrice | TenMinutes(connected: bool) | Forwarded(fee: nat)

  ghost predicate Step(g: Game, e: Event, g': Game) {
    match e
    case GetPrice => Plays(g, g')
    case TenMinutes(connected) => g' == Tick(g, connected)
    case Forwarded(fee) => g' == Credit(g, fee)
  }

  ghost predicate IsRun(run: seq<Game>, events: seq<Event>) {
    && |run| == |events| + 1 && run[0] == NoGame
    && forall i {:trigger events[i]} :: 0 <= i < |events| ==> Step(run[i], events[i], run[i + 1])
  }

  lemma StepInv(g: Game, e: Event, g': Game)
    requires Inv(g) && Step(g, e, g')
    ensures Inv(g') && -MAX_STEP <= CenterOf(g') - CenterOf(g) <= MAX_STEP
  {
    match e
    case GetPrice => PlaysInv(g, g');
    case TenMinutes(connected) => TickInv(g, connected);
    case Forwarded(fee) => CreditInv(g, fee);
  }

  lemma {:induction false} RunInv(run: seq<Game>, events: seq<Event>, k: nat)
    requires IsRun(run, events) && k < |run|
    ensures Inv(run[k])
    decreases k
  {
    hide Inv;
    if k == 0 {
      NoGameInv();
    } else {
      RunInv(run, events, k - 1);
      assert Step(run[k - 1], events[k - 1], run[k]);
      StepInv(run[k - 1], events[k - 1], run[k]);
    }
  }

  lemma NoGameInv()
    ensures Inv(NoGame)
  {
  }

  /** The fee goes to the card in play, if there is one, and nothing else changes. */
  predicate EarnsFee(cards: seq<Card>, cards': seq<Card>, fee: nat) {
    && |cards'| == |cards| && Earned(cards') == Earned(cards) + (if Has(cards, InPlay) then fee else 0)
    && forall i :: 0 <= i < |cards| ==>
         cards'[i] == cards[i].(earnings := cards[i].earnings + if cards[i].pos == InPlay then fee else 0)
  }

  /** Over every run: a peer has no cards or exactly five, one for each price from
      center - 2 to center + 2, with at most one in play; asking for the price leaves
      exactly one in play; the center moves at most two at a time and only to the
      price of a discarded card that earned most, and something; a forwarded fee is
      earned by the card in play alone, and the cards' earnings are the fees credited
      since they were made. */
  lemma GameIsFair(run: seq<Game>, events: seq<Event>, k: nat)
    requires IsRun(run, events) && k < |events|
    ensures var g := run[k]; var g' := run[k + 1];
            && (g'.cards == [] || (|g'.cards| == 5
                  && forall p :: Times(Prices(g'.cards), p) == if -2 <= p - CenterOf(g') <= 2 then 1 else 0))
            && OneInPlay(g'.cards) && Lifetimes(g'.cards) && DrawnFromTop(g'.cards)
            && Earned(g'.cards) == g'.credited
            && (events[k].GetPrice? ==> Has(g'.cards, InPlay) && (Earned(g'.cards) == Earned(g.cards) || Earned(g'.cards) == 0))
            && (events[k].TenMinutes? ==> Earned(g'.cards) == Earned(g.cards))
            && (events[k].Forwarded? ==> EarnsFee(g.cards, g'.cards, events[k].fee))
            && -2 <= CenterOf(g') - CenterOf(g) <= 2
            && (CenterOf(g') != CenterOf(g) ==>
                  exists i :: IsBest(g.cards, i) && g.cards[i].earnings > 0 && CenterOf(g') == g.cards[i].price)
  {
    hide Plays, Spread, Times;
    RunInv(run, events, k);
    RunInv(run, events, k + 1);
    var g, g' := run[k], run[k + 1];
    assert Step(g, events[k], g');
    if events[k].GetPrice? {
      PlaysInv(g, g');
    }
    if events[k].TenMinutes? {
      EarnedPointwise(g.cards, g'.cards);
    }
    if events[k].Forwarded? {
      EarnedWithFee(g.cards, g'.cards, events[k].fee);
    }
    if g'.cards != [] {
      SpreadFacts(Prices(g'.cards), CenterOf(g'));
    }
  }

  // ------------------------------------------------------------ the next card

  /** All cards are as they were but the one drawn, which was the last of the deck. */
  predicate LastOfDeckDrawn(cards: seq<Card>, cards': seq<Card>) {
    exists i :: 0 <= i < |cards| && cards[i].pos == Deck
      && (forall j :: i < j < |cards| ==> cards[j].pos != Deck)
      && cards' == cards[i := cards[i].(pos := InPlay)]
  }

  /** The price that earned most, the old center if nothing earned, zero at first. */
  ghost predicate FollowsEarnings(cards: seq<Card>, center: int, center': int) {
    if cards == [] then center' == 0
    else exists i :: IsBest(cards, i) && center' == if cards[i].earnings == 0 then center else cards[i].price
  }

  /** What asking for the price does: nothing while a card is in play; otherwise the top
      of the deck comes into play; and when the deck is used up there is a new deck
      first, around the center that the earnings call for. */
  lemma AskingForThePrice(g: Game, g': Game)
    requires Inv(g) && Plays(g, g')
    ensures Has(g.cards, InPlay) ==> g' == g
    ensures !Has(g.cards, InPlay) && Has(g.cards, Deck) ==>
              g'.center == g.center && LastOfDeckDrawn(g.cards, g'.cards)
    ensures !Has(g.cards, InPlay) && !Has(g.cards, Deck) ==>
              && LastOfDeckDrawn(NewCards(Prices(g'.cards)), g'.cards)
              && FollowsEarnings(g.cards, CenterOf(g), CenterOf(g'))
  {
    hide Inv, Has, LastOfDeckDrawn, FollowsEarnings, NewRound, Draws;
    if Has(g.cards, InPlay) && g' == g {
    } else if Draws(g, g') {
      TopIsLast(g, g');
    } else {
      var mid :| NewRound(g, mid) && Draws(mid, g');
      NewRoundInv(g, mid);
      TopIsLast(mid, g');
      NewDeckFacts(g, mid);
    }
  }

  lemma TopIsLast(g: Game, g': Game)
    requires Inv(g) && Draws(g, g')
    ensures LastOfDeckDrawn(g.cards, g'.cards) && Has(g.cards, Deck) && !Has(g.cards, InPlay)
    ensures g'.center == g.center && Prices(g'.cards) == Prices(g.cards)
  {
    hide Spread, Earned;
    var t :| IsTop(g.cards, t) && g' == g.(cards := g.cards[t := g.cards[t].(pos := InPlay)]);
    forall j | t < j < |g.cards| ensures g.cards[j].pos != Deck {
      assert g.cards[j].deckorder == j && g.cards[t].deckorder == t;
    }
  }

  lemma NewDeckFacts(g: Game, mid: Game)
    requires Inv(g) && NewRound(g, mid)
    ensures !Has(g.cards, InPlay) && !Has(g.cards, Deck) && mid.cards == NewCards(Prices(mid.cards))
    ensures FollowsEarnings(g.cards, CenterOf(g), CenterOf(mid))
  {
    hide Spread, Earned, Lifetimes, DrawnFromTop, OneInPlay;
    var prices :| Spread(prices, CenterOf(mid)) && mid.cards == NewCards(prices);
    assert Prices(mid.cards) == prices;
    if g.cards != [] {
      SomeDiscarded(g.cards);
      var i :| IsBest(g.cards, i)
        && mid.center == if g.cards[i].earnings == 0 then g.center else Some(g.cards[i].price);
    }
  }

  // --------------------------------------------------------------- card lives

  /** How often the peer was connected when ten minutes had passed. */
  function Ticks(events: seq<Event>, a: nat, b: nat): nat
    requires a <= b <= |events|
    decreases b
  {
    if a == b then 0 else Ticks(events, a, b - 1) + if events[b - 1] == TenMinutes(true) then 1 else 0
  }

  /** A peer that is not connected keeps its game as it is. */
  lemma NoTickWhenAway(g: Game)
    requires Inv(g)
    ensures Tick(g, false) == g
  {
    hide Spread, Earned;
    forall i | 0 <= i < |g.cards| ensures TickCard(g.cards[i], false) == g.cards[i] {
      assert LifeFits(g.cards[i]);
    }
    assert Tick(g, false).cards == g.cards;
  }

  lemma DrawnIsNew(g: Game, g': Game, i: nat)
    requires Inv(g) && Draws(g, g') && i < |g'.cards| && g'.cards[i].pos == InPlay
    ensures g'.cards[i].lifetime == INITIAL_LIFETIME
  {
    hide Spread, Earned;
    var t :| IsTop(g.cards, t) && g' == g.(cards := g.cards[t := g.cards[t].(pos := InPlay)]);
    assert i == t;
    assert LifeFits(g.cards[t]);
  }

  lemma PlayedIsNew(g: Game, g': Game, i: nat)
    requires Inv(g) && Plays(g, g') && !Has(g.cards, InPlay) && i < |g'.cards| && g'.cards[i].pos == InPlay
    ensures g'.cards[i].lifetime == INITIAL_LIFETIME
  {
    hide Inv, Has;
    if Draws(g, g') {
      DrawnIsNew(g, g', i);
    } else {
      var mid :| NewRound(g, mid) && Draws(mid, g');
      NewRoundInv(g, mid);
      DrawnIsNew(mid, g', i);
    }
  }

  /** Card `i` was drawn by event `j` and has been in play since, one step nearer its end
      for each time its peer was connected. */
  ghost predicate InPlaySince(run: seq<Game>, events: seq<Event>, j: nat, k: nat, i: nat)
    requires |run| == |events| + 1 && k < |run|
  {
    && j < k && events[j] == GetPrice && !Has(run[j].cards, InPlay)
    && forall m :: j < m <= k ==>
         && i < |run[m].cards| && run[m].cards[i].pos == InPlay
         && run[m].cards[i].lifetime == INITIAL_LIFETIME - Ticks(events, j + 1, m)
  }

  /** Over every run: a card in play was drawn some time ago and has been in play ever
      since; its lifetime is 288 less the times its peer was connected. */
  lemma {:induction false} InPlayLifetime(run: seq<Game>, events: seq<Event>, k: nat, i: nat) returns (j: nat)
    requires IsRun(run, events) && k < |run| && i < |run[k].cards| && run[k].cards[i].pos == InPlay
    ensures InPlaySince(run, events, j, k, i)
    decreases k
  {
    hide Inv, Plays, Has;
    assert k > 0;
    var g, e := run[k - 1], events[k - 1];
    RunInv(run, events, k - 1);
    assert Step(g, e, run[k]);
    if e.GetPrice? && !Has(g.cards, InPlay) {
      PlayedIsNew(g, run[k], i);
      j := k - 1;
    } else {
      KeptInPlay(g, e, run[k], i);
      j := InPlayLifetime(run, events, k - 1, i);
    }
  }

  lemma KeptInPlay(g: Game, e: Event, g': Game, i: nat)
    requires Step(g, e, g') && (e.GetPrice? ==> Has(g.cards, InPlay)) && i < |g'.cards| && g'.cards[i].pos == InPlay
    ensures i < |g.cards| && g.cards[i].pos == InPlay
    ensures g'.cards[i].lifetime == g.cards[i].lifetime - if e == TenMinutes(true) then 1 else 0
  {
  }

  /** ... and it is discarded exactly when that has happened for the 288th time. */
  lemma DiscardedAtTheEnd(run: seq<Game>, events: seq<Event>, k: nat, i: nat) returns (j: nat)
    requires IsRun(run, events) && k < |events| && i < |run[k].cards| && run[k].cards[i].pos == InPlay
    requires events[k].TenMinutes?
    ensures InPlaySince(run, events, j, k, i) && i < |run[k + 1].cards|
    ensures run[k + 1].cards[i].pos == Discarded <==> Ticks(events, j + 1, k + 1) == INITIAL_LIFETIME
  {
    j := InPlayLifetime(run, events, k, i);
    assert run[k].cards[i].lifetime == INITIAL_LIFETIME - Ticks(events, j + 1, k);
    RunInv(run, events, k);
    assert Step(run[k], events[k], run[k + 1]);
    hide InPlaySince, IsRun;
    LastTick(run[k], i, events[k].connected);
  }

  lemma LastTick(g: Game, i: nat, connected: bool)
    requires Inv(g) && i < |g.cards| && g.cards[i].pos == InPlay
    ensures Tick(g, connected).cards[i].pos == Discarded <==> connected && g.cards[i].lifetime == 1
  {
    assert LifeFits(g.cards[i]);
  }

  // --------------------------------------------------------------- the module

  /** `std::shuffle`: some permutation. */
  method Shuffle(prices: seq<int>) returns (s: seq<int>)
    ensures multiset(s) == multiset(prices)
  {
    s := prices;
  }

  method ShuffledDeck(c: int) returns (hand: seq<Card>)
    ensures HasNewCards(hand, c)
  {
    hide PricesAround;
    var prices := MakePrices(c);
    prices := Shuffle(prices);
    hand := NewCards(prices);
    assert Spread(prices, c);
  }

  method MakePrices(c: int) returns (prices: seq<int>)
    ensures prices == PricesAround(c)
  {
    prices := [c];
    for i := 0 to MAX_STEP
      invariant |prices| == 1 + 2 * i
      invariant prices == PricesAround(c)[..1 + 2 * i]
    {
      prices := prices + [c + i + 1, c - (i + 1)];
    }
  }

  class Modder {
    var centers: map<Node, int>
    var cards: map<Node, seq<Card>>
    ghost var credited: map<Node, nat>

    ghost function GameOf(node: Node): Game
      reads this
    {
      Game(if node in centers then Some(centers[node]) else None,
           if node in cards then cards[node] else [],
           if node in credited then credited[node] else 0)
    }

    ghost predicate Valid()
      reads this
    {
      forall node :: Inv(GameOf(node))
    }

    constructor ()
      ensures Valid() && forall node :: GameOf(node) == NoGame
    {
      centers, cards, credited := map[], map[], map[];
      new;
      NoGameInv();
      hide Inv;
    }

    /** The rows of other peers are untouched. */
    twostate predicate OthersUnchanged(node: Node)
      reads this
    {
      forall n :: n != node ==> GameOf(n) == old(GameOf(n))
    }

    method FindInPlay(node: Node) returns (i: int)
      ensures if Has(GameOf(node).cards, InPlay)
              then 0 <= i < |GameOf(node).cards| && GameOf(node).cards[i].pos == InPlay
              else i == -1
    {
      i := -1;
      if node !in cards {
        return;
      }
      var hand := cards[node];
      for k := 0 to |hand|
        invariant forall j :: 0 <= j < k ==> hand[j].pos != InPlay
      {
        if hand[k].pos == InPlay {
          return k;
        }
      }
    }

    /** SELECT ... WHERE pos = Deck ORDER BY deckorder DESC. */
    method FindTop(node: Node) returns (i: int)
      ensures if Has(GameOf(node).cards, Deck) then IsTop(GameOf(node).cards, i) else i == -1
    {
      i := -1;
      if node !in cards {
        return;
      }
      var hand := cards[node];
      for k := 0 to |hand|
        invariant i == -1 ==> forall j :: 0 <= j < k ==> hand[j].pos != Deck
        invariant i != -1 ==> 0 <= i < k && hand[i].pos == Deck
        invariant i != -1 ==> forall j :: 0 <= j < k && hand[j].pos == Deck ==> hand[j].deckorder <= hand[i].deckorder
      {
        if hand[k].pos == Deck && (i == -1 || hand[k].deckorder > hand[i].deckorder) {
          i := k;
        }
      }
    }

    /** SELECT ... WHERE pos = Discarded ORDER BY earnings DESC LIMIT 1. */
    method FindBest(node: Node) returns (i: int)
      ensures if Has(GameOf(node).cards, Discarded) then IsBest(GameOf(node).cards, i) else i == -1
    {
      i := -1;
      if node !in cards {
        return;
      }
      var hand := cards[node];
      for k := 0 to |hand|
        invariant i == -1 ==> forall j :: 0 <= j < k ==> hand[j].pos != Discarded
        invariant i != -1 ==> 0 <= i < k && hand[i].pos == Discarded
        invariant i != -1 ==> forall j :: 0 <= j < k && hand[j].pos == Discarded ==> hand[j].earnings <= hand[i].earnings
      {
        if hand[k].pos == Discarded && (i == -1 || hand[k].earnings > hand[i].earnings) {
          i := k;
        }
      }
    }

    method UpdateCenterprice(node: Node)
      modifies `centers
      ensures UpdatesCenter(old(GameOf(node)), GameOf(node).center)
      ensures GameOf(node) == old(GameOf(node)).(center := GameOf(node).center) && OthersUnchanged(node)
    {
      var newPrice := INITIAL_PRICE;
      var i := FindBest(node);
      if i != -1 {
        if cards[node][i].earnings == 0 {
          return;
        }
        newPrice := cards[node][i].price;
      }
      centers := centers[node := newPrice];
    }

    method ReshuffleDeck(node: Node)
      modifies `cards, `credited
      ensures HasNewCards(GameOf(node).cards, CenterOf(old(GameOf(node))))
      ensures GameOf(node).center == old(GameOf(node)).center && GameOf(node).credited == 0
      ensures OthersUnchanged(node)
    {
      hide HasNewCards, PricesAround, NewCards;
      var c := if node in centers then centers[node] else INITIAL_PRICE;
      var hand := ShuffledDeck(c);
      cards := cards[node := hand];
      credited := credited[node := 0];
    }

    method EndGameRound(node: Node)
      requires Inv(GameOf(node)) && !Has(GameOf(node).cards, Deck) && !Has(GameOf(node).cards, InPlay)
      modifies this
      ensures NewRound(old(GameOf(node)), GameOf(node)) && Inv(GameOf(node)) && OthersUnchanged(node)
      ensures Has(GameOf(node).cards, Deck) && !Has(GameOf(node).cards, InPlay)
    {
      hide Inv, Has, HasNewCards, UpdatesCenter;
      ghost var g := GameOf(node);
      UpdateCenterprice(node);
      ReshuffleDeck(node);
      NewRoundInv(g, GameOf(node));
    }

    /** UPDATE ... SET pos = InPlay WHERE id = :id. */
    method PutInPlay(node: Node, i: nat)
      requires Inv(GameOf(node)) && !Has(GameOf(node).cards, InPlay) && IsTop(GameOf(node).cards, i)
      modifies `cards
      ensures Draws(old(GameOf(node)), GameOf(node)) && Inv(GameOf(node)) && OthersUnchanged(node)
    {
      hide Inv, Has;
      ghost var g := GameOf(node);
      cards := cards[node := cards[node][i := cards[node][i].(pos := InPlay)]];
      assert GameOf(node) == g.(cards := g.cards[i := g.cards[i].(pos := InPlay)]);
      DrawsInv(g, GameOf(node));
    }

    /** Ends a round at most once: the new deck is not empty. */
    method DrawACard(node: Node)
      requires Inv(GameOf(node)) && !Has(GameOf(node).cards, InPlay)
      modifies this
      ensures Plays(old(GameOf(node)), GameOf(node)) && Inv(GameOf(node)) && OthersUnchanged(node)
      ensures old(Has(GameOf(node).cards, Deck)) ==> Draws(old(GameOf(node)), GameOf(node))
      decreases if Has(GameOf(node).cards, Deck) then 0 else 1
    {
      hide Inv, Has, NewRound, Draws;
      var i := FindTop(node);
      if i != -1 {
        PutInPlay(node, i);
      } else {
        EndGameRound(node);
        DrawACard(node);
      }
    }

    /** `get_price`. */
    method GetPrice(node: Node) returns (price: int)
      requires Valid()
      modifies this
      ensures Valid() && Plays(old(GameOf(node)), GameOf(node)) && OthersUnchanged(node)
      ensures exists i :: 0 <= i < |GameOf(node).cards| && GameOf(node).cards[i].pos == InPlay
                       && GameOf(node).cards[i].price == price
    {
      hide Inv, Spread;
      var i := FindInPlay(node);
      if i == -1 {
        ghost var g := GameOf(node);
        assert Inv(g);
        DrawACard(node);
        PlaysInv(g, GameOf(node));
        i := FindInPlay(node);
      }
      price := cards[node][i].price;
    }

    /** `forward_fee`. */
    method ForwardFee(node: Node, fee: nat)
      requires Valid()
      modifies this
      ensures Valid() && GameOf(node) == Credit(old(GameOf(node)), fee) && OthersUnchanged(node)
    {
      hide Inv;
      ghost var g := GameOf(node);
      assert Inv(g);
      CreditInv(g, fee);
      if node !in cards {
        assert Credit(g, fee) == g;
        return;
      }
      credited := credited[node := g.credited + if Has(g.cards, InPlay) then fee else 0];
      var hand := cards[node];
      for k := 0 to |hand|
        invariant |hand| == |g.cards|
        invariant forall j :: 0 <= j < |hand| ==> hand[j] == if j < k then CreditCard(g.cards[j], fee) else g.cards[j]
      {
        if hand[k].pos == InPlay {
          hand := hand[k := hand[k].(earnings := hand[k].earnings + fee)];
        }
      }
      cards := cards[node := hand];
      assert GameOf(node).cards == Credit(g, fee).cards;
      forall n ensures Inv(GameOf(n)) {
        assert n != node ==> GameOf(n) == old(GameOf(n));
      }
    }

    /** `update_10_minutes`: one UPDATE per connected peer, then one for all. */
    method UpdateTenMinutes(connected: set<Node>)
      requires Valid()
      modifies this
      ensures Valid() && forall n :: GameOf(n) == Tick(old(GameOf(n)), n in connected)
      ensures forall n :: n !in connected ==> GameOf(n) == old(GameOf(n))
    {
      hide Inv;
      ghost var before := cards;
      var aged := map n | n in cards :: Age(cards[n], n in connected);
      cards := map n | n in aged :: Expire(aged[n]);
      forall n
        ensures GameOf(n) == Tick(old(GameOf(n)), n in connected) && Inv(GameOf(n))
        ensures n !in connected ==> GameOf(n) == old(GameOf(n))
      {
        assert Inv(old(GameOf(n)));
        TickInv(old(GameOf(n)), n in connected);
        if n !in connected {
          NoTickWhenAway(old(GameOf(n)));
        }
        assert GameOf(n).cards == Tick(old(GameOf(n)), n in connected).cards;
      }
    }
  }

  /** UPDATE ... SET lifetime = lifetime - 1 WHERE pos = InPlay. */
  function Age(hand: seq<Card>, connected: bool): (r: seq<Card>)
    ensures |r| == |hand| && forall i :: 0 <= i < |r| ==>
              r[i] == if connected && hand[i].pos == InPlay then hand[i].(lifetime := hand[i].lifetime - 1) else hand[i]
  {
    seq(|hand|, i requires 0 <= i < |hand| =>
      if connected && hand[i].pos == InPlay then hand[i].(lifetime := hand[i].lifetime - 1) else hand[i])
  }

  /** UPDATE ... SET pos = Discarded WHERE pos = InPlay AND lifetime <= 0. */
  function Expire(hand: seq<Card>): (r: seq<Card>)
    ensures |r| == |hand| && forall i :: 0 <= i < |r| ==>
              r[i] == if hand[i].pos == InPlay && hand[i].lifetime <= 0 then hand[i].(pos := Discarded) else hand[i]
  {
    seq(|hand|, i requires 0 <= i < |hand| =>
      if hand[i].pos == InPlay && hand[i].lifetime <= 0 then hand[i].(pos := Discarded) else hand[i])
  }
}
