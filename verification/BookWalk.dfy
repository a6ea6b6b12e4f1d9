/**
 The order-book fill model (src/paper/models.ts, `OrderBookModel.quote`): sort one side of the
 book, take greedily from the best level on, and price the fill at the average of what was
 taken. The theorem is that no other way of taking the same total is cheaper for a BUY or earns
 more for a SELL. Its proof is a price argument: measured against a suitable marginal cost, no
 allocation does better than a sum over the book that does not depend on the order of the
 levels, and the greedy one attains that sum.
 */
module BookWalk {
  import opened PaperModels
  import opened Sums
  import opened Wrappers

  datatype Level = Level(price: real, quantity: real)

  datatype BookView = BookView(bids: seq<Level>, asks: seq<Level>)

  /** What a unit at this price costs the taker: a SELL's proceeds are a negative cost. */
  function Cost(side: Side, price: real): real {
    if side == BUY then price else -price
  }

  function BookSide(book: BookView, side: Side): seq<Level> {
    if side == BUY then book.asks else book.bids
  }

  // ---------------------------------------------------------------------------
  // Sorting
  // ---------------------------------------------------------------------------

  predicate Sorted(side: Side, levels: seq<Level>) {
    forall i, j :: 0 <= i < j < |levels| ==> Cost(side, levels[i].price) <= Cost(side, levels[j].price)
  }

  function Insert(side: Side, x: Level, levels: seq<Level>): seq<Level> {
    if levels == [] then [x]
    else if Cost(side, x.price) <= Cost(side, levels[0].price) then [x] + levels
    else [levels[0]] + Insert(side, x, levels[1..])
  }

  /** Best price first: cheapest asks for a BUY, highest bids for a SELL. */
  function SortLevels(side: Side, levels: seq<Level>): seq<Level> {
    if levels == [] then [] else Insert(side, levels[0], SortLevels(side, levels[1..]))
  }

  lemma {:induction false} InsertPermutes(side: Side, x: Level, levels: seq<Level>)
    ensures multiset(Insert(side, x, levels)) == multiset{x} + multiset(levels)
  {
    hide Cost;
    if levels != [] && Cost(side, x.price) > Cost(side, levels[0].price) {
      var head, tail := levels[0], levels[1..];
      InsertPermutes(side, x, tail);
      assert Insert(side, x, levels) == [head] + Insert(side, x, tail);
      assert levels == [head] + tail;
      hide Insert;
    }
  }

  lemma {:induction false} InsertSorts(side: Side, x: Level, levels: seq<Level>)
    requires Sorted(side, levels)
    ensures Sorted(side, Insert(side, x, levels))
  {
    if levels != [] && Cost(side, x.price) > Cost(side, levels[0].price) {
      InsertSorts(side, x, levels[1..]);
      InsertPermutes(side, x, levels[1..]);
      var rest := Insert(side, x, levels[1..]);
      forall k | 0 <= k < |rest| ensures Cost(side, levels[0].price) <= Cost(side, rest[k].price) {
        assert rest[k] in multiset(rest);
        assert rest[k] == x || rest[k] in levels[1..];
      }
    }
  }

  lemma {:induction false} SortLevelsSorts(side: Side, levels: seq<Level>)
    ensures Sorted(side, SortLevels(side, levels))
    ensures multiset(SortLevels(side, levels)) == multiset(levels)
  {
    if levels != [] {
      SortLevelsSorts(side, levels[1..]);
      InsertSorts(side, levels[0], SortLevels(side, levels[1..]));
      InsertPermutes(side, levels[0], SortLevels(side, levels[1..]));
      assert levels == [levels[0]] + levels[1..];
    }
  }

  // ---------------------------------------------------------------------------
  // Allocations
  // ---------------------------------------------------------------------------

  /** The quantities the loop takes, level by level; zero after it breaks off. */
  function Greedy(levels: seq<Level>, remaining: real): (takes: seq<real>)
    ensures |takes| == |levels|
  {
    if levels == [] then []
    else
      var take := if remaining <= 0.0 then 0.0 else Min(remaining, levels[0].quantity);
      [take] + Greedy(levels[1..], remaining - take)
  }

  /** A measure summed over the takes of an allocation. */
  function Sum(levels: seq<Level>, takes: seq<real>, measure: (Level, real) -> real): real
    requires |takes| == |levels|
  {
    if levels == [] then 0.0 else measure(levels[0], takes[0]) + Sum(levels[1..], takes[1..], measure)
  }

  function Taken(l: Level, take: real): real {
    take
  }

  function Worth(l: Level, take: real): real {
    take * l.price
  }

  function Total(levels: seq<Level>, takes: seq<real>): real
    requires |takes| == |levels|
  {
    Sum(levels, takes, Taken)
  }

  function Notional(levels: seq<Level>, takes: seq<real>): real
    requires |takes| == |levels|
  {
    Sum(levels, takes, Worth)
  }

  predicate NonNegative(levels: seq<Level>) {
    forall l :: l in levels ==> l.quantity >= 0.0
  }

  /** A way of taking quantity from the levels: none below zero, none beyond its level's size. */
  predicate Allocation(levels: seq<Level>, takes: seq<real>) {
    |takes| == |levels| && forall i :: 0 <= i < |levels| ==> 0.0 <= takes[i] <= levels[i].quantity
  }

  function Size(l: Level): real {
    l.quantity
  }

  /** Everything on offer. */
  function Depth(levels: seq<Level>): real {
    RealSum(levels, Size)
  }

  lemma RealSumHead<T>(s: seq<T>, f: T -> real)
    requires s != []
    ensures RealSum(s, f) == f(s[0]) + RealSum(s[1..], f)
  {
    RealSumRemove(s, 0, f);
    assert s[..0] + s[1..] == s[1..];
  }

  lemma {:induction false} SumOfZeros(levels: seq<Level>, takes: seq<real>, measure: (Level, real) -> real)
    requires |takes| == |levels|
    requires forall i :: 0 <= i < |levels| ==> measure(levels[i], takes[i]) == 0.0
    ensures Sum(levels, takes, measure) == 0.0
  {
    if levels != [] {
      assert measure(levels[0], takes[0]) == 0.0;
      forall i | 0 <= i < |levels[1..]| ensures measure(levels[1..][i], takes[1..][i]) == 0.0 {
        assert measure(levels[i + 1], takes[i + 1]) == 0.0;
      }
      SumOfZeros(levels[1..], takes[1..], measure);
    }
  }

  lemma {:induction false} GreedyStops(levels: seq<Level>, remaining: real)
    requires remaining <= 0.0
    ensures forall i :: 0 <= i < |levels| ==> Greedy(levels, remaining)[i] == 0.0
  {
    if levels != [] {
      GreedyStops(levels[1..], remaining);
    }
  }

  lemma {:induction false} DepthNonNegative(levels: seq<Level>)
    requires NonNegative(levels)
    ensures Depth(levels) >= 0.0
  {
    if levels != [] {
      RealSumHead(levels, Size);
      DepthNonNegative(levels[1..]);
    }
  }

  lemma GreedyTail(levels: seq<Level>, remaining: real, take: real)
    requires levels != []
    requires take == if remaining <= 0.0 then 0.0 else Min(remaining, levels[0].quantity)
    ensures Greedy(levels, remaining)[0] == take
    ensures Greedy(levels, remaining)[1..] == Greedy(levels[1..], remaining - take)
  {
  }

  lemma {:induction false} GreedyAllocates(levels: seq<Level>, quantity: real)
    requires NonNegative(levels) && quantity >= 0.0
    ensures Allocation(levels, Greedy(levels, quantity))
  {
    if levels != [] {
      var take := if quantity <= 0.0 then 0.0 else Min(quantity, levels[0].quantity);
      assert levels[0] in levels;
      GreedyTail(levels, quantity, take);
      GreedyAllocates(levels[1..], quantity - take);
      hide Greedy;
      var takes := Greedy(levels, quantity);
      assert forall i :: 1 <= i < |levels| ==> levels[i] == levels[1..][i - 1] && takes[i] == takes[1..][i - 1];
    }
  }

  lemma GreedyTotalStep(levels: seq<Level>, quantity: real, take: real)
    requires levels != []
    requires take == if quantity <= 0.0 then 0.0 else Min(quantity, levels[0].quantity)
    ensures Total(levels, Greedy(levels, quantity)) == take + Total(levels[1..], Greedy(levels[1..], quantity - take))
  {
    GreedyTail(levels, quantity, take);
    hide Greedy;
  }

  /** The walk is an allocation, and it fills what was asked or all there is. */
  lemma {:induction false} GreedyFills(levels: seq<Level>, quantity: real)
    requires NonNegative(levels) && quantity >= 0.0
    ensures Allocation(levels, Greedy(levels, quantity))
    ensures Total(levels, Greedy(levels, quantity)) == Min(quantity, Depth(levels))
  {
    GreedyAllocates(levels, quantity);
    if levels != [] {
      RealSumHead(levels, Size);
      DepthNonNegative(levels[1..]);
      var take := if quantity <= 0.0 then 0.0 else Min(quantity, levels[0].quantity);
      assert levels[0] in levels;
      GreedyTotalStep(levels, quantity, take);
      GreedyFills(levels[1..], quantity - take);
      hide Greedy, Total, Allocation;
    }
  }

  // ---------------------------------------------------------------------------
  // Optimality
  // ---------------------------------------------------------------------------

  /** What one take costs beyond the marginal cost. */
  function Surplus(side: Side, marginal: real): (Level, real) -> real {
    (l: Level, take: real) => take * (Cost(side, l.price) - marginal)
  }

  /** What a level saves against the marginal cost when all of it is taken; never positive. */
  function Saving(side: Side, marginal: real): Level -> real {
    (l: Level) => l.quantity * Min(0.0, Cost(side, l.price) - marginal)
  }

  lemma OneLevelBound(side: Side, l: Level, take: real, marginal: real)
    requires 0.0 <= take <= l.quantity
    ensures Surplus(side, marginal)(l, take) >= Saving(side, marginal)(l)
  {
    var gap := Cost(side, l.price) - marginal;
    if gap < 0.0 {
      assert (l.quantity - take) * gap <= 0.0;
    } else {
      assert take * gap >= 0.0;
    }
  }

  /** A bound that holds level by level holds of the sums. */
  lemma {:induction false} SumAtLeast(
    levels: seq<Level>, takes: seq<real>, measure: (Level, real) -> real, floor: Level -> real)
    requires |takes| == |levels|
    requires forall i :: 0 <= i < |levels| ==> measure(levels[i], takes[i]) >= floor(levels[i])
    ensures Sum(levels, takes, measure) >= RealSum(levels, floor)
  {
    if levels != [] {
      RealSumHead(levels, floor);
      assert measure(levels[0], takes[0]) >= floor(levels[0]);
      forall i | 0 <= i < |levels[1..]| ensures measure(levels[1..][i], takes[1..][i]) >= floor(levels[1..][i]) {
        assert measure(levels[i + 1], takes[i + 1]) >= floor(levels[i + 1]);
      }
      SumAtLeast(levels[1..], takes[1..], measure, floor);
    }
  }

  /** No allocation's surplus falls below the savings on offer, whatever the marginal cost. */
  lemma SurplusAtLeast(side: Side, levels: seq<Level>, takes: seq<real>, marginal: real)
    requires Allocation(levels, takes)
    ensures Sum(levels, takes, Surplus(side, marginal)) >= RealSum(levels, Saving(side, marginal))
  {
    forall i | 0 <= i < |levels|
      ensures Surplus(side, marginal)(levels[i], takes[i]) >= Saving(side, marginal)(levels[i])
    {
      OneLevelBound(side, levels[i], takes[i], marginal);
    }
    SumAtLeast(levels, takes, Surplus(side, marginal), Saving(side, marginal));
  }

  lemma {:induction false} NoSavings(side: Side, levels: seq<Level>, marginal: real)
    requires forall l :: l in levels ==> marginal <= Cost(side, l.price)
    ensures RealSum(levels, Saving(side, marginal)) == 0.0
  {
    if levels != [] {
      var last := levels[|levels| - 1];
      NoSavings(side, levels[..|levels| - 1], marginal);
      assert last in levels;
      SavesNothing(side, last, marginal);
    }
  }

  lemma SavesNothing(side: Side, l: Level, marginal: real)
    requires marginal <= Cost(side, l.price)
    ensures Saving(side, marginal)(l) == 0.0
  {
  }

  lemma CostsNothing(side: Side, l: Level, take: real, marginal: real)
    requires take == 0.0 || Cost(side, l.price) == marginal
    ensures Surplus(side, marginal)(l, take) == 0.0
  {
  }

  lemma SavesItsSurplus(side: Side, l: Level, marginal: real)
    requires Cost(side, l.price) <= marginal
    ensures Surplus(side, marginal)(l, l.quantity) == Saving(side, marginal)(l)
  {
  }

  /** The walk ends on the first level: it sets the marginal cost. */
  lemma WalkEnds(side: Side, levels: seq<Level>, remaining: real)
    requires Sorted(side, levels) && levels != []
    requires remaining <= levels[0].quantity || |levels| == 1
    requires 0.0 <= levels[0].quantity
    ensures var marginal := Cost(side, levels[0].price);
            Sum(levels, Greedy(levels, remaining), Surplus(side, marginal)) == RealSum(levels, Saving(side, marginal))
  {
    var marginal := Cost(side, levels[0].price);
    var take := if remaining <= 0.0 then 0.0 else Min(remaining, levels[0].quantity);
    var takes := Greedy(levels, remaining);
    GreedyTail(levels, remaining, take);
    if |levels| > 1 {
      GreedyStops(levels[1..], remaining - take);
    }
    forall i | 0 <= i < |levels| ensures Surplus(side, marginal)(levels[i], takes[i]) == 0.0 {
      assert i > 0 ==> takes[i] == takes[1..][i - 1];
      CostsNothing(side, levels[i], takes[i], marginal);
    }
    SumOfZeros(levels, takes, Surplus(side, marginal));
    NoSavings(side, levels, marginal);
  }

  /** The walk takes the first level whole: its surplus is its saving. */
  lemma WalkGoesOn(side: Side, levels: seq<Level>, remaining: real, marginal: real)
    requires levels != [] && remaining > levels[0].quantity >= 0.0
    requires marginal >= Cost(side, levels[0].price)
    requires Sum(levels[1..], Greedy(levels[1..], remaining - levels[0].quantity), Surplus(side, marginal))
             == RealSum(levels[1..], Saving(side, marginal))
    ensures Sum(levels, Greedy(levels, remaining), Surplus(side, marginal)) == RealSum(levels, Saving(side, marginal))
  {
    GreedyTail(levels, remaining, levels[0].quantity);
    RealSumHead(levels, Saving(side, marginal));
    SavesItsSurplus(side, levels[0], marginal);
  }

  /**
   On sorted levels the walk attains that floor at the cost of the last level it touches: the
   levels before it are taken whole, and those after it save nothing.
   */
  lemma {:induction false} GreedyAttainsFloor(side: Side, levels: seq<Level>, remaining: real) returns (marginal: real)
    requires Sorted(side, levels) && NonNegative(levels) && levels != []
    ensures marginal >= Cost(side, levels[0].price)
    ensures Sum(levels, Greedy(levels, remaining), Surplus(side, marginal)) == RealSum(levels, Saving(side, marginal))
  {
    assert levels[0] in levels;
    if |levels| == 1 || remaining <= levels[0].quantity {
      marginal := Cost(side, levels[0].price);
      WalkEnds(side, levels, remaining);
    } else {
      marginal := GreedyAttainsFloor(side, levels[1..], remaining - levels[0].quantity);
      WalkGoesOn(side, levels, remaining, marginal);
    }
  }

  lemma OneLevelSplit(side: Side, marginal: real, l: Level, take: real, notional: real, rest: real, total: real)
    requires total == Taken(l, take) + rest
    ensures Cost(side, Worth(l, take) + notional) - marginal * total
            == Surplus(side, marginal)(l, take) + (Cost(side, notional) - marginal * rest)
  {
    var c := Cost(side, l.price);
    assert take * (c - marginal) == take * c - take * marginal;
    assert take * (-l.price) == -(take * l.price);
    assert marginal * total == marginal * take + marginal * rest;
  }

  /** The surplus is the cost of the notional less the marginal cost of the total. */
  lemma {:induction false} SurplusSplits(side: Side, marginal: real, levels: seq<Level>, takes: seq<real>, total: real)
    requires |takes| == |levels| && total == Total(levels, takes)
    ensures Sum(levels, takes, Surplus(side, marginal)) == Cost(side, Notional(levels, takes)) - marginal * total
  {
    if levels != [] {
      var rest := Total(levels[1..], takes[1..]);
      SurplusSplits(side, marginal, levels[1..], takes[1..], rest);
      OneLevelSplit(side, marginal, levels[0], takes[0], Notional(levels[1..], takes[1..]), rest, total);
    }
  }

  /** For one total, less surplus is less cost. */
  lemma LessSurplusCostsLess(
    side: Side, marginal: real, a: seq<Level>, takes: seq<real>, b: seq<Level>, other: seq<real>)
    requires |takes| == |a| && |other| == |b| && Total(a, takes) == Total(b, other)
    requires Sum(a, takes, Surplus(side, marginal)) <= Sum(b, other, Surplus(side, marginal))
    ensures Cost(side, Notional(a, takes)) <= Cost(side, Notional(b, other))
  {
    var total := Total(a, takes);
    SurplusSplits(side, marginal, a, takes, total);
    SurplusSplits(side, marginal, b, other, total);
  }

  lemma WalkCostsLeast(side: Side, levels: seq<Level>, book: seq<Level>, quantity: real, other: seq<real>)
    requires Sorted(side, levels) && NonNegative(levels) && multiset(levels) == multiset(book)
    requires Allocation(book, other) && Total(book, other) == Total(levels, Greedy(levels, quantity))
    ensures Cost(side, Notional(levels, Greedy(levels, quantity))) <= Cost(side, Notional(book, other))
  {
    if levels == [] {
      assert |multiset(book)| == 0;
    } else {
      var marginal := GreedyAttainsFloor(side, levels, quantity);
      SurplusAtLeast(side, book, other, marginal);
      RealSumPermutation(levels, book, Saving(side, marginal));
      LessSurplusCostsLess(side, marginal, levels, Greedy(levels, quantity), book, other);
    }
  }

  lemma SortKeepsNonNegative(side: Side, book: seq<Level>)
    requires NonNegative(book)
    ensures NonNegative(SortLevels(side, book))
  {
    SortLevelsSorts(side, book);
    forall l | l in SortLevels(side, book) ensures l.quantity >= 0.0 {
      assert l in multiset(book);
    }
  }

  /**
   The walk over the sorted book is optimal: taking the same total from the book in any other
   way costs at least as much for a BUY, and earns at most as much for a SELL.
   */
  lemma WalkIsOptimal(side: Side, book: seq<Level>, quantity: real, other: seq<real>)
    requires NonNegative(book) && Allocation(book, other)
    requires var levels := SortLevels(side, book);
             Total(book, other) == Total(levels, Greedy(levels, quantity))
    ensures var levels := SortLevels(side, book);
            side == BUY ==> Notional(levels, Greedy(levels, quantity)) <= Notional(book, other)
    ensures var levels := SortLevels(side, book);
            side == SELL ==> Notional(levels, Greedy(levels, quantity)) >= Notional(book, other)
  {
    SortLevelsSorts(side, book);
    SortKeepsNonNegative(side, book);
    WalkCostsLeast(side, SortLevels(side, book), book, quantity, other);
  }

  // ---------------------------------------------------------------------------
  // The quote
  // ---------------------------------------------------------------------------

  /** Whether an average price is within the limit of a LIMIT order. */
  predicate Crosses(ctx: ExecutionContext, price: real) {
    ctx.orderType == LIMIT && ctx.limitPrice.Some? ==>
      if ctx.side == BUY then price <= ctx.limitPrice.value else price >= ctx.limitPrice.value
  }

  predicate HasBook(book: Option<BookView>) {
    book.Some? && book.value.asks != [] && book.value.bids != []
  }

  /** What `quote` returns. */
  function Quoted(book: Option<BookView>, ctx: ExecutionContext): ExecutionQuote
    requires ctx.orderType == LIMIT ==> ctx.limitPrice.Some?
  {
    if !HasBook(book) then ExecutionQuote(ReferencePrice(ctx), ctx.quantity, FILLED)
    else
      var levels := SortLevels(ctx.side, BookSide(book.value, ctx.side));
      var takes := Greedy(levels, ctx.quantity);
      var filled := Total(levels, takes);
      if filled == 0.0 then ExecutionQuote(ctx.marketPrice, 0.0, REJECTED)
      else
        var vwapPrice := Notional(levels, takes) / filled;
        if !Crosses(ctx, vwapPrice) then ExecutionQuote(ctx.limitPrice.value, 0.0, REJECTED)
        else ExecutionQuote(vwapPrice, filled, if filled >= ctx.quantity then FILLED else PARTIALLY_FILLED)
  }

  /** One level of the walk, for any measure. */
  lemma WalkStep(levels: seq<Level>, i: nat, remaining: real, take: real, measure: (Level, real) -> real)
    requires i < |levels|
    requires take == if remaining <= 0.0 then 0.0 else Min(remaining, levels[i].quantity)
    ensures Sum(levels[i..], Greedy(levels[i..], remaining), measure)
            == measure(levels[i], take) + Sum(levels[i + 1..], Greedy(levels[i + 1..], remaining - take), measure)
  {
    GreedyTail(levels[i..], remaining, take);
    assert levels[i..][1..] == levels[i + 1..];
  }

  /** Nothing is left to measure once the walk has all it wants. */
  lemma WalkDone(levels: seq<Level>, remaining: real)
    requires remaining <= 0.0
    ensures Total(levels, Greedy(levels, remaining)) == 0.0
    ensures Notional(levels, Greedy(levels, remaining)) == 0.0
  {
    GreedyStops(levels, remaining);
    SumOfZeros(levels, Greedy(levels, remaining), Taken);
    SumOfZeros(levels, Greedy(levels, remaining), Worth);
  }

  method Walk(levels: seq<Level>, quantity: real) returns (notional: real, filled: real)
    ensures filled == Total(levels, Greedy(levels, quantity))
    ensures notional == Notional(levels, Greedy(levels, quantity))
  {
    var remaining := quantity;
    notional, filled := 0.0, 0.0;
    assert levels[0..] == levels;
    for i := 0 to |levels|
      invariant filled + Total(levels[i..], Greedy(levels[i..], remaining)) == Total(levels, Greedy(levels, quantity))
      invariant notional + Notional(levels[i..], Greedy(levels[i..], remaining))
                == Notional(levels, Greedy(levels, quantity))
    {
      if remaining <= 0.0 {
        WalkDone(levels[i..], remaining);
        return;
      }
      var take := Min(remaining, levels[i].quantity);
      WalkStep(levels, i, remaining, take, Taken);
      WalkStep(levels, i, remaining, take, Worth);
      notional := notional + take * levels[i].price;
      filled := filled + take;
      remaining := remaining - take;
    }
  }

  method Quote(book: Option<BookView>, ctx: ExecutionContext) returns (quote: ExecutionQuote)
    requires ctx.orderType == LIMIT ==> ctx.limitPrice.Some?
    ensures quote == Quoted(book, ctx)
  {
    if !HasBook(book) {
      return ExecutionQuote(ReferencePrice(ctx), ctx.quantity, FILLED);
    }
    var levels := SortLevels(ctx.side, BookSide(book.value, ctx.side));
    var notional, filled := Walk(levels, ctx.quantity);
    if filled == 0.0 {
      return ExecutionQuote(ctx.marketPrice, 0.0, REJECTED);
    }
    var vwapPrice := notional / filled;
    if ctx.orderType == LIMIT && ctx.limitPrice.Some? {
      var crosses := if ctx.side == BUY then vwapPrice <= ctx.limitPrice.value else vwapPrice >= ctx.limitPrice.value;
      if !crosses {
        return ExecutionQuote(ctx.limitPrice.value, 0.0, REJECTED);
      }
    }
    quote := ExecutionQuote(vwapPrice, filled, if filled >= ctx.quantity then FILLED else PARTIALLY_FILLED);
  }

  /** There is a book, and the side an order takes from has no negative sizes. */
  predicate Sound(book: Option<BookView>, side: Side) {
    HasBook(book) && NonNegative(BookSide(book.value, side))
  }

  lemma WalkFills(side: Side, book: seq<Level>, quantity: real)
    requires NonNegative(book) && quantity >= 0.0
    ensures var levels := SortLevels(side, book);
            Allocation(levels, Greedy(levels, quantity))
            && Total(levels, Greedy(levels, quantity)) == Min(quantity, Depth(book))
  {
    var levels := SortLevels(side, book);
    SortLevelsSorts(side, book);
    SortKeepsNonNegative(side, book);
    GreedyFills(levels, quantity);
    RealSumPermutation(levels, book, Size);
  }

  /**
   A quote that is not rejected fills min(requested, side depth), reports FILLED exactly when
   that is everything requested, and never averages worse than the limit of a LIMIT order.
   */
  lemma QuoteFills(book: Option<BookView>, ctx: ExecutionContext)
    requires ctx.orderType == LIMIT ==> ctx.limitPrice.Some?
    requires Sound(book, ctx.side) && ctx.quantity > 0.0
    requires Quoted(book, ctx).status != REJECTED
    ensures Quoted(book, ctx).filledQuantity == Min(ctx.quantity, Depth(BookSide(book.value, ctx.side)))
    ensures 0.0 < Quoted(book, ctx).filledQuantity <= ctx.quantity
    ensures Quoted(book, ctx).status == FILLED <==> Quoted(book, ctx).filledQuantity == ctx.quantity
    ensures ctx.orderType == LIMIT && ctx.side == BUY ==> Quoted(book, ctx).fillPrice <= ctx.limitPrice.value
    ensures ctx.orderType == LIMIT && ctx.side == SELL ==> Quoted(book, ctx).fillPrice >= ctx.limitPrice.value
  {
    WalkFills(ctx.side, BookSide(book.value, ctx.side), ctx.quantity);
    DepthNonNegative(BookSide(book.value, ctx.side));
  }

  lemma QuotientCompare(a: real, b: real, d: real)
    requires d > 0.0
    ensures (a <= b <==> a / d <= b / d) && (a >= b <==> a / d >= b / d)
  {
    assert a / d * d == a && b / d * d == b;
  }

  /** A quote that is rejected fills nothing. */
  lemma RejectedFillsNothing(book: Option<BookView>, ctx: ExecutionContext)
    requires ctx.orderType == LIMIT ==> ctx.limitPrice.Some?
    ensures Quoted(book, ctx).status == REJECTED ==> Quoted(book, ctx).filledQuantity == 0.0
  {
  }

  /** No allocation of the quantity a quote fills has a better average price than the quote. */
  lemma QuoteIsBest(book: Option<BookView>, ctx: ExecutionContext, other: seq<real>)
    requires ctx.orderType == LIMIT ==> ctx.limitPrice.Some?
    requires Sound(book, ctx.side) && ctx.quantity > 0.0
    requires Quoted(book, ctx).status != REJECTED
    requires var side := BookSide(book.value, ctx.side);
             Allocation(side, other) && Total(side, other) == Quoted(book, ctx).filledQuantity
    ensures var side := BookSide(book.value, ctx.side); var average := Notional(side, other) / Total(side, other);
            if ctx.side == BUY then Quoted(book, ctx).fillPrice <= average else Quoted(book, ctx).fillPrice >= average
  {
    var side := BookSide(book.value, ctx.side);
    QuoteFills(book, ctx);
    WalkIsOptimal(ctx.side, side, ctx.quantity, other);
    var levels := SortLevels(ctx.side, side);
    QuotientCompare(Notional(levels, Greedy(levels, ctx.quantity)), Notional(side, other), Total(side, other));
  }

  /** An allocation of a sorted book is one of the book itself: here for one level put in its place. */
  lemma {:induction false} InsertedBack(side: Side, x: Level, levels: seq<Level>, takes: seq<real>)
    returns (placed: seq<real>)
    requires Allocation(Insert(side, x, levels), takes)
    ensures Allocation([x] + levels, placed)
    ensures Total([x] + levels, placed) == Total(Insert(side, x, levels), takes)
    ensures Notional([x] + levels, placed) == Notional(Insert(side, x, levels), takes)
  {
    var sorted := Insert(side, x, levels);
    if levels == [] || Cost(side, x.price) <= Cost(side, levels[0].price) {
      placed := takes;
      assert sorted == [x] + levels;
    } else {
      var tail := levels[1..];
      assert sorted[0] == levels[0] && sorted[1..] == Insert(side, x, tail);
      var rest := InsertedBack(side, x, tail, takes[1..]);
      placed := [rest[0], takes[0]] + rest[1..];
      HeadsSwapped(x, levels, rest, takes[0], placed);
    }
  }

  lemma HeadsSwapped(x: Level, levels: seq<Level>, rest: seq<real>, take: real, placed: seq<real>)
    requires levels != [] && Allocation([x] + levels[1..], rest) && 0.0 <= take <= levels[0].quantity
    requires placed == [rest[0], take] + rest[1..]
    ensures Allocation([x] + levels, placed)
    ensures Total([x] + levels, placed) == take + Total([x] + levels[1..], rest)
    ensures Notional([x] + levels, placed) == take * levels[0].price + Notional([x] + levels[1..], rest)
  {
    SumSwapped(x, levels, rest, take, Taken);
    SumSwapped(x, levels, rest, take, Worth);
    var all, fewer := [x] + levels, [x] + levels[1..];
    forall i | 0 <= i < |all| ensures 0.0 <= placed[i] <= all[i].quantity {
      assert i >= 2 ==> placed[i] == rest[i - 1] && all[i] == fewer[i - 1];
    }
  }

  lemma SumSwapped(x: Level, levels: seq<Level>, rest: seq<real>, take: real, measure: (Level, real) -> real)
    requires levels != [] && |rest| == |levels|
    ensures Sum([x] + levels, [rest[0], take] + rest[1..], measure) ==
            measure(levels[0], take) + Sum([x] + levels[1..], rest, measure)
  {
    var all, placed, fewer := [x] + levels, [rest[0], take] + rest[1..], [x] + levels[1..];
    assert all[1..] == levels && placed[1..] == [take] + rest[1..] && ([take] + rest[1..])[1..] == rest[1..];
    assert fewer[1..] == levels[1..];
    assert Sum(all, placed, measure) == measure(x, rest[0]) + Sum(levels, [take] + rest[1..], measure);
    assert Sum(fewer, rest, measure) == measure(x, rest[0]) + Sum(levels[1..], rest[1..], measure);
  }

  lemma {:induction false} SortedBack(side: Side, book: seq<Level>, takes: seq<real>) returns (placed: seq<real>)
    requires Allocation(SortLevels(side, book), takes)
    ensures Allocation(book, placed)
    ensures Total(book, placed) == Total(SortLevels(side, book), takes)
    ensures Notional(book, placed) == Notional(SortLevels(side, book), takes)
  {
    if book == [] {
      placed := [];
    } else {
      var sorted := SortLevels(side, book[1..]);
      var first := InsertedBack(side, book[0], sorted, takes);
      assert ([book[0]] + sorted)[1..] == sorted;
      var rest := SortedBack(side, book[1..], first[1..]);
      placed := [first[0]] + rest;
      assert placed[1..] == rest;
      hide Insert, SortLevels, Taken, Worth;
    }
  }

  /**
   The price of an accepted quote is the average of some allocation of the filled quantity; since
   none averages better, it is the best price at which the book can give that quantity.
   */
  lemma QuoteIsAttained(book: Option<BookView>, ctx: ExecutionContext) returns (takes: seq<real>)
    requires ctx.orderType == LIMIT ==> ctx.limitPrice.Some?
    requires Sound(book, ctx.side) && ctx.quantity > 0.0 && Quoted(book, ctx).status != REJECTED
    ensures var side, quote := BookSide(book.value, ctx.side), Quoted(book, ctx);
            && Allocation(side, takes) && Total(side, takes) == quote.filledQuantity
            && quote.fillPrice * quote.filledQuantity == Notional(side, takes)
            && quote.filledQuantity > 0.0
  {
    var side := BookSide(book.value, ctx.side);
    var levels := SortLevels(ctx.side, side);
    WalkFills(ctx.side, side, ctx.quantity);
    QuoteFills(book, ctx);
    takes := SortedBack(ctx.side, side, Greedy(levels, ctx.quantity));
    AverageBack(Notional(levels, Greedy(levels, ctx.quantity)), Total(levels, Greedy(levels, ctx.quantity)));
  }

  lemma AverageBack(notional: real, total: real)
    requires total != 0.0
    ensures notional / total * total == notional
  {
  }

  /** A market order pays the spread: asks at 100, bids at 99, and one unit bought costs 100, whatever the mark. */
  lemma SpreadIsPaidExample(ctx: ExecutionContext)
    requires ctx.side == BUY && ctx.orderType == MARKET && ctx.quantity == 1.0
    ensures Quoted(Some(BookView([Level(99.0, 5.0)], [Level(100.0, 5.0)])), ctx) == ExecutionQuote(100.0, 1.0, FILLED)
  {
    var asks := [Level(100.0, 5.0)];
    assert Insert(BUY, asks[0], []) == asks && SortLevels(BUY, asks[1..]) == [];
    assert SortLevels(BUY, asks) == asks;
    var takes := Greedy(asks, 1.0);
    assert takes == [1.0] && asks[1..] == [] && takes[1..] == [];
    assert Total(asks, takes) == Taken(asks[0], 1.0) + Sum([], [], Taken) == 1.0;
    assert Notional(asks, takes) == Worth(asks[0], 1.0) + Sum([], [], Worth) == 100.0;
  }

  /**
   A LIMIT order is refused for its price only when it has to be: if any allocation of the
   fillable quantity averages within the limit, the quote is accepted.
   */
  lemma LimitRefusedOnlyIfUnavoidable(book: Option<BookView>, ctx: ExecutionContext, other: seq<real>)
    requires ctx.orderType == LIMIT && ctx.limitPrice.Some?
    requires Sound(book, ctx.side) && ctx.quantity > 0.0
    requires var side := BookSide(book.value, ctx.side);
             Allocation(side, other) && Total(side, other) == Min(ctx.quantity, Depth(side))
             && Total(side, other) > 0.0 && Crosses(ctx, Notional(side, other) / Total(side, other))
    ensures Quoted(book, ctx).status != REJECTED
  {
    var side := BookSide(book.value, ctx.side);
    WalkFills(ctx.side, side, ctx.quantity);
    WalkIsOptimal(ctx.side, side, ctx.quantity, other);
    var levels := SortLevels(ctx.side, side);
    QuotientCompare(Notional(levels, Greedy(levels, ctx.quantity)), Notional(side, other), Total(side, other));
  }

  /** Some way of taking the fillable quantity from the sorted levels averages within the limit. */
  ghost predicate WithinLimit(ctx: ExecutionContext, levels: seq<Level>, takes: seq<real>, total: real) {
    && Allocation(levels, takes) && Total(levels, takes) == total
    && total > 0.0 && Crosses(ctx, Notional(levels, takes) / total)
  }

  /** An order is accepted exactly when there is something to take and some way of taking it is within the limit. */
  lemma AcceptedIff(book: Option<BookView>, ctx: ExecutionContext)
    requires ctx.orderType == LIMIT ==> ctx.limitPrice.Some?
    requires Sound(book, ctx.side) && ctx.quantity > 0.0
    ensures var side := BookSide(book.value, ctx.side);
            Quoted(book, ctx).status != REJECTED <==>
            exists takes :: WithinLimit(ctx, SortLevels(ctx.side, side), takes, Min(ctx.quantity, Depth(side)))
  {
    var side := BookSide(book.value, ctx.side);
    var levels, total := SortLevels(ctx.side, side), Min(ctx.quantity, Depth(side));
    WalkFills(ctx.side, side, ctx.quantity);
    SortLevelsSorts(ctx.side, side);
    SortKeepsNonNegative(ctx.side, side);
    var greedy := Greedy(levels, ctx.quantity);
    if Quoted(book, ctx).status != REJECTED {
      QuoteFills(book, ctx);
      assert WithinLimit(ctx, levels, greedy, total);
    } else if takes :| WithinLimit(ctx, levels, takes, total) {
      WalkCostsLeast(ctx.side, levels, levels, ctx.quantity, takes);
      QuotientCompare(Notional(levels, greedy), Notional(levels, takes), total);
      assert false;
    }
  }

  /** Without a book an order fills as the instant model fills it. */
  lemma WithoutBookIsInstant(book: Option<BookView>, ctx: ExecutionContext)
    requires ctx.orderType == LIMIT ==> ctx.limitPrice.Some?
    requires book.None? || book.value.asks == [] || book.value.bids == []
    ensures Quoted(book, ctx) == InstantFill(ctx)
  {
  }
}
