/**
 What one fill does to one position, in conserved quantities: its signed quantity, its book
 value (signed quantity at entry price) and its margin. A close that leaves no more than the
 dust cutoff wipes the rest; the wiped quantity is accounted for as `Dropped`.
 */
module PaperFills {
  import opened PaperAccounting
  import opened PaperModels
  import opened Sums

  /** Side NONE exactly at quantity zero, and then no margin and no entry price. */
  predicate Shape(p: Position) {
    && p.quantity >= 0.0
    && (p.side == NONE <==> p.quantity == 0.0)
    && (p.side == NONE ==> p.margin == 0.0 && p.entryPrice == 0.0)
  }

  function Signed(p: Position): real {
    match p.side
    case LONG => p.quantity
    case SHORT => -p.quantity
    case NONE => 0.0
  }

  /** The signed quantity of a fill. */
  function SignedFill(side: Side, quantity: real): real {
    if side == BUY then quantity else -quantity
  }

  /** What a signed quantity is worth at a price. */
  function Worth(quantity: real, price: real): real {
    quantity * price
  }

  function BookValue(p: Position): real {
    Worth(Signed(p), p.entryPrice)
  }

  predicate Opens(p: Position, side: Side) {
    p.side == NONE || p.quantity == 0.0 || p.side == Incoming(side)
  }

  /** The signed quantity a fill wipes as dust; zero unless it closes to at most the cutoff. */
  function Dropped(dust: real, p: Position, side: Side, quantity: real): real {
    var left := p.quantity - Min(quantity, p.quantity);
    if Opens(p, side) || left > dust then 0.0
    else if p.side == LONG then left
    else -left
  }

  // ---------------------------------------------------------------------------
  // Real arithmetic
  // ---------------------------------------------------------------------------

  lemma DivideBack(x: real, d: real)
    requires d != 0.0
    ensures x / d * d == x
  {
  }

  lemma ProductOfDifference(a: real, b: real, c: real)
    ensures (a - b) * c == a * c - b * c
    ensures c * (a - b) == a * c - b * c
    ensures (-c) * a == -(a * c)
  {
  }

  // ---------------------------------------------------------------------------
  // Opening and reducing
  // ---------------------------------------------------------------------------

  lemma OpenedEffect(p: Position, side: Side, quantity: real, price: real, leverage: real)
    requires Shape(p) && (p.side == NONE || p.side == Incoming(side))
    requires quantity > 0.0 && leverage != 0.0
    ensures var e := Opened(p, Incoming(side), quantity, price, leverage);
            && Shape(e.position) && e.position.side == Incoming(side)
            && Signed(e.position) == Signed(p) + SignedFill(side, quantity)
            && BookValue(e.position) == BookValue(p) + Worth(SignedFill(side, quantity), price)
            && e.availableDelta == p.margin - e.position.margin
            && e.realized == 0.0
  {
    var total := p.quantity + quantity;
    var weighted := p.entryPrice * p.quantity + price * quantity;
    DivideBack(weighted, total);
    AverageEntry(p, side, quantity, price, weighted / total);
  }

  /** The average entry price carries both book values. */
  lemma AverageEntry(p: Position, side: Side, quantity: real, price: real, entry: real)
    requires Shape(p) && (p.side == NONE || p.side == Incoming(side))
    requires entry * (p.quantity + quantity) == p.entryPrice * p.quantity + price * quantity
    ensures (if side == BUY then p.quantity + quantity else -(p.quantity + quantity)) * entry
            == BookValue(p) + Worth(SignedFill(side, quantity), price)
  {
    if side == SELL {
      ProductOfDifference(entry, 0.0, p.quantity + quantity);
      ProductOfDifference(price, 0.0, quantity);
      ProductOfDifference(p.entryPrice, 0.0, p.quantity);
    }
  }

  lemma ReducedEffect(dust: real, p: Position, side: Side, closeQty: real, price: real)
    requires Shape(p) && !Opens(p, side) && dust >= 0.0
    requires 0.0 < closeQty <= p.quantity
    ensures var e := Reduced(dust, p, closeQty, price);
            var left := p.quantity - closeQty;
            var dropped := if left > dust then 0.0 else if p.side == LONG then left else -left;
            && Shape(e.position) && (e.position.side == NONE || e.position.side == p.side)
            && (e.position.side == NONE <==> left <= dust)
            && Signed(e.position) == Signed(p) + SignedFill(side, closeQty) - dropped
            && e.realized == BookValue(e.position) - BookValue(p) - Worth(SignedFill(side, closeQty), price)
                             + Worth(dropped, p.entryPrice)
            && e.availableDelta == e.realized + p.margin - e.position.margin
  {
    var left := p.quantity - closeQty;
    ProductOfDifference(price, p.entryPrice, closeQty);
    ProductOfDifference(p.quantity, closeQty, p.entryPrice);
    ProductOfDifference(p.entryPrice, 0.0, p.quantity);
    ProductOfDifference(p.entryPrice, 0.0, left);
    ProductOfDifference(price, 0.0, closeQty);
    ProfitOfSide(p, closeQty, price);
  }

  lemma ProfitOfSide(p: Position, closeQty: real, price: real)
    ensures p.side == LONG ==> Profit(p, closeQty, price) == (price - p.entryPrice) * closeQty
    ensures p.side != LONG ==> Profit(p, closeQty, price) == -((price - p.entryPrice) * closeQty)
  {
  }

  // ---------------------------------------------------------------------------
  // A fill
  // ---------------------------------------------------------------------------

  /**
   Every fill, whether it opens, extends, reduces, closes or flips, keeps the position's shape,
   moves the signed quantity by the fill less the dust, moves cash exactly against book value,
   and releases or locks margin out of the available balance one for one.
   */
  lemma FillConserves(dust: real, p: Position, side: Side, quantity: real, price: real, leverage: real)
    requires Shape(p) && dust >= 0.0 && quantity > 0.0 && leverage != 0.0
    ensures var e := Filled(dust, p, side, quantity, price, leverage);
            var dropped := Dropped(dust, p, side, quantity);
            && Shape(e.position)
            && Signed(e.position) == Signed(p) + SignedFill(side, quantity) - dropped
            && e.realized == BookValue(e.position) - BookValue(p) - Worth(SignedFill(side, quantity), price)
                             + Worth(dropped, p.entryPrice)
            && e.availableDelta == e.realized + p.margin - e.position.margin
  {
    if Opens(p, side) {
      OpenedEffect(p, side, quantity, price, leverage);
    } else {
      var closeQty := Min(quantity, p.quantity);
      ReducedEffect(dust, p, side, closeQty, price);
      if quantity > closeQty {
        OpenedEffect(Reduced(dust, p, closeQty, price).position, side, quantity - closeQty, price, leverage);
        SplitFill(side, closeQty, quantity, price);
      }
    }
  }

  lemma SplitFill(side: Side, part: real, whole: real, price: real)
    ensures Worth(SignedFill(side, part), price) + Worth(SignedFill(side, whole - part), price)
            == Worth(SignedFill(side, whole), price)
  {
    var a, b := SignedFill(side, part), SignedFill(side, whole);
    ProductOfDifference(b, a, price);
    assert SignedFill(side, whole - part) == b - a;
  }

  /** An opposing fill no larger than the position leaves it on its side or flat. */
  lemma ReduceNeverFlips(dust: real, p: Position, side: Side, quantity: real, price: real, leverage: real)
    requires Shape(p) && Opposing(p, side) && dust >= 0.0 && 0.0 < quantity <= p.quantity && leverage != 0.0
    ensures var e := Filled(dust, p, side, quantity, price, leverage);
            && (e.position.side == p.side || e.position.side == NONE)
            && e.position.quantity == (if p.quantity - quantity <= dust then 0.0 else p.quantity - quantity)
  {
    ReducedEffect(dust, p, side, quantity, price);
  }

  /** What a position has gained at a price, in signed terms. */
  function GainAt(p: Position, price: real): real {
    Worth(Signed(p), price) - BookValue(p)
  }

  /** The marked profit of a position is its signed quantity at the mark less its book value. */
  lemma MarkedProfit(p: Position, price: real)
    requires Shape(p)
    ensures Marked(p, price).unrealizedPnl == GainAt(p, price)
    ensures GainAt(Marked(p, price), price) == GainAt(p, price)
    ensures Signed(Marked(p, price)) == Signed(p) && BookValue(Marked(p, price)) == BookValue(p)
    ensures Shape(Marked(p, price)) && Marked(p, price).margin == p.margin
  {
    ProductOfDifference(price, p.entryPrice, p.quantity);
    ProductOfDifference(price, 0.0, p.quantity);
    ProductOfDifference(p.entryPrice, 0.0, p.quantity);
    assert (price - p.entryPrice) * p.quantity * 1.0 == (price - p.entryPrice) * p.quantity;
    assert (price - p.entryPrice) * p.quantity * -1.0 == -((price - p.entryPrice) * p.quantity);
  }
}
