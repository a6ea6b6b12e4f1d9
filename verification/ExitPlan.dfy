/**
 Exit management of a paper position (src/agent/exits.ts): stop, time stop, two partial
 take-profits and a trailing stop, in that order of priority.
 */
module ExitPlan {
  import opened Sums
  import opened Wrappers

  datatype Dir = LONG | SHORT

  /** A managed position; `original` is the entry quantity the partial exits are sized from. */
  datatype Managed = Managed(
    symbol: string,
    side: Dir,
    original: real,
    remaining: real,
    openedAt: real,
    stopPrice: real,
    tp1Price: real,
    tp2Price: real,
    tp1Done: bool,
    tp2Done: bool,
    highWater: real)

  datatype Reason = STOP | TIME_STOP | TRAIL | TP1 | TP2

  datatype Decision = Decision(reason: Reason, quantity: real, terminal: bool)

  datatype Profile = Profile(timeStopHours: real, trailCallbackPct: real)

  datatype EntryResult = EntryResult(
    symbol: string,
    side: Dir,
    quantity: real,
    entryPrice: real,
    stopPrice: real,
    tp1Price: real,
    tp2Price: real)

  /** `toManagedPosition`. */
  function ToManaged(res: EntryResult, now: real): Managed {
    Managed(res.symbol, res.side, res.quantity, res.quantity, now, res.stopPrice, res.tp1Price, res.tp2Price,
            false, false, res.entryPrice)
  }

  /** `updateHighWater`. */
  function Observed(pos: Managed, price: real): Managed {
    pos.(highWater := if pos.side == LONG then Max(pos.highWater, price) else Min(pos.highWater, price))
  }

  /** Whether a price has reached a profit level, seen from the position's side. */
  predicate Reaches(side: Dir, price: real, level: real) {
    if side == LONG then price >= level else price <= level
  }

  predicate StopHit(pos: Managed, price: real) {
    if pos.side == LONG then price <= pos.stopPrice else price >= pos.stopPrice
  }

  predicate TimedOut(pos: Managed, now: real, profile: Profile) {
    now - pos.openedAt > profile.timeStopHours * 3_600_000.0
  }

  predicate TrailHit(pos: Managed, price: real, profile: Profile) {
    pos.tp2Done &&
    if pos.side == LONG then price <= pos.highWater * (1.0 - profile.trailCallbackPct / 100.0)
    else price >= pos.highWater * (1.0 + profile.trailCallbackPct / 100.0)
  }

  /** `nextExitAction`. */
  function NextExit(pos: Managed, price: real, now: real, profile: Profile): Option<Decision> {
    if StopHit(pos, price) then Some(Decision(STOP, pos.remaining, true))
    else if TimedOut(pos, now, profile) then Some(Decision(TIME_STOP, pos.remaining, true))
    else if !pos.tp1Done && Reaches(pos.side, price, pos.tp1Price) then
      Some(Decision(TP1, Min(pos.original * 0.4, pos.remaining), false))
    else if !pos.tp2Done && Reaches(pos.side, price, pos.tp2Price) then
      Some(Decision(TP2, Min(pos.original * 0.3, pos.remaining), false))
    else if TrailHit(pos, price, profile) then Some(Decision(TRAIL, pos.remaining, true))
    else None
  }

  /** `applyExit`. */
  function Applied(dust: real, pos: Managed, d: Decision): Managed {
    var left := pos.remaining - d.quantity;
    pos.(remaining := if left <= dust then 0.0 else left,
         tp1Done := pos.tp1Done || d.reason == TP1,
         tp2Done := pos.tp2Done || d.reason == TP2)
  }

  /** The record the session loop holds and updates in place. */
  class ManagedPosition {
    const symbol: string
    const side: Dir
    const quantity: real
    const openedAt: real
    const stopPrice: real
    const tp1Price: real
    const tp2Price: real
    var remaining: real
    var tp1Done: bool
    var tp2Done: bool
    var highWater: real

    function View(): Managed
      reads this
    {
      Managed(symbol, side, quantity, remaining, openedAt, stopPrice, tp1Price, tp2Price, tp1Done, tp2Done, highWater)
    }

    constructor (res: EntryResult, now: real)
      ensures View() == ToManaged(res, now)
    {
      symbol, side, quantity, openedAt := res.symbol, res.side, res.quantity, now;
      stopPrice, tp1Price, tp2Price := res.stopPrice, res.tp1Price, res.tp2Price;
      remaining, tp1Done, tp2Done, highWater := res.quantity, false, false, res.entryPrice;
    }

    method UpdateHighWater(price: real)
      modifies this`highWater
      ensures View() == Observed(old(View()), price)
    {
      highWater := if side == LONG then Max(highWater, price) else Min(highWater, price);
    }

    method ApplyExit(dust: real, decision: Decision)
      modifies this`remaining, this`tp1Done, this`tp2Done
      ensures View() == Applied(dust, old(View()), decision)
    {
      remaining := remaining - decision.quantity;
      if remaining <= dust {
        remaining := 0.0;
      }
      if decision.reason == TP1 {
        tp1Done := true;
      }
      if decision.reason == TP2 {
        tp2Done := true;
      }
    }
  }

  // ---------------------------------------------------------------------------
  // The life of a managed position
  // ---------------------------------------------------------------------------

  /** A new price, or a look for an exit whose order, if any, fills. */
  datatype Event = Observe(price: real) | Act(price: real, now: real)

  /** The position, the quantities closed so far, and whether it has been let go. */
  datatype Life = Life(pos: Managed, closed: seq<real>, ended: bool)

  function Live(dust: real, profile: Profile, l: Life, e: Event): Life {
    if l.ended then l
    else
      match e
      case Observe(price) => l.(pos := Observed(l.pos, price))
      case Act(price, now) =>
        match NextExit(l.pos, price, now, profile)
        case None => l
        case Some(d) =>
          var pos := Applied(dust, l.pos, d);
          Life(pos, l.closed + [d.quantity], d.terminal || pos.remaining <= 0.0)
  }

  function Lived(dust: real, profile: Profile, start: Managed, events: seq<Event>): Life {
    if events == [] then Life(start, [], false)
    else Live(dust, profile, Lived(dust, profile, start, events[..|events| - 1]), events[|events| - 1])
  }

  function Same(x: real): real {
    x
  }

  function Closed(l: Life): real {
    RealSum(l.closed, Same)
  }

  /** The original size less 0.4 of it after the first profit and 0.3 of it after the second. */
  function Owed(pos: Managed): real {
    pos.original - (if pos.tp1Done then pos.original * 0.4 else 0.0) - (if pos.tp2Done then pos.original * 0.3 else 0.0)
  }

  /** The second profit level lies at the first or beyond it. */
  predicate Laddered(pos: Managed) {
    if pos.side == LONG then pos.tp2Price >= pos.tp1Price else pos.tp2Price <= pos.tp1Price
  }

  predicate Fresh(pos: Managed) {
    pos.remaining == pos.original && !pos.tp1Done && !pos.tp2Done
  }

  /** What every event keeps, for a size whose runner is above the dust cutoff. */
  ghost predicate Accounted(l: Life) {
    && Closed(l) + l.pos.remaining == l.pos.original
    && (!l.ended ==> l.pos.remaining == Owed(l.pos))
    && (l.ended ==> l.pos.remaining == 0.0)
    && (Laddered(l.pos) && l.pos.tp2Done ==> l.pos.tp1Done)
  }

  /** An exit is terminal and takes all that remains, or it is a profit not taken before. */
  lemma ExitKinds(pos: Managed, price: real, now: real, profile: Profile, d: Decision)
    requires NextExit(pos, price, now, profile) == Some(d)
    ensures d.terminal ==> d.quantity == pos.remaining && d.reason != TP1 && d.reason != TP2
    ensures !d.terminal && d.reason != TP1 ==>
              && d.reason == TP2 && d.quantity == Min(pos.original * 0.3, pos.remaining) && !pos.tp2Done
              && Reaches(pos.side, price, pos.tp2Price) && (pos.tp1Done || !Reaches(pos.side, price, pos.tp1Price))
    ensures d.reason == TP1 ==> !d.terminal && d.quantity == Min(pos.original * 0.4, pos.remaining) && !pos.tp1Done
  {
    hide StopHit, TimedOut, TrailHit;
  }

  /** The price has given back the trailing percentage of the most favourable one. */
  predicate GaveBack(pos: Managed, price: real, pct: real) {
    if pos.side == LONG then (pos.highWater - price) * 100.0 >= pos.highWater * pct
    else (price - pos.highWater) * 100.0 >= pos.highWater * pct
  }

  /** The price is at the level or beyond it, in the position's favour or against it. */
  predicate InFavour(pos: Managed, price: real, level: real) {
    (pos.side == LONG && price - level >= 0.0) || (pos.side == SHORT && level - price >= 0.0)
  }

  predicate Against(pos: Managed, price: real, level: real) {
    (pos.side == LONG && price - level <= 0.0) || (pos.side == SHORT && level - price <= 0.0)
  }

  lemma TrailIsGiveBack(pos: Managed, price: real, profile: Profile)
    ensures TrailHit(pos, price, profile) <==> pos.tp2Done && GaveBack(pos, price, profile.trailCallbackPct)
  {
    var share := profile.trailCallbackPct / 100.0;
    assert share * 100.0 == profile.trailCallbackPct;
    assert pos.highWater * (1.0 - share) == pos.highWater - pos.highWater * share;
    assert pos.highWater * (1.0 + share) == pos.highWater + pos.highWater * share;
    assert pos.highWater * share * 100.0 == pos.highWater * profile.trailCallbackPct;
  }

  /**
   When which exit fires, and for how much: the stop first, then the time, then the profits not yet
   taken, then, once the second profit is taken, the price giving back the trailing percentage.
   */
  lemma ExitIff(pos: Managed, price: real, now: real, profile: Profile)
    ensures var exit := NextExit(pos, price, now, profile);
            var stop := Against(pos, price, pos.stopPrice);
            var time := (now - pos.openedAt) / 3_600_000.0 > profile.timeStopHours;
            var first := !pos.tp1Done && InFavour(pos, price, pos.tp1Price);
            var second := !pos.tp2Done && InFavour(pos, price, pos.tp2Price);
            var trail := pos.tp2Done && GaveBack(pos, price, profile.trailCallbackPct);
            && (exit == Some(Decision(STOP, pos.remaining, true)) <==> stop)
            && (exit == Some(Decision(TIME_STOP, pos.remaining, true)) <==> !stop && time)
            && (exit == Some(Decision(TP1, Min(0.4 * pos.original, pos.remaining), false)) <==>
                  !stop && !time && first)
            && (exit == Some(Decision(TP2, Min(0.3 * pos.original, pos.remaining), false)) <==>
                  !stop && !time && !first && second)
            && (exit == Some(Decision(TRAIL, pos.remaining, true)) <==>
                  !stop && !time && !first && !second && trail)
            && (exit.None? <==> !stop && !time && !first && !second && !trail)
  {
    TrailIsGiveBack(pos, price, profile);
    assert (now - pos.openedAt) / 3_600_000.0 * 3_600_000.0 == now - pos.openedAt;
    hide TrailHit, GaveBack;
  }

  /** A plan starts with all of the entry, at its price, with no profit taken. */
  lemma EntryIsFresh(res: EntryResult, now: real)
    ensures var pos := ToManaged(res, now);
            && Fresh(pos) && pos.original == res.quantity && pos.openedAt == now && pos.highWater == res.entryPrice
            && pos.symbol == res.symbol && pos.side == res.side
            && pos.stopPrice == res.stopPrice && pos.tp1Price == res.tp1Price && pos.tp2Price == res.tp2Price
  {
  }

  lemma LiveAccounts(dust: real, profile: Profile, l: Life, e: Event)
    requires 0.0 <= dust < l.pos.original * 0.3 && Accounted(l)
    ensures Accounted(Live(dust, profile, l, e))
  {
    if !l.ended && e.Act? {
      var d := NextExit(l.pos, e.price, e.now, profile);
      if d.Some? {
        ExitKinds(l.pos, e.price, e.now, profile, d.value);
        RealSumAppend(l.closed, d.value.quantity, Same);
      }
      hide NextExit;
    }
  }

  lemma {:induction false} LivedKeepsTerms(dust: real, profile: Profile, start: Managed, events: seq<Event>)
    ensures var pos := Lived(dust, profile, start, events).pos;
            && pos.side == start.side && pos.original == start.original && pos.symbol == start.symbol
            && pos.tp1Price == start.tp1Price && pos.tp2Price == start.tp2Price
  {
    if events != [] {
      LivedKeepsTerms(dust, profile, start, events[..|events| - 1]);
    }
  }

  /** The first of two prices is at least as favourable to a side as the second. */
  predicate AtLeastAsGood(side: Dir, a: real, b: real) {
    if side == LONG then a >= b else a <= b
  }

  /** The price of event i was folded into the extremum: it was observed before the end. */
  predicate Folded(dust: real, profile: Profile, start: Managed, events: seq<Event>, i: int) {
    0 <= i < |events| && events[i].Observe? && !Lived(dust, profile, start, events[..i]).ended
  }

  /** The extremum is the entry price or an observed price, and no observed price is more favourable. */
  lemma {:induction false} HighWaterIsExtremum(dust: real, profile: Profile, start: Managed, events: seq<Event>)
    ensures var high := Lived(dust, profile, start, events).pos.highWater;
            && AtLeastAsGood(start.side, high, start.highWater)
            && (forall i :: Folded(dust, profile, start, events, i) ==>
                  AtLeastAsGood(start.side, high, events[i].price))
            && (high == start.highWater
                || exists i :: Folded(dust, profile, start, events, i) && events[i].price == high)
  {
    if events != [] {
      var last := |events| - 1;
      var front := events[..last];
      HighWaterIsExtremum(dust, profile, start, front);
      LivedKeepsTerms(dust, profile, start, front);
      HighWaterStep(dust, profile, Lived(dust, profile, start, front), events[last]);
      hide Live;
      forall i ensures Folded(dust, profile, start, events, i) <==>
                       Folded(dust, profile, start, front, i)
                         || (i == last && events[last].Observe? && !Lived(dust, profile, start, front).ended)
      {
        FoldedPrefix(dust, profile, start, events, i);
      }
      hide Folded;
    }
  }

  lemma FoldedPrefix(dust: real, profile: Profile, start: Managed, events: seq<Event>, i: int)
    requires events != []
    ensures var last := |events| - 1;
            var front := events[..last];
            Folded(dust, profile, start, events, i) <==>
            Folded(dust, profile, start, front, i)
              || (i == last && events[last].Observe? && !Lived(dust, profile, start, front).ended)
  {
    hide Lived;
    if 0 <= i < |events| - 1 {
      assert events[..|events| - 1][..i] == events[..i];
    }
  }

  lemma HighWaterStep(dust: real, profile: Profile, l: Life, e: Event)
    ensures var high := Live(dust, profile, l, e).pos.highWater;
            if e.Observe? && !l.ended then
              && AtLeastAsGood(l.pos.side, high, l.pos.highWater) && AtLeastAsGood(l.pos.side, high, e.price)
              && (high == l.pos.highWater || high == e.price)
            else high == l.pos.highWater
  {
    hide NextExit;
  }

  /**
   Over every life of a fresh position whose runner is above the cutoff: what was closed and what
   remains make up the original size; until the end exactly 1, 0.6, 0.7 or 0.3 of it remains,
   by the profits taken; at the end nothing does. With laddered levels the second profit is
   never taken before the first.
   */
  lemma {:induction false} LifeAccounts(dust: real, profile: Profile, start: Managed, events: seq<Event>)
    requires Fresh(start) && 0.0 <= dust < start.original * 0.3
    ensures Accounted(Lived(dust, profile, start, events))
  {
    if events == [] {
      assert Closed(Life(start, [], false)) == 0.0;
    } else {
      LifeAccounts(dust, profile, start, events[..|events| - 1]);
      LivedKeepsTerms(dust, profile, start, events[..|events| - 1]);
      LiveAccounts(dust, profile, Lived(dust, profile, start, events[..|events| - 1]), events[|events| - 1]);
    }
  }

  /** For any size and any levels, what is closed and what remains never exceed the original, nor fall
      short of it by more than one dust cutoff. */
  lemma {:induction false} LifeNeverOvercloses(dust: real, profile: Profile, start: Managed, events: seq<Event>)
    requires Fresh(start) && dust >= 0.0 && start.original > dust
    ensures var l := Lived(dust, profile, start, events);
            && l.pos.remaining >= 0.0 && (l.ended <==> l.pos.remaining == 0.0)
            && start.original - dust <= Closed(l) + l.pos.remaining <= start.original
            && (!l.ended ==> Closed(l) + l.pos.remaining == start.original && l.pos.remaining > dust)
  {
    if events != [] {
      var l, e := Lived(dust, profile, start, events[..|events| - 1]), events[|events| - 1];
      LifeNeverOvercloses(dust, profile, start, events[..|events| - 1]);
      LivedKeepsTerms(dust, profile, start, events[..|events| - 1]);
      if !l.ended && e.Act? {
        var d := NextExit(l.pos, e.price, e.now, profile);
        if d.Some? {
          ExitKinds(l.pos, e.price, e.now, profile, d.value);
          RealSumAppend(l.closed, d.value.quantity, Same);
        }
        hide NextExit;
      }
    }
  }

  /**
   Without the ladder the order of the profits is not guaranteed: some price and time take the
   second profit first exactly when it lies strictly before the first one and some price between
   them is clear of the stop.
   */
  lemma SecondProfitFirstIff(pos: Managed, profile: Profile)
    requires !pos.tp1Done && !pos.tp2Done && profile.timeStopHours >= 0.0
    ensures (exists price: real, now: real :: TakesSecond(pos, price, now, profile)) <==>
            (!Laddered(pos) && if pos.side == LONG then pos.stopPrice < pos.tp1Price else pos.stopPrice > pos.tp1Price)
  {
    if !Laddered(pos) && if pos.side == LONG then pos.stopPrice < pos.tp1Price else pos.stopPrice > pos.tp1Price {
      var price :=
        if pos.side == LONG then (Max(pos.tp2Price, pos.stopPrice) + pos.tp1Price) / 2.0
        else (Min(pos.tp2Price, pos.stopPrice) + pos.tp1Price) / 2.0;
      assert TakesSecond(pos, price, pos.openedAt, profile);
    }
  }

  predicate TakesSecond(pos: Managed, price: real, now: real, profile: Profile) {
    NextExit(pos, price, now, profile) == Some(Decision(TP2, Min(pos.original * 0.3, pos.remaining), false))
  }
}
