/**
 What the records of the execution manager say and which records a report reaches
 (src/execution/ExecutionManager.ts), field by field and told from replies and reports alone.
 */
module ExecutionRecords {
  import DecimalText
  import opened ExecutionBooks
  import opened FixedPoint
  import opened Placement
  import opened StreamFills
  import opened StreamTotals
  import opened Wrappers

  // ---------------------------------------------------------------------------
  // Records built from orders, and without one
  // ---------------------------------------------------------------------------

  /** A record of this order: its status, id, fills and totals, under the given intent and client order id. */
  predicate Tells(v: ExecutionView, shape: OrderShape, intent: string, cid: string) {
    && v.intentId == intent && v.clientOrderId == cid
    && v.exchangeOrderId == shape.orderId && v.status == shape.status && v.fills == shape.fills
    && NumIfAny(v.executedQuantity) == NumIfAny(shape.executedQty)
    && NumIfAny(v.cumulativeQuoteQuantity) == NumIfAny(shape.cumQuote)
    && (v.executedQuantity.Some? <==> shape.executedQty.Some?)
    && (v.cumulativeQuoteQuantity.Some? <==> shape.cumQuote.Some?)
  }

  lemma ViewTells(shape: OrderShape, intent: string, cid: string, verdict: Verdict)
    ensures var v := ViewOf(shape, intent, cid, verdict);
            Tells(v, shape, intent, cid) && v.reconciliationState == verdict
  {
    PrintedKeepsValue(shape.executedQty);
    PrintedKeepsValue(shape.cumQuote);
    hide Printed, NumIfAny, AveragePrice;
  }

  /** Its average price is quote over quantity, rounded; where that is nothing or zero, the average the order shows. */
  lemma ViewAverage(shape: OrderShape, intent: string, cid: string, verdict: Verdict, c: Decimal)
    requires shape.executedQty.Some? && shape.cumQuote.Some?
    requires IsQuotient(Num(shape.cumQuote.value), Num(shape.executedQty.value), c)
    ensures var average := ViewOf(shape, intent, cid, verdict).averagePrice;
            if c.scaled != 0 then average.Some? && Num(average.value) == c
            else if shape.avgPrice.Some? && shape.avgPrice.value != "" && Num(shape.avgPrice.value).scaled != 0 then
              average.Some? && Num(average.value) == Num(shape.avgPrice.value)
            else average.None?
  {
    AverageIsQuoteOverQuantity(NumIfAny(shape.executedQty), NumIfAny(shape.cumQuote), shape.avgPrice, c);
    hide Printed, AveragePrice, Num, IsQuotient;
  }

  /** Nothing was executed, and that is known. */
  predicate NothingExecuted(v: ExecutionView) {
    v.executedQuantity == Some("0") && v.cumulativeQuoteQuantity == Some("0") && v.averagePrice.None? && v.fills == []
  }

  /** Nothing is known of what was executed. */
  predicate NothingKnown(v: ExecutionView) {
    v.executedQuantity.None? && v.cumulativeQuoteQuantity.None? && v.averagePrice.None? && v.fills == []
  }

  /** Rejected and cancelled records have executed nothing; of an unknown outcome no quantity is known. */
  lemma EmptyRecords(intent: string, cid: string)
    ensures NothingExecuted(RejectedView(intent, cid)) && RejectedView(intent, cid).status == "REJECTED"
    ensures NothingExecuted(GoneView(intent, cid)) && GoneView(intent, cid).status == "CANCELED"
    ensures NothingKnown(UnknownView(intent, cid)) && UnknownView(intent, cid).status == "UNKNOWN"
    ensures forall v :: v in {RejectedView(intent, cid), GoneView(intent, cid), UnknownView(intent, cid)} ==>
              v.intentId == intent && v.clientOrderId == cid && v.exchangeOrderId.None?
  {
  }

  // ---------------------------------------------------------------------------
  // Replies
  // ---------------------------------------------------------------------------

  /**
   The numbers of an order can be read when its totals parse, and so does the average it shows
   wherever quote over quantity gives nothing.
   */
  lemma ReadableIff(shape: OrderShape, c: Decimal)
    requires shape.executedQty.Some? && shape.cumQuote.Some? && Num(shape.executedQty.value).scaled != 0 ==>
               IsQuotient(Num(shape.cumQuote.value), Num(shape.executedQty.value), c)
    ensures var computed := shape.executedQty.Some? && shape.cumQuote.Some?
                            && Num(shape.executedQty.value).scaled != 0 && c.scaled != 0;
            Readable(shape) <==>
            && (shape.executedQty.Some? ==> Parses(shape.executedQty.value))
            && (shape.cumQuote.Some? ==> Parses(shape.cumQuote.value))
            && (computed || shape.avgPrice.None? || shape.avgPrice.value == "" || Parses(shape.avgPrice.value))
  {
    if shape.executedQty.Some? && shape.cumQuote.Some? && Num(shape.executedQty.value).scaled != 0 {
      DivIsNearestTiesToZero(Num(shape.cumQuote.value), Num(shape.executedQty.value), c);
      assert Div(Num(shape.cumQuote.value), Num(shape.executedQty.value)) == Ok(c);
    }
    hide Num, Div, NearestTiesToZero, IsQuotient, DecimalText.Parsed;
  }

  /** The text spells a decimal. */
  predicate Parses(text: string) {
    DecimalText.Parsed(text).Ok?
  }

  /** What each reply means for a submission, and for a lookup. */
  lemma RepliesMean(reply: Reply)
    ensures CreateOutcome(reply) == Created <==> reply.OrderReply? && Readable(reply.shape)
    ensures CreateOutcome(reply) == ApiError <==> reply.ApiFailure?
    ensures CreateOutcome(reply) == NoReply <==> reply.NetworkFailure?
    ensures CreateOutcome(reply) == NotSent <==> reply == OtherFailure(false)
    ensures CreateOutcome(reply) == Unreadable <==>
            reply == OtherFailure(true) || (reply.OrderReply? && !Readable(reply.shape))
    ensures FetchOutcome(reply) == Found <==> reply.OrderReply? && Readable(reply.shape)
    ensures FetchOutcome(reply) == NotFound <==> reply == ApiFailure(-2013)
  {
    hide Readable;
  }

  // ---------------------------------------------------------------------------
  // Cancellations and reconciliations
  // ---------------------------------------------------------------------------

  /** The order is off the book for good. */
  predicate OffTheBook(status: string) {
    status == "CANCELED" || status == "EXPIRED" || status == "CANCELED_EXPIRED"
  }

  /**
   When a cancellation of an unknown intent is recorded, and as what: acknowledged, as the order
   shown; already gone, by -2011 or -2013; or, its reply lost, as the order looked up, which counts
   as cancelled exactly when it is off the book. In every other case it throws and changes nothing.
   */
  lemma CancelRecordsIff(
    limits: Limits, b: Books, intent: string, cid: string, answer: Reply, lookup: Reply)
    requires intent !in b.views
    ensures var (after, r) := CancellingOrder(limits, b, intent, cid, answer, lookup);
            var acked := answer.OrderReply? && Readable(answer.shape);
            var gone := answer == ApiFailure(-2011) || answer == ApiFailure(-2013);
            var found := answer.NetworkFailure? && lookup.OrderReply? && Readable(lookup.shape);
            && (r.Ok? <==> acked || gone || found)
            && (after == if r.Ok? then File(limits.maxLedger, b, r.value) else b)
            && (acked ==> Tells(r.value, answer.shape, intent, answer.shape.clientOrderId)
                          && r.value.reconciliationState == ACKED)
            && (gone ==> r.value == GoneView(intent, cid))
            && (found ==> Tells(r.value, lookup.shape, intent, lookup.shape.clientOrderId)
                          && r.value.reconciliationState ==
                             if OffTheBook(lookup.shape.status) then RECONCILED else UNKNOWN)
  {
    if answer.OrderReply? {
      ViewTells(answer.shape, intent, answer.shape.clientOrderId, ACKED);
    }
    if lookup.OrderReply? {
      ViewTells(lookup.shape, intent, lookup.shape.clientOrderId, RECONCILED);
      ViewTells(lookup.shape, intent, lookup.shape.clientOrderId, UNKNOWN);
    }
    hide ViewOf, Tells, GoneView, File, Readable;
  }

  /** A cancellation under an intent on record is answered from there, whatever the exchange would have said. */
  lemma CancelKnown(limits: Limits, b: Books, intent: string, cid: string, answer: Reply, lookup: Reply)
    requires intent in b.views
    ensures CancellingOrder(limits, b, intent, cid, answer, lookup) == (b, Ok(b.views[intent]))
  {
  }

  /** A reconciliation replaces the record exactly when there is one and the order can be looked up and read. */
  lemma ReconcilesIff(limits: Limits, b: Books, intent: string, answer: Reply)
    ensures var (after, r) := Reconciling(limits, b, intent, answer);
            && (r.Ok? <==> intent in b.views && answer.OrderReply? && Readable(answer.shape))
            && (r.Ok? ==>
                  && after == File(limits.maxLedger, b, r.value) && r.value.reconciliationState == RECONCILED
                  && Tells(r.value, answer.shape, intent, answer.shape.clientOrderId))
            && (r.Err? ==> after == b)
            && (r == Err(NoExecution) <==> intent !in b.views)
            && (r == Err(UnreadableOrder) <==> intent in b.views && answer.OrderReply? && !Readable(answer.shape))
            && (r == Err(LookupFailed(answer)) <==> intent in b.views && !answer.OrderReply?)
  {
    if answer.OrderReply? {
      ViewTells(answer.shape, intent, answer.shape.clientOrderId, RECONCILED);
    }
    hide ViewOf, Tells, File, Readable;
  }

  // ---------------------------------------------------------------------------
  // Filing
  // ---------------------------------------------------------------------------

  /**
   Filing an execution under an intent on record replaces the record in its place. A new intent goes
   to the end, and if the ledger was full, the oldest record goes, and no other.
   */
  lemma FilingKeepsPlaces(maxLedger: nat, b: Books, v: ExecutionView)
    requires |b.views| <= maxLedger && |b.order| == |b.views|
    ensures var t := File(maxLedger, b, v);
            && (v.intentId in b.views ==> t.order == b.order && t.views == b.views[v.intentId := v])
            && (v.intentId !in b.views && |b.views| < maxLedger ==>
                  t.order == b.order + [v.intentId] && t.views == b.views[v.intentId := v])
            && (v.intentId !in b.views && |b.views| == maxLedger ==>
                  && t.order == (b.order + [v.intentId])[1..]
                  && t.views == b.views[v.intentId := v] - {(b.order + [v.intentId])[0]})
            && t.byClientOrderId == b.byClientOrderId[v.clientOrderId := v.intentId]
  {
    var views := b.views[v.intentId := v];
    assert views.Keys == b.views.Keys + {v.intentId};
    assert |views| == |views.Keys| && |b.views| == |b.views.Keys|;
  }

  // ---------------------------------------------------------------------------
  // Which record a report reaches
  // ---------------------------------------------------------------------------

  /** A report reaches the record that was filed last under its client order id, while it is on file. */
  lemma FiledIsHeard(maxLedger: nat, b: Books, v: ExecutionView, r: Report)
    requires r.clientOrderId == v.clientOrderId != "" && v.intentId != ""
    requires v.intentId in File(maxLedger, b, v).views
    ensures Addressee(File(maxLedger, b, v), r) == Some(v.intentId)
  {
  }

  /** Of all records a report changes that one alone; a report without id, or for an unknown one, changes none. */
  lemma HearsAlone(b: Books, r: Report, i: string)
    requires i in b.views
    ensures var after := Hear(b, r).0;
            && i in after.views && after.order == b.order && after.byClientOrderId == b.byClientOrderId
            && after.views.Keys == b.views.Keys
            && after.views[i] ==
               if r.clientOrderId != "" && r.clientOrderId in b.byClientOrderId
                  && b.byClientOrderId[r.clientOrderId] == i && i != ""
               then Apply(b.views[i], r).view else b.views[i]
  {
    hide Apply;
  }

  // ---------------------------------------------------------------------------
  // Client order ids
  // ---------------------------------------------------------------------------

  /** Dashes, and nothing else, are left out, in place. */
  lemma {:induction false} DashesLeftOut(a: string, b: string)
    ensures WithoutDashes(a + ['-'] + b) == WithoutDashes(a) + WithoutDashes(b)
  {
    var all := a + ['-'] + b;
    if a == "" {
      assert all[0] == '-' && all[1..] == b;
    } else {
      var tail := a[1..];
      assert all[0] == a[0] && all[1..] == tail + ['-'] + b;
      DashesLeftOut(tail, b);
      var first: string := if a[0] == '-' then "" else [a[0]];
      assert WithoutDashes(all) == first + WithoutDashes(tail + ['-'] + b);
      assert WithoutDashes(a) == first + WithoutDashes(tail);
      hide WithoutDashes;
    }
  }

  lemma {:induction false} NoDashesKept(a: string)
    requires '-' !in a
    ensures WithoutDashes(a) == a
  {
    if a != "" {
      assert a == [a[0]] + a[1..];
      NoDashesKept(a[1..]);
    }
  }

  /** Behind a prefix of up to 11 characters there is room for 24 of the intent, and ids have at most 36. */
  lemma DerivedIdIs(prefix: string, intent: string, dash: string)
    requires dash == "-"
    ensures |DerivedId(prefix, intent)| <= 36
    ensures |prefix| <= 11 ==>
              var bare := WithoutDashes(intent);
              DerivedId(prefix, intent) == prefix + dash + if |bare| <= 24 then bare else bare[..24]
    ensures |prefix| > 11 ==> DerivedId(prefix, intent) <= prefix + dash + WithoutDashes(intent)
  {
    hide WithoutDashes;
  }
}
