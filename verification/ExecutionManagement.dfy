/**
 The execution manager as the object it is (src/execution/ExecutionManager.ts): three maps, and
 execution records that stream reports change in place. Its loops and updates are proved to
 compute the functions of ExecutionBooks and StreamFills.
 */
module ExecutionManagement {
  import opened DecimalPrint
  import opened DecimalText
  import opened ExecutionBooks
  import opened FixedPoint
  import opened Placement
  import opened StreamFills
  import opened Sums
  import opened Wrappers

  class Execution {
    const intentId: string
    const clientOrderId: string
    var exchangeOrderId: Option<int>
    var status: string
    var executedQuantity: Option<string>
    var cumulativeQuoteQuantity: Option<string>
    var averagePrice: Option<string>
    var fills: seq<Fill>
    const reconciliationState: Verdict

    function View(): ExecutionView
      reads this
    {
      ExecutionView(intentId, clientOrderId, exchangeOrderId, status, executedQuantity, cumulativeQuoteQuantity,
                    averagePrice, fills, reconciliationState)
    }

    constructor (v: ExecutionView)
      ensures View() == v
    {
      intentId, clientOrderId, exchangeOrderId, status := v.intentId, v.clientOrderId, v.exchangeOrderId, v.status;
      executedQuantity, cumulativeQuoteQuantity := v.executedQuantity, v.cumulativeQuoteQuantity;
      averagePrice, fills, reconciliationState := v.averagePrice, v.fills, v.reconciliationState;
    }

    /** Whether a fill with this trade id is on record. */
    method SawTrade(tradeId: Option<int>) returns (seen: bool)
      ensures seen <==> tradeId.Some? && exists i :: 0 <= i < |fills| && fills[i].tradeId == tradeId
    {
      seen := false;
      if tradeId.Some? {
        for i := 0 to |fills|
          invariant seen <==> exists j :: 0 <= j < i && fills[j].tradeId == tradeId
        {
          seen := seen || fills[i].tradeId == tradeId;
        }
      }
    }

    /** Takes over the status, and the exchange's order id if none is known. */
    method TakeHeader(r: Report)
      modifies this`status, this`exchangeOrderId
      ensures View() == WithHeader(old(View()), r)
    {
      if r.status != "" {
        status := r.status;
      }
      if exchangeOrderId.None? && r.orderId.Some? {
        exchangeOrderId := r.orderId;
      }
    }

    /** Adds the trade of a report, once per positive trade id. */
    method PushFill(r: Report)
      modifies this`fills
      ensures View() == WithFill(old(View()), r)
    {
      if r.lastQty.Some? && r.lastQty.value != "0" && r.lastQty.value != "" {
        var seenTrade := false;
        if r.tradeId.Some? && r.tradeId.value > 0 {
          seenTrade := SawTrade(r.tradeId);
        }
        if !seenTrade {
          fills := fills + [Fill(
            if r.lastPrice.Some? then r.lastPrice.value else "0",
            r.lastQty.value,
            if r.commission.Some? && r.commission.value != "0" then r.commission else None,
            if r.commissionAsset.Some? && r.commissionAsset.value != "" then r.commissionAsset else None,
            r.tradeId)];
        }
      }
    }

    method TakeExecuted(r: Report)
      modifies this`executedQuantity
      ensures View() == WithExecuted(old(View()), r)
    {
      if r.executedQty.Some? {
        executedQuantity := Some(Text(Num(r.executedQty.value)));
      }
    }

    /** Takes over the cumulative quote, or estimates it from the average. */
    method TakeQuote(r: Report)
      modifies this`cumulativeQuoteQuantity
      ensures View() == WithQuote(old(View()), r)
    {
      hide Num, Text, Mul;
      if r.cumQuote.Some? {
        cumulativeQuoteQuantity := Some(Text(Num(r.cumQuote.value)));
      } else if cumulativeQuoteQuantity.None? && executedQuantity.Some? {
        var avg := if r.avgPrice.Some? then r.avgPrice else averagePrice;
        if avg.Some? {
          cumulativeQuoteQuantity := Some(Text(Mul(Num(executedQuantity.value), Num(avg.value))));
        }
      }
    }

    /** The average of the fills, or without fills of the totals. */
    method TakeAverage(r: Report)
      modifies this`averagePrice
      ensures View() == WithAverage(old(View()), r)
    {
      hide AveragePrice, WeightedAverage, NumIfAny;
      if fills == [] {
        var average := AveragePrice(
          NumIfAny(executedQuantity), NumIfAny(cumulativeQuoteQuantity),
          if r.avgPrice.Some? then r.avgPrice else averagePrice);
        averagePrice := if average.Some? then average else averagePrice;
      } else {
        averagePrice := ComputeWeightedAverage(fills);
      }
    }

    /** Applies one report, up to the first text that does not parse, where it throws. */
    method ApplyReport(r: Report) returns (threw: bool)
      modifies this
      ensures Applied(View(), threw) == Apply(old(View()), r)
    {
      ghost var was := View();
      StagesOfApply(was, r);
      hide *;
      TakeHeader(r);
      PushFill(r);
      if !NumeralIfAny(r.executedQty) {
        return true;
      }
      TakeExecuted(r);
      if !QuoteReadable(View(), r) {
        return true;
      }
      TakeQuote(r);
      if !AverageStepReadable(View(), r) {
        return true;
      }
      TakeAverage(r);
      threw := false;
    }
  }

  /** The stages of a report, up to where it throws. */
  lemma StagesOfApply(v: ExecutionView, r: Report)
    ensures var filled := WithFill(WithHeader(v, r), r);
            var counted := WithExecuted(filled, r);
            var quoted := WithQuote(counted, r);
            Apply(v, r) ==
            if !NumeralIfAny(r.executedQty) then Applied(filled, true)
            else if !QuoteReadable(counted, r) then Applied(counted, true)
            else if !AverageStepReadable(quoted, r) then Applied(quoted, true)
            else Applied(WithAverage(quoted, r), false)
  {
    hide WithHeader, WithFill, WithExecuted, WithQuote, WithAverage, NumeralIfAny, QuoteReadable, AverageStepReadable;
  }

  // ---------------------------------------------------------------------------
  // The manager
  // ---------------------------------------------------------------------------

  /** What a placement throws: the exchange's rejection, an unknown outcome, or an error that left no record. */
  datatype Thrown = Rejection | UnknownOutcome | Unrecorded

  /** How a placement ends for its caller. */
  datatype Placed = Existing(v: ExecutionView) | Joined(task: Task) | Returned(v: ExecutionView) | Threw(error: Thrown)

  /** An acknowledged or recovered order is returned; a rejection, an unknown outcome or another error is thrown. */
  function ResultOf(end: Option<ExecutionView>): Placed {
    match end
    case None => Threw(Unrecorded)
    case Some(v) =>
      if v.reconciliationState == ACKED || v.reconciliationState == RECONCILED then Returned(v)
      else if v.reconciliationState == REJECTED then Threw(Rejection)
      else Threw(UnknownOutcome)
  }

  /**
   The recorded execution if there is one, else whatever the placement already in flight under
   the id comes to, else a placement of its own.
   */
  function Placing(limits: Limits, script: Script, b: Books, inFlight: map<string, Task>, intent: string, cid: string)
    : (Books, Placed)
  {
    if intent in b.views then (b, Existing(b.views[intent]))
    else if cid in inFlight then (b, Joined(inFlight[cid]))
    else (AfterPlacement(limits, script, b, intent, cid), ResultOf(Submitted(limits, script, intent, cid, 0)))
  }

  /** An intent on record is answered from there; one whose id is in flight joins that placement. Nothing changes. */
  lemma KnownIntents(
    limits: Limits, script: Script, b: Books, inFlight: map<string, Task>, intent: string, cid: string)
    ensures var (after, r) := Placing(limits, script, b, inFlight, intent, cid);
            && (r.Existing? <==> intent in b.views)
            && (r.Existing? ==> r.v == b.views[intent])
            && (r.Joined? <==> intent !in b.views && cid in inFlight)
            && (r.Joined? ==> r.task == inFlight[cid])
            && (r.Existing? || r.Joined? ==> after == b)
  {
    hide AfterPlacement, Submitted;
  }

  /** The order of the deciding reply that a placement was answered with. */
  ghost predicate AnsweredBy(limits: Limits, script: Script, k: nat, shape: OrderShape) {
    || script.creates(k) == OrderReply(shape)
    || exists a: nat :: AnsweredFirst(limits, script, k, 1, a) && script.fetches(k, a) == OrderReply(shape)
  }

  /**
   What a new placement comes to for its caller, by the replies to its deciding submission, the
   second if the first was lost and the first answered poll said -2013. An order is returned exactly
   when the request can be read and the submission is acknowledged or, its reply lost, the order is
   what the first answered poll found; it is the execution just filed. Rejections, unknown outcomes
   and errors without a record throw.
   */
  lemma PlacementReturnsIff(
    limits: Limits, script: Script, b: Books, inFlight: map<string, Task>, intent: string, cid: string)
    requires intent !in b.views && cid !in inFlight
    ensures var (after, r) := Placing(limits, script, b, inFlight, intent, cid);
            var k := if SendsTwice(limits, script) then 1 else 0;
            var created := CreateOutcome(script.creates(k));
            && (r.Returned? <==>
                  && script.readable
                  && (created == Created || (created == NoReply && AnsweredWith(limits, script, k, 1, Found))))
            && (r.Returned? ==>
                  && r.v.intentId == intent && after == File(limits.maxLedger, b, r.v)
                  && r.v.reconciliationState == (if created == Created then ACKED else RECONCILED)
                  && ShownBy(limits, script, intent, cid, k, r.v))
            && (r == Threw(Rejection) <==> script.readable && created == ApiError)
            && (r == Threw(UnknownOutcome) <==>
                  && script.readable && created == NoReply
                  && (NeverAnswered(limits, script, k, 1) || (k == 1 && AnsweredWith(limits, script, k, 1, NotFound))))
            && (r == Threw(Unrecorded) <==> !script.readable || created == NotSent || created == Unreadable)
            && (r.Returned? || r.Threw?)
            && (r == Threw(Unrecorded) ==> after == b)
            && (r == Threw(Rejection) ==> after == File(limits.maxLedger, b, RejectedView(intent, cid)))
            && (r == Threw(UnknownOutcome) ==> after == File(limits.maxLedger, b, UnknownView(intent, cid)))
  {
    var k := if SendsTwice(limits, script) then 1 else 0;
    var end := Submitted(limits, script, intent, cid, 0);
    OutcomeHasEvidence(limits, script, intent, cid);
    if end.Some? {
      EvidenceParts(limits, script, intent, cid, k, end.value);
    }
    AnswersExclude(limits, script, k);
    hide Submitted, File, Evidence, SendsTwice, AnsweredWith, NeverAnswered, CreateOutcome, RejectedView, UnknownView;
    hide ShownBy;
  }

  /** Of found, -2013 and no answer at all, polling meets exactly one. */
  lemma AnswersExclude(limits: Limits, script: Script, k: nat)
    ensures !(AnsweredWith(limits, script, k, 1, Found) && AnsweredWith(limits, script, k, 1, NotFound))
    ensures NeverAnswered(limits, script, k, 1) <==>
            !AnsweredWith(limits, script, k, 1, Found) && !AnsweredWith(limits, script, k, 1, NotFound)
  {
    FirstAnswerDecides(limits, script, "", "", k, 1);
    hide RecoveryFrom, AnsweredWith, NeverAnswered;
  }

  /** What the evidence for an execution says of its fields. */
  lemma EvidenceParts(limits: Limits, script: Script, intent: string, cid: string, k: nat, v: ExecutionView)
    requires Evidence(limits, script, intent, cid, k, v)
    ensures var created := CreateOutcome(script.creates(k));
            match v.reconciliationState
            case ACKED => created == Created && ShownBy(limits, script, intent, cid, k, v)
            case RECONCILED =>
              && created == NoReply && AnsweredWith(limits, script, k, 1, Found)
              && ShownBy(limits, script, intent, cid, k, v)
            case REJECTED => created == ApiError && v == RejectedView(intent, cid)
            case UNKNOWN =>
              && created == NoReply && v == UnknownView(intent, cid)
              && (NeverAnswered(limits, script, k, 1) || (k == 1 && AnsweredWith(limits, script, k, 1, NotFound)))
            case FAILED => false
  {
  }

  /**
   The execution has the status, id and fills of the order it was answered with, and its client
   order id; an acknowledgement that shows none stands for the one submitted.
   */
  ghost predicate ShownBy(limits: Limits, script: Script, intent: string, cid: string, k: nat, v: ExecutionView) {
    && v.intentId == intent
    && exists shape ::
         && AnsweredBy(limits, script, k, shape)
         && v.status == shape.status && v.exchangeOrderId == shape.orderId && v.fills == shape.fills
         && v.clientOrderId == if shape.clientOrderId == "" && v.reconciliationState == ACKED then cid
                               else shape.clientOrderId
  }

  /** The keys in some order, once each. */
  ghost predicate Lists(order: seq<string>, keys: set<string>) {
    Distinct(order) && forall i :: i in order <==> i in keys
  }

  lemma ListsMore(order: seq<string>, keys: set<string>, i: string)
    requires Lists(order, keys)
    ensures i in keys ==> Lists(order, keys + {i})
    ensures i !in keys ==> Lists(order + [i], keys + {i})
  {
  }

  lemma ListsFewer(order: seq<string>, keys: set<string>)
    requires Lists(order, keys) && order != []
    ensures order[0] in keys && Lists(order[1..], keys - {order[0]})
  {
    forall i ensures i in order[1..] <==> i in keys && i != order[0] {
      assert i in order <==> i == order[0] || i in order[1..];
    }
  }

  lemma ViewCount(ledger: map<string, Execution>, views: map<string, ExecutionView>)
    requires ledger.Keys == views.Keys
    ensures |ledger| == |views|
  {
    assert |ledger| == |ledger.Keys| && |views| == |views.Keys|;
  }

  lemma ValuesOfUpdate<K, V>(m: map<K, V>, k: K, v: V)
    ensures m[k := v].Values <= m.Values + {v}
    ensures (m - {k}).Values <= m.Values
  {
  }

  lemma FiledInParts(
    maxLedger: nat, was: map<string, ExecutionView>, wasOrder: seq<string>, wasByCid: map<string, string>,
    v: ExecutionView,
    order: seq<string>)
    requires order == if v.intentId in was then wasOrder else wasOrder + [v.intentId]
    ensures var views := was[v.intentId := v];
            var full := |views| > maxLedger && order != [];
            File(maxLedger, Books(was, wasOrder, wasByCid), v) ==
            Books(if full then views - {order[0]} else views, if full then order[1..] else order,
                  wasByCid[v.clientOrderId := v.intentId])
  {
  }

  class ExecutionManager {
    const limits: Limits
    const clientOrderIdPrefix: string
    var ledger: map<string, Execution>
    /** The ledger's keys in insertion order. */
    var ledgerOrder: seq<string>
    var byClientOrderId: map<string, string>
    var inFlight: map<string, Task>

    ghost predicate Valid()
      reads this`ledger, this`ledgerOrder, ledger.Values
    {
      && (forall i :: i in ledger ==> ledger[i].intentId == i)
      && Lists(ledgerOrder, ledger.Keys)
    }

    ghost function Views(): map<string, ExecutionView>
      reads this`ledger, ledger.Values
    {
      map i | i in ledger :: ledger[i].View()
    }

    /** The books and, with the placements in flight, the manager of the protocol. */
    ghost function Contents(): Books
      reads this`ledger, this`ledgerOrder, this`byClientOrderId, ledger.Values
    {
      Books(Views(), ledgerOrder, byClientOrderId)
    }

    constructor (clientOrderIdPrefix: string, limits: Limits)
      ensures Valid() && Contents() == Books(map[], [], map[]) && inFlight == map[]
      ensures Outline(Contents(), inFlight) == IDLE
      ensures this.clientOrderIdPrefix == clientOrderIdPrefix && this.limits == limits
    {
      this.clientOrderIdPrefix, this.limits := clientOrderIdPrefix, limits;
      ledger, ledgerOrder, byClientOrderId, inFlight := map[], [], map[], map[];
    }

    /** A copy of the record, so callers do not see later reports through it. */
    method GetExecution(intentId: string) returns (v: Option<ExecutionView>)
      ensures v == if intentId in ledger then Some(ledger[intentId].View()) else None
    {
      if intentId !in ledger {
        return None;
      }
      v := Some(ledger[intentId].View());
    }

    /** Puts an execution in; a new key goes to the end, a known key keeps its place. */
    method Insert(execution: Execution)
      requires Valid()
      modifies this`ledger, this`ledgerOrder
      ensures Valid() && ledger.Values <= old(ledger.Values) + {execution}
      ensures Views() == old(Views())[execution.intentId := execution.View()]
      ensures ledgerOrder == if execution.intentId in old(Views()) then old(ledgerOrder)
              else old(ledgerOrder) + [execution.intentId]
    {
      hide Lists;
      ListsMore(ledgerOrder, ledger.Keys, execution.intentId);
      ValuesOfUpdate(ledger, execution.intentId, execution);
      if execution.intentId !in ledger {
        ledgerOrder := ledgerOrder + [execution.intentId];
      }
      ledger := ledger[execution.intentId := execution];
      assert ledger.Keys == old(ledger).Keys + {execution.intentId};
    }

    /** Deletes the first key of the ledger. */
    method DropOldest()
      requires Valid() && ledgerOrder != []
      modifies this`ledger, this`ledgerOrder
      ensures Valid() && ledger.Values <= old(ledger.Values)
      ensures Views() == old(Views()) - {old(ledgerOrder)[0]} && ledgerOrder == old(ledgerOrder)[1..]
    {
      hide Lists;
      var oldest := ledgerOrder[0];
      ListsFewer(ledgerOrder, ledger.Keys);
      ValuesOfUpdate(ledger, oldest, ledger[oldest]);
      ledger := ledger - {oldest};
      ledgerOrder := ledgerOrder[1..];
      assert ledger.Keys == old(ledger).Keys - {oldest};
    }

    /** Beyond the limit, deletes the first key of the ledger. */
    method Trim()
      requires Valid()
      modifies this`ledger, this`ledgerOrder
      ensures Valid() && ledger.Values <= old(ledger.Values)
      ensures var full := |old(Views())| > limits.maxLedger && old(ledgerOrder) != [];
              && Views() == (if full then old(Views()) - {old(ledgerOrder)[0]} else old(Views()))
              && ledgerOrder == (if full then old(ledgerOrder)[1..] else old(ledgerOrder))
    {
      ViewCount(ledger, Views());
      hide Valid, Views;
      if |ledger| > limits.maxLedger && ledgerOrder != [] {
        DropOldest();
      }
    }

    /** The ledger's part of filing an execution. */
    method InsertAndTrim(execution: Execution, ghost byCid: map<string, string>)
      requires Valid()
      modifies this`ledger, this`ledgerOrder
      ensures Valid() && ledger.Values <= old(ledger.Values) + {execution}
      ensures Books(Views(), ledgerOrder, byCid[execution.clientOrderId := execution.intentId])
              == File(limits.maxLedger, Books(old(Views()), old(ledgerOrder), byCid), execution.View())
    {
      Insert(execution);
      hide *;
      ghost var order := ledgerOrder;
      Trim();
      FiledInParts(limits.maxLedger, old(Views()), old(ledgerOrder), byCid, execution.View(), order);
    }

    /** Files an execution, and beyond the limit drops the oldest. */
    method Record(execution: Execution)
      requires Valid()
      modifies this`ledger, this`ledgerOrder, this`byClientOrderId
      ensures Valid() && Contents() == File(limits.maxLedger, old(Contents()), execution.View())
      ensures ledger.Values <= old(ledger.Values) + {execution}
    {
      hide Valid, Views, File;
      byClientOrderId := byClientOrderId[execution.clientOrderId := execution.intentId];
      InsertAndTrim(execution, old(byClientOrderId));
    }

    /** Applies a report to one execution of the ledger, and to no other. */
    method UpdateExecution(intentId: string, r: Report) returns (threw: bool)
      requires Valid() && intentId in ledger
      modifies ledger[intentId]
      ensures Valid()
      ensures var applied := Apply(old(Views())[intentId], r);
              Views() == old(Views())[intentId := applied.view] && threw == applied.threw
    {
      hide Apply, Lists;
      var execution := ledger[intentId];
      assert forall i :: i in ledger && ledger[i] == execution ==> i == intentId;
      threw := execution.ApplyReport(r);
    }

    /** A report on the stream updates the execution it belongs to, if the ledger has it. */
    method OnExecutionReport(r: Report) returns (threw: bool)
      requires Valid()
      modifies ledger.Values
      ensures Valid() && (Contents(), threw) == Hear(old(Contents()), r)
    {
      assert Views().Keys == ledger.Keys;
      hide Valid, Views, Apply;
      if r.clientOrderId == "" || r.clientOrderId !in byClientOrderId {
        return false;
      }
      var intentId := byClientOrderId[r.clientOrderId];
      if intentId == "" || intentId !in ledger {
        return false;
      }
      threw := UpdateExecution(intentId, r);
    }

    method DeriveClientOrderId(intentId: string) returns (id: string)
      ensures id == DerivedId(clientOrderIdPrefix, intentId)
    {
      var bare := "";
      for i := 0 to |intentId|
        invariant bare + WithoutDashes(intentId[i..]) == WithoutDashes(intentId)
      {
        assert intentId[i..][1..] == intentId[i + 1..];
        if intentId[i] != '-' {
          bare := bare + [intentId[i]];
        }
      }
      assert bare == WithoutDashes(intentId);
      var suffix := if |bare| > SUFFIX_MAX then bare[..SUFFIX_MAX] else bare;
      id := clientOrderIdPrefix + "-" + suffix;
      assert |clientOrderIdPrefix + "-" + suffix| == |id|;
      if |id| > CLIENT_ORDER_ID_MAX {
        id := id[..CLIENT_ORDER_ID_MAX];
      }
    }

    /** Files an execution made of the given values. */
    method RecordView(v: ExecutionView)
      requires Valid()
      modifies this`ledger, this`ledgerOrder, this`byClientOrderId
      ensures Valid() && Contents() == File(limits.maxLedger, old(Contents()), v)
      ensures forall e :: e in ledger.Values ==> e in old(ledger.Values) || fresh(e)
    {
      hide Valid, Contents, File;
      var execution := new Execution(v);
      Record(execution);
    }

    /** Polls for an order of unknown fate: found and filed, absent, or given up and filed as unknown. */
    method RecoverByClientOrderId(script: Script, intentId: string, clientOrderId: string, submission: nat)
      returns (r: Recovery)
      requires Valid()
      modifies this`ledger, this`ledgerOrder, this`byClientOrderId
      ensures Valid() && r == RecoveryFrom(limits, script, intentId, clientOrderId, submission, 1)
      ensures Contents() == if r.Absent? || r.Unfiled? then old(Contents())
              else File(limits.maxLedger, old(Contents()), r.v)
      ensures forall e :: e in ledger.Values ==> e in old(ledger.Values) || fresh(e)
    {
      hide Valid, Contents, File, ViewOf, UnknownView, Readable;
      for attempt := 1 to limits.maxAttempts + 1
        invariant RecoveryFrom(limits, script, intentId, clientOrderId, submission, attempt)
                  == RecoveryFrom(limits, script, intentId, clientOrderId, submission, 1)
        invariant ledger == old(ledger) && ledgerOrder == old(ledgerOrder) && byClientOrderId == old(byClientOrderId)
      {
        var reply := script.fetches(submission, attempt);
        if reply.OrderReply? && script.readable && Readable(reply.shape) {
          r := Recovered(ViewOf(reply.shape, intentId, reply.shape.clientOrderId, RECONCILED));
          RecordView(r.v);
          return;
        }
        if reply.ApiFailure? && reply.code == NO_SUCH_ORDER {
          return Absent;
        }
      }
      if !script.readable {
        return Unfiled;
      }
      r := GaveUp(UnknownView(intentId, clientOrderId));
      RecordView(r.v);
    }

    /** Files a record of an order that was asked for, unless what was asked for cannot be read. */
    method BuildAndRecord(script: Script, v: ExecutionView) returns (r: Option<ExecutionView>)
      requires Valid()
      modifies this`ledger, this`ledgerOrder, this`byClientOrderId
      ensures Valid() && r == Built(script, v)
      ensures Contents() == if r.Some? then File(limits.maxLedger, old(Contents()), v) else old(Contents())
      ensures forall e :: e in ledger.Values ==> e in old(ledger.Values) || fresh(e)
    {
      hide Valid, Contents, File;
      if !script.readable {
        return None;
      }
      RecordView(v);
      r := Some(v);
    }

    /** Submits up to twice, the second time only when polling proved the first never arrived. */
    method SubmitWithReconciliation(script: Script, intentId: string, clientOrderId: string)
      returns (r: Option<ExecutionView>)
      requires Valid()
      modifies this`ledger, this`ledgerOrder, this`byClientOrderId
      ensures Valid() && r == Submitted(limits, script, intentId, clientOrderId, 0)
      ensures Contents() == AfterPlacement(limits, script, old(Contents()), intentId, clientOrderId)
      ensures forall e :: e in ledger.Values ==> e in old(ledger.Values) || fresh(e)
    {
      hide Valid, Contents, File, ViewOf, UnknownView, RejectedView, Readable, RecoveryFrom;
      var submissionIndex := 0;
      while true
        invariant 0 <= submissionIndex <= 1
        invariant Submitted(limits, script, intentId, clientOrderId, submissionIndex)
                  == Submitted(limits, script, intentId, clientOrderId, 0)
        invariant Valid() && Contents() == old(Contents())
        invariant forall e :: e in ledger.Values ==> e in old(ledger.Values) || fresh(e)
        decreases 1 - submissionIndex
      {
        var reply := script.creates(submissionIndex);
        if reply.OrderReply? {
          if !Readable(reply.shape) {
            return None;
          }
          r := BuildAndRecord(script, ViewOf(reply.shape, intentId, EchoedId(reply.shape, clientOrderId), ACKED));
          return;
        }
        if reply.ApiFailure? {
          r := BuildAndRecord(script, RejectedView(intentId, clientOrderId));
          return;
        }
        if reply.OtherFailure? {
          return None;
        }
        var recovery := RecoverByClientOrderId(script, intentId, clientOrderId, submissionIndex);
        if recovery.Unfiled? {
          return None;
        }
        if !recovery.Absent? {
          return Some(recovery.v);
        }
        if submissionIndex == 0 {
          submissionIndex := 1;
          continue;
        }
        r := BuildAndRecord(script, UnknownView(intentId, clientOrderId));
        return;
      }
    }

    /** A placement of its own, in flight while it lasts. */
    method PlaceNew(script: Script, intentId: string, clientOrderId: string) returns (execution: Option<ExecutionView>)
      requires Valid() && clientOrderId !in inFlight
      modifies this
      ensures Valid() && inFlight == old(inFlight)
      ensures execution == Submitted(limits, script, intentId, clientOrderId, 0)
      ensures Contents() == AfterPlacement(limits, script, old(Contents()), intentId, clientOrderId)
      ensures forall e :: e in ledger.Values ==> e in old(ledger.Values) || fresh(e)
    {
      hide *;
      inFlight := inFlight[clientOrderId := Task(intentId, script.readable, Sending(0), 0)];
      execution := SubmitWithReconciliation(script, intentId, clientOrderId);
      inFlight := inFlight - {clientOrderId};
    }

    /** Places an intent, here without interruption. */
    method PlaceOrder(script: Script, intentId: string, newClientOrderId: Option<string>) returns (r: Placed)
      requires Valid()
      modifies this
      ensures Valid() && inFlight == old(inFlight)
      ensures var cid :=
                if newClientOrderId.Some? then newClientOrderId.value else DerivedId(clientOrderIdPrefix, intentId);
              (Contents(), r) == Placing(limits, script, old(Contents()), old(inFlight), intentId, cid)
      ensures forall e :: e in ledger.Values ==> e in old(ledger.Values) || fresh(e)
    {
      var clientOrderId;
      if newClientOrderId.Some? {
        clientOrderId := newClientOrderId.value;
      } else {
        clientOrderId := DeriveClientOrderId(intentId);
      }
      var existing := GetExecution(intentId);
      assert if existing.Some? then intentId in Contents().views && Contents().views[intentId] == existing.value
             else intentId !in Contents().views;
      hide Valid, Contents, AfterPlacement, Submitted, DerivedId, ResultOf;
      if existing.Some? {
        return Existing(existing.value);
      }
      if clientOrderId in inFlight {
        return Joined(inFlight[clientOrderId]);
      }
      var execution := PlaceNew(script, intentId, clientOrderId);
      r := ResultOf(execution);
    }

    /**
     Cancels an order: an intent on record is answered from there; an order already gone, or found
     cancelled after a lost reply, counts as cancelled.
     */
    method CancelOrder(intentId: string, origClientOrderId: Option<string>, answer: Reply, lookup: Reply)
      returns (r: Result<ExecutionView, CancelError>)
      requires Valid()
      modifies this`ledger, this`ledgerOrder, this`byClientOrderId
      ensures Valid()
      ensures var cid := if origClientOrderId.Some? then origClientOrderId.value else "";
              (Contents(), r) == CancellingOrder(limits, old(Contents()), intentId, cid, answer, lookup)
    {
      assert intentId in ledger <==> intentId in Contents().views;
      assert intentId in ledger ==> ledger[intentId].View() == Contents().views[intentId];
      hide Valid, Contents, File, ViewOf, GoneView, Readable;
      if intentId in ledger {
        return Ok(ledger[intentId].View());
      }
      var v: ExecutionView;
      match answer {
        case OrderReply(shape) =>
          if !Readable(shape) {
            return Err(UnreadableCancel);
          }
          v := ViewOf(shape, intentId, shape.clientOrderId, ACKED);
        case ApiFailure(code) =>
          if code != UNKNOWN_ORDER && code != NO_SUCH_ORDER {
            return Err(CancelFailed(answer));
          }
          v := GoneView(intentId, if origClientOrderId.Some? then origClientOrderId.value else "");
        case OtherFailure(_) =>
          return Err(CancelFailed(answer));
        case NetworkFailure =>
          if !lookup.OrderReply? || !Readable(lookup.shape) {
            return Err(CancelFailed(answer));
          }
          var canceled := TerminalCanceled(lookup.shape.status);
          v := ViewOf(lookup.shape, intentId, lookup.shape.clientOrderId, if canceled then RECONCILED else UNKNOWN);
      }
      RecordView(v);
      r := Ok(v);
    }

    /** Looks an order of record up once more; only an order that can be read changes the books. */
    method Reconcile(intentId: string, answer: Reply) returns (r: Result<ExecutionView, ReconcileError>)
      requires Valid()
      modifies this`ledger, this`ledgerOrder, this`byClientOrderId
      ensures Valid() && (Contents(), r) == Reconciling(limits, old(Contents()), intentId, answer)
    {
      assert intentId in ledger <==> intentId in Contents().views;
      hide Valid, Contents, File, ViewOf, Readable;
      if intentId !in ledger {
        return Err(NoExecution);
      }
      if !answer.OrderReply? {
        return Err(LookupFailed(answer));
      }
      if !Readable(answer.shape) {
        return Err(UnreadableOrder);
      }
      var v := ViewOf(answer.shape, intentId, answer.shape.clientOrderId, RECONCILED);
      RecordView(v);
      r := Ok(v);
    }
  }
}
