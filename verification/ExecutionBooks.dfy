/**
 What the execution manager writes down, as values (src/execution/ExecutionManager.ts): the
 executions it builds from replies, how it files them, and what one uninterrupted placement
 comes to. The class in module ExecutionManagement is proved to compute these functions; the
 lemmas here tie them to the pieces of the placement protocol and to the derived order ids.
 */
module ExecutionBooks {
  import opened DecimalPrint
  import opened FixedPoint
  import opened Placement
  import opened PlacementLimits
  import opened StreamFills
  import opened Wrappers

  /** An order as the adapter shows it; absent numbers stay absent. */
  datatype OrderShape = OrderShape(
    orderId: Option<int>,
    clientOrderId: string,
    status: string,
    executedQty: Option<string>,
    cumQuote: Option<string>,
    avgPrice: Option<string>,
    fills: seq<Fill>)

  /** How an awaited adapter call ends; another failure is raised before or after the request went out. */
  datatype Reply = OrderReply(shape: OrderShape) | ApiFailure(code: int) | NetworkFailure | OtherFailure(sent: bool)

  /** "Order does not exist." */
  const NO_SUCH_ORDER := -2013

  /** A cancellation of an order that is not on the book. */
  const UNKNOWN_ORDER := -2011

  /** The numbers of an order can be read; otherwise building an execution from it throws. */
  predicate Readable(shape: OrderShape) {
    AverageReadable(shape.executedQty, shape.cumQuote, shape.avgPrice)
  }

  /** A submission: an acknowledgement that cannot be read ends like an error raised after sending. */
  function CreateOutcome(reply: Reply): CreateReply {
    match reply
    case OrderReply(shape) => if Readable(shape) then Created else Unreadable
    case ApiFailure(_) => ApiError
    case NetworkFailure => NoReply
    case OtherFailure(sent) => if sent then Unreadable else NotSent
  }

  /** A lookup: every failure but -2013 only means to ask again. */
  function FetchOutcome(reply: Reply): FetchReply {
    match reply
    case OrderReply(shape) => if Readable(shape) then Found else Unanswered
    case ApiFailure(code) => if code == NO_SUCH_ORDER then NotFound else Unanswered
    case _ => Unanswered
  }

  // ---------------------------------------------------------------------------
  // Executions
  // ---------------------------------------------------------------------------

  function Printed(text: Option<string>): Option<string> {
    if text.Some? then Some(Normal(text.value)) else None
  }

  function ViewOf(shape: OrderShape, intent: string, cid: string, verdict: Verdict): ExecutionView {
    ExecutionView(
      intent, cid, shape.orderId, shape.status,
      Printed(shape.executedQty), Printed(shape.cumQuote),
      AveragePrice(NumIfAny(shape.executedQty), NumIfAny(shape.cumQuote), shape.avgPrice),
      shape.fills, verdict)
  }

  function RejectedView(intent: string, cid: string): ExecutionView {
    ExecutionView(intent, cid, None, "REJECTED", Some("0"), Some("0"), None, [], REJECTED)
  }

  /** An unknown outcome has unknown quantities, not zero ones. */
  function UnknownView(intent: string, cid: string): ExecutionView {
    ExecutionView(intent, cid, None, "UNKNOWN", None, None, None, [], UNKNOWN)
  }

  /** An acknowledgement may leave the client order id out. */
  function EchoedId(shape: OrderShape, cid: string): string {
    if shape.clientOrderId != "" then shape.clientOrderId else cid
  }

  lemma PrintedIsNumeric(text: Option<string>)
    ensures NumeralIfAny(Printed(text))
  {
    if text.Some? {
      TextIsNumeral(Num(text.value));
    }
    hide Numeral, Text, Num;
  }

  /** An execution built from an order has numeric totals, and numeric fills if the order has. */
  lemma ViewOfIsNumeric(shape: OrderShape, intent: string, cid: string, verdict: Verdict)
    requires forall f :: f in shape.fills ==> NumericFill(f)
    ensures NumericView(ViewOf(shape, intent, cid, verdict))
  {
    PrintedIsNumeric(shape.executedQty);
    PrintedIsNumeric(shape.cumQuote);
    AveragePriceIsNumeric(NumIfAny(shape.executedQty), NumIfAny(shape.cumQuote), shape.avgPrice);
    hide NumeralIfAny, Printed, NumIfAny, AveragePrice, NumericFill;
  }

  lemma RejectedParts(intent: string, cid: string, zero: string)
    requires zero == "0"
    ensures var v := RejectedView(intent, cid);
            v.executedQuantity == Some(zero) && v.cumulativeQuoteQuantity == Some(zero) && v.averagePrice.None?
              && v.fills == []
  {
  }

  lemma RejectedViewIsNumeric(intent: string, cid: string, zero: string)
    requires zero == "0"
    ensures NumericView(RejectedView(intent, cid))
  {
    RejectedParts(intent, cid, zero);
    ZeroIsNumeral(zero);
    hide Numeral, RejectedView, NumericFill;
  }

  // ---------------------------------------------------------------------------
  // Filing
  // ---------------------------------------------------------------------------

  datatype Books = Books(views: map<string, ExecutionView>, order: seq<string>, byClientOrderId: map<string, string>)

  function File(maxLedger: nat, b: Books, v: ExecutionView): Books {
    var views := b.views[v.intentId := v];
    var order := if v.intentId in b.views then b.order else b.order + [v.intentId];
    var byCid := b.byClientOrderId[v.clientOrderId := v.intentId];
    if |views| > maxLedger && order != [] then Books(views - {order[0]}, order[1..], byCid)
    else Books(views, order, byCid)
  }

  function EntryOf(v: ExecutionView): Entry {
    Entry(v.clientOrderId, v.reconciliationState)
  }

  function Entries(views: map<string, ExecutionView>): map<string, Entry> {
    map i | i in views :: EntryOf(views[i])
  }

  /** The books as the protocol sees them. */
  function Outline(b: Books, inFlight: map<string, Task>): Manager {
    Manager(Entries(b.views), b.order, b.byClientOrderId, inFlight)
  }

  lemma EntriesOfUpdate(views: map<string, ExecutionView>, i: string, v: ExecutionView)
    ensures Entries(views[i := v]) == Entries(views)[i := EntryOf(v)]
    ensures |Entries(views)| == |views|
  {
    hide EntryOf;
    assert Entries(views).Keys == views.Keys;
    assert |Entries(views)| == |Entries(views).Keys| && |views| == |views.Keys|;
  }

  lemma EntriesOfRemoval(views: map<string, ExecutionView>, i: string)
    ensures Entries(views - {i}) == Entries(views) - {i}
  {
    hide EntryOf;
  }

  /** Filing an execution is the protocol's `Record`. */
  lemma FileIsRecord(limits: Limits, b: Books, v: ExecutionView, inFlight: map<string, Task>)
    ensures Outline(File(limits.maxLedger, b, v), inFlight) ==
            Record(limits, Outline(b, inFlight), v.intentId, EntryOf(v))
  {
    var views := b.views[v.intentId := v];
    var order := if v.intentId in b.views then b.order else b.order + [v.intentId];
    EntriesOfUpdate(b.views, v.intentId, v);
    EntriesOfUpdate(views, v.intentId, v);
    if order != [] {
      EntriesOfRemoval(views, order[0]);
    }
    assert EntryOf(v).cid == v.clientOrderId;
    assert v.intentId in Entries(b.views) <==> v.intentId in b.views;
    hide Entries, EntryOf;
  }

  /** The execution a report on the stream belongs to, if the ledger has it. */
  function Addressee(b: Books, r: Report): (i: Option<string>)
    ensures i.Some? ==> i.value in b.views
  {
    var cid := r.clientOrderId;
    if cid == "" || cid !in b.byClientOrderId then None
    else if b.byClientOrderId[cid] == "" || b.byClientOrderId[cid] !in b.views then None
    else Some(b.byClientOrderId[cid])
  }

  /** What a report on the stream does to the books, and whether its handler threw. */
  function Hear(b: Books, r: Report): (Books, bool) {
    match Addressee(b, r)
    case None => (b, false)
    case Some(i) =>
      var applied := Apply(b.views[i], r);
      (b.(views := b.views[i := applied.view]), applied.threw)
  }

  /** A report changes nothing the placement protocol looks at, whether its handler throws or not. */
  lemma ReportsKeepOutline(b: Books, r: Report, inFlight: map<string, Task>)
    ensures Outline(Hear(b, r).0, inFlight) == Outline(b, inFlight)
  {
    if Addressee(b, r).Some? {
      AppliedOrReported(b.views[Addressee(b, r).value], r);
    }
    hide Apply, Reported, FillsAfter;
    assert Entries(Hear(b, r).0.views) == Entries(b.views);
  }

  // ---------------------------------------------------------------------------
  // One uninterrupted placement
  // ---------------------------------------------------------------------------

  /**
   What a placement meets: whether the quantity and price it asks for can be read as decimals where
   they are given, and the replies it would get to each of its submissions and polls.
   */
  datatype Script = Script(readable: bool, creates: nat -> Reply, fetches: (nat, nat) -> Reply)

  /**
   How polling ends: with the order, with -2013, or with neither when the attempts are used up; then
   the outcome is filed as unknown, unless the request cannot be read and building the record throws.
   */
  datatype Recovery = Recovered(v: ExecutionView) | Absent | GaveUp(v: ExecutionView) | Unfiled

  /** What a poll tells the placement. */
  function PollOutcome(script: Script, k: nat, attempt: nat): (reply: FetchReply)
    ensures reply == Found ==> script.readable && script.fetches(k, attempt).OrderReply?
  {
    Heeded(script.readable, FetchOutcome(script.fetches(k, attempt)))
  }

  /** A record that is to be filed; building it reads the request. */
  function Built(script: Script, v: ExecutionView): Option<ExecutionView> {
    if script.readable then Some(v) else None
  }

  /** What polling from the given attempt leads to. */
  function RecoveryFrom(limits: Limits, script: Script, intent: string, cid: string, k: nat, attempt: nat): Recovery
    requires 1 <= attempt
    decreases if attempt <= limits.maxAttempts then limits.maxAttempts + 1 - attempt else 0
  {
    if attempt > limits.maxAttempts then
      if script.readable then GaveUp(UnknownView(intent, cid)) else Unfiled
    else
      var reply := script.fetches(k, attempt);
      match PollOutcome(script, k, attempt)
      case Found => Recovered(ViewOf(reply.shape, intent, reply.shape.clientOrderId, RECONCILED))
      case NotFound => Absent
      case Unanswered => RecoveryFrom(limits, script, intent, cid, k, attempt + 1)
  }

  /** The execution that submission number k leads to; none when an error escapes unrecorded. */
  function Submitted(limits: Limits, script: Script, intent: string, cid: string, k: nat): Option<ExecutionView>
    requires k <= 1
    decreases 1 - k, 1
  {
    var reply := script.creates(k);
    match CreateOutcome(reply)
    case Created => Built(script, ViewOf(reply.shape, intent, EchoedId(reply.shape, cid), ACKED))
    case ApiError => Built(script, RejectedView(intent, cid))
    case NotSent => None
    case Unreadable => None
    case NoReply => Polled(limits, script, intent, cid, k, 1)
  }

  /** The execution that polling leads to; only -2013, and only the first, has the order sent again. */
  function Polled(
    limits: Limits, script: Script, intent: string, cid: string, k: nat, attempt: nat): Option<ExecutionView>
    requires k <= 1 && 1 <= attempt
    decreases 1 - k, 0
  {
    match RecoveryFrom(limits, script, intent, cid, k, attempt)
    case Recovered(v) => Some(v)
    case GaveUp(v) => Some(v)
    case Unfiled => None
    case Absent => if k == 0 then Submitted(limits, script, intent, cid, 1) else Built(script, UnknownView(intent, cid))
  }

  /** The adapter answers about the order it was asked about. */
  ghost predicate Echoes(script: Script, cid: string) {
    && (forall k: nat :: script.creates(k).OrderReply? ==> EchoedId(script.creates(k).shape, cid) == cid)
    && (forall k: nat, a: nat :: script.fetches(k, a).OrderReply? ==> script.fetches(k, a).shape.clientOrderId == cid)
  }

  predicate Proper(limits: Limits, phase: Phase) {
    match phase
    case Sending(k) => k <= 1
    case Polling(k, a) => k <= 1 && 1 <= a <= limits.maxAttempts
    case Settled(_) => true
  }

  /** The submissions a placement may still make, and the polls of its current one. */
  function SubmissionsLeft(phase: Phase): int {
    if phase.Settled? then 0 else 2 - phase.submission
  }

  function PollsLeft(limits: Limits, phase: Phase): int {
    match phase
    case Sending(_) => limits.maxAttempts + 1
    case Polling(_, a) => limits.maxAttempts - a
    case Settled(_) => 0
  }

  /** The phase behind the next reply. */
  function NextPhase(limits: Limits, script: Script, phase: Phase): (next: Phase)
    requires Proper(limits, phase) && !phase.Settled?
    ensures Proper(limits, next)
    ensures 0 <= SubmissionsLeft(next) <= SubmissionsLeft(phase)
    ensures SubmissionsLeft(next) == SubmissionsLeft(phase) ==> 0 <= PollsLeft(limits, next) < PollsLeft(limits, phase)
  {
    match phase
    case Sending(k) => AfterCreate(limits, script.readable, k, CreateOutcome(script.creates(k)))
    case Polling(k, a) => AfterFetch(limits, script.readable, k, a, FetchOutcome(script.fetches(k, a)))
  }

  /** The pieces of one placement of the protocol, run one after the other until it is released. */
  function PlayOut(limits: Limits, script: Script, m: Manager, cid: string): Manager
    requires cid in m.inFlight && Proper(limits, m.inFlight[cid].phase) && m.inFlight[cid].readable == script.readable
    decreases SubmissionsLeft(m.inFlight[cid].phase), PollsLeft(limits, m.inFlight[cid].phase)
  {
    var t := m.inFlight[cid];
    if t.phase.Settled? then Release(m, cid)
    else
      var moved := MoveTo(limits, m, cid, NextPhase(limits, script, t.phase), t.message);
      assert moved.inFlight[cid] == t.(phase := NextPhase(limits, script, t.phase));
      PlayOut(limits, script, moved, cid)
  }

  /** What is left of a placement that leads to the given execution. */
  function Concluded(limits: Limits, m: Manager, cid: string, intent: string, end: Option<ExecutionView>): Manager {
    var released := Release(m, cid);
    if end.None? then released else Record(limits, released, intent, Entry(cid, end.value.reconciliationState))
  }

  function EndOf(limits: Limits, script: Script, intent: string, cid: string, phase: Phase): Option<ExecutionView>
    requires Proper(limits, phase) && !phase.Settled?
  {
    match phase
    case Sending(k) => Submitted(limits, script, intent, cid, k)
    case Polling(k, a) => Polled(limits, script, intent, cid, k, a)
  }

  /**
   The nested loops of `submitWithReconciliation` and the protocol's pieces agree: run without
   interruption, the pieces leave the manager as filing the loops' execution does.
   */
  lemma {:induction false} LoopsAreThePieces(limits: Limits, script: Script, m: Manager, cid: string)
    requires cid in m.inFlight && Proper(limits, m.inFlight[cid].phase) && !m.inFlight[cid].phase.Settled?
    requires m.inFlight[cid].readable == script.readable
    ensures var t := m.inFlight[cid];
            PlayOut(limits, script, m, cid) ==
            Concluded(limits, m, cid, t.intent, EndOf(limits, script, t.intent, cid, t.phase))
    decreases SubmissionsLeft(m.inFlight[cid].phase), PollsLeft(limits, m.inFlight[cid].phase)
  {
    var t := m.inFlight[cid];
    var next := NextPhase(limits, script, t.phase);
    var moved := MoveTo(limits, m, cid, next, t.message);
    assert moved.inFlight[cid] == t.(phase := next);
    assert PlayOut(limits, script, m, cid) == PlayOut(limits, script, moved, cid);
    OneLoopStep(limits, script, t.intent, cid, t.phase);
    if next.Settled? {
      assert PlayOut(limits, script, moved, cid) == Release(moved, cid);
      hide PlayOut, NextPhase, MoveTo, Submitted, Polled, Record, Release, EndOf;
      SettledIsConcluded(limits, m, cid, next.verdict);
    } else {
      MovedReleases(limits, m, cid, next, t.message);
      hide NextPhase, MoveTo, Submitted, Polled, Record, Release, EndOf;
      LoopsAreThePieces(limits, script, moved, cid);
    }
  }

  lemma MovedReleases(limits: Limits, m: Manager, cid: string, phase: Phase, message: nat)
    requires cid in m.inFlight && !phase.Settled?
    ensures Release(MoveTo(limits, m, cid, phase, message), cid) == Release(m, cid)
  {
    var t := m.inFlight[cid];
    assert m.inFlight[cid := t.(phase := phase, message := message)] - {cid} == m.inFlight - {cid};
  }

  /** One reply takes the loops where it takes the phase. */
  lemma OneLoopStep(limits: Limits, script: Script, intent: string, cid: string, phase: Phase)
    requires Proper(limits, phase) && !phase.Settled?
    ensures var next := NextPhase(limits, script, phase);
            var end := EndOf(limits, script, intent, cid, phase);
            if next.Settled? then
              if next.verdict == FAILED then end.None? else end.Some? && end.value.reconciliationState == next.verdict
            else end == EndOf(limits, script, intent, cid, next)
  {
    hide AveragePrice, Printed, NumIfAny, Readable;
    var last := limits.maxAttempts + 1;
    assert RecoveryFrom(limits, script, intent, cid, phase.submission, last) ==
           if script.readable then GaveUp(UnknownView(intent, cid)) else Unfiled;
  }

  /** Recording and then releasing is releasing and then recording. */
  lemma SettledIsConcluded(limits: Limits, m: Manager, cid: string, verdict: Verdict)
    requires cid in m.inFlight
    ensures var t := m.inFlight[cid];
            var released := Release(m, cid);
            Release(MoveTo(limits, m, cid, Settled(verdict), t.message), cid) ==
            if verdict == FAILED then released else Record(limits, released, t.intent, Entry(cid, verdict))
  {
    var t := m.inFlight[cid];
    var moved := m.(inFlight := m.inFlight[cid := t.(phase := Settled(verdict))]);
    assert moved.inFlight - {cid} == m.inFlight - {cid};
    assert Release(moved, cid) == Release(m, cid);
    if verdict != FAILED {
      RecordThenRelease(limits, moved, cid, t.intent, Entry(cid, verdict));
    }
    hide Record;
  }

  lemma RecordThenRelease(limits: Limits, m: Manager, cid: string, intent: string, entry: Entry)
    ensures Release(Record(limits, m, intent, entry), cid) == Record(limits, Release(m, cid), intent, entry)
  {
  }

  lemma ViewOfIds(shape: OrderShape, intent: string, cid: string, verdict: Verdict)
    ensures ViewOf(shape, intent, cid, verdict).intentId == intent
    ensures ViewOf(shape, intent, cid, verdict).clientOrderId == cid
  {
  }

  lemma {:induction false} RecoveryIds(
    limits: Limits, script: Script, intent: string, cid: string, k: nat, attempt: nat)
    requires 1 <= attempt
    ensures var end := RecoveryFrom(limits, script, intent, cid, k, attempt);
            end.Recovered? || end.GaveUp? ==>
              end.v.intentId == intent && (Echoes(script, cid) ==> end.v.clientOrderId == cid)
    decreases if attempt <= limits.maxAttempts then limits.maxAttempts + 1 - attempt else 0
  {
    if attempt <= limits.maxAttempts && PollOutcome(script, k, attempt) == Unanswered {
      RecoveryIds(limits, script, intent, cid, k, attempt + 1);
    }
    if script.fetches(k, attempt).OrderReply? {
      var shape := script.fetches(k, attempt).shape;
      ViewOfIds(shape, intent, shape.clientOrderId, RECONCILED);
    }
    hide ViewOf, PollOutcome;
  }

  /** The execution carries the intent, and the client order id when the adapter echoes it. */
  lemma {:induction false} SubmittedIds(limits: Limits, script: Script, intent: string, cid: string, k: nat)
    requires k <= 1
    ensures var end := Submitted(limits, script, intent, cid, k);
            end.Some? ==> end.value.intentId == intent && (Echoes(script, cid) ==> end.value.clientOrderId == cid)
    decreases 1 - k
  {
    RecoveryIds(limits, script, intent, cid, k, 1);
    if k == 0 {
      SubmittedIds(limits, script, intent, cid, 1);
    }
    hide AveragePrice, Printed, Readable, RecoveryFrom;
  }

  /** Why a reconciliation throws. */
  datatype ReconcileError = NoExecution | LookupFailed(answer: Reply) | UnreadableOrder

  function Reconciling(
    limits: Limits, b: Books, intent: string, answer: Reply): (Books, Result<ExecutionView, ReconcileError>) {
    if intent !in b.views then (b, Err(NoExecution))
    else if !answer.OrderReply? then (b, Err(LookupFailed(answer)))
    else if !Readable(answer.shape) then (b, Err(UnreadableOrder))
    else
      var v := ViewOf(answer.shape, intent, answer.shape.clientOrderId, RECONCILED);
      (File(limits.maxLedger, b, v), Ok(v))
  }

  /** A reconciliation is the protocol's event, when the adapter answers about the order it was asked about. */
  lemma ReconcilingIsTheEvent(
    limits: Limits, b: Books, intent: string, answer: Reply, inFlight: map<string, Task>, s: System)
    requires intent in b.views && s.manager == Outline(b, inFlight)
    requires answer.OrderReply? ==> answer.shape.clientOrderId == b.views[intent].clientOrderId
    ensures Next(limits, s, Event.Reconcile(intent, FetchOutcome(answer))).manager ==
            Outline(Reconciling(limits, b, intent, answer).0, inFlight)
  {
    if FetchOutcome(answer) == Found {
      FileIsRecord(limits, b, ViewOf(answer.shape, intent, answer.shape.clientOrderId, RECONCILED), inFlight);
    }
    hide Record, File, AveragePrice, Printed, Readable;
  }

  /** Why a cancellation throws: the error of the cancel request, or an order shown that cannot be read. */
  datatype CancelError = CancelFailed(answer: Reply) | UnreadableCancel

  /** Error codes that say that there is nothing left to cancel. */
  predicate AlreadyGone(reply: Reply) {
    reply.ApiFailure? && (reply.code == UNKNOWN_ORDER || reply.code == NO_SUCH_ORDER)
  }

  predicate TerminalCanceled(status: string) {
    status == "CANCELED" || status == "EXPIRED" || status == "CANCELED_EXPIRED"
  }

  /** The record of a cancellation that found nothing to cancel. */
  function GoneView(intent: string, cid: string): ExecutionView {
    ExecutionView(intent, cid, None, "CANCELED", Some("0"), Some("0"), None, [], RECONCILED)
  }

  /** The record a cancellation files, if it does not throw; a lost reply has the order looked up. */
  function CancelView(intent: string, cid: string, answer: Reply, lookup: Reply): Result<ExecutionView, CancelError> {
    match answer
    case OrderReply(shape) =>
      if Readable(shape) then Ok(ViewOf(shape, intent, shape.clientOrderId, ACKED)) else Err(UnreadableCancel)
    case ApiFailure(_) => if AlreadyGone(answer) then Ok(GoneView(intent, cid)) else Err(CancelFailed(answer))
    case NetworkFailure =>
      if lookup.OrderReply? && Readable(lookup.shape) then
        var verdict := if TerminalCanceled(lookup.shape.status) then RECONCILED else UNKNOWN;
        Ok(ViewOf(lookup.shape, intent, lookup.shape.clientOrderId, verdict))
      else Err(CancelFailed(answer))
    case OtherFailure(_) => Err(CancelFailed(answer))
  }

  /** `cancelOrder`: an intent on record is answered from there, any other files a record of its own. */
  function CancellingOrder(limits: Limits, b: Books, intent: string, cid: string, answer: Reply, lookup: Reply)
    : (Books, Result<ExecutionView, CancelError>)
  {
    if intent in b.views then (b, Ok(b.views[intent]))
    else
      var r := CancelView(intent, cid, answer, lookup);
      (if r.Ok? then File(limits.maxLedger, b, r.value) else b, r)
  }

  lemma CancelViewIs(intent: string, cid: string, answer: Reply, lookup: Reply)
    ensures var r := CancelView(intent, cid, answer, lookup);
            r.Ok? ==> && r.value.intentId == intent && r.value.reconciliationState != REJECTED
                      && r.value.reconciliationState != FAILED
  {
    hide AveragePrice, Printed, NumIfAny, Readable;
  }

  lemma FilingIsTheEvent(limits: Limits, b: Books, v: ExecutionView, inFlight: map<string, Task>, s: System)
    requires s.manager == Outline(b, inFlight) && v.reconciliationState != REJECTED && v.reconciliationState != FAILED
    ensures var e := Cancelled(v.intentId, EntryOf(v));
            Enabled(s, e) && Next(limits, s, e).manager == Outline(File(limits.maxLedger, b, v), inFlight)
  {
    FileIsRecord(limits, b, v, inFlight);
    hide Record, File, Outline;
  }

  /** A cancellation of an unknown intent that does not throw is the protocol's event. */
  lemma CancellingIsTheEvent(
    limits: Limits, b: Books, intent: string, cid: string, answer: Reply, lookup: Reply,
    inFlight: map<string, Task>, s: System)
    requires intent !in b.views && s.manager == Outline(b, inFlight)
    ensures var (after, r) := CancellingOrder(limits, b, intent, cid, answer, lookup);
            if r.Err? then after == b
            else
              var e := Cancelled(intent, EntryOf(r.value));
              Enabled(s, e) && Next(limits, s, e).manager == Outline(after, inFlight)
  {
    var r := CancelView(intent, cid, answer, lookup);
    CancelViewIs(intent, cid, answer, lookup);
    hide CancelView, Outline, File, Next, Enabled, EntryOf;
    if r.Ok? {
      FilingIsTheEvent(limits, b, r.value, inFlight, s);
    }
  }

  // ---------------------------------------------------------------------------
  // What an outcome rests on
  // ---------------------------------------------------------------------------

  /** From the given attempt on, this is the first poll that is answered, and within the limit. */
  ghost predicate AnsweredFirst(limits: Limits, script: Script, k: nat, from: nat, a: nat) {
    && from <= a <= limits.maxAttempts
    && PollOutcome(script, k, a) != Unanswered
    && forall b: nat :: from <= b < a ==> PollOutcome(script, k, b) == Unanswered
  }

  ghost predicate AnsweredWith(limits: Limits, script: Script, k: nat, from: nat, answer: FetchReply) {
    exists a: nat :: AnsweredFirst(limits, script, k, from, a) && PollOutcome(script, k, a) == answer
  }

  ghost predicate NeverAnswered(limits: Limits, script: Script, k: nat, from: nat) {
    forall a: nat :: from <= a <= limits.maxAttempts ==> PollOutcome(script, k, a) == Unanswered
  }

  /** The first answered poll decides: found is recovered, -2013 is absent; only unanswered polls give up. */
  lemma {:induction false} FirstAnswerDecides(
    limits: Limits, script: Script, intent: string, cid: string, k: nat, attempt: nat)
    requires 1 <= attempt
    ensures var end := RecoveryFrom(limits, script, intent, cid, k, attempt);
            && (end.Recovered? <==> AnsweredWith(limits, script, k, attempt, Found))
            && (end.Absent? <==> AnsweredWith(limits, script, k, attempt, NotFound))
            && (end.GaveUp? || end.Unfiled? <==> NeverAnswered(limits, script, k, attempt))
            && (end.Unfiled? ==> !script.readable) && (end.Recovered? || end.GaveUp? ==> script.readable)
    decreases if attempt <= limits.maxAttempts then limits.maxAttempts + 1 - attempt else 0
  {
    hide ViewOf, UnknownView, PollOutcome;
    if attempt <= limits.maxAttempts {
      if PollOutcome(script, k, attempt) == Unanswered {
        FirstAnswerDecides(limits, script, intent, cid, k, attempt + 1);
        LaterAnswer(limits, script, k, attempt, Found);
        LaterAnswer(limits, script, k, attempt, NotFound);
        assert NeverAnswered(limits, script, k, attempt) <==> NeverAnswered(limits, script, k, attempt + 1);
      } else {
        assert AnsweredFirst(limits, script, k, attempt, attempt);
        OnlyFirst(limits, script, k, attempt, Found);
        OnlyFirst(limits, script, k, attempt, NotFound);
      }
    }
  }

  lemma LaterAnswer(limits: Limits, script: Script, k: nat, attempt: nat, answer: FetchReply)
    requires PollOutcome(script, k, attempt) == Unanswered && answer != Unanswered
    ensures AnsweredWith(limits, script, k, attempt, answer) <==> AnsweredWith(limits, script, k, attempt + 1, answer)
  {
    hide PollOutcome;
    if a: nat :| AnsweredFirst(limits, script, k, attempt, a) && PollOutcome(script, k, a) == answer {
      assert AnsweredFirst(limits, script, k, attempt + 1, a);
    }
    if a: nat :| AnsweredFirst(limits, script, k, attempt + 1, a) && PollOutcome(script, k, a) == answer {
      assert AnsweredFirst(limits, script, k, attempt, a);
    }
  }

  lemma OnlyFirst(limits: Limits, script: Script, k: nat, attempt: nat, answer: FetchReply)
    requires PollOutcome(script, k, attempt) != Unanswered && attempt <= limits.maxAttempts
    ensures AnsweredWith(limits, script, k, attempt, answer) <==> PollOutcome(script, k, attempt) == answer
  {
    hide PollOutcome;
    assert AnsweredFirst(limits, script, k, attempt, attempt);
  }

  /** The order is sent a second time: the first reply was lost, and the first answered poll said -2013. */
  ghost predicate SendsTwice(limits: Limits, script: Script) {
    CreateOutcome(script.creates(0)) == NoReply && AnsweredWith(limits, script, 0, 1, NotFound)
  }

  /** Unless that happens, what a second submission would have met makes no difference. */
  lemma SecondSubmissionOnlyIfAbsent(limits: Limits, script: Script, other: Script, intent: string, cid: string)
    requires !SendsTwice(limits, script)
    requires script.readable == other.readable && script.creates(0) == other.creates(0)
    requires forall a: nat :: script.fetches(0, a) == other.fetches(0, a)
    ensures Submitted(limits, script, intent, cid, 0) == Submitted(limits, other, intent, cid, 0)
  {
    FirstAnswerDecides(limits, script, intent, cid, 0, 1);
    SamePolls(limits, script, other, intent, cid, 0, 1);
    hide ViewOf, RejectedView, RecoveryFrom, CreateOutcome, AnsweredWith, NeverAnswered;
  }

  lemma {:induction false} SamePolls(
    limits: Limits, script: Script, other: Script, intent: string, cid: string, k: nat, attempt: nat)
    requires 1 <= attempt && script.readable == other.readable
    requires forall a: nat :: script.fetches(k, a) == other.fetches(k, a)
    ensures RecoveryFrom(limits, script, intent, cid, k, attempt) ==
            RecoveryFrom(limits, other, intent, cid, k, attempt)
    decreases if attempt <= limits.maxAttempts then limits.maxAttempts + 1 - attempt else 0
  {
    if attempt <= limits.maxAttempts {
      SamePolls(limits, script, other, intent, cid, k, attempt + 1);
    }
    hide ViewOf, UnknownView, FetchOutcome;
  }

  /** The reply, to one of the first submissions or to one of its polls, that an execution was built from. */
  ghost predicate Evidence(limits: Limits, script: Script, intent: string, cid: string, k: nat, v: ExecutionView) {
    var reply := script.creates(k);
    var created := CreateOutcome(reply);
    match v.reconciliationState
    case ACKED => created == Created && v == ViewOf(reply.shape, intent, EchoedId(reply.shape, cid), ACKED)
    case REJECTED => created == ApiError && v == RejectedView(intent, cid)
    case RECONCILED =>
      created == NoReply && exists a: nat :: AnsweredFirst(limits, script, k, 1, a) && FoundAt(script, intent, k, a, v)
    case UNKNOWN => created == NoReply && v == UnknownView(intent, cid)
                    && (NeverAnswered(limits, script, k, 1) || (k == 1 && AnsweredWith(limits, script, k, 1, NotFound)))
    case FAILED => false
  }

  ghost predicate FoundAt(script: Script, intent: string, k: nat, a: nat, v: ExecutionView) {
    var reply := script.fetches(k, a);
    FetchOutcome(reply) == Found && v == ViewOf(reply.shape, intent, reply.shape.clientOrderId, RECONCILED)
  }

  lemma {:induction false} RecoveredFromReply(
    limits: Limits, script: Script, intent: string, cid: string, k: nat, attempt: nat) returns (a: nat)
    requires 1 <= attempt && RecoveryFrom(limits, script, intent, cid, k, attempt).Recovered?
    ensures AnsweredFirst(limits, script, k, attempt, a)
    ensures FoundAt(script, intent, k, a, RecoveryFrom(limits, script, intent, cid, k, attempt).v)
    decreases if attempt <= limits.maxAttempts then limits.maxAttempts + 1 - attempt else 0
  {
    hide ViewOf, UnknownView, FetchOutcome;
    if PollOutcome(script, k, attempt) == Unanswered {
      a := RecoveredFromReply(limits, script, intent, cid, k, attempt + 1);
      hide FoundAt, RecoveryFrom;
    } else {
      a := attempt;
    }
  }

  lemma ViewOfVerdict(shape: OrderShape, intent: string, cid: string, verdict: Verdict)
    ensures ViewOf(shape, intent, cid, verdict).reconciliationState == verdict
  {
  }

  lemma {:induction false} GivenUpIsUnknown(
    limits: Limits, script: Script, intent: string, cid: string, k: nat, attempt: nat)
    requires 1 <= attempt
    ensures var end := RecoveryFrom(limits, script, intent, cid, k, attempt);
            && (end.GaveUp? ==> end.v == UnknownView(intent, cid))
            && (end.Recovered? ==> end.v.reconciliationState == RECONCILED)
    decreases if attempt <= limits.maxAttempts then limits.maxAttempts + 1 - attempt else 0
  {
    if attempt <= limits.maxAttempts {
      GivenUpIsUnknown(limits, script, intent, cid, k, attempt + 1);
    }
    if script.fetches(k, attempt).OrderReply? {
      var shape := script.fetches(k, attempt).shape;
      ViewOfVerdict(shape, intent, shape.clientOrderId, RECONCILED);
    }
    hide ViewOf, UnknownView, PollOutcome;
  }

  /** Submission number k, once it has been made, ends without a record. */
  predicate LeavesNone(script: Script, k: nat) {
    var created := CreateOutcome(script.creates(k));
    !script.readable || created == NotSent || created == Unreadable
  }

  /**
   Every recorded outcome rests on a reply: an acknowledgement to the submission, an API error, an
   order found by the first answered poll, or the lack of any answer. There is no record exactly
   when the request cannot be read, whatever the replies, or another error ended the submission.
   */
  lemma OutcomeHasEvidence(limits: Limits, script: Script, intent: string, cid: string)
    ensures var end := Submitted(limits, script, intent, cid, 0);
            var k := if SendsTwice(limits, script) then 1 else 0;
            && (end.Some? ==> Evidence(limits, script, intent, cid, k, end.value))
            && (end.None? <==> LeavesNone(script, k))
  {
    FirstAnswerDecides(limits, script, intent, cid, 0, 1);
    if SendsTwice(limits, script) {
      LastSubmission(limits, script, intent, cid, 1);
      hide RecoveryFrom, Evidence, AnsweredWith, NeverAnswered, CreateOutcome, ViewOf, RejectedView, UnknownView;
    } else {
      LastSubmission(limits, script, intent, cid, 0);
    }
  }

  lemma LastSubmission(limits: Limits, script: Script, intent: string, cid: string, k: nat)
    requires k <= 1
    requires k == 1
             || !(CreateOutcome(script.creates(k)) == NoReply
                && RecoveryFrom(limits, script, intent, cid, k, 1).Absent?)
    ensures var end := Submitted(limits, script, intent, cid, k);
            && (end.Some? ==> Evidence(limits, script, intent, cid, k, end.value))
            && (end.None? <==> LeavesNone(script, k))
  {
    if CreateOutcome(script.creates(k)) == NoReply {
      PollingHasEvidence(limits, script, intent, cid, k);
      hide RecoveryFrom, Evidence, CreateOutcome, ViewOf, RejectedView, UnknownView;
    } else {
      hide RecoveryFrom, AveragePrice, Printed, Readable;
    }
  }

  lemma PollingHasEvidence(limits: Limits, script: Script, intent: string, cid: string, k: nat)
    requires CreateOutcome(script.creates(k)) == NoReply
    ensures var end := RecoveryFrom(limits, script, intent, cid, k, 1);
            && (end.Recovered? || end.GaveUp? ==> script.readable && Evidence(limits, script, intent, cid, k, end.v))
            && (end.Unfiled? ==> !script.readable)
            && (end.Absent? && k == 1 ==> Evidence(limits, script, intent, cid, k, UnknownView(intent, cid)))
  {
    var end := RecoveryFrom(limits, script, intent, cid, k, 1);
    FirstAnswerDecides(limits, script, intent, cid, k, 1);
    GivenUpIsUnknown(limits, script, intent, cid, k, 1);
    if end.Recovered? {
      var a := RecoveredFromReply(limits, script, intent, cid, k, 1);
    }
    hide RecoveryFrom, AnsweredFirst, AnsweredWith, NeverAnswered, FoundAt, ViewOf, CreateOutcome;
  }

  /** Quantities of a reply keep their value, and absent ones stay absent: a zero is never made up. */
  lemma QuantitiesAreReported(shape: OrderShape, intent: string, cid: string, verdict: Verdict)
    requires Readable(shape)
    ensures var v := ViewOf(shape, intent, cid, verdict);
            && NumIfAny(v.executedQuantity) == NumIfAny(shape.executedQty)
            && NumIfAny(v.cumulativeQuoteQuantity) == NumIfAny(shape.cumQuote)
            && (v.executedQuantity.None? <==> shape.executedQty.None?)
            && v.fills == shape.fills
  {
    PrintedKeepsValue(shape.executedQty);
    PrintedKeepsValue(shape.cumQuote);
    hide Printed, NumIfAny, AveragePrice;
  }

  lemma PrintedKeepsValue(text: Option<string>)
    ensures NumIfAny(Printed(text)) == NumIfAny(text) && (Printed(text).None? <==> text.None?)
  {
    if text.Some? {
      TextIsNumeral(Num(text.value));
    }
    hide Num, Text, Numeral;
  }

  /** The books after a placement that nothing interrupted. */
  function AfterPlacement(limits: Limits, script: Script, b: Books, intent: string, cid: string): Books {
    var end := Submitted(limits, script, intent, cid, 0);
    if end.None? then b else File(limits.maxLedger, b, end.value)
  }

  /** A whole placement is a start, the pieces, and the release, as the protocol has them. */
  lemma PlacementIsPlayedOut(
    limits: Limits, script: Script, b: Books, inFlight: map<string, Task>, intent: string, cid: string, message: nat)
    requires cid !in inFlight && Echoes(script, cid)
    ensures Outline(AfterPlacement(limits, script, b, intent, cid), inFlight) ==
            PlayOut(limits, script, Start(Outline(b, inFlight), intent, script.readable, cid, message), cid)
  {
    var m := Outline(b, inFlight);
    var started := Start(m, intent, script.readable, cid, message);
    var end := Submitted(limits, script, intent, cid, 0);
    assert inFlight[cid := Task(intent, script.readable, Sending(0), message)] - {cid} == inFlight;
    assert Release(started, cid) == m;
    LoopsAreThePieces(limits, script, started, cid);
    SubmittedIds(limits, script, intent, cid, 0);
    if end.Some? {
      FileIsRecord(limits, b, end.value, inFlight);
    }
    hide PlayOut, Submitted, Record, File, Outline, Release;
  }

  // ---------------------------------------------------------------------------
  // Client order ids
  // ---------------------------------------------------------------------------

  const CLIENT_ORDER_ID_MAX := 36
  const SUFFIX_MAX := 24

  /** s.slice(0, n). */
  function Slice(s: string, n: nat): string {
    if |s| <= n then s else s[..n]
  }

  function WithoutDashes(s: string): string {
    if s == "" then "" else (if s[0] == '-' then "" else [s[0]]) + WithoutDashes(s[1..])
  }

  function DerivedId(prefix: string, intent: string): string {
    Slice(prefix + "-" + Slice(WithoutDashes(intent), SUFFIX_MAX), CLIENT_ORDER_ID_MAX)
  }

  /** How many characters of an intent its id has room for. */
  function Room(prefix: string): nat {
    if |prefix| + 1 >= CLIENT_ORDER_ID_MAX then 0
    else if CLIENT_ORDER_ID_MAX - |prefix| - 1 < SUFFIX_MAX then CLIENT_ORDER_ID_MAX - |prefix| - 1
    else SUFFIX_MAX
  }

  lemma SliceOfSlice(s: string, m: nat, n: nat)
    requires n <= m
    ensures Slice(Slice(s, m), n) == Slice(s, n)
  {
  }

  /** An id is a piece of the prefix and the kept characters of the intent. */
  lemma DerivedIdParts(prefix: string, intent: string)
    ensures DerivedId(prefix, intent) ==
            Slice(prefix + "-", CLIENT_ORDER_ID_MAX) + Slice(WithoutDashes(intent), Room(prefix))
    ensures |DerivedId(prefix, intent)| <= CLIENT_ORDER_ID_MAX
  {
    var bare, head := WithoutDashes(intent), prefix + "-";
    var suffix := Slice(bare, SUFFIX_MAX);
    SliceOfSlice(bare, SUFFIX_MAX, Room(prefix));
    hide WithoutDashes;
    if |head| >= CLIENT_ORDER_ID_MAX {
      assert (head + suffix)[..CLIENT_ORDER_ID_MAX] == head[..CLIENT_ORDER_ID_MAX];
    } else {
      assert |head + suffix| > CLIENT_ORDER_ID_MAX ==>
          (head + suffix)[..CLIENT_ORDER_ID_MAX] == head + suffix[..CLIENT_ORDER_ID_MAX - |head|];
    }
  }

  /** Two intents get one id exactly when they agree, dashes aside, on the characters an id has room for. */
  lemma DerivedIdsCollideIff(prefix: string, a: string, b: string)
    ensures DerivedId(prefix, a) == DerivedId(prefix, b) <==>
            Slice(WithoutDashes(a), Room(prefix)) == Slice(WithoutDashes(b), Room(prefix))
  {
    DerivedIdParts(prefix, a);
    DerivedIdParts(prefix, b);
    var head := Slice(prefix + "-", CLIENT_ORDER_ID_MAX);
    var x, y := Slice(WithoutDashes(a), Room(prefix)), Slice(WithoutDashes(b), Room(prefix));
    hide DerivedId, Slice, WithoutDashes, Room;
    assert (head + x)[|head|..] == x && (head + y)[|head|..] == y;
  }

  /** No two intents agree on the characters kept. */
  ghost predicate KeptApart(prefix: string, intents: set<string>) {
    forall a, b :: a in intents && b in intents && a != b ==>
      Slice(WithoutDashes(a), Room(prefix)) != Slice(WithoutDashes(b), Room(prefix))
  }

  /** Intents placed under their derived ids. */
  function DerivedUses(prefix: string, intents: set<string>): set<Use> {
    set i | i in intents :: Use(i, DerivedId(prefix, i))
  }

  lemma DerivedUsesFacts(prefix: string, intents: set<string>)
    ensures IntentsOf(DerivedUses(prefix, intents)) == intents
    ensures OneOwner(DerivedUses(prefix, intents)) <==> KeptApart(prefix, intents)
    ensures OneId(DerivedUses(prefix, intents)) && (DerivedUses(prefix, intents) == {} <==> intents == {})
  {
    hide DerivedId, Slice, WithoutDashes, Room;
    var uses := DerivedUses(prefix, intents);
    assert forall i :: i in intents ==> Use(i, DerivedId(prefix, i)) in uses;
    assert forall i :: i in intents <==> i in IntentsOf(uses) by {
      forall i | i in intents ensures i in IntentsOf(uses) {
        assert Use(i, DerivedId(prefix, i)) in uses;
      }
    }
    forall a, b | a in intents && b in intents
      ensures DerivedId(prefix, a) == DerivedId(prefix, b) <==>
              Slice(WithoutDashes(a), Room(prefix)) == Slice(WithoutDashes(b), Room(prefix))
    {
      DerivedIdsCollideIff(prefix, a, b);
    }
    if OneOwner(uses) {
      forall a, b | a in intents && b in intents && a != b
        ensures Slice(WithoutDashes(a), Room(prefix)) != Slice(WithoutDashes(b), Room(prefix))
      {
        assert Use(a, DerivedId(prefix, a)) in uses && Use(b, DerivedId(prefix, b)) in uses;
      }
    }
  }

  /**
   With derived ids, at most one order an id in every run, exactly when nothing is placed, or the
   kept characters differ, the ledger is large enough for these intents and those of cancellations,
   and answers and requests can be read; and then at most one order an intent.
   */
  lemma DerivedIdsAreSafeIff(trust: Trust, limits: Limits, prefix: string, intents: set<string>, cancels: set<string>)
    ensures var calls := Calls(DerivedUses(prefix, intents), cancels);
            var guarded := || intents == {}
                           || (&& KeptApart(prefix, intents) && |intents + cancels| <= limits.maxLedger
                               && trust.answersAreReadable && trust.requestsAreReadable);
            && ((forall events :: CallsOnly(events, calls) && Run(trust, limits, events).Some? ==>
                   AtMostOnce(Run(trust, limits, events).value)) <==> guarded)
            && ((forall events :: CallsOnly(events, calls) && Run(trust, limits, events).Some? ==>
                   OnePerIntent(Run(trust, limits, events).value, calls.uses)) <==> guarded)
  {
    var calls := Calls(DerivedUses(prefix, intents), cancels);
    DerivedUsesFacts(prefix, intents);
    AtMostOnceIff(trust, limits, calls);
    OnePerIntentIff(trust, limits, calls);
    hide Run, AtMostOnce, OnePerIntent, CallsOnly, KeptApart, DerivedUses, OneOwner, OneId, IntentsOf;
  }
}
