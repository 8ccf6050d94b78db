// One-time-password deliveries: send responses, timeouts, provider callbacks, verification and retention, in any
// order. Every operation is one transaction under the phone's advisory lock.

module Otp {
  import opened Options

  type Instant = int

  datatype Status = Pending | Unknown | Accepted | Sent | Failed

  function Rank(status: Status): nat {
    match status
    case Pending => 0
    case Unknown => 1
    case Accepted => 2
    case Sent => 3
    case Failed => 4
  }

  datatype Delivery = Delivery(
    phone: nat,
    otpHash: nat,
    idempotencyKey: nat,
    attempt: nat,
    expiresAt: Instant,
    settlementDeadline: Instant,
    status: Status,
    used: bool,
    messageId: Option<nat>,
    transactionId: Option<nat>,
    errorCode: Option<string>,
    sentAt: Option<Instant>,
    providerSentAt: Option<Instant>,
    failedAt: Option<Instant>,
    lastWebhookAt: Option<Instant>)
  {
    /** A code that verification would accept before it expires. */
    predicate Usable() {
      (status.Accepted? || status.Sent?) && !used
    }

    predicate MatchesReceipt(message: nat, transaction: Option<nat>) {
      && (messageId.None? || messageId == Some(message))
      && (transactionId.None? || transaction.None? || transactionId == transaction)
    }

    predicate Settling() {
      status.Pending? || status.Unknown?
    }
  }

  type Id = nat
  type Rows = map<Id, Delivery>

  datatype State = State(rows: Rows, nextAttempt: nat)

  datatype Op =
    | Begin(id: Id, phone: nat, otpHash: nat, key: nat, ttl: nat, settlement: nat, now: Instant)
    | Receipt(id: Id, phone: nat, transaction: nat, message: nat, now: Instant)
    | Outcome(id: Id, phone: nat, failed: bool, reason: string, now: Instant)
    | Callback(id: Id, sent: bool, message: nat, reported: Option<nat>, now: Instant)
    | Consume(phone: nat, otpHash: nat, now: Instant)
    | Purge(chosen: set<Id>, now: Instant)

  function OrElse(first: Option<Instant>, second: Instant): Option<Instant> {
    if first.Some? then first else Some(second)
  }

  predicate KeyTaken(rows: Rows, key: nat) {
    exists i | i in rows :: rows[i].idempotencyKey == key
  }

  /** A later attempt for the phone was already sent. */
  predicate LaterSent(rows: Rows, d: Delivery) {
    exists i | i in rows :: rows[i].phone == d.phone && rows[i].attempt > d.attempt && rows[i].sentAt.Some?
  }

  /** The delivery may not become usable. */
  predicate Superseded(rows: Rows, d: Delivery, now: Instant) {
    d.expiresAt <= now || LaterSent(rows, d)
  }

  /** What activating delivery `id` leaves in `used`: either the delivery itself is used up, or its ancestors are. */
  function Activated(rows: Rows, id: Id, now: Instant): Rows
    requires id in rows
  {
    var d := rows[id];
    if d.used then rows
    else if Superseded(rows, d, now) then rows[id := d.(used := true)]
    else map i | i in rows ::
           if rows[i].phone == d.phone && rows[i].attempt < d.attempt then rows[i].(used := true) else rows[i]
  }

  predicate Enabled(s: State, op: Op) {
    match op
    case Begin(id, _, _, _, _, _, _) => id !in s.rows
    case Purge(chosen, now) => forall i | i in chosen :: i in s.rows && s.rows[i].expiresAt <= now
    case _ => true
  }

  predicate Overdue(d: Delivery, op: Op)
    requires op.Begin?
  {
    d.idempotencyKey == op.key && d.phone == op.phone && d.status.Pending? && d.settlementDeadline <= op.now
  }

  function NewDelivery(s: State, op: Op): Delivery
    requires op.Begin?
  {
    Delivery(op.phone, op.otpHash, op.key, s.nextAttempt, op.now + op.ttl, op.now + op.settlement, Pending, false,
             None, None, None, None, None, None, None)
  }

  function AfterReceipt(d: Delivery, op: Op): Delivery
    requires op.Receipt?
  {
    d.(status := if d.status.Sent? then Sent else Accepted, transactionId := Some(op.transaction),
       messageId := Some(op.message), sentAt := OrElse(d.sentAt, op.now), errorCode := None)
  }

  function AfterCallback(d: Delivery, op: Op): Delivery
    requires op.Callback?
  {
    var e := d.(messageId := Some(op.message),
                transactionId := if d.transactionId.Some? then d.transactionId else op.reported,
                lastWebhookAt := Some(op.now));
    if op.sent
    then e.(status := Sent, sentAt := OrElse(d.sentAt, op.now), providerSentAt := OrElse(d.providerSentAt, op.now),
            errorCode := None)
    else e.(status := Failed, failedAt := OrElse(d.failedAt, op.now), errorCode := Some("provider_undelivered"))
  }

  predicate ReceiptApplies(rows: Rows, op: Op)
    requires op.Receipt?
  {
    && op.id in rows && rows[op.id].phone == op.phone
    && rows[op.id].MatchesReceipt(op.message, Some(op.transaction)) && !rows[op.id].status.Failed?
  }

  predicate CallbackApplies(rows: Rows, op: Op)
    requires op.Callback?
  {
    && op.id in rows && rows[op.id].MatchesReceipt(op.message, op.reported)
    && !rows[op.id].status.Failed? && !(rows[op.id].status.Sent? && op.sent)
  }

  predicate Consumable(d: Delivery, phone: nat, otpHash: nat, now: Instant) {
    d.phone == phone && d.otpHash == otpHash && d.Usable() && d.expiresAt > now
  }

  function Consumed(rows: Rows, phone: nat, otpHash: nat, now: Instant): Rows {
    map i | i in rows :: if Consumable(rows[i], phone, otpHash, now) then rows[i].(used := true) else rows[i]
  }

  /** A repeated request marks its own delivery `unknown` when the send was never settled in time. */
  function Settled(rows: Rows, op: Op): Rows
    requires op.Begin?
  {
    map i | i in rows ::
      if Overdue(rows[i], op) then rows[i].(status := Unknown, errorCode := Some("delivery_unknown")) else rows[i]
  }

  function Apply(s: State, op: Op): State {
    var rows := s.rows;
    match op
    case Begin(id, _, _, key, _, _, _) =>
      if KeyTaken(rows, key)
      then State(Settled(rows, op), s.nextAttempt + 1)
      else State(rows[id := NewDelivery(s, op)], s.nextAttempt + 1)
    case Receipt(id, _, _, _, now) =>
      if !ReceiptApplies(rows, op) then s
      else
        var active := Activated(rows, id, now);
        s.(rows := active[id := AfterReceipt(active[id], op)])
    case Outcome(id, phone, failed, reason, now) =>
      if id !in rows || rows[id].phone != phone || !rows[id].Settling() then s
      else s.(rows := rows[id := rows[id].(status := if failed then Failed else Unknown, errorCode := Some(reason),
                                           failedAt := if failed then OrElse(rows[id].failedAt, now) else rows[id].failedAt)])
    case Callback(id, sent, _, _, now) =>
      if !CallbackApplies(rows, op) then s
      else
        var active := if sent then Activated(rows, id, now) else rows;
        s.(rows := active[id := AfterCallback(active[id], op)])
    case Consume(phone, otpHash, now) =>
      s.(rows := Consumed(rows, phone, otpHash, now))
    case Purge(chosen, _) => s.(rows := rows - chosen)
  }

  // ---------------------------------------------------------------- the invariant

  ghost predicate Inv(s: State) {
    && (forall i | i in s.rows :: s.rows[i].attempt < s.nextAttempt)
    && (forall i, j | i in s.rows && j in s.rows && s.rows[i].attempt == s.rows[j].attempt :: i == j)
    && (forall i, j | i in s.rows && j in s.rows && s.rows[i].idempotencyKey == s.rows[j].idempotencyKey :: i == j)
    && (forall i | i in s.rows && (s.rows[i].status.Accepted? || s.rows[i].status.Sent?) :: s.rows[i].sentAt.Some?)
    && (forall i | i in s.rows && s.rows[i].Usable() ::
          AncestorsUsed(s.rows, s.rows[i].phone, s.rows[i].attempt))
  }

  predicate AncestorsUsed(rows: Rows, phone: nat, attempt: nat) {
    forall i | i in rows && rows[i].phone == phone && rows[i].attempt < attempt :: rows[i].used
  }

  /** What no operation ever takes back about a delivery that stays in the table. */
  predicate Forward(d: Delivery, d': Delivery) {
    && d'.phone == d.phone && d'.attempt == d.attempt && d'.idempotencyKey == d.idempotencyKey
    && d'.otpHash == d.otpHash && d'.expiresAt == d.expiresAt
    && Rank(d.status) <= Rank(d'.status)
    && (d.used ==> d'.used)
    && (d.sentAt.Some? ==> d'.sentAt == d.sentAt)
  }

  lemma ActivationIsForward(rows: Rows, id: Id, now: Instant)
    requires id in rows
    ensures var active := Activated(rows, id, now);
      && active.Keys == rows.Keys
      && (forall i | i in rows :: Forward(rows[i], active[i]) && active[i].status == rows[i].status
                                  && active[i].sentAt == rows[i].sentAt)
      && (!active[id].used ==> AncestorsUsed(active, rows[id].phone, rows[id].attempt) && !Superseded(rows, rows[id], now))
  {
  }

  /** Delivery status only climbs pending < unknown < accepted < sent < failed, and `used` is never cleared. */
  lemma StepIsForward(s: State, op: Op, id: Id)
    requires Enabled(s, op) && id in s.rows && id in Apply(s, op).rows
    ensures Forward(s.rows[id], Apply(s, op).rows[id])
  {
    if op.Receipt? && ReceiptApplies(s.rows, op) {
      ActivationIsForward(s.rows, op.id, op.now);
    }
    if op.Callback? && CallbackApplies(s.rows, op) {
      ActivationIsForward(s.rows, op.id, op.now);
    }
  }

  predicate QuietRow(d: Delivery, d': Delivery) {
    && Forward(d, d') && (d'.Usable() ==> d.Usable())
    && (d'.status.Accepted? || d'.status.Sent? ==> d'.sentAt.Some?)
  }

  predicate NewRow(s: State, d: Delivery, nextAttempt: nat) {
    s.nextAttempt <= d.attempt < nextAttempt && d.status.Pending? && !KeyTaken(s.rows, d.idempotencyKey)
  }

  /** Rows that change without becoming usable, and new or deleted rows, keep the invariant. */
  lemma QuietStepKeepsInv(s: State, s': State)
    requires Inv(s) && s'.nextAttempt >= s.nextAttempt
    requires forall i | i in s.rows && i in s'.rows :: QuietRow(s.rows[i], s'.rows[i])
    requires forall i | i in s'.rows && i !in s.rows :: NewRow(s, s'.rows[i], s'.nextAttempt)
    requires forall i, j | i in s'.rows && i !in s.rows && j in s'.rows && j !in s.rows :: i == j
    ensures Inv(s')
  {
    forall i | i in s'.rows && s'.rows[i].Usable() ensures AncestorsUsed(s'.rows, s'.rows[i].phone, s'.rows[i].attempt) {
      assert AncestorsUsed(s.rows, s.rows[i].phone, s.rows[i].attempt);
    }
  }

  /** A delivery that is activated and then marked sent or accepted is usable only if it is the newest one sent. */
  lemma ActivationKeepsInv(s: State, id: Id, now: Instant, d': Delivery)
    requires Inv(s) && id in s.rows
    requires var active := Activated(s.rows, id, now)[id]; Forward(active, d') && d'.used == active.used
    requires d'.sentAt.Some?
    ensures Inv(s.(rows := Activated(s.rows, id, now)[id := d']))
  {
    ActivationIsForward(s.rows, id, now);
    var rows' := Activated(s.rows, id, now)[id := d'];
    forall i | i in rows' && rows'[i].Usable() ensures AncestorsUsed(rows', rows'[i].phone, rows'[i].attempt) {
      if i == id {
        ActivatedIsNewest(s, id, now, d');
      } else {
        OthersStayNewest(s, id, now, d', i);
      }
    }
    ForwardRowsKeepInv(s, rows');
  }

  lemma ForwardRowsKeepInv(s: State, rows': Rows)
    requires Inv(s) && rows'.Keys == s.rows.Keys
    requires forall i | i in s.rows :: Forward(s.rows[i], rows'[i])
    requires forall i | i in rows' && (rows'[i].status.Accepted? || rows'[i].status.Sent?) :: rows'[i].sentAt.Some?
    requires forall i | i in rows' && rows'[i].Usable() :: AncestorsUsed(rows', rows'[i].phone, rows'[i].attempt)
    ensures Inv(s.(rows := rows'))
  {
  }

  lemma ActivatedIsNewest(s: State, id: Id, now: Instant, d': Delivery)
    requires id in s.rows && !Activated(s.rows, id, now)[id].used
    requires d'.phone == s.rows[id].phone && d'.attempt == s.rows[id].attempt
    ensures AncestorsUsed(Activated(s.rows, id, now)[id := d'], d'.phone, d'.attempt)
  {
  }

  /** If a later attempt is usable, it was sent, so the activated row is used up; if an earlier one is, it is that no more. */
  lemma OthersStayNewest(s: State, id: Id, now: Instant, d': Delivery, other: Id)
    requires Inv(s) && id in s.rows && other in s.rows && other != id
    requires var active := Activated(s.rows, id, now)[id]; Forward(active, d') && d'.used == active.used
    requires Activated(s.rows, id, now)[other].Usable()
    ensures AncestorsUsed(Activated(s.rows, id, now)[id := d'], s.rows[other].phone, s.rows[other].attempt)
  {
    ActivationIsForward(s.rows, id, now);
    assert s.rows[other].Usable();
    assert AncestorsUsed(s.rows, s.rows[other].phone, s.rows[other].attempt);
  }

  lemma ReceiptKeepsInv(s: State, op: Op)
    requires Inv(s) && op.Receipt?
    ensures Inv(Apply(s, op))
  {
    if ReceiptApplies(s.rows, op) {
      ActivationIsForward(s.rows, op.id, op.now);
      ActivationKeepsInv(s, op.id, op.now, AfterReceipt(Activated(s.rows, op.id, op.now)[op.id], op));
    }
  }

  lemma CallbackKeepsInv(s: State, op: Op)
    requires Inv(s) && op.Callback?
    ensures Inv(Apply(s, op))
  {
    if CallbackApplies(s.rows, op) {
      if op.sent {
        ActivationIsForward(s.rows, op.id, op.now);
        ActivationKeepsInv(s, op.id, op.now, AfterCallback(Activated(s.rows, op.id, op.now)[op.id], op));
      } else {
        QuietStepKeepsInv(s, Apply(s, op));
      }
    }
  }

  lemma BeginKeepsInv(s: State, op: Op)
    requires Inv(s) && Enabled(s, op) && op.Begin?
    ensures Inv(Apply(s, op))
  {
    var s' := Apply(s, op);
    assert !KeyTaken(s.rows, op.key) ==> NewRow(s, NewDelivery(s, op), s'.nextAttempt);
    QuietStepKeepsInv(s, s');
  }

  lemma QuietOpKeepsInv(s: State, op: Op)
    requires Inv(s) && Enabled(s, op) && (op.Outcome? || op.Consume? || op.Purge?)
    ensures Inv(Apply(s, op))
  {
    var s' := Apply(s, op);
    assert s'.rows.Keys <= s.rows.Keys;
    forall i | i in s.rows && i in s'.rows ensures QuietRow(s.rows[i], s'.rows[i]) {
      QuietOpRow(s, op, i);
    }
    hide Inv, Apply, QuietRow, NewRow;
    QuietStepKeepsInv(s, s');
  }

  lemma QuietOpRow(s: State, op: Op, id: Id)
    requires Inv(s) && Enabled(s, op) && (op.Outcome? || op.Consume? || op.Purge?)
    requires id in s.rows && id in Apply(s, op).rows
    ensures QuietRow(s.rows[id], Apply(s, op).rows[id])
  {
  }

  /** Every operation keeps the invariant. */
  lemma StepKeepsInv(s: State, op: Op)
    requires Inv(s) && Enabled(s, op)
    ensures Inv(Apply(s, op))
  {
    hide *;
    match op {
      case Receipt(_, _, _, _, _) => ReceiptKeepsInv(s, op);
      case Callback(_, _, _, _, _) => CallbackKeepsInv(s, op);
      case Begin(_, _, _, _, _, _, _) => BeginKeepsInv(s, op);
      case _ => QuietOpKeepsInv(s, op);
    }
  }

  // ---------------------------------------------------------------- whole runs

  ghost predicate Run(states: seq<State>, ops: seq<Op>) {
    && |states| == |ops| + 1 && states[0].rows == map[]
    && forall i | 0 <= i < |ops| :: Enabled(states[i], ops[i]) && states[i + 1] == Apply(states[i], ops[i])
  }

  lemma {:induction false} RunKeepsInv(states: seq<State>, ops: seq<Op>, n: nat)
    requires Run(states, ops) && n < |states|
    ensures Inv(states[n])
  {
    if n > 0 {
      RunKeepsInv(states, ops, n - 1);
      StepKeepsInv(states[n - 1], ops[n - 1]);
    }
  }

  /** In every reachable state each phone has at most one usable code. */
  lemma OneUsableCodePerPhone(states: seq<State>, ops: seq<Op>, n: nat, i: Id, j: Id)
    requires Run(states, ops) && n < |states|
    requires i in states[n].rows && j in states[n].rows && states[n].rows[i].phone == states[n].rows[j].phone
    requires states[n].rows[i].Usable() && states[n].rows[j].Usable()
    ensures i == j
  {
    RunKeepsInv(states, ops, n);
    assert AncestorsUsed(states[n].rows, states[n].rows[i].phone, states[n].rows[i].attempt);
    assert AncestorsUsed(states[n].rows, states[n].rows[j].phone, states[n].rows[j].attempt);
  }

  /**
   * Supersession: once attempt n of a phone has been usable, no lower attempt of that phone is ever usable again,
   * even after n is consumed, fails or is purged.
   */
  lemma {:induction false} SupersededForGood(states: seq<State>, ops: seq<Op>, m: nat, n: nat, id: Id)
    requires Run(states, ops) && m <= n < |states|
    requires id in states[m].rows && states[m].rows[id].Usable()
    ensures AncestorsUsed(states[n].rows, states[m].rows[id].phone, states[m].rows[id].attempt)
    ensures states[m].rows[id].attempt < states[n].nextAttempt
    decreases n - m
  {
    RunKeepsInv(states, ops, m);
    if m < n {
      SupersededForGood(states, ops, m, n - 1, id);
      UsedStaysUsed(states[n - 1], ops[n - 1], states[m].rows[id].phone, states[m].rows[id].attempt);
    }
  }

  lemma UsedStaysUsed(s: State, op: Op, phone: nat, attempt: nat)
    requires Enabled(s, op) && AncestorsUsed(s.rows, phone, attempt) && attempt < s.nextAttempt
    ensures AncestorsUsed(Apply(s, op).rows, phone, attempt) && attempt < Apply(s, op).nextAttempt
  {
    var s' := Apply(s, op);
    forall i | i in s'.rows && s'.rows[i].phone == phone && s'.rows[i].attempt < attempt ensures s'.rows[i].used {
      if i in s.rows {
        StepIsForward(s, op, i);
      }
    }
  }

  /** Every delivery was begun for its phone with its hash, and lives as long as it was begun for. */
  lemma {:induction false} DeliveryWasBegun(states: seq<State>, ops: seq<Op>, n: nat, id: Id)
    requires Run(states, ops) && n < |states| && id in states[n].rows
    ensures exists k :: 0 <= k < n && BeginOf(ops[k], id, states[n].rows[id])
  {
    var d := states[n].rows[id];
    if id in states[n - 1].rows {
      DeliveryWasBegun(states, ops, n - 1, id);
      StepIsForward(states[n - 1], ops[n - 1], id);
      var k :| 0 <= k < n - 1 && BeginOf(ops[k], id, states[n - 1].rows[id]);
      assert BeginOf(ops[k], id, d);
    } else {
      OnlyBeginAdds(states[n - 1], ops[n - 1], id);
      assert BeginOf(ops[n - 1], id, d);
    }
  }

  predicate BeginOf(op: Op, id: Id, d: Delivery) {
    op.Begin? && op.id == id && op.phone == d.phone && op.otpHash == d.otpHash && d.expiresAt == op.now + op.ttl
  }

  lemma OnlyBeginAdds(s: State, op: Op, id: Id)
    requires Enabled(s, op) && id !in s.rows && id in Apply(s, op).rows
    ensures BeginOf(op, id, Apply(s, op).rows[id])
  {
  }

  /**
   * A code that verification uses up was begun for exactly that phone with exactly that hash, and its lifetime has
   * not passed.
   */
  lemma ConsumedWasBegun(states: seq<State>, ops: seq<Op>, n: nat, id: Id)
    requires Run(states, ops) && n < |ops| && ops[n].Consume?
    requires id in states[n].rows && id in states[n + 1].rows && !states[n].rows[id].used && states[n + 1].rows[id].used
    ensures exists k :: 0 <= k < n && ops[k].Begin? && ops[k].id == id && ops[k].phone == ops[n].phone
                        && ops[k].otpHash == ops[n].otpHash && ops[n].now < ops[k].now + ops[k].ttl
  {
    DeliveryWasBegun(states, ops, n, id);
    var k :| 0 <= k < n && BeginOf(ops[k], id, states[n].rows[id]);
    ConsumedColumns(states[n].rows, ops[n].phone, ops[n].otpHash, ops[n].now);
  }

  /** What verification does, by the columns of a row. */
  lemma ConsumedColumns(rows: Rows, phone: nat, otpHash: nat, now: Instant)
    ensures Consumed(rows, phone, otpHash, now).Keys == rows.Keys
    ensures forall i | i in rows ::
      Consumed(rows, phone, otpHash, now)[i] == rows[i].(used := rows[i].used
        || (rows[i].phone == phone && rows[i].otpHash == otpHash && (rows[i].status.Accepted? || rows[i].status.Sent?)
            && rows[i].expiresAt > now))
  {
  }

  /** A delivery that stays in the table moves forward over any number of steps. */
  lemma {:induction false} RunIsForward(states: seq<State>, ops: seq<Op>, m: nat, n: nat, id: Id)
    requires Run(states, ops) && m <= n < |states|
    requires forall k | m <= k <= n :: id in states[k].rows
    ensures Forward(states[m].rows[id], states[n].rows[id])
    decreases n - m
  {
    if m < n {
      RunIsForward(states, ops, m, n - 1, id);
      assert id in states[n].rows;
      StepIsForward(states[n - 1], ops[n - 1], id);
    }
  }

  // ---------------------------------------------------------------- order of arrival

  function Present(t: Option<Instant>): Option<Instant> {
    if t.Some? then Some(0) else None
  }

  /** A delivery up to the time stamps of what happened to it. */
  function Timeless(d: Delivery): Delivery {
    d.(sentAt := Present(d.sentAt), providerSentAt := Present(d.providerSentAt), failedAt := Present(d.failedAt),
       lastWebhookAt := Present(d.lastWebhookAt))
  }

  function TimelessRows(s: State): Rows {
    map i | i in s.rows :: Timeless(s.rows[i])
  }

  /**
   * Whether the delivery is activated at the one reading or at the other decides if its code is usable: it expires
   * between them, and nothing else has used it up.
   */
  predicate ReadingDecides(rows: Rows, id: Id, first: Instant, second: Instant) {
    && id in rows && !rows[id].used && !LaterSent(rows, rows[id])
    && (rows[id].expiresAt <= first) != (rows[id].expiresAt <= second)
  }

  lemma ActivationReadsClock(rows: Rows, id: Id, first: Instant, second: Instant)
    requires id in rows
    ensures !ReadingDecides(rows, id, first, second) ==> Activated(rows, id, first) == Activated(rows, id, second)
    ensures ReadingDecides(rows, id, first, second) ==>
              Activated(rows, id, first)[id].used != Activated(rows, id, second)[id].used
  {
  }

  /** Activation looks at none of the columns that a receipt, a callback or an outcome writes on the row itself. */
  lemma ActivationIgnoresOutcome(rows: Rows, id: Id, d': Delivery, now: Instant)
    requires id in rows
    requires d'.phone == rows[id].phone && d'.attempt == rows[id].attempt && d'.used == rows[id].used
    requires d'.expiresAt == rows[id].expiresAt
    ensures var active := Activated(rows, id, now);
      Activated(rows[id := d'], id, now) == active[id := d'.(used := active[id].used)]
  {
    var changed := rows[id := d'];
    assert LaterSent(rows, rows[id]) <==> LaterSent(changed, d') by {
      assert forall i | i in rows && rows[i].attempt > d'.attempt :: i != id && changed[i] == rows[i];
    }
  }

  lemma TimelessUpdate(s: State, t: State, rows: Rows, id: Id, d: Delivery, e: Delivery)
    requires id in rows && s.rows == rows[id := d] && t.rows == rows[id := e] && Timeless(d) == Timeless(e)
    ensures TimelessRows(s) == TimelessRows(t)
  {
  }

  lemma UsedDiffers(s: State, t: State, id: Id)
    requires id in s.rows && id in t.rows && s.rows[id].used != t.rows[id].used
    ensures TimelessRows(s) != TimelessRows(t)
  {
    assert TimelessRows(s)[id].used != TimelessRows(t)[id].used;
  }

  // ---- a single receipt or callback, at one reading or at the other

  lemma ReceiptReadsClock(s: State, id: Id, phone: nat, transaction: nat, message: nat, first: Instant, second: Instant)
    ensures TimelessRows(Apply(s, Receipt(id, phone, transaction, message, first)))
        == TimelessRows(Apply(s, Receipt(id, phone, transaction, message, second)))
      <==> !(ReceiptApplies(s.rows, Receipt(id, phone, transaction, message, first))
             && ReadingDecides(s.rows, id, first, second))
  {
    var one, other := Receipt(id, phone, transaction, message, first), Receipt(id, phone, transaction, message, second);
    if ReceiptApplies(s.rows, one) {
      ActivationReadsClock(s.rows, id, first, second);
      ActivationIsForward(s.rows, id, first);
      ActivationIsForward(s.rows, id, second);
      var active := Activated(s.rows, id, first);
      if ReadingDecides(s.rows, id, first, second) {
        UsedDiffers(Apply(s, one), Apply(s, other), id);
      } else {
        TimelessUpdate(Apply(s, one), Apply(s, other), active, id,
          AfterReceipt(active[id], one), AfterReceipt(active[id], other));
      }
    }
  }

  lemma CallbackReadsClock(s: State, id: Id, message: nat, reported: Option<nat>, first: Instant, second: Instant)
    ensures TimelessRows(Apply(s, Callback(id, true, message, reported, first)))
        == TimelessRows(Apply(s, Callback(id, true, message, reported, second)))
      <==> !(CallbackApplies(s.rows, Callback(id, true, message, reported, first))
             && ReadingDecides(s.rows, id, first, second))
  {
    var one, other := Callback(id, true, message, reported, first), Callback(id, true, message, reported, second);
    if CallbackApplies(s.rows, one) {
      ActivationReadsClock(s.rows, id, first, second);
      ActivationIsForward(s.rows, id, first);
      ActivationIsForward(s.rows, id, second);
      var active := Activated(s.rows, id, first);
      if ReadingDecides(s.rows, id, first, second) {
        UsedDiffers(Apply(s, one), Apply(s, other), id);
      } else {
        TimelessUpdate(Apply(s, one), Apply(s, other), active, id,
          AfterCallback(active[id], one), AfterCallback(active[id], other));
      }
    }
  }

  // ---- the send response and the callback

  /** The callback agrees with the send response about the provider's ids. */
  predicate Agreeing(transaction: nat, reported: Option<nat>) {
    reported.Some? ==> reported.value == transaction
  }

  /** The rows after activating `id` at one reading and then at another. */
  function ActivatedTwice(rows: Rows, id: Id, first: Instant, second: Instant): (r: Rows)
    requires id in rows
    ensures id in r
  {
    Activated(Activated(rows, id, first), id, second)
  }

  lemma ReceiptThenCallback(s: State, receipt: Op, callback: Op)
    requires receipt.Receipt? && callback.Callback? && callback.sent && receipt.id == callback.id
    requires ReceiptApplies(s.rows, receipt) && receipt.message == callback.message && !s.rows[receipt.id].status.Sent?
    requires Agreeing(receipt.transaction, callback.reported)
    ensures var id := receipt.id;
      var twice := ActivatedTwice(s.rows, id, receipt.now, callback.now);
      Apply(Apply(s, receipt), callback).rows
        == twice[id := AfterCallback(AfterReceipt(twice[id], receipt), callback)]
  {
    var id := receipt.id;
    ActivationIsForward(s.rows, id, receipt.now);
    var active := Activated(s.rows, id, receipt.now);
    var d := AfterReceipt(active[id], receipt);
    ActivationIsForward(active, id, callback.now);
    ActivationIgnoresOutcome(active, id, d, callback.now);
    RowKeepsColumns(s.rows, id, receipt.now);
    RowKeepsColumns(active, id, callback.now);
    assert CallbackApplies(Apply(s, receipt).rows, callback);
  }

  lemma CallbackThenReceipt(s: State, callback: Op, receipt: Op)
    requires receipt.Receipt? && callback.Callback? && callback.sent && receipt.id == callback.id
    requires CallbackApplies(s.rows, callback) && ReceiptApplies(s.rows, receipt) && receipt.message == callback.message
    requires Agreeing(receipt.transaction, callback.reported)
    ensures var id := receipt.id;
      var twice := ActivatedTwice(s.rows, id, callback.now, receipt.now);
      Apply(Apply(s, callback), receipt).rows
        == twice[id := AfterReceipt(AfterCallback(twice[id], callback), receipt)]
  {
    var id := receipt.id;
    ActivationIsForward(s.rows, id, callback.now);
    var active := Activated(s.rows, id, callback.now);
    var d := AfterCallback(active[id], callback);
    ActivationIsForward(active, id, receipt.now);
    ActivationIgnoresOutcome(active, id, d, receipt.now);
    RowKeepsColumns(s.rows, id, callback.now);
    RowKeepsColumns(active, id, receipt.now);
    assert ReceiptApplies(Apply(s, callback).rows, receipt);
  }

  /** Of the activated row itself only `used` changes. */
  lemma RowKeepsColumns(rows: Rows, id: Id, now: Instant)
    requires id in rows
    ensures var d := Activated(rows, id, now)[id]; d == rows[id].(used := d.used)
  {
  }

  /** When both have an effect the code is activated at both readings, whichever comes first. */
  lemma SentMeetsReceipt(s: State, id: Id, phone: nat, transaction: nat, message: nat, reported: Option<nat>,
      first: Instant, second: Instant)
    requires Agreeing(transaction, reported)
    requires ReceiptApplies(s.rows, Receipt(id, phone, transaction, message, first)) && !s.rows[id].status.Sent?
    ensures TimelessRows(Apply(Apply(s, Receipt(id, phone, transaction, message, first)),
                               Callback(id, true, message, reported, second)))
      == TimelessRows(Apply(Apply(s, Callback(id, true, message, reported, first)),
                            Receipt(id, phone, transaction, message, second)))
  {
    var receipt1, receipt2 := Receipt(id, phone, transaction, message, first), Receipt(id, phone, transaction, message, second);
    var callback1, callback2 := Callback(id, true, message, reported, first), Callback(id, true, message, reported, second);
    ReceiptThenCallback(s, receipt1, callback2);
    CallbackThenReceipt(s, callback1, receipt2);
    var twice := ActivatedTwice(s.rows, id, first, second);
    RowKeepsColumns(s.rows, id, first);
    RowKeepsColumns(Activated(s.rows, id, first), id, second);
    var d := twice[id];
    hide Apply, Activated, ActivatedTwice;
    TimelessUpdate(Apply(Apply(s, receipt1), callback2), Apply(Apply(s, callback1), receipt2), twice, id,
      AfterCallback(AfterReceipt(d, receipt1), callback2), AfterReceipt(AfterCallback(d, callback1), receipt2));
  }

  /**
   * The provider's `sms_sent` callback and an agreeing send response leave the same rows in either order, up to time
   * stamps, unless just one of the two has an effect, and the code expires between the two readings of the clock.
   */
  lemma SentCommutesWithReceipt(s: State, id: Id, phone: nat, transaction: nat, message: nat, reported: Option<nat>,
      first: Instant, second: Instant)
    requires Agreeing(transaction, reported)
    ensures TimelessRows(Apply(Apply(s, Receipt(id, phone, transaction, message, first)),
                               Callback(id, true, message, reported, second)))
        == TimelessRows(Apply(Apply(s, Callback(id, true, message, reported, first)),
                              Receipt(id, phone, transaction, message, second)))
      <==> !(ReadingDecides(s.rows, id, first, second)
             && ReceiptApplies(s.rows, Receipt(id, phone, transaction, message, first))
                != CallbackApplies(s.rows, Callback(id, true, message, reported, first)))
  {
    var receipt1, receipt2 := Receipt(id, phone, transaction, message, first), Receipt(id, phone, transaction, message, second);
    var callback1, callback2 := Callback(id, true, message, reported, first), Callback(id, true, message, reported, second);
    if !ReceiptApplies(s.rows, receipt1) {
      ReceiptStaysRefused(s, receipt2, callback1);
      CallbackReadsClock(s, id, message, reported, first, second);
    } else if s.rows[id].status.Sent? {
      CallbackStaysRefused(s, callback2, receipt1);
      ReceiptReadsClock(s, id, phone, transaction, message, first, second);
    } else {
      SentMeetsReceipt(s, id, phone, transaction, message, reported, first, second);
    }
  }

  lemma ReceiptStaysRefused(s: State, receipt: Op, callback: Op)
    requires receipt.Receipt? && callback.Callback? && callback.sent && receipt.id == callback.id
    requires !ReceiptApplies(s.rows, receipt) && receipt.message == callback.message
    ensures Apply(Apply(s, callback), receipt) == Apply(s, callback)
  {
    if CallbackApplies(s.rows, callback) {
      ActivationIsForward(s.rows, callback.id, callback.now);
    }
  }

  lemma CallbackStaysRefused(s: State, callback: Op, receipt: Op)
    requires receipt.Receipt? && callback.Callback? && callback.sent && receipt.id == callback.id
    requires receipt.id in s.rows && s.rows[receipt.id].status.Sent?
    ensures Apply(Apply(s, receipt), callback) == Apply(s, receipt) && Apply(s, callback) == s
  {
    if ReceiptApplies(s.rows, receipt) {
      ActivationIsForward(s.rows, receipt.id, receipt.now);
    }
  }

  /** A sent code that expires between the readings: with the response first it stays usable up to its expiry. */
  lemma ReceiptOrderMayShow(phone: nat, hash: nat, key: nat, transaction: nat, message: nat)
    ensures var s := Apply(Apply(State(map[], 0), Begin(0, phone, hash, key, 10, 5, 0)), Callback(0, true, message, None, 1));
      var receiptFirst := Apply(Apply(s, Receipt(0, phone, transaction, message, 5)), Callback(0, true, message, None, 15));
      var callbackFirst := Apply(Apply(s, Callback(0, true, message, None, 5)), Receipt(0, phone, transaction, message, 15));
      && 0 in receiptFirst.rows && receiptFirst.rows[0].Usable()
      && 0 in callbackFirst.rows && callbackFirst.rows[0].used
  {
  }

  // ---- the timed-out send and the callback

  lemma UnknownThenCallback(s: State, outcome: Op, callback: Op)
    requires outcome.Outcome? && !outcome.failed && callback.Callback? && callback.sent && outcome.id == callback.id
    requires outcome.id in s.rows && s.rows[outcome.id].phone == outcome.phone && s.rows[outcome.id].Settling()
    requires CallbackApplies(s.rows, callback)
    ensures TimelessRows(Apply(Apply(s, outcome), callback)) == TimelessRows(Apply(s, callback))
  {
    var id := outcome.id;
    var d := s.rows[id].(status := Unknown, errorCode := Some(outcome.reason));
    assert Apply(s, outcome).rows == s.rows[id := d];
    ActivationIgnoresOutcome(s.rows, id, d, callback.now);
    RowKeepsColumns(s.rows, id, callback.now);
    var active := Activated(s.rows, id, callback.now);
    TimelessUpdate(Apply(Apply(s, outcome), callback), Apply(s, callback), active, id,
      AfterCallback(d.(used := active[id].used), callback), AfterCallback(active[id], callback));
  }

  lemma CallbackThenUnknown(s: State, callback: Op, outcome: Op)
    requires outcome.Outcome? && callback.Callback? && callback.sent && outcome.id == callback.id
    requires CallbackApplies(s.rows, callback)
    ensures Apply(Apply(s, callback), outcome) == Apply(s, callback)
  {
    ActivationIsForward(s.rows, callback.id, callback.now);
  }

  /**
   * The callback and the `unknown` outcome of a send that timed out leave the same rows in either order, up to time
   * stamps, unless the callback has an effect, and the code expires between the two readings of the clock.
   */
  lemma SentCommutesWithUnknown(s: State, id: Id, phone: nat, reason: string, message: nat, reported: Option<nat>,
      first: Instant, second: Instant)
    ensures TimelessRows(Apply(Apply(s, Outcome(id, phone, false, reason, first)),
                               Callback(id, true, message, reported, second)))
        == TimelessRows(Apply(Apply(s, Callback(id, true, message, reported, first)),
                              Outcome(id, phone, false, reason, second)))
      <==> !(ReadingDecides(s.rows, id, first, second)
             && CallbackApplies(s.rows, Callback(id, true, message, reported, first)))
  {
    var callback1, callback2 := Callback(id, true, message, reported, first), Callback(id, true, message, reported, second);
    var outcome1, outcome2 := Outcome(id, phone, false, reason, first), Outcome(id, phone, false, reason, second);
    if CallbackApplies(s.rows, callback1) {
      CallbackThenUnknown(s, callback1, outcome2);
      if s.rows[id].phone == phone && s.rows[id].Settling() {
        UnknownThenCallback(s, outcome1, callback2);
      } else {
        assert Apply(s, outcome1) == s;
      }
      CallbackReadsClock(s, id, message, reported, first, second);
    } else {
      RefusedCallback(s, id, phone, reason, message, reported, first, second);
    }
  }

  lemma RefusedCallback(s: State, id: Id, phone: nat, reason: string, message: nat, reported: Option<nat>,
      first: Instant, second: Instant)
    requires !CallbackApplies(s.rows, Callback(id, true, message, reported, first))
    ensures Apply(Apply(s, Outcome(id, phone, false, reason, first)), Callback(id, true, message, reported, second))
      == Apply(s, Outcome(id, phone, false, reason, first))
    ensures Apply(Apply(s, Callback(id, true, message, reported, first)), Outcome(id, phone, false, reason, second))
      == Apply(s, Outcome(id, phone, false, reason, first))
  {
  }

  /** A pending code that expires between the readings: with the callback first it is usable up to its expiry. */
  lemma UnknownOrderMayShow(phone: nat, hash: nat, key: nat, message: nat, reason: string)
    ensures var s := Apply(State(map[], 0), Begin(0, phone, hash, key, 10, 5, 0));
      var outcomeFirst := Apply(Apply(s, Outcome(0, phone, false, reason, 5)), Callback(0, true, message, None, 15));
      var callbackFirst := Apply(Apply(s, Callback(0, true, message, None, 5)), Outcome(0, phone, false, reason, 15));
      && 0 in callbackFirst.rows && callbackFirst.rows[0].Usable()
      && 0 in outcomeFirst.rows && outcomeFirst.rows[0].used
  {
  }

  // ---------------------------------------------------------------- the repository

  datatype BeginResult = Created(id: Id) | Conflict | Existing(id: Id, status: Status)

  datatype CallbackResult = Applied | Ignored | Refused

  method Report(rows: Rows, phone: nat, key: nat) returns (result: BeginResult)
    requires KeyTaken(rows, key)
    requires forall i, j | i in rows && j in rows && rows[i].idempotencyKey == rows[j].idempotencyKey :: i == j
    ensures !result.Created?
    ensures result.Existing? ==> result.id in rows && rows[result.id].idempotencyKey == key
    ensures result.Existing? ==> rows[result.id].phone == phone && rows[result.id].status == result.status
    ensures result.Conflict? ==> forall i | i in rows && rows[i].idempotencyKey == key :: rows[i].phone != phone
  {
    var existing :| existing in rows && rows[existing].idempotencyKey == key;
    return if rows[existing].phone != phone then Conflict else Existing(existing, rows[existing].status);
  }

  // ---- the columns that a receipt and a callback write

  /** A later attempt for the phone of delivery `id` has been sent. */
  predicate SentLater(rows: Rows, id: Id)
    requires id in rows
  {
    exists i | i in rows ::
      rows[i].phone == rows[id].phone && rows[i].attempt > rows[id].attempt && rows[i].sentAt.Some?
  }

  /** Activation uses up the delivery if it has expired or a later one was sent, and otherwise its ancestors. */
  lemma ActivationColumns(rows: Rows, id: Id, now: Instant)
    requires id in rows
    ensures var active := Activated(rows, id, now);
      && active.Keys == rows.Keys
      && active[id] == rows[id].(used := rows[id].used || rows[id].expiresAt <= now || SentLater(rows, id))
      && (forall i | i in rows && i != id :: active[i] == rows[i].(used := rows[i].used
            || (!active[id].used && rows[i].phone == rows[id].phone && rows[i].attempt < rows[id].attempt)))
  {
  }

  lemma ReceiptColumns(s: State, id: Id, phone: nat, transaction: nat, message: nat, now: Instant)
    ensures var rows' := Apply(s, Receipt(id, phone, transaction, message, now)).rows;
      var applies := id in s.rows && s.rows[id].phone == phone && !s.rows[id].status.Failed?
          && (s.rows[id].messageId.None? || s.rows[id].messageId == Some(message))
          && (s.rows[id].transactionId.None? || s.rows[id].transactionId == Some(transaction));
      && (!applies ==> rows' == s.rows)
      && (applies ==>
            && rows'.Keys == s.rows.Keys
            && rows'[id] == s.rows[id].(
                 status := if s.rows[id].status.Sent? then Sent else Accepted, transactionId := Some(transaction),
                 messageId := Some(message), errorCode := None,
                 sentAt := if s.rows[id].sentAt.Some? then s.rows[id].sentAt else Some(now),
                 used := s.rows[id].used || s.rows[id].expiresAt <= now || SentLater(s.rows, id))
            && (forall i | i in s.rows && i != id :: rows'[i] == s.rows[i].(used := s.rows[i].used
                  || (!rows'[id].used && s.rows[i].phone == phone && s.rows[i].attempt < s.rows[id].attempt))))
  {
    if id in s.rows {
      ActivationColumns(s.rows, id, now);
    }
    hide Activated;
  }

  lemma CallbackColumns(s: State, id: Id, sent: bool, message: nat, reported: Option<nat>, now: Instant)
    ensures var rows' := Apply(s, Callback(id, sent, message, reported, now)).rows;
      var applies := id in s.rows && !s.rows[id].status.Failed? && !(s.rows[id].status.Sent? && sent)
          && (s.rows[id].messageId.None? || s.rows[id].messageId == Some(message))
          && (s.rows[id].transactionId.None? || reported.None? || s.rows[id].transactionId == reported);
      && (!applies ==> rows' == s.rows)
      && (applies ==>
            && rows'.Keys == s.rows.Keys
            && rows'[id] == s.rows[id].(
                 status := if sent then Sent else Failed, messageId := Some(message), lastWebhookAt := Some(now),
                 transactionId := if s.rows[id].transactionId.Some? then s.rows[id].transactionId else reported,
                 sentAt := if sent && s.rows[id].sentAt.None? then Some(now) else s.rows[id].sentAt,
                 providerSentAt := if sent && s.rows[id].providerSentAt.None? then Some(now) else s.rows[id].providerSentAt,
                 failedAt := if !sent && s.rows[id].failedAt.None? then Some(now) else s.rows[id].failedAt,
                 errorCode := if sent then None else Some("provider_undelivered"),
                 used := s.rows[id].used || (sent && (s.rows[id].expiresAt <= now || SentLater(s.rows, id))))
            && (forall i | i in s.rows && i != id :: rows'[i] == s.rows[i].(used := s.rows[i].used
                  || (sent && !rows'[id].used && s.rows[i].phone == s.rows[id].phone
                      && s.rows[i].attempt < s.rows[id].attempt))))
  {
    if id in s.rows {
      ActivationColumns(s.rows, id, now);
    }
    hide Activated;
  }

  class Repository {
    var rows: Rows
    var nextAttempt: nat

    constructor ()
      ensures Inv(Value()) && rows == map[]
    {
      rows, nextAttempt := map[], 0;
    }

    function Value(): State
      reads this
    {
      State(rows, nextAttempt)
    }

    /** One key names one delivery: a retry reports that delivery, and sends nothing, unless the phone differs. */
    method BeginOtpDelivery(id: Id, phone: nat, otpHash: nat, key: nat, ttl: nat, settlement: nat, now: Instant)
      returns (result: BeginResult)
      requires Inv(Value()) && id !in rows
      modifies this
      ensures Value() == Apply(old(Value()), Begin(id, phone, otpHash, key, ttl, settlement, now)) && Inv(Value())
      ensures result.Created? <==> !KeyTaken(old(rows), key)
      ensures result.Created? ==> rows == old(rows)[id := rows[id]] && result.id == id && !rows[id].Usable()
      ensures !result.Created? ==> rows.Keys == old(rows).Keys
      ensures result.Existing? ==> result.id in rows && rows[result.id].idempotencyKey == key
      ensures result.Existing? ==> rows[result.id].phone == phone && rows[result.id].status == result.status
      ensures result.Conflict? ==> forall i | i in rows && rows[i].idempotencyKey == key :: rows[i].phone != phone
      ensures result.Created? <==> forall i | i in old(rows) :: old(rows)[i].idempotencyKey != key
      ensures result.Created? ==> rows == old(rows)[id := Delivery(phone, otpHash, key, old(nextAttempt), now + ttl,
        now + settlement, Pending, false, None, None, None, None, None, None, None)]
      ensures !result.Created? ==> forall i | i in rows ::
        rows[i] == (if old(rows)[i].idempotencyKey == key && old(rows)[i].phone == phone && old(rows)[i].status.Pending?
                       && old(rows)[i].settlementDeadline <= now
                    then old(rows)[i].(status := Unknown, errorCode := Some("delivery_unknown")) else old(rows)[i])
    {
      hide Inv, Apply, Settled;
      SettledColumns(rows, Begin(id, phone, otpHash, key, ttl, settlement, now));
      BeginKeepsInv(Value(), Begin(id, phone, otpHash, key, ttl, settlement, now));
      BeginEffect(Value(), Begin(id, phone, otpHash, key, ttl, settlement, now));
      if !KeyTaken(rows, key) {
        rows := rows[id := Delivery(phone, otpHash, key, nextAttempt, now + ttl, now + settlement, Pending, false,
                                    None, None, None, None, None, None, None)];
        nextAttempt := nextAttempt + 1;
        return Created(id);
      }
      rows := Settled(rows, Begin(id, phone, otpHash, key, ttl, settlement, now));
      nextAttempt := nextAttempt + 1;
      KeyIsUnique(Value());
      result := Report(rows, phone, key);
    }

    /** The two statements of `activate`: use up a superseded delivery, else use up its ancestors. */
    method Activate(id: Id, now: Instant)
      requires id in rows
      modifies this`rows
      ensures rows == Activated(old(rows), id, now)
    {
      var row := rows[id];
      if row.used {
        return;
      }
      var later := exists i | i in rows :: rows[i].phone == row.phone && rows[i].attempt > row.attempt && rows[i].sentAt.Some?;
      rows := map i | i in rows ::
        if i == id && (rows[i].expiresAt <= now || later) then rows[i].(used := true) else rows[i];
      var active := !rows[id].used;
      rows := map i | i in rows ::
        if rows[i].phone == row.phone && rows[i].attempt < row.attempt && !rows[i].used && active
        then rows[i].(used := true) else rows[i];
    }

    method MarkOtpAccepted(id: Id, phone: nat, transaction: nat, message: nat, now: Instant) returns (unexpired: bool)
      requires Inv(Value())
      modifies this`rows
      ensures Value() == Apply(old(Value()), Receipt(id, phone, transaction, message, now)) && Inv(Value())
      ensures var applies := id in old(rows) && old(rows)[id].phone == phone && !old(rows)[id].status.Failed?
          && (old(rows)[id].messageId.None? || old(rows)[id].messageId == Some(message))
          && (old(rows)[id].transactionId.None? || old(rows)[id].transactionId == Some(transaction));
        && (unexpired <==> applies && old(rows)[id].expiresAt > now)
        && (!applies ==> rows == old(rows))
    {
      ReceiptKeepsInv(Value(), Receipt(id, phone, transaction, message, now));
      if id !in rows || rows[id].phone != phone || !rows[id].MatchesReceipt(message, Some(transaction)) {
        return false;
      }
      if rows[id].status.Failed? {
        return false;
      }
      ActivationIsForward(rows, id, now);
      Activate(id, now);
      var d := rows[id];
      rows := rows[id := d.(status := if d.status.Sent? then Sent else Accepted, transactionId := Some(transaction),
                            messageId := Some(message), sentAt := OrElse(d.sentAt, now), errorCode := None)];
      return d.expiresAt > now;
    }

    method MarkOtpOutcome(id: Id, phone: nat, failed: bool, reason: string, now: Instant) returns (status: Status)
      requires Inv(Value())
      modifies this`rows
      ensures Value() == Apply(old(Value()), Outcome(id, phone, failed, reason, now)) && Inv(Value())
      ensures id in rows && rows[id].phone == phone ==> status == rows[id].status
      ensures var settles := id in old(rows) && old(rows)[id].phone == phone
          && (old(rows)[id].status.Pending? || old(rows)[id].status.Unknown?);
        rows == if !settles then old(rows) else old(rows)[id := old(rows)[id].(
          status := if failed then Failed else Unknown, errorCode := Some(reason),
          failedAt := if failed && old(rows)[id].failedAt.None? then Some(now) else old(rows)[id].failedAt)]
    {
      QuietOpKeepsInv(Value(), Outcome(id, phone, failed, reason, now));
      var outcome := if failed then Failed else Unknown;
      if id !in rows || rows[id].phone != phone {
        return outcome;
      }
      var d := rows[id];
      if !d.status.Pending? && !d.status.Unknown? {
        return d.status;
      }
      rows := rows[id := d.(status := outcome, errorCode := Some(reason),
                            failedAt := if failed then OrElse(d.failedAt, now) else d.failedAt)];
      return outcome;
    }

    method ApplySmsEvent(id: Id, sent: bool, message: nat, reported: Option<nat>, now: Instant)
      returns (result: CallbackResult)
      requires Inv(Value())
      modifies this`rows
      ensures Value() == Apply(old(Value()), Callback(id, sent, message, reported, now)) && Inv(Value())
      ensures result.Applied? <==> CallbackApplies(old(rows), Callback(id, sent, message, reported, now))
      ensures !result.Applied? ==> rows == old(rows)
      ensures result.Refused? <==>
        && id in old(rows)
        && !((old(rows)[id].messageId.None? || old(rows)[id].messageId == Some(message))
             && (old(rows)[id].transactionId.None? || reported.None? || old(rows)[id].transactionId == reported))
      ensures result.Ignored? <==>
        && !result.Refused?
        && (id !in old(rows) || old(rows)[id].status.Failed? || (old(rows)[id].status.Sent? && sent))
    {
      CallbackKeepsInv(Value(), Callback(id, sent, message, reported, now));
      if id !in rows {
        return Ignored;
      }
      if !rows[id].MatchesReceipt(message, reported) {
        return Refused;
      }
      if rows[id].status.Failed? || (rows[id].status.Sent? && sent) {
        return Ignored;
      }
      ActivationIsForward(rows, id, now);
      if sent {
        Activate(id, now);
      }
      var d := rows[id];
      rows := rows[id := d.(status := if sent then Sent else Failed, messageId := Some(message),
                            transactionId := if d.transactionId.Some? then d.transactionId else reported,
                            sentAt := if sent then OrElse(d.sentAt, now) else d.sentAt,
                            providerSentAt := if sent then OrElse(d.providerSentAt, now) else d.providerSentAt,
                            failedAt := if sent then d.failedAt else OrElse(d.failedAt, now),
                            errorCode := if sent then None else Some("provider_undelivered"),
                            lastWebhookAt := Some(now))];
      return Applied;
    }

    /** Verification uses up at most one code, and a refusal changes nothing. */
    method ConsumeOtp(phone: nat, otpHash: nat, now: Instant) returns (consumed: bool)
      requires Inv(Value())
      modifies this`rows
      ensures Value() == Apply(old(Value()), Consume(phone, otpHash, now)) && Inv(Value())
      ensures consumed <==> exists i :: i in old(rows) && Consumable(old(rows)[i], phone, otpHash, now)
      ensures forall i, j | i in rows && j in rows && rows[i] != old(rows)[i] && rows[j] != old(rows)[j] :: i == j
      ensures !consumed ==> rows == old(rows)
      ensures consumed <==>
        (exists i ::
           && i in old(rows) && old(rows)[i].phone == phone && old(rows)[i].otpHash == otpHash && !old(rows)[i].used
           && (old(rows)[i].status.Accepted? || old(rows)[i].status.Sent?) && old(rows)[i].expiresAt > now)
      ensures rows.Keys == old(rows).Keys
      ensures forall i | i in rows ::
        rows[i] == old(rows)[i].(used := old(rows)[i].used
          || (old(rows)[i].phone == phone && old(rows)[i].otpHash == otpHash
              && (old(rows)[i].status.Accepted? || old(rows)[i].status.Sent?) && old(rows)[i].expiresAt > now))
    {
      hide Inv, Apply, Consumed;
      ConsumedColumns(rows, phone, otpHash, now);
      QuietOpKeepsInv(Value(), Consume(phone, otpHash, now));
      ConsumeTouchesOne(Value(), phone, otpHash, now);
      var matching := set i | i in rows && Consumable(rows[i], phone, otpHash, now);
      consumed := |matching| == 1;
      rows := Consumed(rows, phone, otpHash, now);
    }
  }

  lemma ConsumeTouchesOne(s: State, phone: nat, otpHash: nat, now: Instant)
    requires Inv(s)
    ensures var after := Consumed(s.rows, phone, otpHash, now);
      var matching := set i | i in s.rows && Consumable(s.rows[i], phone, otpHash, now);
      && |matching| <= 1
      && (|matching| == 1 <==> exists i :: i in s.rows && Consumable(s.rows[i], phone, otpHash, now))
      && (|matching| == 0 ==> after == s.rows)
      && after.Keys == s.rows.Keys && Apply(s, Consume(phone, otpHash, now)) == s.(rows := after)
      && (forall i, j | i in after && j in after && after[i] != s.rows[i] && after[j] != s.rows[j] :: i == j)
  {
    ConsumableIsUnique(s, phone, otpHash, now);
    hide Inv;
    var matching := set i | i in s.rows && Consumable(s.rows[i], phone, otpHash, now);
    assert forall i | i in s.rows :: i in matching <==> Consumable(s.rows[i], phone, otpHash, now);
    if matching == {} {
      assert Consumed(s.rows, phone, otpHash, now) == s.rows;
    } else {
      var i :| i in matching;
      assert matching == {i};
    }
  }

  lemma SettledColumns(rows: Rows, op: Op)
    requires op.Begin?
    ensures Settled(rows, op).Keys == rows.Keys
    ensures forall i | i in rows ::
      Settled(rows, op)[i] ==
        if rows[i].idempotencyKey == op.key && rows[i].phone == op.phone && rows[i].status.Pending?
           && rows[i].settlementDeadline <= op.now
        then rows[i].(status := Unknown, errorCode := Some("delivery_unknown")) else rows[i]
  {
  }

  lemma BeginEffect(s: State, op: Op)
    requires op.Begin?
    ensures var after := Apply(s, op);
      && after.nextAttempt == s.nextAttempt + 1
      && (!KeyTaken(s.rows, op.key) ==> after.rows == s.rows[op.id := NewDelivery(s, op)])
      && (KeyTaken(s.rows, op.key) ==>
            && after.rows == Settled(s.rows, op) && after.rows.Keys == s.rows.Keys && KeyTaken(after.rows, op.key))
  {
    SettledKeepsKeys(s.rows, op, op.key);
  }

  lemma SettledKeepsKeys(rows: Rows, op: Op, key: nat)
    requires op.Begin?
    ensures var settled := Settled(rows, op);
      && settled.Keys == rows.Keys && (KeyTaken(rows, key) ==> KeyTaken(settled, key))
      && (forall i | i in rows :: settled[i].idempotencyKey == rows[i].idempotencyKey)
  {
    if KeyTaken(rows, key) {
      var i :| i in rows && rows[i].idempotencyKey == key;
      assert Settled(rows, op)[i].idempotencyKey == key;
    }
  }

  lemma KeyIsUnique(s: State)
    requires Inv(s)
    ensures forall i, j | i in s.rows && j in s.rows && s.rows[i].idempotencyKey == s.rows[j].idempotencyKey :: i == j
  {
  }

  lemma ConsumableIsUnique(s: State, phone: nat, otpHash: nat, now: Instant)
    requires Inv(s)
    ensures forall i, j | i in s.rows && j in s.rows && Consumable(s.rows[i], phone, otpHash, now)
              && Consumable(s.rows[j], phone, otpHash, now) :: i == j
  {
    forall i, j | i in s.rows && j in s.rows && Consumable(s.rows[i], phone, otpHash, now)
      && Consumable(s.rows[j], phone, otpHash, now)
      ensures i == j
    {
      assert AncestorsUsed(s.rows, s.rows[i].phone, s.rows[i].attempt);
      assert AncestorsUsed(s.rows, s.rows[j].phone, s.rows[j].attempt);
    }
  }
}
