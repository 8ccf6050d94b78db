// The transactional outbox: events that workers claim under leases, finish, retry or give up on.
// One `Op` is one SQL statement or transaction of the repository; a run is any interleaving of them.

module Outbox {
  import opened Options
  import Sql

  type EventId = nat
  type WorkerId = nat
  type Instant = int

  datatype Kind = AccountErase | SubscriptionReconcile | CustomerReconcile | NotificationPush | PhotoDelete

  datatype Status = Pending | Processing | Completed | DeadLetter | Discarded

  datatype Event = Event(
    kind: Kind,
    aggregate: nat,
    status: Status,
    attempts: nat,
    availableAt: Instant,
    createdAt: Instant,
    lockedAt: Option<Instant>,
    lockedBy: Option<WorkerId>,
    errorCode: Option<string>,
    processedAt: Option<Instant>,
    deadLetteredAt: Option<Instant>,
    resolvedAt: Option<Instant>)
  {
    predicate OwnedBy(worker: WorkerId) {
      status.Processing? && lockedBy == Some(worker)
    }

    predicate Claimable(now: Instant, staleBefore: Instant) {
      || (status.Pending? && availableAt <= now)
      || (status.Processing? && lockedAt.Some? && lockedAt.value <= staleBefore)
    }

    /** The row-level CHECK constraints of the table. */
    predicate Shape() {
      && (status.Processing? <==> lockedBy.Some?)
      && (status.Processing? <==> lockedAt.Some?)
      && (status.Completed? <==> processedAt.Some?)
      && (status.DeadLetter? || status.Discarded? <==> deadLetteredAt.Some?)
      && (status.Discarded? <==> resolvedAt.Some?)
    }

    /** The columns that requeueing, an operator's retry and a new row have in common. */
    function Restarted(now: Instant): Event {
      this.(status := Pending, attempts := 0, availableAt := now, lockedAt := None, lockedBy := None,
            errorCode := None, processedAt := None, deadLetteredAt := None, resolvedAt := None)
    }
  }

  type Table = map<EventId, Event>

  function NewEvent(kind: Kind, aggregate: nat, now: Instant): Event {
    Event(kind, aggregate, Pending, 0, now, now, None, None, None, None, None, None)
  }

  predicate SameKey(e: Event, kind: Kind, aggregate: nat) {
    e.kind == kind && e.aggregate == aggregate
  }

  predicate Taken(t: Table, kind: Kind, aggregate: nat) {
    exists i | i in t :: SameKey(t[i], kind, aggregate)
  }

  predicate Owned(t: Table, id: EventId, worker: WorkerId) {
    id in t && t[id].OwnedBy(worker)
  }

  /** UNIQUE (event_type, aggregate_id). */
  ghost predicate Unique(t: Table) {
    forall i, j | i in t && j in t && SameKey(t[i], t[j].kind, t[j].aggregate) :: i == j
  }

  ghost predicate Wellformed(t: Table) {
    Unique(t) && forall i | i in t :: t[i].Shape()
  }

  function ClaimOrder(t: Table): (EventId, EventId) -> bool {
    (a: EventId, b: EventId) => a in t && b in t &&
      (t[a].availableAt < t[b].availableAt ||
       (t[a].availableAt == t[b].availableAt &&
        (t[a].createdAt < t[b].createdAt || (t[a].createdAt == t[b].createdAt && a < b))))
  }

  function ClaimableRows(t: Table, now: Instant, staleBefore: Instant): set<EventId> {
    set i | i in t && t[i].Claimable(now, staleBefore)
  }

  function CompletedBefore(t: Table, before: Instant): set<EventId> {
    set i | i in t && t[i].status.Completed? && t[i].processedAt.Some? && t[i].processedAt.value <= before
  }

  function DiscardedBefore(t: Table, before: Instant): set<EventId> {
    set i | i in t && t[i].status.Discarded? && t[i].resolvedAt.Some? && t[i].resolvedAt.value <= before
  }

  function Purgeable(t: Table, before: Instant): set<EventId> {
    CompletedBefore(t, before) + DiscardedBefore(t, before)
  }

  function CleanupAt(e: Event): Instant {
    if e.status.Completed? && e.processedAt.Some? then e.processedAt.value
    else if e.resolvedAt.Some? then e.resolvedAt.value else 0
  }

  function PurgeOrder(t: Table): (EventId, EventId) -> bool {
    (a: EventId, b: EventId) => a in t && b in t &&
      (CleanupAt(t[a]) < CleanupAt(t[b]) || (CleanupAt(t[a]) == CleanupAt(t[b]) && a < b))
  }

  predicate DiscardAllowed(e: Event, photoExists: bool) {
    e.kind.NotificationPush? || (e.kind.PhotoDelete? && !photoExists)
  }

  datatype Op =
    | Enqueue(id: EventId, kind: Kind, aggregate: nat, now: Instant)
    | Requeue(id: EventId, kind: Kind, aggregate: nat, now: Instant)
    | Claim(worker: WorkerId, now: Instant, staleBefore: Instant, chosen: set<EventId>)
    | Renew(id: EventId, worker: WorkerId, now: Instant)
    | Complete(id: EventId, worker: WorkerId, now: Instant)
    | Reschedule(id: EventId, worker: WorkerId, availableAt: Instant, code: string, maxAttempts: nat, now: Instant)
    | Purge(before: Instant, chosen: set<EventId>)
    | Retry(id: EventId, now: Instant)
    | Discard(id: EventId, photoExists: bool, now: Instant)
    | Defer(id: EventId, worker: WorkerId, now: Instant)
    | Checkpoint(id: EventId, worker: WorkerId, now: Instant)
    | DropBilling(chosen: set<EventId>)

  const SECOND: int := 1_000

  predicate IsBilling(kind: Kind) {
    kind.SubscriptionReconcile? || kind.CustomerReconcile?
  }

  /** What the database lets an operation do: new ids are new, and a batch is a batch of eligible rows. */
  ghost predicate Enabled(t: Table, op: Op) {
    match op
    case Enqueue(id, _, _, _) => id !in t
    case Requeue(id, _, _, _) => id !in t
    case Claim(_, now, staleBefore, chosen) => chosen <= ClaimableRows(t, now, staleBefore)
    case Purge(before, chosen) => chosen <= Purgeable(t, before)
    case DropBilling(chosen) => chosen <= t.Keys && forall i | i in chosen :: IsBilling(t[i].kind)
    case _ => true
  }

  /** The effect of one operation on one row. */
  function RowAfter(id: EventId, e: Event, op: Op): Event {
    match op
    case Enqueue(_, _, _, _) => e
    case Requeue(_, kind, aggregate, now) =>
      if SameKey(e, kind, aggregate) then e.Restarted(now) else e
    case Claim(worker, now, _, chosen) =>
      if id in chosen
      then e.(status := Processing, attempts := e.attempts + 1, lockedAt := Some(now), lockedBy := Some(worker))
      else e
    case Renew(i, worker, now) =>
      if i == id && e.OwnedBy(worker) then e.(lockedAt := Some(now)) else e
    case Complete(i, worker, now) =>
      if i == id && e.OwnedBy(worker)
      then e.(status := Completed, processedAt := Some(now), lockedAt := None, lockedBy := None,
              errorCode := None, deadLetteredAt := None)
      else e
    case Reschedule(i, worker, availableAt, code, maxAttempts, now) =>
      if i == id && e.OwnedBy(worker)
      then e.(status := if e.attempts >= maxAttempts then DeadLetter else Pending,
              availableAt := availableAt, lockedAt := None, lockedBy := None, errorCode := Some(code),
              deadLetteredAt := if e.attempts >= maxAttempts then Some(now) else None)
      else e
    case Purge(_, _) => e
    case Retry(i, now) =>
      if i == id && e.status.DeadLetter? then e.Restarted(now) else e
    case Discard(i, photoExists, now) =>
      if i == id && e.status.DeadLetter? && DiscardAllowed(e, photoExists)
      then e.(status := Discarded, lockedAt := None, lockedBy := None, processedAt := None, resolvedAt := Some(now))
      else e
    case Defer(i, worker, now) =>
      if i == id && e.OwnedBy(worker)
      then e.(status := Pending, attempts := if e.attempts == 0 then 0 else e.attempts - 1,
              availableAt := now + 5 * SECOND, lockedAt := None, lockedBy := None)
      else e
    case Checkpoint(i, worker, now) =>
      if i == id && e.OwnedBy(worker)
      then e.(status := Pending, attempts := 0, availableAt := now + SECOND, lockedAt := None, lockedBy := None,
              errorCode := None)
      else e
    case DropBilling(_) => e
  }

  function Deleted(op: Op): set<EventId> {
    match op
    case Purge(_, chosen) => chosen
    case DropBilling(chosen) => chosen
    case _ => {}
  }

  function Inserted(t: Table, op: Op): map<EventId, Event> {
    match op
    case Enqueue(id, kind, aggregate, now) =>
      if Taken(t, kind, aggregate) then map[] else map[id := NewEvent(kind, aggregate, now)]
    case Requeue(id, kind, aggregate, now) =>
      if Taken(t, kind, aggregate) then map[] else map[id := NewEvent(kind, aggregate, now)]
    case _ => map[]
  }

  function Apply(t: Table, op: Op): Table {
    (map i | i in t && i !in Deleted(op) :: RowAfter(i, t[i], op)) + Inserted(t, op)
  }

  // ---------------------------------------------------------------- one step

  /** Every statement keeps the unique key and every CHECK constraint. */
  lemma ApplyKeepsWellformed(t: Table, op: Op)
    requires Wellformed(t) && Enabled(t, op)
    ensures Wellformed(Apply(t, op))
  {
    ApplyKeepsShape(t, op);
    ApplyKeepsUnique(t, op);
  }

  lemma ApplyKeepsShape(t: Table, op: Op)
    requires Enabled(t, op) && forall i | i in t :: t[i].Shape()
    ensures forall i | i in Apply(t, op) :: Apply(t, op)[i].Shape()
  {
    forall i | i in t && i !in Deleted(op) ensures RowAfter(i, t[i], op).Shape() {
      assert t[i].Shape();
    }
  }

  lemma ApplyKeepsUnique(t: Table, op: Op)
    requires Enabled(t, op) && Unique(t)
    ensures Unique(Apply(t, op))
  {
    forall i | i in t ensures SameKey(RowAfter(i, t[i], op), t[i].kind, t[i].aggregate) {
      RowKeepsKey(i, t[i], op);
    }
    hide RowAfter;
    assert forall i | i in t && Inserted(t, op) != map[] :: !SameKey(t[i], op.kind, op.aggregate);
  }

  lemma RowKeepsKey(id: EventId, e: Event, op: Op)
    ensures SameKey(RowAfter(id, e, op), e.kind, e.aggregate)
  {
  }

  /** The statements a worker issues for an event that it believes it holds. */
  predicate LeaseStatement(op: Op, id: EventId, worker: WorkerId) {
    && (op.Renew? || op.Complete? || op.Reschedule? || op.Defer? || op.Checkpoint?)
    && op.id == id && op.worker == worker
  }

  /** A worker whose lease is gone changes nothing: each of its statements leaves every row as it is. */
  lemma StatementsNeedTheLease(t: Table, id: EventId, worker: WorkerId, op: Op)
    requires !Owned(t, id, worker)
    requires LeaseStatement(op, id, worker)
    ensures Apply(t, op) == t
  {
  }

  /** Dead letters of a kind whose discard is refused, pending and processing rows survive every step but completion. */
  lemma LiveEventStays(t: Table, op: Op, id: EventId)
    requires Wellformed(t) && Enabled(t, op)
    requires id in t && t[id].kind.AccountErase?
    requires t[id].status.Pending? || t[id].status.Processing? || t[id].status.DeadLetter?
    requires op.Complete? ==> op.id != id
    ensures var u := Apply(t, op);
      && id in u && SameKey(u[id], t[id].kind, t[id].aggregate)
      && (u[id].status.Pending? || u[id].status.Processing? || u[id].status.DeadLetter?)
  {
  }

  // ---------------------------------------------------------------- whole runs

  ghost predicate Run(tables: seq<Table>, ops: seq<Op>) {
    && |tables| == |ops| + 1
    && forall i | 0 <= i < |ops| :: Enabled(tables[i], ops[i]) && tables[i + 1] == Apply(tables[i], ops[i])
  }

  lemma {:induction false} RunKeepsWellformed(tables: seq<Table>, ops: seq<Op>, n: nat)
    requires Run(tables, ops) && Wellformed(tables[0]) && n < |tables|
    ensures Wellformed(tables[n])
  {
    if n > 0 {
      RunKeepsWellformed(tables, ops, n - 1);
      ApplyKeepsWellformed(tables[n - 1], ops[n - 1]);
    }
  }

  /** A step that sets `attempts` of the row back to 0, or makes or removes the row. */
  predicate Resets(t: Table, op: Op, id: EventId) {
    || id !in t || id in Deleted(op)
    || (op.Requeue? && SameKey(t[id], op.kind, op.aggregate))
    || (op.Retry? && op.id == id && t[id].status.DeadLetter?)
    || (op.Checkpoint? && op.id == id && t[id].OwnedBy(op.worker))
  }

  /** A `reschedule` call of the row's lease holder that answers `pending`. */
  predicate Retries(t: Table, op: Op, id: EventId) {
    op.Reschedule? && op.id == id && Owned(t, id, op.worker) && t[id].attempts < op.maxAttempts
  }

  /** How many of the first n steps retried the event since its attempts were last reset. */
  function RetriesSinceReset(tables: seq<Table>, ops: seq<Op>, id: EventId, n: nat): nat
    requires n <= |ops| && n < |tables|
  {
    if n == 0 then 0
    else if Resets(tables[n - 1], ops[n - 1], id) then 0
    else RetriesSinceReset(tables, ops, id, n - 1) + if Retries(tables[n - 1], ops[n - 1], id) then 1 else 0
  }

  /**
   * Retry budget: whatever takeovers and deferrals happen, an event is retried at most maxAttempts - 1 times
   * between two resets, and every retry (and a lease in progress) is covered by its own attempt.
   */
  lemma {:induction false} RetryBudget(tables: seq<Table>, ops: seq<Op>, id: EventId, maxAttempts: nat, n: nat)
    requires Run(tables, ops) && n < |tables| && tables[0] == map[]
    requires maxAttempts > 0 && forall op | op in ops && op.Reschedule? :: op.maxAttempts <= maxAttempts
    ensures RetriesSinceReset(tables, ops, id, n) <= maxAttempts - 1
    ensures id in tables[n] ==>
      RetriesSinceReset(tables, ops, id, n) + (if tables[n][id].status.Processing? then 1 else 0) <= tables[n][id].attempts
  {
    hide Apply, Enabled;
    if n > 0 {
      RetryBudget(tables, ops, id, maxAttempts, n - 1);
      assert ops[n - 1] in ops;
      AttemptCoversRetry(tables[n - 1], ops[n - 1], id, RetriesSinceReset(tables, ops, id, n - 1));
    }
  }

  /** One step of the budget: `retries` past retries, and the lease in progress, are covered by `attempts`. */
  lemma AttemptCoversRetry(t: Table, op: Op, id: EventId, retries: nat)
    requires Enabled(t, op)
    requires id in t ==> retries + (if t[id].status.Processing? then 1 else 0) <= t[id].attempts
    ensures var u := Apply(t, op);
      var total := if Resets(t, op, id) then 0 else retries + if Retries(t, op, id) then 1 else 0;
      && (id in u ==> total + (if u[id].status.Processing? then 1 else 0) <= u[id].attempts)
      && (Retries(t, op, id) ==> retries + 1 < op.maxAttempts)
  {
  }

  predicate ClaimsFor(op: Op, id: EventId, worker: WorkerId) {
    op.Claim? && op.worker == worker && id in op.chosen
  }

  /**
   * Lease fencing: once a worker does not hold an event, it does not hold it again before it claims it again,
   * so none of its late completions, retries, deferrals or checkpoints in between has any effect.
   */
  lemma {:induction false} LostLeaseStaysLost(tables: seq<Table>, ops: seq<Op>, id: EventId, worker: WorkerId, n: nat)
    requires Run(tables, ops) && n < |tables| && !Owned(tables[0], id, worker)
    requires forall op | op in ops :: !ClaimsFor(op, id, worker)
    ensures !Owned(tables[n], id, worker)
    ensures n < |ops| && LeaseStatement(ops[n], id, worker) ==> tables[n + 1] == tables[n]
  {
    if n > 0 {
      LostLeaseStaysLost(tables, ops, id, worker, n - 1);
      assert ops[n - 1] in ops;
    }
    if n < |ops| && LeaseStatement(ops[n], id, worker) {
      StatementsNeedTheLease(tables[n], id, worker, ops[n]);
    }
  }

  predicate HeldIn(t: Table, id: EventId, worker: WorkerId) {
    id in t && t[id].status.Processing? && t[id].lockedBy == Some(worker)
  }

  /** The worker has just claimed the event, or renewed its lease on it. */
  predicate TakesLease(t: Table, op: Op, id: EventId, worker: WorkerId) {
    || (op.Claim? && op.worker == worker && id in op.chosen && id in t)
    || (op.Renew? && op.worker == worker && op.id == id && HeldIn(t, id, worker))
  }

  /** A statement of the owner that ends its lease, or a statement that takes the event away from everybody. */
  predicate Releases(op: Op, id: EventId, worker: WorkerId, kind: Kind, aggregate: nat) {
    || ((op.Complete? || op.Reschedule? || op.Defer? || op.Checkpoint?) && op.id == id && op.worker == worker)
    || (op.Requeue? && op.kind == kind && op.aggregate == aggregate)
    || (op.DropBilling? && id in op.chosen)
  }

  /** The statement respects a lease taken at `since`: it is no claim that thinks it stale, and no renewal of before. */
  predicate Respects(op: Op, since: Instant) {
    (op.Claim? ==> op.staleBefore < since <= op.now) && (op.Renew? ==> since <= op.now)
  }

  predicate HeldSince(t: Table, id: EventId, worker: WorkerId, since: Instant) {
    && id in t && t[id].status.Processing? && t[id].lockedBy == Some(worker)
    && t[id].lockedAt.Some? && t[id].lockedAt.value >= since
  }

  lemma LeaseHolds(t: Table, op: Op, id: EventId, worker: WorkerId, since: Instant)
    requires Enabled(t, op) && HeldSince(t, id, worker, since) && Respects(op, since)
    requires !Releases(op, id, worker, t[id].kind, t[id].aggregate)
    ensures HeldSince(Apply(t, op), id, worker, since)
    ensures Apply(t, op)[id].kind == t[id].kind && Apply(t, op)[id].aggregate == t[id].aggregate
  {
  }

  lemma LeaseTaken(t: Table, op: Op, id: EventId, worker: WorkerId)
    requires Enabled(t, op) && TakesLease(t, op, id, worker)
    ensures HeldSince(Apply(t, op), id, worker, op.now)
    ensures Apply(t, op)[id].kind == t[id].kind && Apply(t, op)[id].aggregate == t[id].aggregate
  {
  }

  /**
   * A live lease is not taken over: from a claim or a renewal on, while no claim thinks leases of that time stale,
   * the event stays with its worker until that worker's own statement, or a requeue or removal, releases it.
   */
  lemma {:induction false} LiveLeaseIsKept(tables: seq<Table>, ops: seq<Op>, id: EventId, worker: WorkerId, m: nat, n: nat)
    requires Run(tables, ops) && m < n < |tables| && TakesLease(tables[m], ops[m], id, worker)
    requires forall k | m < k < n :: Respects(ops[k], ops[m].now)
    requires forall k | m < k < n :: !Releases(ops[k], id, worker, tables[m][id].kind, tables[m][id].aggregate)
    ensures HeldSince(tables[n], id, worker, ops[m].now)
    ensures tables[n][id].kind == tables[m][id].kind && tables[n][id].aggregate == tables[m][id].aggregate
  {
    hide Apply, Enabled, Respects, Releases;
    if n == m + 1 {
      LeaseTaken(tables[m], ops[m], id, worker);
    } else {
      LiveLeaseIsKept(tables, ops, id, worker, m, n - 1);
      LeaseHolds(tables[n - 1], ops[n - 1], id, worker, ops[m].now);
    }
  }

  // ---------------------------------------------------------------- the repository

  /** The subquery of the purge: each branch limited, then the merged branches limited again. */
  method PurgeSelection(t: Table, before: Instant, limit: nat) returns (chosen: set<EventId>)
    ensures Sql.Limited(Purgeable(t, before), PurgeOrder(t), limit, chosen)
  {
    var completed := CompletedBefore(t, before);
    var discarded := DiscardedBefore(t, before);
    PurgeOrderIsStrict(t, completed + discarded);
    var a := Sql.Limit(completed, PurgeOrder(t), limit);
    var b := Sql.Limit(discarded, PurgeOrder(t), limit);
    PurgeOrderIsStrict(t, a + b);
    chosen := Sql.Limit(a + b, PurgeOrder(t), limit);
    Sql.LimitThenMerge(completed, discarded, PurgeOrder(t), limit, a, b, chosen);
  }

  method ClaimSelection(t: Table, now: Instant, staleBefore: Instant, limit: nat, lockedElsewhere: set<EventId>)
    returns (chosen: set<EventId>)
    ensures Sql.Limited(ClaimableRows(t, now, staleBefore) - lockedElsewhere, ClaimOrder(t), limit, chosen)
  {
    var candidates := ClaimableRows(t, now, staleBefore) - lockedElsewhere;
    ClaimOrderIsStrict(t, candidates);
    chosen := Sql.Limit(candidates, ClaimOrder(t), limit);
  }

  datatype RetryResult = Retried | DeadLettered | NotOwned

  datatype OperatorResult = Updated | NotFound | NotDeadLetter | DiscardNotAllowed

  lemma ClaimOrderIsStrict(t: Table, rows: set<EventId>)
    requires rows <= t.Keys
    ensures Sql.StrictOrder(rows, ClaimOrder(t))
  {
  }

  lemma PurgeOrderIsStrict(t: Table, rows: set<EventId>)
    requires rows <= t.Keys
    ensures Sql.StrictOrder(rows, PurgeOrder(t))
  {
  }

  /** The claimable rows by their columns: due and waiting, or under a stale lease. */
  lemma ClaimWindow(t: Table, now: Instant, staleBefore: Instant, i: EventId)
    ensures i in ClaimableRows(t, now, staleBefore) <==>
      && i in t
      && (|| (t[i].status.Pending? && t[i].availableAt <= now)
          || (t[i].status.Processing? && t[i].lockedAt.Some? && t[i].lockedAt.value <= staleBefore))
  {
  }

  /** ... of which a claim takes the first, or all if there is room. */
  lemma ClaimColumns(t: Table, now: Instant, staleBefore: Instant, limit: nat, lockedElsewhere: set<EventId>,
      claimed: set<EventId>)
    requires Sql.Limited(ClaimableRows(t, now, staleBefore) - lockedElsewhere, ClaimOrder(t), limit, claimed)
    ensures |claimed| <= limit
    ensures forall i | i in claimed ::
      && i in t && i !in lockedElsewhere
      && (|| (t[i].status.Pending? && t[i].availableAt <= now)
          || (t[i].status.Processing? && t[i].lockedAt.Some? && t[i].lockedAt.value <= staleBefore))
    ensures |claimed| < limit ==>
      (forall i | i in t && i !in lockedElsewhere && i !in claimed ::
         && !(t[i].status.Pending? && t[i].availableAt <= now)
         && !(t[i].status.Processing? && t[i].lockedAt.Some? && t[i].lockedAt.value <= staleBefore))
  {
    hide ClaimableRows;
    Sql.ShortMeansAll(ClaimableRows(t, now, staleBefore) - lockedElsewhere, ClaimOrder(t), limit, claimed);
    forall i ensures i in ClaimableRows(t, now, staleBefore) <==>
        && i in t
        && (|| (t[i].status.Pending? && t[i].availableAt <= now)
            || (t[i].status.Processing? && t[i].lockedAt.Some? && t[i].lockedAt.value <= staleBefore)) {
      ClaimWindow(t, now, staleBefore, i);
    }
  }

  lemma ClaimIsOldestFirst(t: Table, now: Instant, staleBefore: Instant, limit: nat, lockedElsewhere: set<EventId>,
      claimed: set<EventId>, c: EventId, r: EventId)
    requires Sql.Limited(ClaimableRows(t, now, staleBefore) - lockedElsewhere, ClaimOrder(t), limit, claimed)
    requires c in claimed && r in ClaimableRows(t, now, staleBefore) - lockedElsewhere - claimed
    ensures c in t && r in t
    ensures || t[c].availableAt < t[r].availableAt
            || (t[c].availableAt == t[r].availableAt && t[c].createdAt < t[r].createdAt)
            || (t[c].availableAt == t[r].availableAt && t[c].createdAt == t[r].createdAt && c < r)
  {
    assert ClaimOrder(t)(c, r);
  }

  /** The rows of a purge by their columns: finished since long, and all such rows if there is room. */
  lemma PurgeColumns(t: Table, before: Instant, limit: nat, doomed: set<EventId>)
    requires Sql.Limited(Purgeable(t, before), PurgeOrder(t), limit, doomed)
    ensures doomed <= t.Keys && |doomed| <= limit
    ensures forall i | i in doomed ::
      || (t[i].status.Completed? && t[i].processedAt.Some? && t[i].processedAt.value <= before)
      || (t[i].status.Discarded? && t[i].resolvedAt.Some? && t[i].resolvedAt.value <= before)
    ensures |doomed| < limit ==>
      (forall i | i in t && i !in doomed ::
         && !(t[i].status.Completed? && t[i].processedAt.Some? && t[i].processedAt.value <= before)
         && !(t[i].status.Discarded? && t[i].resolvedAt.Some? && t[i].resolvedAt.value <= before))
  {
    hide Purgeable, PurgeOrder;
    Sql.ShortMeansAll(Purgeable(t, before), PurgeOrder(t), limit, doomed);
    forall i ensures i in Purgeable(t, before) <==>
        && i in t
        && (|| (t[i].status.Completed? && t[i].processedAt.Some? && t[i].processedAt.value <= before)
            || (t[i].status.Discarded? && t[i].resolvedAt.Some? && t[i].resolvedAt.value <= before)) {
      PurgeWindow(t, before, i);
    }
  }

  lemma PurgeWindow(t: Table, before: Instant, i: EventId)
    ensures i in Purgeable(t, before) <==>
      && i in t
      && (|| (t[i].status.Completed? && t[i].processedAt.Some? && t[i].processedAt.value <= before)
          || (t[i].status.Discarded? && t[i].resolvedAt.Some? && t[i].resolvedAt.value <= before))
  {
  }

  /** Of two completed events the one completed earlier goes first, and so for two discarded ones. */
  lemma PurgeIsOldestFirst(t: Table, before: Instant, limit: nat, doomed: set<EventId>, d: EventId, r: EventId)
    requires Wellformed(t) && Sql.Limited(Purgeable(t, before), PurgeOrder(t), limit, doomed)
    requires d in doomed && r in Purgeable(t, before) - doomed
    ensures t[d].status.Completed? && t[r].status.Completed? ==> t[d].processedAt.value <= t[r].processedAt.value
    ensures t[d].status.Discarded? && t[r].status.Discarded? ==> t[d].resolvedAt.value <= t[r].resolvedAt.value
    ensures t[d].status.Completed? && t[r].status.Discarded? ==> t[d].processedAt.value <= t[r].resolvedAt.value
    ensures t[d].status.Discarded? && t[r].status.Completed? ==> t[d].resolvedAt.value <= t[r].processedAt.value
  {
    assert PurgeOrder(t)(d, r);
    assert t[d].Shape() && t[r].Shape();
  }

  lemma ClaimedColumns(t: Table, worker: WorkerId, now: Instant, chosen: set<EventId>)
    ensures forall i | i in t :: i in Claimed(t, worker, now, chosen) && Claimed(t, worker, now, chosen)[i] == (if i in chosen
      then t[i].(status := Processing, attempts := t[i].attempts + 1, lockedAt := Some(now), lockedBy := Some(worker))
      else t[i])
  {
  }

  class Repository {
    var events: Table

    constructor ()
      ensures events == map[]
    {
      events := map[];
    }

    method Enqueue(id: EventId, kind: Kind, aggregate: nat, now: Instant) returns (inserted: bool)
      requires id !in events
      modifies this
      ensures events == Apply(old(events), Op.Enqueue(id, kind, aggregate, now))
      ensures inserted <==>
        !(exists i :: i in old(events) && old(events)[i].kind == kind && old(events)[i].aggregate == aggregate)
      ensures events == if inserted
        then old(events)[id := Event(kind, aggregate, Pending, 0, now, now, None, None, None, None, None, None)]
        else old(events)
    {
      inserted := !Taken(events, kind, aggregate);
      if inserted {
        events := events[id := NewEvent(kind, aggregate, now)];
      }
    }

    method Requeue(id: EventId, kind: Kind, aggregate: nat, now: Instant)
      requires id !in events && Wellformed(events)
      modifies this
      ensures events == Apply(old(events), Op.Requeue(id, kind, aggregate, now))
      ensures exists i ::
        && i in events && events[i].kind == kind && events[i].aggregate == aggregate
        && events[i].status.Pending? && events[i].attempts == 0 && events[i].availableAt == now
        && events[i].lockedAt.None? && events[i].lockedBy.None? && events == old(events)[i := events[i]]
    {
      if Taken(events, kind, aggregate) {
        var conflicting :| conflicting in events && SameKey(events[conflicting], kind, aggregate);
        events := events[conflicting := events[conflicting].Restarted(now)];
        assert conflicting in events && events[conflicting].status.Pending?;
      } else {
        events := events[id := NewEvent(kind, aggregate, now)];
        assert id in events && events[id].status.Pending?;
      }
    }

    /** `lockedElsewhere` are the rows that SKIP LOCKED passes over. */
    method ClaimBatch(worker: WorkerId, now: Instant, staleBefore: Instant, limit: nat, lockedElsewhere: set<EventId>)
      returns (claimed: set<EventId>)
      modifies this
      ensures Sql.Limited(ClaimableRows(old(events), now, staleBefore) - lockedElsewhere,
                          ClaimOrder(old(events)), limit, claimed)
      ensures events == Apply(old(events), Op.Claim(worker, now, staleBefore, claimed))
      ensures forall i | i in claimed ::
        && i in old(events) && i !in lockedElsewhere
        && (|| (old(events)[i].status.Pending? && old(events)[i].availableAt <= now)
            || (old(events)[i].status.Processing? && old(events)[i].lockedAt.Some?
                && old(events)[i].lockedAt.value <= staleBefore))
      ensures |claimed| <= limit
      ensures |claimed| < limit ==>
        (forall i | i in old(events) && i !in lockedElsewhere && i !in claimed ::
           && !(old(events)[i].status.Pending? && old(events)[i].availableAt <= now)
           && !(old(events)[i].status.Processing? && old(events)[i].lockedAt.Some?
                && old(events)[i].lockedAt.value <= staleBefore))
      ensures forall i | i in old(events) :: i in events && events[i] == (if i in claimed
        then old(events)[i].(status := Processing, attempts := old(events)[i].attempts + 1, lockedAt := Some(now),
                             lockedBy := Some(worker))
        else old(events)[i])
    {
      hide ClaimableRows, Apply, Claimed, ClaimOrder, Sql.Limited;
      claimed := ClaimSelection(events, now, staleBefore, limit, lockedElsewhere);
      ClaimColumns(events, now, staleBefore, limit, lockedElsewhere, claimed);
      ClaimedColumns(events, worker, now, claimed);
      ClaimEffect(events, worker, now, staleBefore, claimed);
      events := Claimed(events, worker, now, claimed);
    }

    method RenewClaim(id: EventId, worker: WorkerId, now: Instant) returns (renewed: bool)
      modifies this
      ensures events == Apply(old(events), Op.Renew(id, worker, now))
      ensures renewed == Owned(old(events), id, worker)
      ensures renewed <==> id in old(events) && old(events)[id].status.Processing? && old(events)[id].lockedBy == Some(worker)
      ensures events == if renewed then old(events)[id := old(events)[id].(lockedAt := Some(now))] else old(events)
    {
      renewed := id in events && events[id].OwnedBy(worker);
      if renewed {
        events := events[id := events[id].(lockedAt := Some(now))];
      }
    }

    method Complete(id: EventId, worker: WorkerId, processedAt: Instant) returns (completed: bool)
      modifies this
      ensures events == Apply(old(events), Op.Complete(id, worker, processedAt))
      ensures completed == Owned(old(events), id, worker)
      ensures completed <==> id in old(events) && old(events)[id].status.Processing? && old(events)[id].lockedBy == Some(worker)
      ensures events == if completed
        then old(events)[id := old(events)[id].(status := Completed, processedAt := Some(processedAt), lockedAt := None,
                                                lockedBy := None, errorCode := None, deadLetteredAt := None)]
        else old(events)
    {
      completed := id in events && events[id].OwnedBy(worker);
      if completed {
        events := events[id := events[id].(status := Completed, processedAt := Some(processedAt), lockedAt := None,
                                           lockedBy := None, errorCode := None, deadLetteredAt := None)];
      }
    }

    method Reschedule(id: EventId, worker: WorkerId, availableAt: Instant, code: string, maxAttempts: nat, now: Instant)
      returns (result: RetryResult)
      modifies this
      ensures events == Apply(old(events), Op.Reschedule(id, worker, availableAt, code, maxAttempts, now))
      ensures result.Retried? <==>
        Retries(old(events), Op.Reschedule(id, worker, availableAt, code, maxAttempts, now), id)
      ensures result.NotOwned? <==> !Owned(old(events), id, worker)
      ensures result.NotOwned? <==>
        !(id in old(events) && old(events)[id].status.Processing? && old(events)[id].lockedBy == Some(worker))
      ensures result.DeadLettered? ==> old(events)[id].attempts >= maxAttempts
      ensures result.Retried? ==> old(events)[id].attempts < maxAttempts
      ensures result.NotOwned? ==> events == old(events)
      ensures !result.NotOwned? ==> events == old(events)[id := old(events)[id].(
        status := if result.DeadLettered? then DeadLetter else Pending, availableAt := availableAt, lockedAt := None,
        lockedBy := None, errorCode := Some(code), deadLetteredAt := if result.DeadLettered? then Some(now) else None)]
    {
      if id !in events || !events[id].OwnedBy(worker) {
        return NotOwned;
      }
      var e := events[id].(availableAt := availableAt, lockedAt := None, lockedBy := None, errorCode := Some(code));
      if e.attempts >= maxAttempts {
        events := events[id := e.(status := DeadLetter, deadLetteredAt := Some(now))];
        return DeadLettered;
      }
      events := events[id := e.(status := Pending, deadLetteredAt := None)];
      return Retried;
    }

    /** Both branches are cut to `limit` before the merge; the rows that go are the oldest of all purgeable rows. */
    method PurgeCompleted(before: Instant, limit: nat) returns (purged: nat, ghost doomed: set<EventId>)
      modifies this
      ensures Sql.Limited(Purgeable(old(events), before), PurgeOrder(old(events)), limit, doomed)
      ensures events == Apply(old(events), Op.Purge(before, doomed))
      ensures purged == |doomed|
      ensures events == old(events) - doomed
      ensures forall i | i in doomed ::
        && i in old(events)
        && (|| (old(events)[i].status.Completed? && old(events)[i].processedAt.Some?
                && old(events)[i].processedAt.value <= before)
            || (old(events)[i].status.Discarded? && old(events)[i].resolvedAt.Some?
                && old(events)[i].resolvedAt.value <= before))
      ensures purged <= limit
      ensures purged < limit ==>
        (forall i | i in events ::
           && !(events[i].status.Completed? && events[i].processedAt.Some? && events[i].processedAt.value <= before)
           && !(events[i].status.Discarded? && events[i].resolvedAt.Some? && events[i].resolvedAt.value <= before))
    {
      hide Apply, Purgeable, PurgeOrder, Sql.Limited;
      var chosen := PurgeSelection(events, before, limit);
      doomed := chosen;
      PurgeColumns(events, before, limit, chosen);
      PurgeEffect(events, before, chosen);
      events := events - chosen;
      purged := |chosen|;
    }

    method RetryDeadLetter(id: EventId, now: Instant) returns (result: OperatorResult)
      modifies this
      ensures events == Apply(old(events), Op.Retry(id, now))
      ensures result.Updated? <==> id in old(events) && old(events)[id].status.DeadLetter?
      ensures result.NotFound? <==> id !in old(events)
      ensures result in {Updated, NotFound, NotDeadLetter}
      ensures events == if result.Updated?
        then old(events)[id := old(events)[id].(status := Pending, attempts := 0, availableAt := now, lockedAt := None,
          lockedBy := None, errorCode := None, processedAt := None, deadLetteredAt := None, resolvedAt := None)]
        else old(events)
    {
      if id !in events {
        return NotFound;
      }
      if !events[id].status.DeadLetter? {
        return NotDeadLetter;
      }
      events := events[id := events[id].Restarted(now)];
      return Updated;
    }

    method DiscardDeadLetter(id: EventId, photoExists: bool, now: Instant) returns (result: OperatorResult)
      modifies this
      ensures events == Apply(old(events), Op.Discard(id, photoExists, now))
      ensures result.Updated? ==> id in events && events[id].status.Discarded? && !events[id].kind.AccountErase?
      ensures result.Updated? <==> id in old(events) && old(events)[id].status.DeadLetter?
                                   && DiscardAllowed(old(events)[id], photoExists)
      ensures result.Updated? <==>
        && id in old(events) && old(events)[id].status.DeadLetter?
        && (old(events)[id].kind.NotificationPush? || (old(events)[id].kind.PhotoDelete? && !photoExists))
      ensures result.NotFound? <==> id !in old(events)
      ensures result.NotDeadLetter? <==> id in old(events) && !old(events)[id].status.DeadLetter?
      ensures events == if result.Updated?
        then old(events)[id := old(events)[id].(status := Discarded, lockedAt := None, lockedBy := None,
                                                processedAt := None, resolvedAt := Some(now))]
        else old(events)
    {
      if id !in events {
        return NotFound;
      }
      var e := events[id];
      if !e.status.DeadLetter? {
        return NotDeadLetter;
      }
      if !e.kind.NotificationPush? {
        if !e.kind.PhotoDelete? || photoExists {
          return DiscardNotAllowed;
        }
      }
      events := events[id := e.(status := Discarded, lockedAt := None, lockedBy := None, processedAt := None,
                                resolvedAt := Some(now))];
      return Updated;
    }
  }

  /** `u` is `t` without the rows `gone`, all of them purgeable. */
  ghost predicate Purged(t: Table, before: Instant, gone: set<EventId>, u: Table) {
    gone <= Purgeable(t, before) && u == t - gone
  }

  lemma PurgedFurther(t: Table, before: Instant, gone: set<EventId>, u: Table, chosen: set<EventId>)
    returns (more: set<EventId>)
    requires Purged(t, before, gone, u) && chosen <= Purgeable(u, before)
    ensures Purged(t, before, more, u - chosen) && |more| == |gone| + |chosen|
  {
    more := gone + chosen;
    PurgeableAfter(t, before, gone);
    assert u - chosen == t - (gone + chosen);
  }

  /**
   * The worker's retention sweep. It deletes purgeable rows only, `purged` of them, and when it reports that no
   * work remains there is none left; fewer purgeable rows than its budget are always all deleted.
   */
  method PurgeCompleted(outbox: Repository, before: Instant, batchSize: nat, maxBatches: nat)
    returns (purged: nat, batches: nat, workRemaining: bool)
    modifies outbox
    ensures exists gone :: Purged(old(outbox.events), before, gone, outbox.events) && |gone| == purged
    ensures batches <= maxBatches
    ensures maxBatches > 0 && !workRemaining ==> Purgeable(outbox.events, before) == {}
    ensures workRemaining ==> |Purgeable(old(outbox.events), before)| >= batchSize * maxBatches
  {
    purged, batches := 0, 0;
    var lastBatchSize := 0;
    ghost var gone := {};
    while batches < maxBatches
      invariant batches <= maxBatches
      invariant purged == batchSize * batches
      invariant batches > 0 ==> lastBatchSize == batchSize
      invariant Purged(old(outbox.events), before, gone, outbox.events)
      invariant |gone| == purged
    {
      assert batchSize * (batches + 1) == batchSize * batches + batchSize;
      lastBatchSize, gone := PurgeBatch(old(outbox.events), gone, outbox, before, batchSize);
      purged := purged + lastBatchSize;
      if lastBatchSize < batchSize {
        return purged, batches + 1, false;
      }
      batches := batches + 1;
    }
    Sql.SubsetSize(gone, Purgeable(old(outbox.events), before));
    workRemaining := lastBatchSize >= batchSize;
  }

  method PurgeBatch(ghost start: Table, ghost gone: set<EventId>, outbox: Repository, before: Instant, batchSize: nat)
    returns (size: nat, ghost more: set<EventId>)
    requires Purged(start, before, gone, outbox.events)
    modifies outbox
    ensures Purged(start, before, more, outbox.events) && |more| == |gone| + size && size <= batchSize
    ensures size < batchSize ==> Purgeable(outbox.events, before) == {}
  {
    ghost var t := outbox.events;
    ghost var chosen;
    size, chosen := outbox.PurgeCompleted(before, batchSize);
    PurgeStep(t, before, batchSize, chosen);
    more := PurgedFurther(start, before, gone, t, chosen);
  }

  lemma PurgeStep(t: Table, before: Instant, limit: nat, chosen: set<EventId>)
    requires Sql.Limited(Purgeable(t, before), PurgeOrder(t), limit, chosen)
    ensures chosen <= Purgeable(t, before) && |chosen| <= limit
    ensures Apply(t, Op.Purge(before, chosen)) == t - chosen
    ensures |chosen| < limit ==> Purgeable(t - chosen, before) == {}
  {
    PurgeEffect(t, before, chosen);
    PurgeableAfter(t, before, chosen);
    Sql.ShortMeansAll(Purgeable(t, before), PurgeOrder(t), limit, chosen);
  }

  lemma PurgeEffect(t: Table, before: Instant, chosen: set<EventId>)
    requires chosen <= t.Keys
    ensures Apply(t, Purge(before, chosen)) == t - chosen
  {
  }

  lemma PurgeableAfter(t: Table, before: Instant, chosen: set<EventId>)
    requires chosen <= Purgeable(t, before)
    ensures Purgeable(t - chosen, before) == Purgeable(t, before) - chosen
  {
  }

  lemma EnqueueEffect(t: Table, id: EventId, kind: Kind, aggregate: nat, now: Instant)
    requires id !in t
    ensures Apply(t, Enqueue(id, kind, aggregate, now))
      == if Taken(t, kind, aggregate) then t else t[id := NewEvent(kind, aggregate, now)]
  {
  }

  lemma ClaimEffect(t: Table, worker: WorkerId, now: Instant, staleBefore: Instant, chosen: set<EventId>)
    ensures Apply(t, Claim(worker, now, staleBefore, chosen)) == Claimed(t, worker, now, chosen)
  {
  }

  /** UPDATE ... SET status = 'processing' ... FROM candidates. */
  function Claimed(t: Table, worker: WorkerId, now: Instant, chosen: set<EventId>): Table {
    map i | i in t ::
      if i in chosen
      then t[i].(status := Processing, attempts := t[i].attempts + 1, lockedAt := Some(now), lockedBy := Some(worker))
      else t[i]
  }

  // ---------------------------------------------------------------- the worker's handling of one event

  const MAX_ATTEMPTS := 10
  const MAX_RETRY_DELAY_MILLIS := 60_000

  function Doubled(n: nat): nat
    ensures Doubled(n) >= 1
  {
    if n == 0 then 1 else 2 * Doubled(n - 1)
  }

  function RetryDelayMillis(attempts: nat): (delay: nat)
    ensures 1_000 <= delay <= MAX_RETRY_DELAY_MILLIS
  {
    var backoff := 1_000 * Doubled(if attempts > 0 then attempts - 1 else 0);
    if backoff < MAX_RETRY_DELAY_MILLIS then backoff else MAX_RETRY_DELAY_MILLIS
  }

  /** Waiting never gets shorter with another attempt, doubles until the sixth and is a minute from the seventh on. */
  lemma {:induction false} RetryDelayGrows(attempts: nat)
    ensures RetryDelayMillis(attempts) <= RetryDelayMillis(attempts + 1)
    ensures 1 <= attempts < 6 ==> RetryDelayMillis(attempts + 1) == 2 * RetryDelayMillis(attempts)
    ensures attempts <= 1 ==> RetryDelayMillis(attempts) == 1_000
    ensures attempts >= 7 ==> RetryDelayMillis(attempts) == 60_000
  {
    assert Doubled(1) == 2 && Doubled(2) == 4 && Doubled(3) == 8 && Doubled(4) == 16 && Doubled(5) == 32;
    if attempts >= 7 {
      AtLeast64(attempts - 1);
    }
  }

  lemma {:induction false} AtLeast64(n: nat)
    requires n >= 6
    ensures Doubled(n) >= 64
  {
    if n == 6 {
      assert Doubled(3) == 8;
      assert Doubled(6) == 8 * Doubled(3);
    } else {
      AtLeast64(n - 1);
    }
  }

  /** How the handler of an event ended. */
  datatype Dispatch = Done | Later | Threw(code: string, permanent: bool)

  datatype Handling = NotOurs | LeftDeferred | CountedCompleted | CountedRetried | CountedDeadLettered | LeaseLost

  /**
   * One event of a claimed batch. The handler takes its time, and `meanwhile` is the table it and everyone else leave;
   * whatever that is, the worker then writes the event only if the event is still its own.
   */
  method Process(outbox: Repository, id: EventId, worker: WorkerId, attempts: nat, now: Instant, meanwhile: Table,
      outcome: Dispatch, end: Instant)
      returns (handling: Handling)
    modifies outbox
    ensures handling.NotOurs? <==> !(id in old(outbox.events) && old(outbox.events)[id].status.Processing?
                                     && old(outbox.events)[id].lockedBy == Some(worker))
    ensures handling.NotOurs? ==> outbox.events == old(outbox.events)
    ensures handling.LeftDeferred? <==> !handling.NotOurs? && outcome.Later?
    ensures handling.LeaseLost? <==> !handling.NotOurs? && !outcome.Later? && !HeldIn(meanwhile, id, worker)
    ensures handling.LeftDeferred? || handling.LeaseLost? ==> outbox.events == meanwhile
    ensures handling.CountedCompleted? <==> !handling.NotOurs? && outcome.Done? && HeldIn(meanwhile, id, worker)
    ensures handling.CountedCompleted? ==> outbox.events == meanwhile[id := meanwhile[id].(status := Completed,
      processedAt := Some(end), lockedAt := None, lockedBy := None, errorCode := None, deadLetteredAt := None)]
    ensures handling.CountedDeadLettered? <==> !handling.NotOurs? && outcome.Threw? && HeldIn(meanwhile, id, worker)
                                               && meanwhile[id].attempts >= (if outcome.permanent then 1 else 10)
    ensures handling.CountedRetried? <==> !handling.NotOurs? && outcome.Threw? && HeldIn(meanwhile, id, worker)
                                          && meanwhile[id].attempts < (if outcome.permanent then 1 else 10)
    ensures handling.CountedRetried? || handling.CountedDeadLettered? ==>
      outbox.events == meanwhile[id := meanwhile[id].(
        status := if handling.CountedRetried? then Pending else DeadLetter, availableAt := end + RetryDelayMillis(attempts),
        lockedAt := None, lockedBy := None, errorCode := Some(outcome.code),
        deadLetteredAt := if handling.CountedRetried? then None else Some(end))]
  {
    var renewed := outbox.RenewClaim(id, worker, now);
    hide Apply;
    if !renewed {
      return NotOurs;
    }
    outbox.events := meanwhile;
    match outcome {
      case Later => handling := LeftDeferred;
      case Done =>
        var completed := outbox.Complete(id, worker, end);
        handling := if completed then CountedCompleted else LeaseLost;
      case Threw(code, permanent) =>
        var most := if permanent then 1 else MAX_ATTEMPTS;
        var at := end + RetryDelayMillis(attempts);
        var retry := outbox.Reschedule(id, worker, at, code, most, end);
        handling := match retry
          case Retried => CountedRetried
          case DeadLettered => CountedDeadLettered
          case NotOwned => LeaseLost;
    }
  }
}
