// The projection of Stripe subscriptions into user_subscription: webhooks that may come late, twice or out of order,
// reconciliations that read a version and apply later, and customer deletions, all writing the same row.

module Subscriptions {
  import opened Options

  type Instant = int
  type User = nat

  datatype Status = Incomplete | IncompleteExpired | Trialing | Active | PastDue | Canceled | Unpaid | Paused

  /** The statuses under which a subscription owns the entitlement. */
  predicate Owning(s: Status) {
    s.Trialing? || s.Active? || s.PastDue?
  }

  predicate Final(s: Status) {
    s.Canceled? || s.Unpaid? || s.IncompleteExpired?
  }

  /** What the provider says a subscription is. */
  datatype Projection = Projection(
    subscriptionId: nat, priceId: nat, billingPeriod: string, status: Status, cancelAtPeriodEnd: bool,
    startsAt: Instant, endsAt: Instant, trialStartsAt: Option<Instant>, trialEndsAt: Option<Instant>,
    canceledAt: Option<Instant>)

  datatype Row = Row(
    plan: string, stripe: bool, subscriptionId: Option<nat>, priceId: Option<nat>, billingPeriod: Option<string>,
    status: Option<Status>, cancelAtPeriodEnd: bool, startsAt: Option<Instant>, endsAt: Option<Instant>,
    trialEndsAt: Option<Instant>, canceledAt: Option<Instant>, eventCreatedAt: Option<Instant>,
    version: nat, snapshotAt: Option<Instant>)

  datatype Customer = Customer(stripeId: nat, deletedAt: Option<Instant>, trialUsedAt: Option<Instant>,
                               reconciledAt: Option<Instant>, dueAt: Option<Instant>)

  datatype Db = Db(
    deleted: map<User, bool>,  // the accounts, and whether they are deleted
    customers: map<User, Customer>,
    rows: map<User, Row>,
    events: set<nat>)  // the webhook events that were processed

  datatype Context = Context(user: User, stripeId: nat, version: Option<nat>)

  datatype Op =
    | Webhook(event: nat, user: User, stripeId: nat, projection: Projection, at: Instant)
    | CustomerDeleted(event: nat, user: User, stripeId: nat, at: Instant, now: Instant)
    | Reconcile(context: Context, latest: Option<Projection>, at: Instant, dueAt: Instant, customerGone: bool)
    | MapCustomer(user: User, stripeId: nat)
    | Join(user: User)
    | DeleteAccount(user: User)
    | Anonymize(user: User)

  // ---------------------------------------------------------------- SQL's GREATEST and COALESCE

  /** GREATEST ignores a NULL. */
  function Greatest(a: Option<Instant>, b: Instant): Option<Instant> {
    if a.Some? && a.value > b then a else Some(b)
  }

  function OrElse(a: Option<Instant>, b: Option<Instant>): Option<Instant> {
    if a.Some? then a else b
  }

  /** No snapshot is before any snapshot. */
  predicate AtMost(a: Option<Instant>, b: Option<Instant>) {
    a.None? || (b.Some? && a.value <= b.value)
  }

  // ---------------------------------------------------------------- webhooks

  function Written(p: Projection, eventAt: Option<Instant>, version: nat, snapshotAt: Option<Instant>): Row {
    Row("premium", true, Some(p.subscriptionId), Some(p.priceId), Some(p.billingPeriod), Some(p.status),
        p.cancelAtPeriodEnd, Some(p.startsAt), Some(p.endsAt), p.trialEndsAt, p.canceledAt, eventAt, version, snapshotAt)
  }

  /** A status that is NULL is in no list and not out of one either. */
  predicate Accepts(r: Row, p: Projection, at: Instant) {
    && (r.subscriptionId.None? || r.subscriptionId == Some(p.subscriptionId)
        || (r.status.Some? && !Owning(r.status.value)))
    && (r.eventCreatedAt.None? || r.eventCreatedAt.value < at
        || (r.eventCreatedAt.value == at && ((r.status.Some? && !Final(r.status.value)) || Final(p.status))))
    && (r.snapshotAt.None? || r.snapshotAt.value <= at)
  }

  /** The guarded upsert of one row. */
  function Upserted(row: Option<Row>, p: Projection, at: Instant): Option<Row> {
    match row
    case None => Some(Written(p, Some(at), 1, Some(at)))
    case Some(r) =>
      if Accepts(r, p, at) then Some(Written(p, Some(at), r.version + 1, Greatest(r.snapshotAt, at))) else Some(r)
  }

  predicate WouldWrite(row: Option<Row>, p: Projection, at: Instant) {
    row.Some? ==> Accepts(row.value, p, at)
  }

  /** provider_subscription_id is unique over the table. */
  predicate TakenByAnother(rows: map<User, Row>, user: User, subscriptionId: nat) {
    exists u | u in rows :: u != user && rows[u].subscriptionId == Some(subscriptionId)
  }

  predicate ActiveCustomer(db: Db, user: User, stripeId: nat) {
    user in db.deleted && !db.deleted[user] && user in db.customers && db.customers[user].stripeId == stripeId
  }

  function RowOf(db: Db, user: User): Option<Row> {
    if user in db.rows then Some(db.rows[user]) else None
  }

  datatype Delivery = Duplicate | Projected | Outdated | Rejected

  /** A rejected webhook is rolled back whole, its event record with it. */
  function DeliveryOf(db: Db, op: Op): Delivery
    requires op.Webhook?
  {
    var row := RowOf(db, op.user);
    var p := op.projection;
    if op.event in db.events then Duplicate
    else if !ActiveCustomer(db, op.user, op.stripeId) then Rejected
    else if WouldWrite(row, p, op.at) then
      if TakenByAnother(db.rows, op.user, p.subscriptionId) then Rejected else Projected
    else if row.value.subscriptionId == Some(p.subscriptionId) && row.value.eventCreatedAt.Some?
            && row.value.eventCreatedAt.value >= op.at then Outdated
    else Rejected
  }

  function WebhookAfter(db: Db, op: Op): Db
    requires op.Webhook?
  {
    var recorded := db.(events := db.events + {op.event});
    match DeliveryOf(db, op)
    case Projected =>
      var c := db.customers[op.user];
      recorded.(rows := db.rows[op.user := Upserted(RowOf(db, op.user), op.projection, op.at).value],
                customers := if op.projection.trialStartsAt.Some?
                  then db.customers[op.user := c.(trialUsedAt := OrElse(c.trialUsedAt, op.projection.trialStartsAt))]
                  else db.customers)
    case Outdated => recorded
    case _ => db
  }

  // ---------------------------------------------------------------- customer deletions

  predicate Cancels(r: Row, at: Instant) {
    r.stripe && (r.snapshotAt.None? || r.snapshotAt.value <= at)
  }

  function CanceledRow(r: Row, at: Instant): Row {
    r.(status := Some(Canceled), cancelAtPeriodEnd := false, canceledAt := OrElse(r.canceledAt, Some(at)),
       eventCreatedAt := Greatest(r.eventCreatedAt, at), snapshotAt := Greatest(r.snapshotAt, at),
       version := r.version + 1)
  }

  function CustomerDeletedAfter(db: Db, op: Op): Db
    requires op.CustomerDeleted?
  {
    var recorded := db.(events := db.events + {op.event});
    if op.event in db.events then db
    else if !(op.user in db.customers && db.customers[op.user].stripeId == op.stripeId) then recorded
    else if !ActiveCustomer(db, op.user, op.stripeId) then db
    else recorded.(
      rows := if op.user in db.rows && Cancels(db.rows[op.user], op.at)
              then db.rows[op.user := CanceledRow(db.rows[op.user], op.at)] else db.rows,
      customers := db.customers[op.user := db.customers[op.user].(deletedAt := Some(op.now))])
  }

  // ---------------------------------------------------------------- reconciliations

  /** What a reconciliation reads before it asks the provider. */
  function ReadContext(db: Db, user: User): Option<Context> {
    if user in db.customers && db.customers[user].deletedAt.None? && user in db.deleted && !db.deleted[user]
    then Some(Context(user, db.customers[user].stripeId, Version(db, user))) else None
  }

  function Version(db: Db, user: User): Option<nat> {
    if user in db.rows then Some(db.rows[user].version) else None
  }

  datatype Reconciliation = NotFound | Stale | Applied | Conflict

  function ReconciliationOf(db: Db, op: Op): Reconciliation
    requires op.Reconcile?
  {
    var user := op.context.user;
    var now := ReadContext(db, user);
    if now.None? || now.value.stripeId != op.context.stripeId then NotFound
    else if Version(db, user) != op.context.version then Stale
    else if user in db.rows && db.rows[user].snapshotAt.Some? && db.rows[user].snapshotAt.value > op.at then Stale
    else if op.latest.Some? && TakenByAnother(db.rows, user, op.latest.value.subscriptionId) then Conflict
    else Applied
  }

  function ReconciledRow(row: Option<Row>, latest: Option<Projection>, at: Instant): Option<Row> {
    match latest
    case Some(p) =>
      Some(Written(p, if row.Some? then row.value.eventCreatedAt else None,
                   if row.Some? then row.value.version + 1 else 1, Some(at)))
    case None =>
      if row.Some? && row.value.stripe
      then Some(row.value.(status := Some(Canceled), cancelAtPeriodEnd := false,
                           canceledAt := OrElse(row.value.canceledAt, Some(at)), version := row.value.version + 1,
                           snapshotAt := Some(at)))
      else row
  }

  function ReconciledAfter(db: Db, op: Op): Db
    requires op.Reconcile?
  {
    var user := op.context.user;
    if !ReconciliationOf(db, op).Applied? then db
    else
      var row := ReconciledRow(RowOf(db, user), op.latest, op.at);
      var c := db.customers[user];
      db.(rows := if row.Some? then db.rows[user := row.value] else db.rows,
          customers := db.customers[user := c.(
            trialUsedAt := if op.latest.Some? && op.latest.value.trialStartsAt.Some?
                           then OrElse(c.trialUsedAt, op.latest.value.trialStartsAt) else c.trialUsedAt,
            reconciledAt := Some(op.at), dueAt := Some(op.dueAt),
            deletedAt := if op.customerGone then OrElse(c.deletedAt, Some(op.at)) else c.deletedAt)])
  }

  /** Identities are erased only after their account is deleted, and accounts are not undeleted. */
  predicate Enabled(db: Db, op: Op) {
    match op
    case DeleteAccount(user) => user in db.deleted
    case Anonymize(user) => user in db.deleted && db.deleted[user]
    case _ => true
  }

  function Apply(db: Db, op: Op): Db
    requires Enabled(db, op)
  {
    match op
    case Webhook(_, _, _, _, _) => WebhookAfter(db, op)
    case CustomerDeleted(_, _, _, _, _) => CustomerDeletedAfter(db, op)
    case Reconcile(_, _, _, _, _) => ReconciledAfter(db, op)
    case MapCustomer(user, stripeId) =>
      if user in db.customers || user !in db.deleted || db.deleted[user]
         || (exists u | u in db.customers :: db.customers[u].stripeId == stripeId) then db
      else db.(customers := db.customers[user := Customer(stripeId, None, None, None, None)])
    case Join(user) => if user in db.deleted then db else db.(deleted := db.deleted[user := false])
    case DeleteAccount(user) => db.(deleted := db.deleted[user := true])
    case Anonymize(user) => db.(rows := db.rows - {user}, customers := db.customers - {user})
  }

  // ---------------------------------------------------------------- one step

  /** What no transaction takes back about a row that stays in the table. */
  predicate Forward(a: Row, b: Row) {
    && AtMost(a.snapshotAt, b.snapshotAt)
    && (if a == b then true else b.version == a.version + 1)
  }

  /** Every write raises the version by one and never takes the snapshot time back. */
  lemma StepIsForward(db: Db, op: Op, user: User)
    requires Enabled(db, op) && user in db.rows && user in Apply(db, op).rows
    ensures Forward(db.rows[user], Apply(db, op).rows[user])
  {
  }

  /** Rows go only with their deleted account, and deleted accounts get no rows. */
  lemma StepKeepsRows(db: Db, op: Op, user: User)
    requires Enabled(db, op)
    ensures user in db.rows && user !in Apply(db, op).rows ==> user in db.deleted && db.deleted[user]
    ensures user in db.deleted && db.deleted[user] ==> user in Apply(db, op).deleted && Apply(db, op).deleted[user]
    ensures user in db.deleted && db.deleted[user] && user !in db.rows ==> user !in Apply(db, op).rows
    ensures user in db.deleted ==> user in Apply(db, op).deleted
  {
  }

  /** A webhook, deletion or reconciliation of before the row's snapshot leaves the row as it is. */
  lemma OlderNewsIsIgnored(db: Db, op: Op, user: User)
    requires (op.Webhook? && op.user == user) || (op.CustomerDeleted? && op.user == user)
          || (op.Reconcile? && op.context.user == user)
    requires user in db.rows && db.rows[user].snapshotAt.Some? && db.rows[user].snapshotAt.value > op.at
    ensures Enabled(db, op) && user in Apply(db, op).rows && Apply(db, op).rows[user] == db.rows[user]
  {
  }

  // ---------------------------------------------------------------- one step, column by column

  /** The customer is the user's, and the account is there and not deleted. */
  predicate Mapped(db: Db, user: User, stripeId: nat) {
    user in db.deleted && !db.deleted[user] && user in db.customers && db.customers[user].stripeId == stripeId
  }

  predicate Foreign(rows: map<User, Row>, user: User, subscriptionId: nat) {
    exists u | u in rows :: u != user && rows[u].subscriptionId == Some(subscriptionId)
  }

  /**
   * The guard of the upsert, as it is documented: the row is of this subscription, or has none, or its subscription
   * is over; it has heard nothing newer, nor the same time said better; and no snapshot is newer.
   */
  lemma AcceptsColumns(r: Row, p: Projection, at: Instant)
    requires r.status.Some?
    ensures Accepts(r, p, at) <==>
      && (r.subscriptionId.Some? && r.subscriptionId.value != p.subscriptionId ==>
            r.status.value !in {Trialing, Active, PastDue})
      && (r.eventCreatedAt.Some? ==>
            && r.eventCreatedAt.value <= at
            && (r.eventCreatedAt.value == at && r.status.value in {Canceled, Unpaid, IncompleteExpired} ==>
                  p.status in {Canceled, Unpaid, IncompleteExpired}))
      && (r.snapshotAt.Some? ==> r.snapshotAt.value <= at)
  {
  }

  /** A row without a status, like one of the free plan, takes a webhook unless it heard of, or is, something newer. */
  lemma AcceptsWithoutStatus(r: Row, p: Projection, at: Instant)
    requires r.status.None?
    ensures Accepts(r, p, at) <==>
      && (r.subscriptionId.Some? ==> r.subscriptionId.value == p.subscriptionId)
      && (r.eventCreatedAt.Some? ==>
            r.eventCreatedAt.value < at
            || (r.eventCreatedAt.value == at && p.status in {Canceled, Unpaid, IncompleteExpired}))
      && (r.snapshotAt.Some? ==> r.snapshotAt.value <= at)
  {
  }

  /** When a webhook is projected, and everything that this writes. */
  lemma WebhookColumns(db: Db, event: nat, user: User, stripeId: nat, p: Projection, at: Instant)
    ensures var op := Webhook(event, user, stripeId, p, at);
      var writes := event !in db.events && Mapped(db, user, stripeId) && !Foreign(db.rows, user, p.subscriptionId)
          && (user in db.rows ==> Accepts(db.rows[user], p, at));
      && (DeliveryOf(db, op).Projected? <==> writes)
      && (DeliveryOf(db, op).Duplicate? <==> event in db.events)
      && (DeliveryOf(db, op).Outdated? <==>
            && event !in db.events && Mapped(db, user, stripeId) && user in db.rows && !Accepts(db.rows[user], p, at)
            && db.rows[user].subscriptionId == Some(p.subscriptionId)
            && db.rows[user].eventCreatedAt.Some? && at <= db.rows[user].eventCreatedAt.value)
      && (!writes ==> WebhookAfter(db, op) == db.(
            events := if DeliveryOf(db, op).Outdated? then db.events + {event} else db.events))
      && (writes ==> WebhookAfter(db, op) == db.(
            events := db.events + {event},
            rows := db.rows[user := Row("premium", true, Some(p.subscriptionId), Some(p.priceId), Some(p.billingPeriod),
              Some(p.status), p.cancelAtPeriodEnd, Some(p.startsAt), Some(p.endsAt), p.trialEndsAt, p.canceledAt, Some(at),
              if user in db.rows then db.rows[user].version + 1 else 1, Some(at))],
            customers := if p.trialStartsAt.Some? && db.customers[user].trialUsedAt.None?
              then db.customers[user := db.customers[user].(trialUsedAt := p.trialStartsAt)] else db.customers))
  {
    assert user in db.customers ==> db.customers[user := db.customers[user]] == db.customers;
  }

  /** The deletion of a customer cancels the subscription that is not newer than it, and marks the customer. */
  lemma CustomerDeletedColumns(db: Db, event: nat, user: User, stripeId: nat, at: Instant, now: Instant)
    requires event !in db.events && Mapped(db, user, stripeId)
    ensures var next := CustomerDeletedAfter(db, CustomerDeleted(event, user, stripeId, at, now));
      && next == db.(events := db.events + {event}, rows := next.rows, customers := next.customers)
      && next.customers == db.customers[user := db.customers[user].(deletedAt := Some(now))]
      && (if user in db.rows && db.rows[user].stripe && (db.rows[user].snapshotAt.Some? ==> db.rows[user].snapshotAt.value <= at)
          then
            var r := db.rows[user];
            next.rows == db.rows[user := r.(
              status := Some(Canceled), cancelAtPeriodEnd := false,
              canceledAt := if r.canceledAt.Some? then r.canceledAt else Some(at),
              eventCreatedAt := if r.eventCreatedAt.Some? && r.eventCreatedAt.value > at then r.eventCreatedAt else Some(at),
              snapshotAt := Some(at), version := r.version + 1)]
          else next.rows == db.rows)
  {
  }

  /** A reconciliation is applied exactly if nothing was written since its context was read, and nothing newer is known. */
  lemma ReconcileColumns(db: Db, context: Context, latest: Option<Projection>, at: Instant, dueAt: Instant, gone: bool)
    ensures var op := Reconcile(context, latest, at, dueAt, gone);
      var user := context.user;
      var found := Mapped(db, user, context.stripeId) && db.customers[user].deletedAt.None?;
      var current := context.version == (if user in db.rows then Some(db.rows[user].version) else None)
          && (user in db.rows && db.rows[user].snapshotAt.Some? ==> db.rows[user].snapshotAt.value <= at);
      && (ReconciliationOf(db, op).NotFound? <==> !found)
      && (ReconciliationOf(db, op).Stale? <==> found && !current)
      && (ReconciliationOf(db, op).Applied? <==>
            found && current && (latest.Some? ==> !Foreign(db.rows, user, latest.value.subscriptionId)))
      && (!ReconciliationOf(db, op).Applied? ==> ReconciledAfter(db, op) == db)
  {
  }

  lemma ReconciledColumns(db: Db, op: Op)
    requires op.Reconcile? && ReconciliationOf(db, op).Applied?
    ensures var user, at, next := op.context.user, op.at, ReconciledAfter(db, op);
      && user in db.customers
      && next == db.(rows := next.rows, customers := next.customers)
      && next.customers == db.customers[user := db.customers[user].(
           reconciledAt := Some(at), dueAt := Some(op.dueAt),
           trialUsedAt := if op.latest.Some? && op.latest.value.trialStartsAt.Some? && db.customers[user].trialUsedAt.None?
                          then op.latest.value.trialStartsAt else db.customers[user].trialUsedAt,
           deletedAt := if op.customerGone && db.customers[user].deletedAt.None? then Some(at) else db.customers[user].deletedAt)]
    ensures op.latest.Some? ==>
      var user, p := op.context.user, op.latest.value;
      ReconciledAfter(db, op).rows == db.rows[user := Row("premium", true, Some(p.subscriptionId), Some(p.priceId),
        Some(p.billingPeriod), Some(p.status), p.cancelAtPeriodEnd, Some(p.startsAt), Some(p.endsAt), p.trialEndsAt,
        p.canceledAt, if user in db.rows then db.rows[user].eventCreatedAt else None,
        if user in db.rows then db.rows[user].version + 1 else 1, Some(op.at))]
    ensures op.latest.None? ==>
      var user := op.context.user;
      ReconciledAfter(db, op).rows == if user in db.rows && db.rows[user].stripe
        then db.rows[user := db.rows[user].(
               status := Some(Canceled), cancelAtPeriodEnd := false, version := db.rows[user].version + 1,
               canceledAt := if db.rows[user].canceledAt.Some? then db.rows[user].canceledAt else Some(op.at),
               snapshotAt := Some(op.at))]
        else db.rows
  {
    var user := op.context.user;
    assert user in db.rows ==> db.rows[user := db.rows[user]] == db.rows;
  }

  // ---------------------------------------------------------------- whole runs

  ghost predicate Run(states: seq<Db>, ops: seq<Op>) {
    |states| == |ops| + 1 && forall k | 0 <= k < |ops| :: Step(states[k], ops[k], states[k + 1])
  }

  ghost predicate Step(db: Db, op: Op, next: Db) {
    Enabled(db, op) && next == Apply(db, op)
  }

  /** Over any run the snapshot time of a row never decreases, and its version tells exactly whether it was written. */
  lemma {:induction false} RunIsForward(states: seq<Db>, ops: seq<Op>, m: nat, n: nat, user: User)
    requires Run(states, ops) && m <= n < |states|
    requires forall k | m <= k <= n :: user in states[k].rows
    ensures AtMost(states[m].rows[user].snapshotAt, states[n].rows[user].snapshotAt)
    ensures states[m].rows[user].version <= states[n].rows[user].version
    ensures states[m].rows[user].version == states[n].rows[user].version ==> states[m].rows[user] == states[n].rows[user]
    decreases n - m
  {
    hide Apply, Enabled;
    if m < n {
      RunIsForward(states, ops, m, n - 1, user);
      assert user in states[n - 1].rows && user in states[n].rows && Step(states[n - 1], ops[n - 1], states[n]);
      StepIsForward(states[n - 1], ops[n - 1], user);
    }
  }

  lemma {:induction false} DeletedForGood(states: seq<Db>, ops: seq<Op>, m: nat, n: nat, user: User)
    requires Run(states, ops) && m <= n < |states| && user in states[m].deleted && states[m].deleted[user]
    ensures user in states[n].deleted && states[n].deleted[user]
    ensures user !in states[m].rows ==> user !in states[n].rows
    decreases n - m
  {
    hide Apply, Enabled;
    if m < n {
      DeletedForGood(states, ops, m, n - 1, user);
      assert Step(states[n - 1], ops[n - 1], states[n]);
      StepKeepsRows(states[n - 1], ops[n - 1], user);
    }
  }

  /** While the account is not deleted, its row, once there, stays there. */
  lemma {:induction false} RowsStay(states: seq<Db>, ops: seq<Op>, m: nat, n: nat, user: User)
    requires Run(states, ops) && m <= n < |states| && user in states[m].rows
    requires !(user in states[n].deleted && states[n].deleted[user])
    ensures user in states[n].rows
    decreases n - m
  {
    hide Apply, Enabled;
    if m < n {
      assert Step(states[n - 1], ops[n - 1], states[n]);
      StepKeepsRows(states[n - 1], ops[n - 1], user);
      RowsStay(states, ops, m, n - 1, user);
    }
  }

  lemma RowsStayAll(states: seq<Db>, ops: seq<Op>, m: nat, n: nat, user: User)
    requires Run(states, ops) && m <= n < |states| && user in states[m].rows
    requires !(user in states[n].deleted && states[n].deleted[user])
    ensures forall k | m <= k <= n :: user in states[k].rows
  {
    forall k | m <= k <= n ensures user in states[k].rows {
      if user in states[k].deleted && states[k].deleted[user] {
        DeletedForGood(states, ops, k, n, user);
        assert false;
      }
      RowsStay(states, ops, m, k, user);
    }
  }

  /**
   * Optimistic concurrency: a reconciliation is applied only if no writer touched the row since its context was
   * read, however many transactions of other users or of this one ran in between.
   */
  lemma AppliedMeansUntouched(states: seq<Db>, ops: seq<Op>, m: nat, n: nat, k: nat)
    requires Run(states, ops) && m <= k <= n < |ops| && ops[n].Reconcile?
    requires ReadContext(states[m], ops[n].context.user) == Some(ops[n].context)
    requires ReconciliationOf(states[n], ops[n]).Applied?
    ensures RowOf(states[k], ops[n].context.user) == RowOf(states[m], ops[n].context.user)
  {
    var user := ops[n].context.user;
    hide Apply, Enabled;
    if user in states[m].rows {
      RowsStayAll(states, ops, m, n, user);
      RunIsForward(states, ops, m, k, user);
      RunIsForward(states, ops, k, n, user);
    } else if user in states[k].rows {
      RowsStay(states, ops, k, n, user);
    }
  }

  /** After news of some instant was written, older news never shows again. */
  lemma OlderNewsNeverReturns(states: seq<Db>, ops: seq<Op>, m: nat, n: nat, user: User, seen: Instant)
    requires Run(states, ops) && m <= n < |ops| && (forall k | m <= k <= n :: user in states[k].rows)
    requires AtMost(Some(seen), states[m].rows[user].snapshotAt)
    requires (ops[n].Webhook? && ops[n].user == user && ops[n].at < seen)
          || (ops[n].CustomerDeleted? && ops[n].user == user && ops[n].at < seen)
          || (ops[n].Reconcile? && ops[n].context.user == user && ops[n].at < seen)
    ensures user in states[n + 1].rows && states[n + 1].rows[user] == states[n].rows[user]
  {
    RunIsForward(states, ops, m, n, user);
    assert Step(states[n], ops[n], states[n + 1]) && user in states[n].rows;
    OlderNewsIsIgnored(states[n], ops[n], user);
  }

  // ---------------------------------------------------------------- webhooks of one subscription, in any order

  predicate ForUser(op: Op, user: User) {
    op.Webhook? && op.user == user
  }

  /** Steps of and about other users, which includes their webhooks, reconciliations and deletions. */
  predicate Elsewhere(op: Op, user: User) {
    match op
    case Webhook(_, u, _, _, _) => u != user
    case CustomerDeleted(_, u, _, _, _) => u != user
    case Reconcile(context, _, _, _, _) => context.user != user
    case DeleteAccount(u) => u != user
    case Anonymize(u) => u != user
    case _ => true
  }

  function EventOf(op: Op): Option<nat> {
    if op.Webhook? || op.CustomerDeleted? then Some(op.event) else None
  }

  /** The row says nothing newer than this webhook, and belongs to its subscription or to one that is over. */
  predicate Older(row: Option<Row>, op: Op)
    requires op.Webhook?
  {
    row.Some? ==> var r := row.value;
      && (r.subscriptionId.None? || r.subscriptionId == Some(op.projection.subscriptionId)
          || (r.status.Some? && !Owning(r.status.value)))
      && (r.eventCreatedAt.None? || r.eventCreatedAt.value < op.at)
      && (r.snapshotAt.None? || r.snapshotAt.value <= op.at)
  }

  predicate Brings(db: Db, op: Op, user: User, stripeId: nat, subscriptionId: nat) {
    && ForUser(op, user) && op.stripeId == stripeId && op.projection.subscriptionId == subscriptionId
    && Older(RowOf(db, user), op) && op.event !in db.events
  }

  /**
   * A run in which one subscription's webhooks come in any order and with repeats, between any steps of other users.
   * An event id belongs to one event, and events of the subscription with the same time say the same.
   */
  ghost predicate Feed(states: seq<Db>, ops: seq<Op>, user: User, stripeId: nat, subscriptionId: nat) {
    && Run(states, ops) && ActiveCustomer(states[0], user, stripeId)
    && (forall k | 0 <= k < |ops| ::
          Elsewhere(ops[k], user) || Brings(states[0], ops[k], user, stripeId, subscriptionId))
    && (forall k | 0 <= k < |states| :: !TakenByAnother(states[k].rows, user, subscriptionId))
    && (forall j, k | 0 <= j < |ops| && 0 <= k < |ops| && ForUser(ops[k], user)
          && EventOf(ops[j]) == EventOf(ops[k]) :: ops[j] == ops[k])
    && (forall j, k | 0 <= j < |ops| && 0 <= k < |ops| && ForUser(ops[j], user) && ForUser(ops[k], user)
          && ops[j].at == ops[k].at :: ops[j].projection == ops[k].projection)
  }

  /** Webhook `last` is the newest of the user among the first n steps. */
  predicate Newest(ops: seq<Op>, n: nat, user: User, last: nat)
    requires n <= |ops|
  {
    last < n && ForUser(ops[last], user) && forall k | 0 <= k < n && ForUser(ops[k], user) :: ops[k].at <= ops[last].at
  }

  predicate Shows(row: Option<Row>, op: Op)
    requires op.Webhook?
  {
    row.Some? && row.value == Written(op.projection, Some(op.at), row.value.version, Some(op.at))
  }

  lemma {:induction false} NewestExists(ops: seq<Op>, n: nat, user: User, some: nat) returns (last: nat)
    requires some < n <= |ops| && ForUser(ops[some], user)
    ensures Newest(ops, n, user, last)
    decreases n
  {
    last := some;
    if exists k :: 0 <= k < n - 1 && ForUser(ops[k], user) {
      var k :| 0 <= k < n - 1 && ForUser(ops[k], user);
      last := NewestExists(ops, n - 1, user, k);
      if ForUser(ops[n - 1], user) && ops[n - 1].at > ops[last].at {
        last := n - 1;
      }
    }
  }

  /** What steps of other users leave alone. */
  lemma ElsewhereStep(db: Db, op: Op, user: User, stripeId: nat)
    requires Enabled(db, op) && Elsewhere(op, user) && ActiveCustomer(db, user, stripeId)
    ensures var next := Apply(db, op);
      && ActiveCustomer(next, user, stripeId) && RowOf(next, user) == RowOf(db, user)
      && next.events <= db.events + (if EventOf(op).Some? then {EventOf(op).value} else {})
  {
  }

  /** A webhook never heard before, against a row that is older or shows a webhook of the same subscription. */
  lemma WebhookStep(db: Db, op: Op, user: User, stripeId: nat)
    requires ForUser(op, user) && op.stripeId == stripeId && ActiveCustomer(db, user, stripeId)
    requires !TakenByAnother(db.rows, user, op.projection.subscriptionId)
    ensures ActiveCustomer(Apply(db, op), user, stripeId) && Apply(db, op).events <= db.events + {op.event}
    ensures op.event in db.events ==> Apply(db, op) == db
    ensures op.event !in db.events && Older(RowOf(db, user), op) ==> Shows(RowOf(Apply(db, op), user), op)
  {
  }

  lemma NextWebhook(db: Db, op: Op, user: User, stripeId: nat, shown: Op)
    requires ForUser(op, user) && op.stripeId == stripeId && ActiveCustomer(db, user, stripeId)
    requires !TakenByAnother(db.rows, user, op.projection.subscriptionId)
    requires shown.Webhook? && shown.projection.subscriptionId == op.projection.subscriptionId
    requires Shows(RowOf(db, user), shown) && (shown.at == op.at ==> shown.projection == op.projection)
    ensures Shows(RowOf(Apply(db, op), user), if op.event in db.events || op.at < shown.at then shown else op)
  {
  }

  /** The state after the first n steps of a feed. */
  ghost predicate Fed(states: seq<Db>, ops: seq<Op>, user: User, stripeId: nat, n: nat)
    requires n < |states| == |ops| + 1
  {
    && ActiveCustomer(states[n], user, stripeId)
    && (forall e | e in states[n].events && e !in states[0].events :: exists k :: 0 <= k < n && EventOf(ops[k]) == Some(e))
    && ((forall k | 0 <= k < n :: !ForUser(ops[k], user)) ==> RowOf(states[n], user) == RowOf(states[0], user))
    && (forall last: nat | Newest(ops, n, user, last) :: Shows(RowOf(states[n], user), ops[last]))
  }

  lemma {:induction false} FeedShowsNewest(states: seq<Db>, ops: seq<Op>, user: User, stripeId: nat,
      subscriptionId: nat, n: nat)
    requires Feed(states, ops, user, stripeId, subscriptionId) && n < |states|
    ensures Fed(states, ops, user, stripeId, n)
    decreases n
  {
    hide Fed, Apply, Enabled, Older, Elsewhere;
    if n == 0 {
      FeedStart(states, ops, user, stripeId);
    } else {
      FeedShowsNewest(states, ops, user, stripeId, subscriptionId, n - 1);
      assert Step(states[n - 1], ops[n - 1], states[n]);
      if Elsewhere(ops[n - 1], user) {
        OtherStep(states, ops, user, stripeId, n - 1);
      } else {
        UserStep(states, ops, user, stripeId, subscriptionId, n - 1);
      }
    }
  }

  lemma FeedStart(states: seq<Db>, ops: seq<Op>, user: User, stripeId: nat)
    requires |states| == |ops| + 1 && ActiveCustomer(states[0], user, stripeId)
    ensures Fed(states, ops, user, stripeId, 0)
  {
  }

  lemma OtherStep(states: seq<Db>, ops: seq<Op>, user: User, stripeId: nat, n: nat)
    requires n < |ops| && |states| == |ops| + 1 && Fed(states, ops, user, stripeId, n)
    requires Step(states[n], ops[n], states[n + 1]) && Elsewhere(ops[n], user)
    ensures Fed(states, ops, user, stripeId, n + 1)
  {
    ElsewhereStep(states[n], ops[n], user, stripeId);
    hide Apply, Enabled, Elsewhere;
    EventsHeard(states, ops, user, stripeId, n);
    forall last: nat | Newest(ops, n + 1, user, last) ensures Shows(RowOf(states[n + 1], user), ops[last]) {
      assert Newest(ops, n, user, last);
    }
  }

  lemma EventsHeard(states: seq<Db>, ops: seq<Op>, user: User, stripeId: nat, n: nat)
    requires n < |ops| && |states| == |ops| + 1 && Fed(states, ops, user, stripeId, n)
    requires states[n + 1].events <= states[n].events + (if EventOf(ops[n]).Some? then {EventOf(ops[n]).value} else {})
    ensures forall e | e in states[n + 1].events && e !in states[0].events ::
              exists k :: 0 <= k < n + 1 && EventOf(ops[k]) == Some(e)
  {
    forall e | e in states[n + 1].events && e !in states[0].events
      ensures exists k :: 0 <= k < n + 1 && EventOf(ops[k]) == Some(e)
    {
      if e in states[n].events {
        var k :| 0 <= k < n && EventOf(ops[k]) == Some(e);
      } else {
        assert EventOf(ops[n]) == Some(e);
      }
    }
  }

  lemma UserStep(states: seq<Db>, ops: seq<Op>, user: User, stripeId: nat, subscriptionId: nat, n: nat)
    requires Feed(states, ops, user, stripeId, subscriptionId) && n < |ops| && Fed(states, ops, user, stripeId, n)
    requires Step(states[n], ops[n], states[n + 1]) && Brings(states[0], ops[n], user, stripeId, subscriptionId)
    ensures Fed(states, ops, user, stripeId, n + 1)
  {
    WebhookStep(states[n], ops[n], user, stripeId);
    hide Apply, Enabled, Run, Older, Shows;
    EventsHeard(states, ops, user, stripeId, n);
    forall last: nat | Newest(ops, n + 1, user, last) ensures Shows(RowOf(states[n + 1], user), ops[last]) {
      NewestIsShown(states, ops, user, stripeId, subscriptionId, n, last);
    }
  }

  /** The newest webhook so far is this one, or a repeat of it came before, or it was the newest before. */
  lemma NewestIsShown(states: seq<Db>, ops: seq<Op>, user: User, stripeId: nat, subscriptionId: nat, n: nat, last: nat)
    requires Feed(states, ops, user, stripeId, subscriptionId) && n < |ops| && Fed(states, ops, user, stripeId, n)
    requires Step(states[n], ops[n], states[n + 1]) && Brings(states[0], ops[n], user, stripeId, subscriptionId)
    requires Newest(ops, n + 1, user, last)
    ensures Shows(RowOf(states[n + 1], user), ops[last])
  {
    var op := ops[n];
    WebhookStep(states[n], op, user, stripeId);
    hide Apply, Enabled, Run, Older, Shows, ActiveCustomer, TakenByAnother;
    if op.event in states[n].events {
      var j := HeardBefore(states, ops, user, stripeId, subscriptionId, n);
      assert Newest(ops, n, user, if last < n then last else j);
    } else if k :| 0 <= k < n && ForUser(ops[k], user) {
      var shown := NewestExists(ops, n, user, k);
      NextAfter(states, ops, user, stripeId, subscriptionId, n, shown);
      hide Feed, Fed;
      LastOfMore(ops, n, user, shown, last);
    }
  }

  lemma HeardBefore(states: seq<Db>, ops: seq<Op>, user: User, stripeId: nat, subscriptionId: nat, n: nat)
      returns (j: nat)
    requires Feed(states, ops, user, stripeId, subscriptionId) && n < |ops| && Fed(states, ops, user, stripeId, n)
    requires Brings(states[0], ops[n], user, stripeId, subscriptionId) && ops[n].event in states[n].events
    ensures j < n && ops[j] == ops[n]
  {
    hide Run, Older, ActiveCustomer, TakenByAnother;
    j :| 0 <= j < n && EventOf(ops[j]) == Some(ops[n].event);
  }

  lemma NextAfter(states: seq<Db>, ops: seq<Op>, user: User, stripeId: nat, subscriptionId: nat, n: nat, shown: nat)
    requires Feed(states, ops, user, stripeId, subscriptionId) && n < |ops| && Fed(states, ops, user, stripeId, n)
    requires Step(states[n], ops[n], states[n + 1]) && Brings(states[0], ops[n], user, stripeId, subscriptionId)
    requires Newest(ops, n, user, shown) && ops[n].event !in states[n].events
    ensures Shows(RowOf(states[n + 1], user), if ops[n].at < ops[shown].at then ops[shown] else ops[n])
    ensures ops[n].at == ops[shown].at ==> ops[n].projection == ops[shown].projection
  {
    assert |states| == |ops| + 1;
    hide Apply, Enabled, Run, Older, Shows, ActiveCustomer, TakenByAnother;
    assert Brings(states[0], ops[shown], user, stripeId, subscriptionId);
    NextWebhook(states[n], ops[n], user, stripeId, ops[shown]);
  }

  lemma LastOfMore(ops: seq<Op>, n: nat, user: User, shown: nat, last: nat)
    requires n < |ops| && ForUser(ops[n], user) && Newest(ops, n, user, shown) && Newest(ops, n + 1, user, last)
    ensures ops[last].at == if ops[n].at < ops[shown].at then ops[shown].at else ops[n].at
    ensures last == n || ops[last].at == ops[shown].at
  {
  }

  /**
   * In whatever order the webhooks of a subscription come, however often, and whatever other users do meanwhile, the
   * row ends as the newest says.
   */
  lemma WebhooksConverge(states: seq<Db>, ops: seq<Op>, user: User, stripeId: nat, subscriptionId: nat, last: nat)
    requires Feed(states, ops, user, stripeId, subscriptionId) && Newest(ops, |ops|, user, last)
    ensures Shows(RowOf(states[|ops|], user), ops[last])
  {
    FeedShowsNewest(states, ops, user, stripeId, subscriptionId, |ops|);
  }

  /** The two runs bring the user the same news, in any order and with any repeats. */
  ghost predicate SameNews(a: seq<Op>, b: seq<Op>, user: User) {
    && (forall k | 0 <= k < |a| && ForUser(a[k], user) :: Told(b, a[k], user))
    && (forall k | 0 <= k < |b| && ForUser(b[k], user) :: Told(a, b[k], user))
  }

  ghost predicate Told(ops: seq<Op>, op: Op, user: User)
    requires op.Webhook?
  {
    exists k :: 0 <= k < |ops| && ForUser(ops[k], user) && ops[k].at == op.at && ops[k].projection == op.projection
  }

  /** Two runs with the same news leave the same row up to its version, from whatever older rows they started. */
  lemma OrderDoesNotMatter(states: seq<Db>, ops: seq<Op>, states': seq<Db>, ops': seq<Op>, user: User, stripeId: nat,
      subscriptionId: nat, some: nat)
    requires Feed(states, ops, user, stripeId, subscriptionId) && Feed(states', ops', user, stripeId, subscriptionId)
    requires SameNews(ops, ops', user) && some < |ops| && ForUser(ops[some], user)
    ensures var row, row' := RowOf(states[|ops|], user), RowOf(states'[|ops'|], user);
      row.Some? && row'.Some? && row.value == row'.value.(version := row.value.version)
  {
    hide Feed, Run;
    var last := NewestExists(ops, |ops|, user, some);
    assert Told(ops', ops[last], user);
    var last' :| 0 <= last' < |ops'| && ForUser(ops'[last'], user) && ops'[last'].at == ops[last].at
      && ops'[last'].projection == ops[last].projection;
    forall k | 0 <= k < |ops'| && ForUser(ops'[k], user) ensures ops'[k].at <= ops'[last'].at {
      assert Told(ops, ops'[k], user);
    }
    WebhooksConverge(states, ops, user, stripeId, subscriptionId, last);
    WebhooksConverge(states', ops', user, stripeId, subscriptionId, last');
  }

  // ---------------------------------------------------------------- the repositories

  class BillingRepository {
    var deleted: map<User, bool>
    var customers: map<User, Customer>
    var rows: map<User, Row>
    var events: set<nat>

    constructor ()
      ensures Value() == Db(map[], map[], map[], {})
    {
      deleted, customers, rows, events := map[], map[], map[], {};
    }

    function Value(): Db
      reads this
    {
      Db(deleted, customers, rows, events)
    }

    /** processWebhook around upsertSubscription: the event record, the guarded upsert, the trial mark. */
    method UpsertSubscription(event: nat, user: User, stripeId: nat, input: Projection, at: Instant)
      returns (outcome: Delivery)
      modifies this
      ensures Value() == Apply(old(Value()), Webhook(event, user, stripeId, input, at))
      ensures outcome == DeliveryOf(old(Value()), Webhook(event, user, stripeId, input, at))
      ensures outcome.Projected? ==> user in rows && rows[user].subscriptionId == Some(input.subscriptionId)
      ensures outcome.Projected? ==> rows[user].eventCreatedAt == Some(at) && rows[user].status == Some(input.status)
      ensures !outcome.Projected? ==> rows == old(rows) && customers == old(customers)
    {
      if event in events {
        return Duplicate;
      }
      if user !in deleted || deleted[user] || user !in customers || customers[user].stripeId != stripeId {
        return Rejected;
      }
      if user !in rows {
        if TakenByAnother(rows, user, input.subscriptionId) {
          return Rejected;
        }
        rows := rows[user := Written(input, Some(at), 1, Some(at))];
      } else {
        var current := rows[user];
        if Accepts(current, input, at) {
          if TakenByAnother(rows, user, input.subscriptionId) {
            return Rejected;
          }
          rows := rows[user := Written(input, Some(at), current.version + 1, Greatest(current.snapshotAt, at))];
        } else {
          if current.subscriptionId == Some(input.subscriptionId) && current.eventCreatedAt.Some?
             && current.eventCreatedAt.value >= at {
            events := events + {event};
            return Outdated;
          }
          return Rejected;
        }
      }
      events := events + {event};
      if input.trialStartsAt.Some? {
        customers := customers[user := customers[user].(trialUsedAt := OrElse(customers[user].trialUsedAt, input.trialStartsAt))];
      }
      outcome := Projected;
    }

    method MarkCustomerDeleted(event: nat, user: User, stripeId: nat, at: Instant, now: Instant)
      modifies this
      ensures Value() == Apply(old(Value()), CustomerDeleted(event, user, stripeId, at, now))
    {
      if event in events {
        return;
      }
      if user !in customers || customers[user].stripeId != stripeId {
        events := events + {event};
        return;
      }
      if user !in deleted || deleted[user] {
        return;
      }
      if user in rows {
        var r := rows[user];
        if r.stripe && (r.snapshotAt.None? || r.snapshotAt.value <= at) {
          rows := rows[user := r.(status := Some(Canceled), cancelAtPeriodEnd := false,
                                  canceledAt := OrElse(r.canceledAt, Some(at)),
                                  eventCreatedAt := Greatest(r.eventCreatedAt, at),
                                  snapshotAt := Greatest(r.snapshotAt, at), version := r.version + 1)];
        }
      }
      customers := customers[user := customers[user].(deletedAt := Some(now))];
      events := events + {event};
    }

    method SubscriptionContext(user: User) returns (context: Option<Context>)
      ensures context == ReadContext(Value(), user)
      ensures context.Some? ==> context.value.user == user && context.value.version == Version(Value(), user)
    {
      if user !in customers || customers[user].deletedAt.Some? || user !in deleted || deleted[user] {
        return None;
      }
      context := Some(Context(user, customers[user].stripeId, if user in rows then Some(rows[user].version) else None));
    }

    /** The version and snapshot checks, then the write; a unique violation rolls everything back. */
    method ApplySubscription(context: Context, projection: Option<Projection>, snapshotAt: Instant, nextDueAt: Instant,
        customerDeleted: bool)
      returns (state: Reconciliation, nextStatus: Option<Status>)
      modifies this
      ensures Value() == Apply(old(Value()), Reconcile(context, projection, snapshotAt, nextDueAt, customerDeleted))
      ensures state == ReconciliationOf(old(Value()), Reconcile(context, projection, snapshotAt, nextDueAt, customerDeleted))
      ensures !state.Applied? ==> Value() == old(Value())
      ensures state.Applied? && context.user in rows ==> nextStatus == rows[context.user].status
      ensures state.Applied? && projection.None? && context.user in rows && rows[context.user].stripe ==>
        nextStatus == Some(Canceled)
    {
      var user := context.user;
      nextStatus := None;
      if user !in customers || customers[user].deletedAt.Some? || user !in deleted || deleted[user] {
        return NotFound, None;
      }
      if customers[user].stripeId != context.stripeId {
        return NotFound, None;
      }
      var current: Option<Row> := if user in rows then Some(rows[user]) else None;
      var currentVersion: Option<nat> := if current.Some? then Some(current.value.version) else None;
      if currentVersion != context.version
         || (current.Some? && current.value.snapshotAt.Some? && current.value.snapshotAt.value > snapshotAt) {
        return Stale, if current.Some? then current.value.status else None;
      }
      nextStatus := if current.Some? then current.value.status else None;
      if projection.Some? {
        nextStatus := Some(projection.value.status);
        if TakenByAnother(rows, user, projection.value.subscriptionId) {
          return Conflict, None;
        }
        rows := rows[user := Written(projection.value, if current.Some? then current.value.eventCreatedAt else None,
                                     if current.Some? then current.value.version + 1 else 1, Some(snapshotAt))];
        if projection.value.trialStartsAt.Some? {
          customers := customers[user := customers[user].(
            trialUsedAt := OrElse(customers[user].trialUsedAt, projection.value.trialStartsAt))];
        }
      } else if current.Some? && current.value.stripe {
        nextStatus := Some(Canceled);
        var r := current.value;
        rows := rows[user := r.(status := Some(Canceled), cancelAtPeriodEnd := false,
                                canceledAt := OrElse(r.canceledAt, Some(snapshotAt)), version := r.version + 1,
                                snapshotAt := Some(snapshotAt))];
      }
      var c := customers[user];
      customers := customers[user := c.(reconciledAt := Some(snapshotAt), dueAt := Some(nextDueAt),
        deletedAt := if customerDeleted then OrElse(c.deletedAt, Some(snapshotAt)) else c.deletedAt)];
      state := Applied;
    }
  }
}
