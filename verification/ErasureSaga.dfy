// Interleaving of erasure workers, ordinary writers, maintenance and the outbox: every `Op` is one atomic
// database or advisory-lock step of one actor, and a run is any sequence of enabled steps.

module ErasureSaga {
  import opened Options
  import opened ErasureDatabase
  import Sql
  import Outbox

  type ActorId = nat

  /** A request inside `runShared`: the accounts it names, the shared locks it has so far, and its account check. */
  datatype Writer = Writer(users: set<UserId>, allowBanned: bool, locked: set<UserId>, checked: bool)

  datatype Phase =
    | WantsLock
    | Locked
    | Working
    | Erasing(creations: set<nat>, fullBatch: bool)
    | Removing(photos: set<nat>, fullBatch: bool, failed: bool)
    | Ready(next: Step)
    | Finishing

  /** A call of the erasure handler: its event and worker, what it last read of its erasure, and where it is. */
  datatype Eraser = Eraser(event: Outbox.EventId, worker: Outbox.WorkerId, claim: Claim, phase: Phase) {
    predicate HoldsLock() {
      !phase.WantsLock? && !phase.Finishing?
    }

    /** Past the second read, so that `claim` is what the table said under the lock. */
    predicate Acts() {
      HoldsLock() && !phase.Locked?
    }
  }

  datatype Sys = Sys(
    db: Db,
    banned: set<UserId>,
    issued: set<Outbox.EventId>,
    writers: map<ActorId, Writer>,
    erasers: map<ActorId, Eraser>)

  const BATCH: nat := 50
  const SWIPE_BATCH: nat := 1_000

  datatype Op =
    // the outbox, reviews of requests without a workflow, moderation and retention
    | OutboxStep(step: Outbox.Op)
    | Accept(user: UserId, request: RequestId, event: Outbox.EventId, now: Outbox.Instant)
    | Review(request: RequestId, row: RequestRow)
    | SetBanned(users: set<UserId>)
    | MarkForDeletion(photos: set<nat>)
    | DropPhoto(photo: nat)
    | DropSwipes(swipes: set<(UserId, UserId)>)
    | CloseCreation(attempt: nat)
    | ResetCreation(attempt: nat)
    // a writer
    | Enter(actor: ActorId, users: set<UserId>, allowBanned: bool)
    | LockShared(actor: ActorId, user: UserId)
    | CheckAccounts(actor: ActorId)
    | AddPhoto(actor: ActorId, photo: nat, user: UserId)
    | AddSwipe(actor: ActorId, source: UserId, target: UserId)
    | AddAttempt(actor: ActorId, attempt: nat, user: UserId)
    | StartCreation(actor: ActorId, attempt: nat)
    | Leave(actor: ActorId)
    // an erasure worker
    | Begin(actor: ActorId, event: Outbox.EventId, worker: Outbox.WorkerId)
    | TryExclusive(actor: ActorId)
    | Reread(actor: ActorId)
    | ReadCreations(actor: ActorId, batch: set<nat>)
    | EraseCreation(actor: ActorId, attempt: nat)
    | MarkPhotos(actor: ActorId, batch: set<nat>)
    | RemovePhoto(actor: ActorId, photo: nat, stored: bool)
    | Conclude(actor: ActorId)
    | DeleteSwipes(actor: ActorId, doomed: set<(UserId, UserId)>, now: Outbox.Instant)
    | Advance(actor: ActorId, now: Outbox.Instant)
    | Fail(actor: ActorId)
    | Finish(actor: ActorId, now: Outbox.Instant)

  predicate ExclusivelyLocked(s: Sys, user: UserId) {
    exists a | a in s.erasers :: s.erasers[a].HoldsLock() && s.erasers[a].claim.user == user
  }

  predicate SharedLocked(s: Sys, user: UserId) {
    exists w | w in s.writers :: user in s.writers[w].locked
  }

  const BY_ID: (nat, nat) -> bool := (a: nat, b: nat) => a < b

  function OpenCreations(db: Db, user: UserId): set<nat> {
    set a | a in db.attempts && db.attempts[a].user == user && db.attempts[a].Open()
  }

  function PhotosOf(db: Db, user: UserId): set<nat> {
    set p | p in db.photos && db.photos[p].user == user
  }

  function MarkedPhotos(photos: map<nat, PhotoRow>, ids: set<nat>): map<nat, PhotoRow> {
    map p | p in photos :: if p in ids then photos[p].(deleting := true) else photos[p]
  }

  predicate At(s: Sys, actor: ActorId) {
    actor in s.erasers
  }

  /** The writer may use its work callback on behalf of `user`. */
  predicate MayWrite(s: Sys, actor: ActorId, user: UserId) {
    actor in s.writers && s.writers[actor].checked && user in s.writers[actor].users
  }

  ghost predicate OutboxEnabled(s: Sys, step: Outbox.Op) {
    && Outbox.Enabled(s.db.events, step)
    && (step.Complete? && step.id in s.db.events ==> !s.db.events[step.id].kind.AccountErase?)
    && (step.Enqueue? || step.Requeue? ==> !step.kind.AccountErase? && step.id !in s.issued)
  }

  /**
   * Which steps are possible. Only the erasure handler completes an erasure event, nothing requeues one, new ids
   * are new, and writers reach personal rows only through the work callback of `runShared`.
   */
  ghost predicate Enabled(s: Sys, op: Op) {
    match op
    case OutboxStep(step) => OutboxEnabled(s, step)
    case Accept(user, request, event, _) =>
      && event !in s.issued && request !in s.db.erasures
      && (request in s.db.requests ==> s.db.requests[request].user == user)
    case Review(request, _) => request !in s.db.erasures
    case MarkForDeletion(_) => true
    case Enter(actor, users, _) => actor !in s.writers && actor !in s.erasers
    case LockShared(actor, user) =>
      actor in s.writers && user in s.writers[actor].users - s.writers[actor].locked
    case CheckAccounts(actor) =>
      actor in s.writers && s.writers[actor].locked == s.writers[actor].users && !s.writers[actor].checked
    case AddPhoto(actor, photo, user) => MayWrite(s, actor, user) && photo !in s.db.photos
    case AddSwipe(actor, source, target) =>
      MayWrite(s, actor, source) && MayWrite(s, actor, target) && source != target
    case AddAttempt(actor, attempt, user) => MayWrite(s, actor, user) && attempt !in s.db.attempts
    case StartCreation(actor, attempt) =>
      attempt in s.db.attempts && MayWrite(s, actor, s.db.attempts[attempt].user)
    case Leave(actor) => actor in s.writers
    case Begin(actor, event, _) => actor !in s.writers && actor !in s.erasers
    case TryExclusive(actor) => At(s, actor) && s.erasers[actor].phase.WantsLock?
    case Reread(actor) => At(s, actor) && s.erasers[actor].phase.Locked?
    case ReadCreations(actor, batch) =>
      && At(s, actor) && s.erasers[actor].phase.Working? && s.erasers[actor].claim.step.Stripe?
      && Sql.Limited(OpenCreations(s.db, s.erasers[actor].claim.user), BY_ID, BATCH, batch)
    case EraseCreation(actor, attempt) =>
      At(s, actor) && s.erasers[actor].phase.Erasing? && attempt in s.erasers[actor].phase.creations
    case MarkPhotos(actor, batch) =>
      && At(s, actor) && s.erasers[actor].phase.Working? && s.erasers[actor].claim.step.Photos?
      && Sql.Limited(PhotosOf(s.db, s.erasers[actor].claim.user), BY_ID, BATCH, batch)
    case RemovePhoto(actor, photo, _) =>
      At(s, actor) && s.erasers[actor].phase.Removing? && photo in s.erasers[actor].phase.photos
    case Conclude(actor) =>
      && At(s, actor)
      && (match s.erasers[actor].phase
          case Working => s.erasers[actor].claim.step.Postgres?
          case Erasing(creations, _) => creations == {}
          case Removing(photos, _, _) => photos == {}
          case _ => false)
    case DeleteSwipes(actor, doomed, _) =>
      && At(s, actor) && s.erasers[actor].phase.Working? && s.erasers[actor].claim.step.Swipes?
      && SwipeBatch(s.db.swipes, s.erasers[actor].claim.user, SWIPE_BATCH, doomed)
    case Advance(actor, _) => At(s, actor) && s.erasers[actor].phase.Ready?
    case Fail(actor) => At(s, actor)
    case Finish(actor, _) => At(s, actor) && s.erasers[actor].phase.Finishing?
    case _ => true
  }

  function In(s: Sys, actor: ActorId, e: Eraser): Sys {
    s.(erasers := s.erasers[actor := e])
  }

  /** The actor is gone; its session's advisory locks go with it. */
  function Ended(s: Sys, actor: ActorId): Sys {
    s.(erasers := s.erasers - {actor})
  }

  function Apply(s: Sys, op: Op): Sys {
    var db := s.db;
    match op
    case OutboxStep(step) =>
      s.(db := db.(events := Outbox.Apply(db.events, step)),
         issued := if step.Enqueue? || step.Requeue? then s.issued + {step.id} else s.issued)
    case Accept(user, request, event, now) =>
      s.(db := Accepted(db, user, request, event, now), issued := s.issued + {event})
    case Review(request, row) => s.(db := db.(requests := db.requests[request := row]))
    case SetBanned(users) => s.(banned := users)
    case MarkForDeletion(photos) => s.(db := db.(photos := MarkedPhotos(db.photos, photos)))
    case DropPhoto(photo) => s.(db := db.(photos := db.photos - {photo}))
    case DropSwipes(swipes) => s.(db := db.(swipes := db.swipes - swipes))
    case CloseCreation(attempt) =>
      if attempt in db.attempts
      then s.(db := db.(attempts := db.attempts[attempt := db.attempts[attempt].(erased := true)])) else s
    case ResetCreation(attempt) =>
      if attempt in db.attempts
      then s.(db := db.(attempts := db.attempts[attempt := db.attempts[attempt].(started := false)])) else s
    case Enter(actor, users, allowBanned) =>
      s.(writers := s.writers[actor := Writer(users, allowBanned, {}, false)])
    case LockShared(actor, user) =>
      if actor !in s.writers then s
      else if ExclusivelyLocked(s, user) then s.(writers := s.writers - {actor})
      else s.(writers := s.writers[actor := s.writers[actor].(locked := s.writers[actor].locked + {user})])
    case CheckAccounts(actor) =>
      if actor !in s.writers then s
      else if s.writers[actor].users !! db.deleted
              && (s.writers[actor].allowBanned || s.writers[actor].users !! s.banned)
      then s.(writers := s.writers[actor := s.writers[actor].(checked := true)])
      else s.(writers := s.writers - {actor})
    case AddPhoto(actor, photo, user) =>
      if user in db.deleted then s else s.(db := db.(photos := db.photos[photo := PhotoRow(user, false)]))
    case AddSwipe(actor, source, target) => s.(db := db.(swipes := db.swipes + {(source, target)}))
    case AddAttempt(actor, attempt, user) =>
      if user in db.deleted then s
      else s.(db := db.(attempts := db.attempts[attempt := AttemptRow(user, false, false)]))
    case StartCreation(actor, attempt) =>
      if attempt in db.attempts
      then s.(db := db.(attempts := db.attempts[attempt := db.attempts[attempt].(started := true)])) else s
    case Leave(actor) => s.(writers := s.writers - {actor})
    case Begin(actor, event, worker) =>
      (match Claimed(db, event, worker)
       case None => s
       case Some(claim) =>
         In(s, actor, Eraser(event, worker, claim, if claim.step.Completed? then Finishing else WantsLock)))
    case _ => if At(s, op.actor) then ApplyEraser(s, op, s.erasers[op.actor]) else s
  }

  /** The erasure handler's steps, once it has begun. */
  function ApplyEraser(s: Sys, op: Op, e: Eraser): Sys
    requires op.TryExclusive? || op.Reread? || op.ReadCreations? || op.EraseCreation? || op.MarkPhotos?
      || op.RemovePhoto? || op.Conclude? || op.DeleteSwipes? || op.Advance? || op.Fail? || op.Finish?
  {
    var db := s.db;
    match op
    case TryExclusive(actor) =>
      if ExclusivelyLocked(s, e.claim.user) || SharedLocked(s, e.claim.user) then Ended(s, actor)
      else In(s, actor, e.(phase := Locked))
    case Reread(actor) =>
      (match Claimed(db, e.event, e.worker)
       case None => Ended(s, actor)
       case Some(claim) => In(s, actor, e.(claim := claim, phase := if claim.step.Completed? then Finishing else Working)))
    case ReadCreations(actor, batch) => In(s, actor, e.(phase := Erasing(batch, |batch| == BATCH)))
    case EraseCreation(actor, attempt) =>
      if !e.phase.Erasing? then s
      else
        var s' := In(s, actor, e.(phase := e.phase.(creations := e.phase.creations - {attempt})));
        if attempt in db.attempts
        then s'.(db := db.(attempts := db.attempts[attempt := db.attempts[attempt].(erased := true)])) else s'
    case MarkPhotos(actor, batch) =>
      In(s, actor, e.(phase := Removing(batch, |batch| == BATCH, false))).(db := db.(photos := MarkedPhotos(db.photos, batch)))
    case RemovePhoto(actor, photo, stored) =>
      if !e.phase.Removing? then s
      else
        var s' := In(s, actor, e.(phase := e.phase.(photos := e.phase.photos - {photo}, failed := e.phase.failed || !stored)));
        if stored && photo in db.photos && db.photos[photo].deleting
        then s'.(db := db.(photos := db.photos - {photo})) else s'
    case Conclude(actor) =>
      (match e.phase
       case Working => In(s, actor, e.(phase := Ready(Completed)))
       case Erasing(_, fullBatch) => In(s, actor, e.(phase := Ready(if fullBatch then Stripe else Photos)))
       case Removing(_, fullBatch, failed) =>
         if failed then Ended(s, actor) else In(s, actor, e.(phase := Ready(if fullBatch then Photos else Swipes)))
       case _ => s)
    case DeleteSwipes(actor, doomed, now) =>
      Ended(s, actor).(db := AfterSwipeBatch(db, e.event, e.worker, e.claim, SWIPE_BATCH, doomed, now))
    case Advance(actor, now) =>
      if !e.phase.Ready? then s
      else
        var s' := s.(db := AfterAdvance(db, e.event, e.worker, e.claim, e.phase.next, now));
        if AdvanceOutcome(db, e.event, e.worker, e.claim, e.phase.next).Advanced? && e.phase.next.Completed?
        then In(s', actor, e.(phase := Finishing)) else Ended(s', actor)
    case Fail(actor) => Ended(s, actor)
    case Finish(actor, now) =>
      Ended(s, actor).(db := db.(events := Outbox.Apply(db.events, Outbox.Complete(e.event, e.worker, now))))
  }

  // ---------------------------------------------------------------- the invariant

  predicate LiveErase(e: Outbox.Event, request: RequestId) {
    EraseEvent(e, request) && (e.status.Pending? || e.status.Processing? || e.status.DeadLetter?)
  }

  ghost predicate HasLiveEvent(events: Outbox.Table, request: RequestId) {
    exists e :: e in events && LiveErase(events[e], request)
  }

  /** No erasure is lost: until it is completed, its request is open and its event can still be claimed or retried. */
  ghost predicate NotLost(db: Db) {
    forall r | r in db.erasures && !db.erasures[r].step.Completed? ::
      && HasLiveEvent(db.events, r)
      && r in db.requests && db.requests[r] == RequestRow(db.erasures[r].user, InProgress)
  }

  /** Past a step, none of that step's data is left. */
  predicate Clean(db: Db, row: ErasureRow) {
    && (Rank(row.step) >= 1 ==> !HasOpenCreation(db, row.user))
    && (Rank(row.step) >= 2 ==> !HasPhoto(db, row.user))
    && (Rank(row.step) >= 3 ==> !HasSwipe(db, row.user))
  }

  ghost predicate DbInv(db: Db, issued: set<Outbox.EventId>) {
    && Outbox.Wellformed(db.events) && db.events.Keys <= issued
    && (forall r | r in db.erasures :: db.erasures[r].user in db.deleted)
    && (forall q, r | q in db.erasures && r in db.erasures && db.erasures[q].user == db.erasures[r].user :: q == r)
    && (forall e | e in db.events && db.events[e].kind.AccountErase? :: db.events[e].aggregate in db.erasures)
    && NoSelfSwipe(db.swipes)
    && NotLost(db)
    && (forall r | r in db.erasures :: Clean(db, db.erasures[r]))
  }

  /** A writer past its account check holds all its locks, and no erasure of its accounts has left the first step. */
  predicate WriterOk(db: Db, w: Writer) {
    && w.locked <= w.users
    && (w.checked ==> w.users <= w.locked)
    && (w.checked ==> forall r | r in db.erasures && db.erasures[r].user in w.users :: db.erasures[r].step.Stripe?)
  }

  predicate BatchOk(db: Db, e: Eraser) {
    match e.phase
    case Erasing(creations, fullBatch) =>
      e.claim.step.Stripe? && (!fullBatch ==> OpenCreations(db, e.claim.user) <= creations)
    case Removing(photos, fullBatch, failed) =>
      && e.claim.step.Photos?
      && (forall p | p in photos && p in db.photos && db.photos[p].user == e.claim.user :: db.photos[p].deleting)
      && (!fullBatch && !failed ==> PhotosOf(db, e.claim.user) <= photos)
    case Ready(next) =>
      && !e.claim.step.Swipes? && Rank(e.claim.step) <= Rank(next) <= Rank(e.claim.step) + 1
      && Clean(db, ErasureRow(e.claim.user, next))
    case _ => true
  }

  predicate EraserOk(db: Db, issued: set<Outbox.EventId>, e: Eraser) {
    && e.event in issued
    && (e.event in db.events ==> EraseEvent(db.events[e.event], e.claim.request))
    && e.claim.request in db.erasures && db.erasures[e.claim.request].user == e.claim.user
    && (e.phase.Finishing? ==> db.erasures[e.claim.request].step.Completed?)
    && (e.Acts() ==> db.erasures[e.claim.request].step == e.claim.step && !e.claim.step.Completed?)
    && BatchOk(db, e)
  }

  predicate Exclusion(s: Sys) {
    && (forall a, w | a in s.erasers && w in s.writers && s.erasers[a].HoldsLock() ::
          s.erasers[a].claim.user !in s.writers[w].locked)
    && (forall a, b | a in s.erasers && b in s.erasers && s.erasers[a].HoldsLock() && s.erasers[b].HoldsLock()
          && s.erasers[a].claim.user == s.erasers[b].claim.user :: a == b)
  }

  ghost predicate Inv(s: Sys) {
    && DbInv(s.db, s.issued)
    && (forall w | w in s.writers :: WriterOk(s.db, s.writers[w]))
    && (forall a | a in s.erasers :: EraserOk(s.db, s.issued, s.erasers[a]))
    && Exclusion(s)
  }

  // ---------------------------------------------------------------- what each kind of step keeps

  /** Personal rows of accounts outside `users` only disappear or get marked for deletion. */
  ghost predicate DataChangesOnlyFor(users: set<UserId>, db: Db, db': Db) {
    && db' == db.(photos := db'.photos, swipes := db'.swipes, attempts := db'.attempts)
    && NoSelfSwipe(db'.swipes)
    && (forall a | a in db'.attempts && db'.attempts[a].Open() && db'.attempts[a].user !in users ::
          a in db.attempts && db.attempts[a].Open() && db.attempts[a].user == db'.attempts[a].user)
    && (forall p | p in db'.photos && db'.photos[p].user !in users ::
          p in db.photos && db.photos[p].user == db'.photos[p].user)
    && (forall p | p in db'.photos && p in db.photos && db.photos[p].deleting :: db'.photos[p].deleting)
    && (forall t | t in db'.swipes && t.0 !in users && t.1 !in users :: t in db.swipes)
    && (forall t | t in db'.swipes && t !in db.swipes :: t.0 in users && t.1 in users)
  }

  lemma CleanKept(users: set<UserId>, db: Db, db': Db, row: ErasureRow)
    requires DataChangesOnlyFor(users, db, db') && Clean(db, row) && row.user !in users
    ensures Clean(db', row)
  {
    if HasSwipe(db', row.user) {
      var t :| t in db'.swipes && Involves(t, row.user);
      assert t in db.swipes;
    }
  }

  lemma BatchKept(users: set<UserId>, db: Db, db': Db, e: Eraser)
    requires DataChangesOnlyFor(users, db, db') && BatchOk(db, e)
    requires e.HoldsLock() ==> e.claim.user !in users
    ensures BatchOk(db', e)
  {
    match e.phase
    case Ready(next) => CleanKept(users, db, db', ErasureRow(e.claim.user, next));
    case Erasing(creations, fullBatch) =>
    case Removing(photos, fullBatch, failed) =>
    case _ =>
  }

  lemma DataStep(s: Sys, users: set<UserId>, db': Db)
    requires Inv(s) && DataChangesOnlyFor(users, s.db, db')
    requires forall a | a in s.erasers && s.erasers[a].HoldsLock() :: s.erasers[a].claim.user !in users
    requires forall r | r in s.db.erasures && s.db.erasures[r].user in users :: s.db.erasures[r].step.Stripe?
    ensures Inv(s.(db := db'))
  {
    forall r | r in s.db.erasures ensures Clean(db', s.db.erasures[r]) {
      if s.db.erasures[r].user !in users {
        CleanKept(users, s.db, db', s.db.erasures[r]);
      }
    }
    forall a | a in s.erasers ensures EraserOk(db', s.issued, s.erasers[a]) {
      BatchKept(users, s.db, db', s.erasers[a]);
    }
  }

  /** What the steps of a writer's callback rely on: its accounts are locked by it and still before their first step. */
  lemma WriterExcludesErasers(s: Sys, actor: ActorId)
    requires Inv(s) && actor in s.writers && s.writers[actor].checked
    ensures forall a | a in s.erasers && s.erasers[a].HoldsLock() :: s.erasers[a].claim.user !in s.writers[actor].users
    ensures forall r | r in s.db.erasures && s.db.erasures[r].user in s.writers[actor].users ::
              s.db.erasures[r].step.Stripe?
  {
    assert WriterOk(s.db, s.writers[actor]);
  }

  lemma WriterWorks(s: Sys, op: Op)
    requires Inv(s) && Enabled(s, op)
    requires op.AddPhoto? || op.AddSwipe? || op.AddAttempt? || op.StartCreation?
    ensures Inv(Apply(s, op))
  {
    WriterExcludesErasers(s, op.actor);
    DataStep(s, s.writers[op.actor].users, Apply(s, op).db);
  }

  lemma MaintenanceWorks(s: Sys, op: Op)
    requires Inv(s) && Enabled(s, op)
    requires op.MarkForDeletion? || op.DropPhoto? || op.DropSwipes? || op.CloseCreation? || op.ResetCreation?
    ensures Inv(Apply(s, op))
  {
    DataStep(s, {}, Apply(s, op).db);
  }

  /** A writer that comes, gains a lock or a passed check, or goes. */
  lemma WriterChange(s: Sys, writers: map<ActorId, Writer>)
    requires Inv(s)
    requires forall w | w in writers :: WriterOk(s.db, writers[w])
    requires forall a, w | a in s.erasers && w in writers && s.erasers[a].HoldsLock() ::
               s.erasers[a].claim.user !in writers[w].locked
    ensures Inv(s.(writers := writers))
  {
  }

  lemma WriterEnters(s: Sys, op: Op)
    requires Inv(s) && Enabled(s, op) && (op.Enter? || op.Leave?)
    ensures Inv(Apply(s, op))
  {
    WriterChange(s, Apply(s, op).writers);
  }

  lemma WriterLocks(s: Sys, op: Op)
    requires Inv(s) && Enabled(s, op) && op.LockShared?
    ensures Inv(Apply(s, op))
  {
    var w := s.writers[op.actor];
    assert WriterOk(s.db, w);
    WriterChange(s, Apply(s, op).writers);
  }

  /** The check sees no deleted account, so none of its accounts has an erasure at all. */
  lemma WriterChecks(s: Sys, op: Op)
    requires Inv(s) && Enabled(s, op) && op.CheckAccounts?
    ensures Inv(Apply(s, op))
  {
    var w := s.writers[op.actor];
    assert WriterOk(s.db, w);
    WriterChange(s, Apply(s, op).writers);
  }

  // ---------------------------------------------------------------- the outbox table

  /** Events keep their key, no erasure event appears, and the live ones stay live. */
  ghost predicate EventsStep(events: Outbox.Table, events': Outbox.Table) {
    && Outbox.Wellformed(events')
    && (forall e | e in events' && events'[e].kind.AccountErase? ::
          e in events && EraseEvent(events[e], events'[e].aggregate))
    && (forall e | e in events && e in events' :: Outbox.SameKey(events'[e], events[e].kind, events[e].aggregate))
    && (forall e, r | e in events && LiveErase(events[e], r) :: e in events' && LiveErase(events'[e], r))
  }

  lemma OutboxKeepsErasures(events: Outbox.Table, step: Outbox.Op)
    requires Outbox.Wellformed(events) && Outbox.Enabled(events, step)
    requires step.Complete? && step.id in events ==> !events[step.id].kind.AccountErase?
    requires step.Enqueue? || step.Requeue? ==> !step.kind.AccountErase?
    ensures EventsStep(events, Outbox.Apply(events, step))
  {
    Outbox.ApplyKeepsWellformed(events, step);
    OutboxKeepsKeys(events, step);
    OutboxKeepsLive(events, step);
  }

  lemma OutboxKeepsKeys(events: Outbox.Table, step: Outbox.Op)
    requires Outbox.Enabled(events, step)
    requires step.Enqueue? || step.Requeue? ==> !step.kind.AccountErase?
    ensures var events' := Outbox.Apply(events, step);
      && (forall e | e in events' && events'[e].kind.AccountErase? ::
            e in events && EraseEvent(events[e], events'[e].aggregate))
      && (forall e | e in events && e in events' :: Outbox.SameKey(events'[e], events[e].kind, events[e].aggregate))
  {
    forall e | e in events
      ensures Outbox.SameKey(Outbox.RowAfter(e, events[e], step), events[e].kind, events[e].aggregate)
    {
    }
  }

  lemma OutboxKeepsLive(events: Outbox.Table, step: Outbox.Op)
    requires Outbox.Wellformed(events) && Outbox.Enabled(events, step)
    requires step.Complete? && step.id in events ==> !events[step.id].kind.AccountErase?
    ensures forall e, r | e in events && LiveErase(events[e], r) ::
              e in Outbox.Apply(events, step) && LiveErase(Outbox.Apply(events, step)[e], r)
  {
    forall e, r | e in events && LiveErase(events[e], r)
      ensures e in Outbox.Apply(events, step) && LiveErase(Outbox.Apply(events, step)[e], r)
    {
      Outbox.LiveEventStays(events, step, e);
    }
  }

  /** Batches and cleanliness are about personal rows: no other table matters to them. */
  lemma SamePersonalRows(db: Db, db': Db)
    requires db'.photos == db.photos && db'.swipes == db.swipes && db'.attempts == db.attempts
    ensures forall e :: BatchOk(db, e) ==> BatchOk(db', e)
    ensures forall row :: Clean(db, row) ==> Clean(db', row)
  {
    assert forall row :: Clean(db, row) ==> Clean(db', row);
    hide Clean;
  }

  lemma EventsReplaced(s: Sys, events': Outbox.Table, issued': set<Outbox.EventId>)
    requires Inv(s) && Outbox.Wellformed(events')
    requires s.issued <= issued' && events'.Keys <= issued'
    requires forall e | e in events' && e !in s.db.events :: e !in s.issued
    requires forall e | e in events' && events'[e].kind.AccountErase? ::
               e in s.db.events && EraseEvent(s.db.events[e], events'[e].aggregate)
    requires forall e | e in s.db.events && e in events' ::
               Outbox.SameKey(events'[e], s.db.events[e].kind, s.db.events[e].aggregate)
    requires forall r | r in s.db.erasures && !s.db.erasures[r].step.Completed? :: HasLiveEvent(events', r)
    ensures Inv(s.(db := s.db.(events := events'), issued := issued'))
  {
    EventsReplacedInDb(s, events', issued');
    forall a | a in s.erasers ensures EraserOk(s.db.(events := events'), issued', s.erasers[a]) {
      HandlerSeesEvents(s, events', issued', a);
    }
    hide DbInv, BatchOk, EraserOk;
  }

  lemma HandlerSeesEvents(s: Sys, events': Outbox.Table, issued': set<Outbox.EventId>, actor: ActorId)
    requires Inv(s) && At(s, actor) && s.issued <= issued'
    requires forall e | e in events' && e !in s.db.events :: e !in s.issued
    requires forall e | e in s.db.events && e in events' ::
               Outbox.SameKey(events'[e], s.db.events[e].kind, s.db.events[e].aggregate)
    ensures EraserOk(s.db.(events := events'), issued', s.erasers[actor])
  {
    SamePersonalRows(s.db, s.db.(events := events'));
    assert EraserOk(s.db, s.issued, s.erasers[actor]);
    hide Inv, BatchOk;
  }

  lemma EventsReplacedInDb(s: Sys, events': Outbox.Table, issued': set<Outbox.EventId>)
    requires DbInv(s.db, s.issued) && Outbox.Wellformed(events')
    requires s.issued <= issued' && events'.Keys <= issued'
    requires forall e | e in events' && e !in s.db.events :: e !in s.issued
    requires forall e | e in events' && events'[e].kind.AccountErase? ::
               e in s.db.events && EraseEvent(s.db.events[e], events'[e].aggregate)
    requires forall e | e in s.db.events && e in events' ::
               Outbox.SameKey(events'[e], s.db.events[e].kind, s.db.events[e].aggregate)
    requires forall r | r in s.db.erasures && !s.db.erasures[r].step.Completed? :: HasLiveEvent(events', r)
    ensures DbInv(s.db.(events := events'), issued')
  {
    SamePersonalRows(s.db, s.db.(events := events'));
    hide Clean, HasLiveEvent;
  }

  lemma EventsChange(s: Sys, events': Outbox.Table, issued': set<Outbox.EventId>)
    requires Inv(s) && EventsStep(s.db.events, events')
    requires s.issued <= issued' && events'.Keys <= issued'
    requires forall e | e in events' && e !in s.db.events :: e !in s.issued
    ensures Inv(s.(db := s.db.(events := events'), issued := issued'))
  {
    forall r | r in s.db.erasures && !s.db.erasures[r].step.Completed? ensures HasLiveEvent(events', r) {
      var e :| e in s.db.events && LiveErase(s.db.events[e], r);
      assert e in events' && LiveErase(events'[e], r);
    }
    EventsReplaced(s, events', issued');
  }

  lemma OutboxWorks(s: Sys, op: Op)
    requires Inv(s) && Enabled(s, op) && op.OutboxStep?
    ensures Inv(Apply(s, op))
  {
    OutboxKeepsErasures(s.db.events, op.step);
    OutboxIssues(s.db.events, op.step, s.issued);
    EventsChange(s, Outbox.Apply(s.db.events, op.step), Apply(s, op).issued);
  }

  /** The same for a statement inside one of the saga's own transactions. */
  lemma EventStatement(s: Sys, step: Outbox.Op)
    requires Inv(s) && OutboxEnabled(s, step) && !step.Enqueue? && !step.Requeue?
    ensures Inv(s.(db := s.db.(events := Outbox.Apply(s.db.events, step))))
  {
    OutboxKeepsErasures(s.db.events, step);
    OutboxIssues(s.db.events, step, s.issued);
    EventsChange(s, Outbox.Apply(s.db.events, step), s.issued);
  }

  lemma OutboxIssues(events: Outbox.Table, step: Outbox.Op, issued: set<Outbox.EventId>)
    requires events.Keys <= issued
    requires step.Enqueue? || step.Requeue? ==> step.id !in issued
    ensures var events' := Outbox.Apply(events, step);
      var issued' := if step.Enqueue? || step.Requeue? then issued + {step.id} else issued;
      && events'.Keys <= issued'
      && (forall e | e in events' && e !in events :: e !in issued)
  {
  }

  // ---------------------------------------------------------------- the erasure handler

  lemma HandlerOk(s: Sys, actor: ActorId)
    requires Inv(s) && At(s, actor)
    ensures EraserOk(s.db, s.issued, s.erasers[actor])
  {
  }

  /** One handler call changes its own state only. */
  lemma EraserChange(s: Sys, actor: ActorId, e: Eraser)
    requires Inv(s) && EraserOk(s.db, s.issued, e)
    requires e.HoldsLock() ==> forall w | w in s.writers :: e.claim.user !in s.writers[w].locked
    requires e.HoldsLock() ==> forall a | a in s.erasers && a != actor && s.erasers[a].HoldsLock() ::
                                 s.erasers[a].claim.user != e.claim.user
    ensures Inv(In(s, actor, e))
  {
  }

  /** ... and when it keeps the lock it has, nothing about exclusion needs a new argument. */
  lemma EraserKeepsLock(s: Sys, actor: ActorId, e: Eraser)
    requires Inv(s) && EraserOk(s.db, s.issued, e)
    requires At(s, actor) && e.claim.user == s.erasers[actor].claim.user
    requires e.HoldsLock() ==> s.erasers[actor].HoldsLock()
    ensures Inv(In(s, actor, e))
  {
    EraserChange(s, actor, e);
  }

  lemma EraserEnds(s: Sys, actor: ActorId)
    requires Inv(s)
    ensures Inv(Ended(s, actor))
  {
  }

  lemma EraserBegins(s: Sys, op: Op)
    requires Inv(s) && Enabled(s, op) && op.Begin?
    ensures Inv(Apply(s, op))
  {
    match Claimed(s.db, op.event, op.worker)
    case None =>
    case Some(claim) =>
      EraserChange(s, op.actor, Eraser(op.event, op.worker, claim, if claim.step.Completed? then Finishing else WantsLock));
  }

  lemma EraserLocks(s: Sys, op: Op)
    requires Inv(s) && Enabled(s, op) && op.TryExclusive?
    ensures Inv(Apply(s, op))
  {
    var e := s.erasers[op.actor];
    if ExclusivelyLocked(s, e.claim.user) || SharedLocked(s, e.claim.user) {
      EraserEnds(s, op.actor);
    } else {
      assert EraserOk(s.db, s.issued, e);
      EraserChange(s, op.actor, e.(phase := Locked));
    }
  }

  lemma EraserRereads(s: Sys, op: Op)
    requires Inv(s) && Enabled(s, op) && op.Reread?
    ensures Inv(Apply(s, op))
  {
    var e := s.erasers[op.actor];
    assert EraserOk(s.db, s.issued, e);
    match Claimed(s.db, e.event, e.worker)
    case None => EraserEnds(s, op.actor);
    case Some(claim) =>
      EraserKeepsLock(s, op.actor, e.(claim := claim, phase := if claim.step.Completed? then Finishing else Working));
  }

  lemma EraserReadsCreations(s: Sys, op: Op)
    requires Inv(s) && Enabled(s, op) && op.ReadCreations?
    ensures Inv(Apply(s, op))
  {
    var e := s.erasers[op.actor];
    assert EraserOk(s.db, s.issued, e);
    Sql.ShortMeansAll(OpenCreations(s.db, e.claim.user), BY_ID, BATCH, op.batch);
    EraserKeepsLock(s, op.actor, e.(phase := Erasing(op.batch, |op.batch| == BATCH)));
  }

  lemma EraserErasesCreation(s: Sys, op: Op)
    requires Inv(s) && Enabled(s, op) && op.EraseCreation?
    ensures Inv(Apply(s, op))
  {
    var e := s.erasers[op.actor];
    var e' := e.(phase := e.phase.(creations := e.phase.creations - {op.attempt}));
    var s1 := Apply(s, CloseCreation(op.attempt));
    MaintenanceWorks(s, CloseCreation(op.attempt));
    assert EraserOk(s1.db, s1.issued, e);
    assert op.attempt !in OpenCreations(s1.db, e.claim.user);
    EraserKeepsLock(s1, op.actor, e');
    assert Apply(s, op) == In(s1, op.actor, e');
  }

  lemma EraserMarksPhotos(s: Sys, op: Op)
    requires Inv(s) && Enabled(s, op) && op.MarkPhotos?
    ensures Inv(Apply(s, op))
  {
    var e := s.erasers[op.actor];
    var e' := e.(phase := Removing(op.batch, |op.batch| == BATCH, false));
    var s1 := Apply(s, MarkForDeletion(op.batch));
    MaintenanceWorks(s, MarkForDeletion(op.batch));
    assert EraserOk(s1.db, s1.issued, e);
    Sql.ShortMeansAll(PhotosOf(s.db, e.claim.user), BY_ID, BATCH, op.batch);
    assert PhotosOf(s1.db, e.claim.user) == PhotosOf(s.db, e.claim.user);
    EraserKeepsLock(s1, op.actor, e');
    assert Apply(s, op) == In(s1, op.actor, e');
  }

  lemma EraserRemovesPhoto(s: Sys, op: Op)
    requires Inv(s) && Enabled(s, op) && op.RemovePhoto?
    ensures Inv(Apply(s, op))
  {
    var e := s.erasers[op.actor];
    assert EraserOk(s.db, s.issued, e);
    if op.stored && op.photo in s.db.photos && s.db.photos[op.photo].deleting {
      MaintenanceWorks(s, DropPhoto(op.photo));
      assert EraserOk(Apply(s, DropPhoto(op.photo)).db, s.issued, e);
      PhotoDealtWith(Apply(s, DropPhoto(op.photo)), op.actor, op.photo, true);
    } else {
      PhotoDealtWith(s, op.actor, op.photo, op.stored);
    }
  }

  lemma PhotoDealtWith(s: Sys, actor: ActorId, photo: nat, stored: bool)
    requires Inv(s) && At(s, actor) && s.erasers[actor].phase.Removing? && photo in s.erasers[actor].phase.photos
    requires stored ==> photo !in PhotosOf(s.db, s.erasers[actor].claim.user)
    ensures var e := s.erasers[actor];
      Inv(In(s, actor, e.(phase := e.phase.(photos := e.phase.photos - {photo}, failed := e.phase.failed || !stored))))
  {
    var e := s.erasers[actor];
    assert EraserOk(s.db, s.issued, e);
    EraserKeepsLock(s, actor, e.(phase := e.phase.(photos := e.phase.photos - {photo}, failed := e.phase.failed || !stored)));
  }

  lemma EraserConcludes(s: Sys, op: Op)
    requires Inv(s) && Enabled(s, op) && op.Conclude?
    ensures Inv(Apply(s, op))
  {
    var e := s.erasers[op.actor];
    InvAt(s, op.actor);
    ConclusionOk(s.db, s.issued, e);
    hide Inv, EraserOk, Clean;
    if e.phase.Removing? && e.phase.failed {
      EraserEnds(s, op.actor);
    } else {
      EraserKeepsLock(s, op.actor, e.(phase := Ready(NextOf(e))));
    }
  }

  /** The step that the batch leads to. */
  function NextOf(e: Eraser): Step {
    match e.phase
    case Erasing(_, fullBatch) => if fullBatch then Stripe else Photos
    case Removing(_, fullBatch, _) => if fullBatch then Photos else Swipes
    case _ => Completed
  }

  lemma InvAt(s: Sys, actor: ActorId)
    requires Inv(s) && At(s, actor)
    ensures EraserOk(s.db, s.issued, s.erasers[actor])
    ensures s.erasers[actor].claim.request in s.db.erasures
    ensures Clean(s.db, s.db.erasures[s.erasers[actor].claim.request])
  {
    assert EraserOk(s.db, s.issued, s.erasers[actor]);
  }

  lemma ConclusionOk(db: Db, issued: set<Outbox.EventId>, e: Eraser)
    requires EraserOk(db, issued, e) && Clean(db, db.erasures[e.claim.request])
    requires match e.phase
             case Working => e.claim.step.Postgres?
             case Erasing(creations, _) => creations == {}
             case Removing(photos, _, failed) => photos == {}
             case _ => false
    ensures !(e.phase.Removing? && e.phase.failed) ==> EraserOk(db, issued, e.(phase := Ready(NextOf(e))))
  {
    NothingLeft(db, e.claim.user);
    hide HasOpenCreation, HasPhoto, HasSwipe, OpenCreations, PhotosOf;
  }

  lemma NothingLeft(db: Db, user: UserId)
    ensures OpenCreations(db, user) == {} ==> !HasOpenCreation(db, user)
    ensures PhotosOf(db, user) == {} ==> !HasPhoto(db, user)
  {
    assert HasOpenCreation(db, user) ==> exists a | a in db.attempts :: a in OpenCreations(db, user);
    assert HasPhoto(db, user) ==> exists p | p in db.photos :: p in PhotosOf(db, user);
  }

  function MovedTo(db: Db, claim: Claim, next: Step): Db
    requires claim.request in db.erasures
  {
    db.(erasures := db.erasures[claim.request := ErasureRow(claim.user, next)],
        requests := if next.Completed? then db.requests[claim.request := RequestRow(claim.user, Closed)] else db.requests)
  }

  /** Moving an erasure under its lock: no writer and no other handler relies on the step it leaves. */
  lemma StepMoves(s: Sys, actor: ActorId, next: Step)
    requires Inv(s) && At(s, actor) && s.erasers[actor].Acts()
    requires Clean(s.db, ErasureRow(s.erasers[actor].claim.user, next))
    ensures s.erasers[actor].claim.request in s.db.erasures
    ensures Inv(Ended(s, actor).(db := MovedTo(s.db, s.erasers[actor].claim, next)))
  {
    var e := s.erasers[actor];
    assert EraserOk(s.db, s.issued, e);
    var db' := MovedTo(s.db, e.claim, next);
    forall w | w in s.writers ensures WriterOk(db', s.writers[w]) {
      assert WriterOk(s.db, s.writers[w]);
      assert e.claim.user !in s.writers[w].locked;
    }
    forall b | b in s.erasers && b != actor ensures EraserOk(db', s.issued, s.erasers[b]) {
      OtherEraserUnmoved(s, actor, b, next);
    }
    MovedDbInv(s.db, s.issued, e.claim, next);
  }

  lemma MovedDbInv(db: Db, issued: set<Outbox.EventId>, claim: Claim, next: Step)
    requires DbInv(db, issued)
    requires claim.request in db.erasures && db.erasures[claim.request] == ErasureRow(claim.user, claim.step)
    requires !claim.step.Completed? && Clean(db, ErasureRow(claim.user, next))
    ensures DbInv(MovedTo(db, claim, next), issued)
  {
    var db' := MovedTo(db, claim, next);
    forall r | r in db'.erasures ensures Clean(db', db'.erasures[r]) {
      assert Clean(db, db'.erasures[r]);
    }
  }

  lemma OtherEraserUnmoved(s: Sys, actor: ActorId, other: ActorId, next: Step)
    requires Inv(s) && At(s, actor) && At(s, other) && actor != other && s.erasers[actor].Acts()
    requires s.erasers[actor].claim.request in s.db.erasures
    ensures EraserOk(MovedTo(s.db, s.erasers[actor].claim, next), s.issued, s.erasers[other])
  {
    var e, o := s.erasers[actor], s.erasers[other];
    var db' := MovedTo(s.db, e.claim, next);
    assert EraserOk(s.db, s.issued, e) && EraserOk(s.db, s.issued, o);
    if o.claim.request == e.claim.request {
      assert !o.HoldsLock() && !o.phase.Finishing?;
    }
    assert BatchOk(db', o) by {
      if o.phase.Ready? {
        assert Clean(db', ErasureRow(o.claim.user, o.phase.next));
      }
    }
  }

  /** Under the lock, the step read is the step stored, and nothing that `advance` checks can be missing. */
  lemma AdvanceIsNeverRefused(s: Sys, actor: ActorId)
    requires Inv(s) && At(s, actor) && s.erasers[actor].phase.Ready?
    ensures var e := s.erasers[actor];
      var outcome := AdvanceOutcome(s.db, e.event, e.worker, e.claim, e.phase.next);
      outcome.NotOwned? || outcome.Advanced?
  {
    var e := s.erasers[actor];
    assert EraserOk(s.db, s.issued, e);
    assert Clean(s.db, ErasureRow(e.claim.user, e.phase.next));
  }

  lemma AdvanceSplits(db: Db, event: Outbox.EventId, worker: Outbox.WorkerId, claim: Claim, next: Step, now: Outbox.Instant)
    requires AdvanceOutcome(db, event, worker, claim, next).Advanced?
    requires db.erasures[claim.request].user == claim.user
    ensures var moved := MovedTo(db, claim, next);
      AfterAdvance(db, event, worker, claim, next, now)
        == moved.(events := Outbox.Apply(db.events, AdvanceEvents(db, event, worker, claim, next, now)))
  {
  }

  function AdvanceEvents(db: Db, event: Outbox.EventId, worker: Outbox.WorkerId, claim: Claim, next: Step,
      now: Outbox.Instant): Outbox.Op {
    if next.Completed? then Outbox.DropBilling(BillingEventsOf(db, claim.user)) else Outbox.Checkpoint(event, worker, now)
  }

  lemma EraserAdvances(s: Sys, op: Op)
    requires Inv(s) && Enabled(s, op) && op.Advance?
    ensures Inv(Apply(s, op))
  {
    var e := s.erasers[op.actor];
    AdvanceIsNeverRefused(s, op.actor);
    if !Outbox.Owned(s.db.events, e.event, e.worker) {
      EraserEnds(s, op.actor);
    } else {
      AdvanceStores(s, op.actor, op.now);
      if e.phase.next.Completed? {
        AdvanceCompletes(s, op.actor, op.now);
      }
    }
  }

  lemma AdvanceCompletes(s: Sys, actor: ActorId, now: Outbox.Instant)
    requires Inv(s) && At(s, actor) && s.erasers[actor].phase == Ready(Completed)
    requires var e := s.erasers[actor]; AdvanceOutcome(s.db, e.event, e.worker, e.claim, Completed).Advanced?
    ensures var e := s.erasers[actor];
      Inv(In(s.(db := AfterAdvance(s.db, e.event, e.worker, e.claim, Completed, now)), actor, e.(phase := Finishing)))
  {
    var e := s.erasers[actor];
    hide Inv, AfterAdvance;
    HandlerOk(s, actor);
    AdvanceStores(s, actor, now);
    AdvanceKeepsKeys(s.db, e.event, e.worker, e.claim, now);
    var stored := Ended(s, actor).(db := AfterAdvance(s.db, e.event, e.worker, e.claim, Completed, now));
    EndedThenIn(s, actor, stored.db, e.(phase := Finishing));
    assert EraserOk(s.db, s.issued, e);
    AdvanceFinishes(stored, actor, e) by {
      hide *;
    }
  }

  lemma EndedThenIn(s: Sys, actor: ActorId, db: Db, e: Eraser)
    ensures In(Ended(s, actor).(db := db), actor, e) == In(s.(db := db), actor, e)
  {
    assert (s.erasers - {actor})[actor := e] == s.erasers[actor := e];
  }

  lemma AdvanceStores(s: Sys, actor: ActorId, now: Outbox.Instant)
    requires Inv(s) && At(s, actor) && s.erasers[actor].phase.Ready?
    requires var e := s.erasers[actor];
      AdvanceOutcome(s.db, e.event, e.worker, e.claim, e.phase.next).Advanced?
    ensures var e := s.erasers[actor];
      Inv(Ended(s, actor).(db := AfterAdvance(s.db, e.event, e.worker, e.claim, e.phase.next, now)))
  {
    var e := s.erasers[actor];
    hide Inv, AfterAdvance, Clean;
    HandlerOk(s, actor);
    StepMoves(s, actor, e.phase.next);
    var s1 := Ended(s, actor).(db := MovedTo(s.db, e.claim, e.phase.next));
    AdvanceSplits(s.db, e.event, e.worker, e.claim, e.phase.next, now);
    AdvanceEventsEnabled(s, s1, e.event, e.worker, e.claim, e.phase.next, now);
    hide *;
    EventStatement(s1, AdvanceEvents(s.db, e.event, e.worker, e.claim, e.phase.next, now));
  }

  lemma AdvanceEventsEnabled(s: Sys, s': Sys, event: Outbox.EventId, worker: Outbox.WorkerId, claim: Claim, next: Step,
      now: Outbox.Instant)
    requires s'.db.events == s.db.events
    ensures var step := AdvanceEvents(s.db, event, worker, claim, next, now);
      OutboxEnabled(s', step) && !step.Enqueue? && !step.Requeue?
  {
  }

  lemma AdvanceKeepsKeys(db: Db, event: Outbox.EventId, worker: Outbox.WorkerId, claim: Claim, now: Outbox.Instant)
    requires AdvanceOutcome(db, event, worker, claim, Completed).Advanced?
    requires db.erasures[claim.request].user == claim.user
    ensures var db' := AfterAdvance(db, event, worker, claim, Completed, now);
      && claim.request in db'.erasures && db'.erasures[claim.request] == ErasureRow(claim.user, Completed)
      && (event in db'.events ==> event in db.events && db'.events[event] == db.events[event])
  {
  }

  lemma AdvanceFinishes(s: Sys, actor: ActorId, e: Eraser)
    requires Inv(s) && e.event in s.issued
    requires e.event in s.db.events ==> EraseEvent(s.db.events[e.event], e.claim.request)
    requires e.claim.request in s.db.erasures && s.db.erasures[e.claim.request] == ErasureRow(e.claim.user, Completed)
    ensures Inv(In(s, actor, e.(phase := Finishing)))
  {
    assert EraserOk(s.db, s.issued, e.(phase := Finishing));
    EraserChange(s, actor, e.(phase := Finishing));
  }

  lemma EraserDeletesSwipes(s: Sys, op: Op)
    requires Inv(s) && Enabled(s, op) && op.DeleteSwipes?
    ensures Inv(Apply(s, op))
  {
    var e := s.erasers[op.actor];
    if !Outbox.Owned(s.db.events, e.event, e.worker) {
      EraserEnds(s, op.actor);
    } else {
      SwipeBatchStores(s, op.actor, op.doomed, op.now);
    }
  }

  lemma SwipeBatchStores(s: Sys, actor: ActorId, doomed: set<(UserId, UserId)>, now: Outbox.Instant)
    requires Inv(s) && At(s, actor) && s.erasers[actor].phase.Working? && s.erasers[actor].claim.step.Swipes?
    requires SwipeBatch(s.db.swipes, s.erasers[actor].claim.user, SWIPE_BATCH, doomed)
    requires var e := s.erasers[actor]; Outbox.Owned(s.db.events, e.event, e.worker)
    ensures var e := s.erasers[actor];
      Inv(Ended(s, actor).(db := AfterSwipeBatch(s.db, e.event, e.worker, e.claim, SWIPE_BATCH, doomed, now)))
  {
    var e := s.erasers[actor];
    hide Inv, AfterSwipeBatch, SwipeBatch, Clean;
    var next := if |doomed| < SWIPE_BATCH then Postgres else Swipes;
    SwipeBatchMoves(s, actor, doomed);
    var s1 := s.(db := s.db.(swipes := s.db.swipes - doomed));
    EventStatement(Ended(s1, actor).(db := MovedTo(s1.db, e.claim, next)), Outbox.Checkpoint(e.event, e.worker, now));
    SwipeBatchSplits(s, actor, doomed, now);
  }

  lemma SwipeBatchMoves(s: Sys, actor: ActorId, doomed: set<(UserId, UserId)>)
    requires Inv(s) && At(s, actor) && s.erasers[actor].phase.Working? && s.erasers[actor].claim.step.Swipes?
    requires SwipeBatch(s.db.swipes, s.erasers[actor].claim.user, SWIPE_BATCH, doomed)
    requires var e := s.erasers[actor]; Outbox.Owned(s.db.events, e.event, e.worker)
    ensures var s1 := s.(db := s.db.(swipes := s.db.swipes - doomed));
      var next := if |doomed| < SWIPE_BATCH then Postgres else Swipes;
      Inv(Ended(s1, actor).(db := MovedTo(s1.db, s.erasers[actor].claim, next)))
  {
    hide Inv, SwipeBatch, Clean;
    SwipesGone(s, actor, doomed);
    StepMoves(s.(db := s.db.(swipes := s.db.swipes - doomed)), actor,
              if |doomed| < SWIPE_BATCH then Postgres else Swipes);
  }

  lemma SwipesGone(s: Sys, actor: ActorId, doomed: set<(UserId, UserId)>)
    requires Inv(s) && At(s, actor) && s.erasers[actor].phase.Working? && s.erasers[actor].claim.step.Swipes?
    requires SwipeBatch(s.db.swipes, s.erasers[actor].claim.user, SWIPE_BATCH, doomed)
    ensures var s1 := s.(db := s.db.(swipes := s.db.swipes - doomed));
      var next := if |doomed| < SWIPE_BATCH then Postgres else Swipes;
      Inv(s1) && Clean(s1.db, ErasureRow(s.erasers[actor].claim.user, next))
  {
    var e := s.erasers[actor];
    assert EraserOk(s.db, s.issued, e);
    ShortSwipeBatchIsLast(s.db.swipes, e.claim.user, SWIPE_BATCH, doomed);
    MaintenanceWorks(s, DropSwipes(doomed));
    var s1 := s.(db := s.db.(swipes := s.db.swipes - doomed));
    assert s1 == Apply(s, DropSwipes(doomed));
    assert Clean(s1.db, s1.db.erasures[e.claim.request]);
    assert forall t | t in s.db.swipes && Involves(t, e.claim.user) :: t in SwipesOf(s.db.swipes, e.claim.user);
  }

  lemma SwipeBatchSplits(s: Sys, actor: ActorId, doomed: set<(UserId, UserId)>, now: Outbox.Instant)
    requires Inv(s) && At(s, actor) && s.erasers[actor].phase.Working? && s.erasers[actor].claim.step.Swipes?
    requires var e := s.erasers[actor]; Outbox.Owned(s.db.events, e.event, e.worker)
    ensures var e := s.erasers[actor];
      var next := if |doomed| < SWIPE_BATCH then Postgres else Swipes;
      var left := s.db.(swipes := s.db.swipes - doomed);
      && e.claim.request in left.erasures
      && AfterSwipeBatch(s.db, e.event, e.worker, e.claim, SWIPE_BATCH, doomed, now)
         == MovedTo(left, e.claim, next).(events := Outbox.Apply(s.db.events, Outbox.Checkpoint(e.event, e.worker, now)))
  {
    assert EraserOk(s.db, s.issued, s.erasers[actor]);
  }

  /** Completing the event of a completed erasure loses nothing. */
  lemma EraserFinishes(s: Sys, op: Op)
    requires Inv(s) && Enabled(s, op) && op.Finish?
    ensures Inv(Apply(s, op))
  {
    var e := s.erasers[op.actor];
    assert EraserOk(s.db, s.issued, e);
    var s1 := Ended(s, op.actor);
    EraserEnds(s, op.actor);
    var step := Outbox.Complete(e.event, e.worker, op.now);
    CompletingKeepsOthers(s1.db.events, step);
    EventsFinish(s1, e.event, e.claim.request, step);
  }

  lemma CompletingKeepsOthers(events: Outbox.Table, step: Outbox.Op)
    requires Outbox.Wellformed(events) && step.Complete?
    ensures var events' := Outbox.Apply(events, step);
      && Outbox.Wellformed(events') && events'.Keys == events.Keys
      && (forall e | e in events :: Outbox.SameKey(events'[e], events[e].kind, events[e].aggregate))
      && (forall e | e in events && e != step.id :: events'[e] == events[e])
  {
    Outbox.ApplyKeepsWellformed(events, step);
  }

  lemma EventsFinish(s: Sys, event: Outbox.EventId, request: RequestId, step: Outbox.Op)
    requires Inv(s) && step.Complete? && step.id == event
    requires event in s.db.events ==> EraseEvent(s.db.events[event], request)
    requires request in s.db.erasures && s.db.erasures[request].step.Completed?
    ensures Inv(s.(db := s.db.(events := Outbox.Apply(s.db.events, step))))
  {
    var events' := Outbox.Apply(s.db.events, step);
    CompletingKeepsOthers(s.db.events, step);
    forall r | r in s.db.erasures && !s.db.erasures[r].step.Completed? ensures HasLiveEvent(events', r) {
      var e :| e in s.db.events && LiveErase(s.db.events[e], r);
      assert e in events' && LiveErase(events'[e], r);
    }
    EventsReplaced(s, events', s.issued);
  }

  // ---------------------------------------------------------------- the remaining steps, and all of them

  lemma EraserFails(s: Sys, op: Op)
    requires Inv(s) && Enabled(s, op) && op.Fail?
    ensures Inv(Apply(s, op))
  {
    EraserEnds(s, op.actor);
  }

  lemma ErasureAccepted(s: Sys, op: Op)
    requires Inv(s) && Enabled(s, op) && op.Accept?
    ensures Inv(Apply(s, op))
  {
    if HasErasure(s.db, op.user) {
      assert Apply(s, op) == s.(issued := s.issued + {op.event});
      EventsReplaced(s, s.db.events, s.issued + {op.event});
    } else {
      AcceptedDbInv(s.db, s.issued, op.user, op.request, op.event, op.now);
      AcceptedKeepsActors(s, op);
    }
  }

  lemma AcceptedDbInv(db: Db, issued: set<Outbox.EventId>, user: UserId, request: RequestId, event: Outbox.EventId,
      now: Outbox.Instant)
    requires DbInv(db, issued) && !HasErasure(db, user) && request !in db.erasures && event !in issued
    ensures DbInv(Accepted(db, user, request, event, now), issued + {event})
  {
    AcceptedEvents(db.events, request, event, now);
    AcceptedNotLost(db, user, request, event, now);
    AcceptedClean(db, user, request, event, now);
  }

  lemma AcceptedNotLost(db: Db, user: UserId, request: RequestId, event: Outbox.EventId, now: Outbox.Instant)
    requires Outbox.Wellformed(db.events) && NotLost(db)
    requires !HasErasure(db, user) && request !in db.erasures && event !in db.events
    requires forall e | e in db.events && db.events[e].kind.AccountErase? :: db.events[e].aggregate in db.erasures
    ensures NotLost(Accepted(db, user, request, event, now))
  {
    var db' := Accepted(db, user, request, event, now);
    AcceptedEvents(db.events, request, event, now);
    forall r | r in db'.erasures && !db'.erasures[r].step.Completed? ensures HasLiveEvent(db'.events, r) {
      if r == request {
        assert LiveErase(db'.events[event], request);
      } else {
        var e :| e in db.events && LiveErase(db.events[e], r);
        assert e in db'.events && LiveErase(db'.events[e], r);
      }
    }
  }

  lemma AcceptedClean(db: Db, user: UserId, request: RequestId, event: Outbox.EventId, now: Outbox.Instant)
    requires !HasErasure(db, user) && request !in db.erasures
    requires forall r | r in db.erasures :: Clean(db, db.erasures[r])
    ensures var db' := Accepted(db, user, request, event, now);
      forall r | r in db'.erasures :: Clean(db', db'.erasures[r])
  {
    var db' := Accepted(db, user, request, event, now);
    forall r | r in db'.erasures ensures Clean(db', db'.erasures[r]) {
      assert r != request ==> Clean(db, db.erasures[r]);
    }
  }

  lemma AcceptedEvents(events: Outbox.Table, request: RequestId, event: Outbox.EventId, now: Outbox.Instant)
    requires Outbox.Wellformed(events) && event !in events
    requires forall e | e in events && events[e].kind.AccountErase? :: events[e].aggregate != request
    ensures var events' := Outbox.Apply(events, Outbox.Enqueue(event, Outbox.AccountErase, request, now));
      Outbox.Wellformed(events') && events' == events[event := Outbox.NewEvent(Outbox.AccountErase, request, now)]
  {
    Outbox.ApplyKeepsWellformed(events, Outbox.Enqueue(event, Outbox.AccountErase, request, now));
    assert !Outbox.Taken(events, Outbox.AccountErase, request);
  }

  lemma AcceptedKeepsActors(s: Sys, op: Op)
    requires Inv(s) && Enabled(s, op) && op.Accept? && !HasErasure(s.db, op.user)
    ensures forall w | w in s.writers :: WriterOk(Apply(s, op).db, s.writers[w])
    ensures forall a | a in s.erasers :: EraserOk(Apply(s, op).db, Apply(s, op).issued, s.erasers[a])
  {
    var s' := Apply(s, op);
    var step := Outbox.Enqueue(op.event, Outbox.AccountErase, op.request, op.now);
    assert s'.db.events == Outbox.Apply(s.db.events, step);
    SamePersonalRows(s.db, s'.db);
    hide BatchOk, Clean, HasLiveEvent;
    forall a | a in s.erasers ensures EraserOk(s'.db, s'.issued, s.erasers[a]) {
      assert EraserOk(s.db, s.issued, s.erasers[a]);
    }
  }

  lemma RequestReviewed(s: Sys, op: Op)
    requires Inv(s) && Enabled(s, op) && (op.Review? || op.SetBanned?)
    ensures Inv(Apply(s, op))
  {
    if op.Review? {
      ReviewKeepsInv(s, op.request, op.row);
    }
  }

  lemma ReviewKeepsInv(s: Sys, request: RequestId, row: RequestRow)
    requires Inv(s) && request !in s.db.erasures
    ensures Inv(s.(db := s.db.(requests := s.db.requests[request := row])))
  {
    var db' := s.db.(requests := s.db.requests[request := row]);
    ReviewedDb(s, request, row);
    SamePersonalRows(s.db, db');
    hide DbInv, BatchOk;
    forall a | a in s.erasers ensures EraserOk(db', s.issued, s.erasers[a]) {
      assert EraserOk(s.db, s.issued, s.erasers[a]);
    }
  }

  lemma ReviewedDb(s: Sys, request: RequestId, row: RequestRow)
    requires DbInv(s.db, s.issued) && request !in s.db.erasures
    ensures DbInv(s.db.(requests := s.db.requests[request := row]), s.issued)
  {
    SamePersonalRows(s.db, s.db.(requests := s.db.requests[request := row]));
    hide Clean;
  }

  /** Every step of every actor keeps the invariant. */
  lemma StepKeepsInv(s: Sys, op: Op)
    requires Inv(s) && Enabled(s, op)
    ensures Inv(Apply(s, op))
  {
    hide *;
    match op {
      case OutboxStep(_) => OutboxWorks(s, op);
      case Accept(_, _, _, _) => ErasureAccepted(s, op);
      case Review(_, _) => RequestReviewed(s, op);
      case SetBanned(_) => RequestReviewed(s, op);
      case MarkForDeletion(_) => MaintenanceWorks(s, op);
      case DropPhoto(_) => MaintenanceWorks(s, op);
      case DropSwipes(_) => MaintenanceWorks(s, op);
      case CloseCreation(_) => MaintenanceWorks(s, op);
      case ResetCreation(_) => MaintenanceWorks(s, op);
      case Enter(_, _, _) => WriterEnters(s, op);
      case LockShared(_, _) => WriterLocks(s, op);
      case CheckAccounts(_) => WriterChecks(s, op);
      case AddPhoto(_, _, _) => WriterWorks(s, op);
      case AddSwipe(_, _, _) => WriterWorks(s, op);
      case AddAttempt(_, _, _) => WriterWorks(s, op);
      case StartCreation(_, _) => WriterWorks(s, op);
      case Leave(_) => WriterEnters(s, op);
      case Begin(_, _, _) => EraserBegins(s, op);
      case TryExclusive(_) => EraserLocks(s, op);
      case Reread(_) => EraserRereads(s, op);
      case ReadCreations(_, _) => EraserReadsCreations(s, op);
      case EraseCreation(_, _) => EraserErasesCreation(s, op);
      case MarkPhotos(_, _) => EraserMarksPhotos(s, op);
      case RemovePhoto(_, _, _) => EraserRemovesPhoto(s, op);
      case Conclude(_) => EraserConcludes(s, op);
      case DeleteSwipes(_, _, _) => EraserDeletesSwipes(s, op);
      case Advance(_, _) => EraserAdvances(s, op);
      case Fail(_) => EraserFails(s, op);
      case Finish(_, _) => EraserFinishes(s, op);
    }
  }

  /** Any personal data at all, but no erasure has been accepted and nobody is at work. */
  ghost predicate Initial(s: Sys) {
    && s.db.erasures == map[] && s.db.events == map[] && s.writers == map[] && s.erasers == map[]
    && NoSelfSwipe(s.db.swipes)
  }

  ghost predicate Run(states: seq<Sys>, ops: seq<Op>) {
    && |states| == |ops| + 1 && Initial(states[0])
    && forall i | 0 <= i < |ops| :: Enabled(states[i], ops[i]) && states[i + 1] == Apply(states[i], ops[i])
  }

  lemma {:induction false} RunKeepsInv(states: seq<Sys>, ops: seq<Op>, n: nat)
    requires Run(states, ops) && n < |states|
    ensures Inv(states[n])
  {
    hide Inv, Apply, Enabled, Initial;
    if n == 0 {
      InitialInv(states[0]);
    } else {
      RunKeepsInv(states, ops, n - 1);
      StepKeepsInv(states[n - 1], ops[n - 1]);
    }
  }

  lemma InitialInv(s: Sys)
    requires Initial(s)
    ensures Inv(s)
  {
  }

  // ---------------------------------------------------------------- what the saga promises

  /**
   * Erased stays erased: once an erasure is past a step, in that and every later state of the run the account has
   * none of that step's data (no Stripe customer creation started and not erased, no photo row, no swipe as actor
   * or target), whatever workers, takeovers, crashes, writers and maintenance do.
   */
  lemma ErasedStaysErased(states: seq<Sys>, ops: seq<Op>, m: nat, n: nat, request: RequestId)
    requires Run(states, ops) && m <= n < |states| && request in states[m].db.erasures
    ensures var row := states[m].db.erasures[request];
      && Clean(states[n].db, row)
      && request in states[n].db.erasures && states[n].db.erasures[request].user == row.user
      && Rank(row.step) <= Rank(states[n].db.erasures[request].step)
  {
    RunNeverMovesBack(states, ops, m, n, request);
    RunKeepsInv(states, ops, n);
    assert Clean(states[n].db, states[n].db.erasures[request]);
  }

  lemma {:induction false} RunNeverMovesBack(states: seq<Sys>, ops: seq<Op>, m: nat, n: nat, request: RequestId)
    requires Run(states, ops) && m <= n < |states| && request in states[m].db.erasures
    ensures request in states[n].db.erasures
    ensures states[n].db.erasures[request].user == states[m].db.erasures[request].user
    ensures Rank(states[m].db.erasures[request].step) <= Rank(states[n].db.erasures[request].step)
    decreases n - m
  {
    hide Inv, Apply, Enabled, Initial;
    if m < n {
      RunNeverMovesBack(states, ops, m, n - 1, request);
      RunKeepsInv(states, ops, n - 1);
      StepMovesForward(states[n - 1], ops[n - 1], request);
    }
  }

  /** The actor of `op` is a handler of this erasure whose worker holds the lease on its event. */
  predicate ByLeaseHolder(s: Sys, op: Op, request: RequestId) {
    && (op.Advance? || op.DeleteSwipes?) && At(s, op.actor)
    && var e := s.erasers[op.actor];
       Outbox.Owned(s.db.events, e.event, e.worker) && EraseEvent(s.db.events[e.event], request)
  }

  /** A step moves only forward, by at most one, and only the current lease holder moves it. */
  lemma StepMovesForward(s: Sys, op: Op, request: RequestId)
    requires Inv(s) && Enabled(s, op) && request in s.db.erasures
    ensures request in Apply(s, op).db.erasures
    ensures var before, after := s.db.erasures[request], Apply(s, op).db.erasures[request];
      && after.user == before.user
      && Rank(before.step) <= Rank(after.step) <= Rank(before.step) + 1
      && (after.step != before.step ==> ByLeaseHolder(s, op, request))
  {
    if op.Advance? || op.DeleteSwipes? {
      HandlerOk(s, op.actor);
      HandlerStores(s, op);
      hide Inv, Apply, ApplyEraser, EraserOk;
      if op.Advance? {
        AdvanceMovesForward(s, op.actor, op.now, request);
      } else {
        BatchMovesForward(s, op.actor, op.doomed, op.now, request);
      }
    } else {
      OthersMoveNothing(s, op, request);
    }
  }

  lemma HandlerStores(s: Sys, op: Op)
    requires Enabled(s, op) && (op.Advance? || op.DeleteSwipes?)
    ensures var e := s.erasers[op.actor];
      Apply(s, op).db
        == if op.Advance? then AfterAdvance(s.db, e.event, e.worker, e.claim, e.phase.next, op.now)
           else AfterSwipeBatch(s.db, e.event, e.worker, e.claim, SWIPE_BATCH, op.doomed, op.now)
  {
  }

  lemma OthersMoveNothing(s: Sys, op: Op, request: RequestId)
    requires Enabled(s, op) && !op.Advance? && !op.DeleteSwipes? && request in s.db.erasures
    ensures request in Apply(s, op).db.erasures
    ensures Apply(s, op).db.erasures[request] == s.db.erasures[request]
  {
    if op.TryExclusive? || op.Reread? || op.ReadCreations? || op.EraseCreation? || op.MarkPhotos?
       || op.RemovePhoto? || op.Conclude? || op.Fail? || op.Finish? {
      HandlerMovesNothing(s, op, s.erasers[op.actor]);
    }
    hide ApplyEraser;
  }

  lemma HandlerMovesNothing(s: Sys, op: Op, e: Eraser)
    requires op.TryExclusive? || op.Reread? || op.ReadCreations? || op.EraseCreation? || op.MarkPhotos?
      || op.RemovePhoto? || op.Conclude? || op.Fail? || op.Finish?
    ensures ApplyEraser(s, op, e).db.erasures == s.db.erasures
  {
  }

  lemma AdvanceMovesForward(s: Sys, actor: ActorId, now: Outbox.Instant, request: RequestId)
    requires At(s, actor) && s.erasers[actor].phase.Ready? && EraserOk(s.db, s.issued, s.erasers[actor])
    requires request in s.db.erasures
    ensures var e := s.erasers[actor];
      var db' := AfterAdvance(s.db, e.event, e.worker, e.claim, e.phase.next, now);
      && request in db'.erasures && db'.erasures[request].user == s.db.erasures[request].user
      && Rank(s.db.erasures[request].step) <= Rank(db'.erasures[request].step) <= Rank(s.db.erasures[request].step) + 1
      && (db'.erasures[request] != s.db.erasures[request] ==>
            Outbox.Owned(s.db.events, e.event, e.worker) && EraseEvent(s.db.events[e.event], request))
  {
  }

  lemma BatchMovesForward(s: Sys, actor: ActorId, doomed: set<(UserId, UserId)>, now: Outbox.Instant, request: RequestId)
    requires At(s, actor) && s.erasers[actor].claim.step.Swipes? && EraserOk(s.db, s.issued, s.erasers[actor])
    requires request in s.db.erasures
    ensures var e := s.erasers[actor];
      var db' := AfterSwipeBatch(s.db, e.event, e.worker, e.claim, SWIPE_BATCH, doomed, now);
      && request in db'.erasures && db'.erasures[request].user == s.db.erasures[request].user
      && Rank(s.db.erasures[request].step) <= Rank(db'.erasures[request].step) <= Rank(s.db.erasures[request].step) + 1
      && (db'.erasures[request] != s.db.erasures[request] ==>
            Outbox.Owned(s.db.events, e.event, e.worker) && EraseEvent(s.db.events[e.event], request))
  {
  }

  /**
   * No erasure is lost: until it is completed, in every reachable state its request is still in progress and its
   * event is pending, being processed or a dead letter that can be retried; never completed, discarded or purged.
   */
  lemma NoErasureIsLost(states: seq<Sys>, ops: seq<Op>, n: nat, request: RequestId)
    requires Run(states, ops) && n < |states|
    requires request in states[n].db.erasures && !states[n].db.erasures[request].step.Completed?
    ensures exists e :: e in states[n].db.events && LiveErase(states[n].db.events[e], request)
    ensures request in states[n].db.requests
      && states[n].db.requests[request] == RequestRow(states[n].db.erasures[request].user, InProgress)
  {
    RunKeepsInv(states, ops, n);
    assert HasLiveEvent(states[n].db.events, request);
  }

  /** `erasure_invalid_state`, `erasure_photos_remaining` and `erasure_swipes_remaining` never fire in any run. */
  lemma FinalChecksNeverFire(states: seq<Sys>, ops: seq<Op>, n: nat)
    requires Run(states, ops) && n < |ops| && ops[n].Advance?
    ensures At(states[n], ops[n].actor) && states[n].erasers[ops[n].actor].phase.Ready?
    ensures var e := states[n].erasers[ops[n].actor];
      AdvanceOutcome(states[n].db, e.event, e.worker, e.claim, e.phase.next) in {NotOwned, Advanced}
  {
    RunKeepsInv(states, ops, n);
    AdvanceIsNeverRefused(states[n], ops[n].actor);
  }

  /**
   * A photo whose object the storage did not remove keeps its row, and the call that met the failure stores no step:
   * whatever its handler does next, the erasure stays where it is until another call.
   */
  lemma StorageFailureStops(s: Sys, op: Op)
    requires op.RemovePhoto? && Enabled(s, op) && !op.stored
    ensures Apply(s, op).db == s.db
    ensures At(Apply(s, op), op.actor) && Apply(s, op).erasers[op.actor].phase.Removing?
    ensures Apply(s, op).erasers[op.actor].phase.failed
  {
  }

  /** Is this a step of the handler `actor`? */
  predicate StepOf(op: Op, actor: ActorId) {
    match op
    case TryExclusive(a) => a == actor
    case Reread(a) => a == actor
    case ReadCreations(a, _) => a == actor
    case EraseCreation(a, _) => a == actor
    case MarkPhotos(a, _) => a == actor
    case RemovePhoto(a, _, _) => a == actor
    case Conclude(a) => a == actor
    case DeleteSwipes(a, _, _) => a == actor
    case Advance(a, _) => a == actor
    case Fail(a) => a == actor
    case Finish(a, _) => a == actor
    case _ => false
  }

  lemma FailedCallStoresNothing(s: Sys, op: Op, actor: ActorId)
    requires At(s, actor) && s.erasers[actor].phase.Removing? && s.erasers[actor].phase.failed
    requires StepOf(op, actor) && Enabled(s, op)
    ensures Apply(s, op).db.erasures == s.db.erasures && Apply(s, op).db.events == s.db.events
    ensures At(Apply(s, op), actor) ==>
      Apply(s, op).erasers[actor].phase.Removing? && Apply(s, op).erasers[actor].phase.failed
  {
  }

  /** Writers that passed their check do write, as long as the account is not deleted meanwhile. */
  lemma WritersWrite(s: Sys, op: Op)
    requires Enabled(s, op)
    ensures op.AddSwipe? ==> (op.source, op.target) in Apply(s, op).db.swipes
    ensures op.AddPhoto? && op.user !in s.db.deleted ==>
      op.photo in Apply(s, op).db.photos && Apply(s, op).db.photos[op.photo].user == op.user
    ensures op.AddAttempt? && op.user !in s.db.deleted ==>
      op.attempt in Apply(s, op).db.attempts && Apply(s, op).db.attempts[op.attempt].user == op.user
    ensures op.StartCreation? ==>
      op.attempt in Apply(s, op).db.attempts && Apply(s, op).db.attempts[op.attempt].started
    ensures op.LockShared? ==>
      (op.actor in Apply(s, op).writers <==> !ExclusivelyLocked(s, op.user))
    ensures op.CheckAccounts? ==>
      (op.actor in Apply(s, op).writers <==>
         forall u | u in s.writers[op.actor].users ::
           u !in s.db.deleted && (s.writers[op.actor].allowBanned || u !in s.banned))
  {
  }

  /** The accounts of a writer that passed its check are drained of erasure handlers until it leaves. */
  lemma CheckedWritersAreAlone(states: seq<Sys>, ops: seq<Op>, n: nat, writer: ActorId, eraser: ActorId)
    requires Run(states, ops) && n < |states|
    requires writer in states[n].writers && states[n].writers[writer].checked
    requires eraser in states[n].erasers && states[n].erasers[eraser].HoldsLock()
    ensures states[n].erasers[eraser].claim.user !in states[n].writers[writer].users
  {
    RunKeepsInv(states, ops, n);
    WriterExcludesErasers(states[n], writer);
  }
}
