// That the erasure saga gets on: what one undisturbed call of the handler does to the stored step and to the data
// left, and how many such calls lead from acceptance to completion.

module ErasureProgress {
  import opened Options
  import opened ErasureDatabase
  import opened ErasureSaga
  import Sql
  import Outbox

  // ---------------------------------------------------------------- the data a step has to remove

  function Next(step: Step): Step {
    match step
    case Stripe => Photos
    case Photos => Swipes
    case Swipes => Postgres
    case Postgres => Completed
    case Completed => Completed
  }

  function Left(db: Db, user: UserId, step: Step): nat {
    match step
    case Stripe => |OpenCreations(db, user)|
    case Photos => |PhotosOf(db, user)|
    case Swipes => |SwipesOf(db.swipes, user)|
    case _ => 0
  }

  /** How much one call removes at most. */
  function BatchSize(step: Step): nat {
    match step
    case Stripe => 50
    case Photos => 50
    case Swipes => 1_000
    case _ => 1
  }

  function Least(a: nat, b: nat): nat {
    if a < b then a else b
  }

  function LeftAfter(db: Db, user: UserId, step: Step): nat {
    Left(db, user, step) - Least(Left(db, user, step), BatchSize(step))
  }

  /** A short batch is the last one of its step. */
  function StepAfter(db: Db, user: UserId, step: Step): Step {
    if Left(db, user, step) < BatchSize(step) then Next(step) else step
  }

  /** Everybody else's rows are as they were. */
  predicate OthersKept(db: Db, db': Db, user: UserId) {
    && db'.deleted == db.deleted && db'.attempts.Keys == db.attempts.Keys
    && (forall a | a in db.attempts && db.attempts[a].user != user :: db'.attempts[a] == db.attempts[a])
    && (forall p | p in db.photos && db.photos[p].user != user :: p in db'.photos && db'.photos[p] == db.photos[p])
    && (forall p | p in db'.photos :: p in db.photos)
    && (forall t | t in db.swipes && !Involves(t, user) :: t in db'.swipes)
    && db'.swipes <= db.swipes
  }

  /** Of a user's data, that of this step is what it was less the batch, and the rest is untouched. */
  predicate DataAfter(db: Db, db': Db, user: UserId, step: Step) {
    forall other :: Left(db', user, other) == if other == step then LeftAfter(db, user, step) else Left(db, user, other)
  }

  /** What one call does: to the step, the data, the event and the request of its erasure, and to nothing else. */
  ghost predicate Advances(s: Sys, s': Sys, event: Outbox.EventId, request: RequestId)
    requires request in s.db.erasures
  {
    var row := s.db.erasures[request];
    var after := StepAfter(s.db, row.user, row.step);
    && s' == s.(db := s'.db)
    && s'.db.erasures == s.db.erasures[request := ErasureRow(row.user, after)]
    && DataAfter(s.db, s'.db, row.user, row.step) && OthersKept(s.db, s'.db, row.user)
    && event in s'.db.events && EraseEvent(s'.db.events[event], request)
    && (if after.Completed? then s'.db.events[event].status.Completed?
        else s'.db.events[event].status.Pending? && s'.db.events[event].attempts == 0)
    && (row.step.Postgres? ==> request in s'.db.requests && s'.db.requests[request] == RequestRow(row.user, Closed))
  }

  // ---------------------------------------------------------------- one undisturbed call

  /** A step of this handler in which the provider, the storage and the database do what they are asked. */
  predicate Smooth(op: Op, actor: ActorId) {
    match op
    case TryExclusive(a) => a == actor
    case Reread(a) => a == actor
    case ReadCreations(a, _) => a == actor
    case EraseCreation(a, _) => a == actor
    case MarkPhotos(a, _) => a == actor
    case RemovePhoto(a, _, stored) => a == actor && stored
    case Conclude(a) => a == actor
    case DeleteSwipes(a, _, _) => a == actor
    case Advance(a, _) => a == actor
    case Finish(a, _) => a == actor
    case _ => false
  }

  /** Such steps from `s` on, up to the one that ends the call. */
  ghost predicate Path(s: Sys, ops: seq<Op>, actor: ActorId)
    decreases |ops|
  {
    if ops == [] then !At(s, actor)
    else At(s, actor) && Smooth(ops[0], actor) && Enabled(s, ops[0]) && Path(Apply(s, ops[0]), ops[1..], actor)
  }

  function After(s: Sys, ops: seq<Op>): Sys
    decreases |ops|
  {
    if ops == [] then s else After(Apply(s, ops[0]), ops[1..])
  }

  ghost predicate Call(s: Sys, ops: seq<Op>, actor: ActorId, event: Outbox.EventId, worker: Outbox.WorkerId) {
    Enabled(s, Begin(actor, event, worker)) && Path(Apply(s, Begin(actor, event, worker)), ops, actor)
  }

  function AfterCall(s: Sys, ops: seq<Op>, actor: ActorId, event: Outbox.EventId, worker: Outbox.WorkerId): Sys {
    After(Apply(s, Begin(actor, event, worker)), ops)
  }

  /** Nobody else is at work on the account. */
  predicate Quiet(s: Sys, user: UserId) {
    !ExclusivelyLocked(s, user) && !SharedLocked(s, user)
  }

  ghost predicate Leased(s: Sys, event: Outbox.EventId, worker: Outbox.WorkerId, request: RequestId) {
    && Outbox.Owned(s.db.events, event, worker) && EraseEvent(s.db.events[event], request)
    && request in s.db.erasures && Quiet(s, s.db.erasures[request].user)
  }

  /** How far a call that began in `s` has come. */
  ghost predicate Stage(s: Sys, t: Sys, actor: ActorId, e: Eraser) {
    var user, step := e.claim.user, e.claim.step;
    && t == s.(db := t.db, erasers := s.erasers[actor := e]) && !At(s, actor)
    && Leased(s, e.event, e.worker, e.claim.request) && s.db.erasures[e.claim.request] == ErasureRow(user, step)
    && OthersKept(s.db, t.db, user)
    && match e.phase
       case Erasing(creations, fullBatch) =>
         && step.Stripe? && t.db == s.db.(attempts := t.db.attempts) && creations <= OpenCreations(t.db, user)
         && Left(t.db, user, Stripe) == LeftAfter(s.db, user, Stripe) + |creations|
         && (fullBatch <==> Left(s.db, user, Stripe) >= 50)
       case Removing(photos, fullBatch, failed) =>
         && step.Photos? && !failed && t.db == s.db.(photos := t.db.photos) && photos <= PhotosOf(t.db, user)
         && (forall p | p in photos :: t.db.photos[p].deleting)
         && Left(t.db, user, Photos) == LeftAfter(s.db, user, Photos) + |photos|
         && (fullBatch <==> Left(s.db, user, Photos) >= 50)
       case Ready(next) =>
         && !step.Swipes? && !step.Completed? && next == StepAfter(s.db, user, step)
         && t.db == s.db.(photos := t.db.photos, attempts := t.db.attempts) && DataAfter(s.db, t.db, user, step)
       case Finishing =>
         && (step.Postgres? || step.Completed?) && DataAfter(s.db, t.db, user, step)
         && t.db.erasures == s.db.erasures[e.claim.request := ErasureRow(user, Completed)]
         && Leased(t.(erasers := s.erasers), e.event, e.worker, e.claim.request)
         && (step.Postgres? ==> e.claim.request in t.db.requests
                                && t.db.requests[e.claim.request] == RequestRow(user, Closed))
       case _ => !step.Completed? && t.db == s.db
  }

  /** A call is under way and on its way, or it is over and has done what it should. */
  ghost predicate OnTheWay(s: Sys, t: Sys, actor: ActorId, event: Outbox.EventId, worker: Outbox.WorkerId,
      request: RequestId)
    requires request in s.db.erasures
  {
    if At(t, actor) then
      var e := t.erasers[actor];
      e.event == event && e.worker == worker && e.claim.request == request && Stage(s, t, actor, e)
    else Advances(s, t, event, request)
  }

  lemma BeginsWell(s: Sys, actor: ActorId, event: Outbox.EventId, worker: Outbox.WorkerId, request: RequestId)
    requires Inv(s) && Enabled(s, Begin(actor, event, worker)) && Leased(s, event, worker, request)
    ensures At(Apply(s, Begin(actor, event, worker)), actor)
    ensures OnTheWay(s, Apply(s, Begin(actor, event, worker)), actor, event, worker, request)
  {
  }

  // ---------------------------------------------------------------- each step of a call

  /** What the handler's step makes of its state, for a handler that is at work. */
  lemma HandlerStep(t: Sys, op: Op, actor: ActorId)
    requires At(t, actor) && Smooth(op, actor)
    ensures Apply(t, op) == ApplyEraser(t, op, t.erasers[actor])
  {
    hide ApplyEraser;
  }

  lemma LocksWell(s: Sys, t: Sys, actor: ActorId, op: Op, e: Eraser)
    requires Stage(s, t, actor, e) && Enabled(t, op) && (op == TryExclusive(actor) || op == Reread(actor))
    requires At(t, actor) && t.erasers[actor] == e
    ensures Quiet(t, e.claim.user) || op.Reread?
    ensures At(Apply(t, op), actor)
    ensures Stage(s, Apply(t, op), actor, Apply(t, op).erasers[actor])
    ensures Apply(t, op).erasers[actor].claim == e.claim && Apply(t, op).erasers[actor].event == e.event
    ensures Apply(t, op).erasers[actor].worker == e.worker
    ensures Apply(t, op).erasers[actor].phase == if op.TryExclusive? then Locked else Working
  {
    HandlerStep(t, op, actor);
    hide Apply, DataAfter, OthersKept;
    if op.TryExclusive? {
      assert forall a | a in t.erasers && t.erasers[a].HoldsLock() :: a != actor && t.erasers[a] == s.erasers[a];
    }
  }

  /** A batch of creations is read: as many as there are, up to the limit. */
  lemma ReadsWell(s: Sys, t: Sys, actor: ActorId, op: Op, e: Eraser)
    requires Stage(s, t, actor, e) && Enabled(t, op) && op.ReadCreations? && op.actor == actor
    requires At(t, actor) && t.erasers[actor] == e
    ensures At(Apply(t, op), actor)
    ensures Stage(s, Apply(t, op), actor, e.(phase := Erasing(op.batch, |op.batch| == BATCH)))
    ensures Apply(t, op).erasers[actor] == e.(phase := Erasing(op.batch, |op.batch| == BATCH))
  {
    HandlerStep(t, op, actor);
    hide Apply, DataAfter, OthersKept;
  }

  lemma MarksWell(s: Sys, t: Sys, actor: ActorId, op: Op, e: Eraser)
    requires Stage(s, t, actor, e) && Enabled(t, op) && op.MarkPhotos? && op.actor == actor
    requires At(t, actor) && t.erasers[actor] == e
    ensures At(Apply(t, op), actor)
    ensures Stage(s, Apply(t, op), actor, e.(phase := Removing(op.batch, |op.batch| == BATCH, false)))
    ensures Apply(t, op).erasers[actor] == e.(phase := Removing(op.batch, |op.batch| == BATCH, false))
  {
    HandlerStep(t, op, actor);
    hide Apply;
    var t' := Apply(t, op);
    assert PhotosOf(t'.db, e.claim.user) == PhotosOf(t.db, e.claim.user);
  }

  lemma ErasesWell(s: Sys, t: Sys, actor: ActorId, op: Op, e: Eraser)
    requires Stage(s, t, actor, e) && Enabled(t, op) && op.EraseCreation? && op.actor == actor
    requires At(t, actor) && t.erasers[actor] == e
    ensures At(Apply(t, op), actor)
    ensures var e' := e.(phase := e.phase.(creations := e.phase.creations - {op.attempt}));
      Stage(s, Apply(t, op), actor, e') && Apply(t, op).erasers[actor] == e'
  {
    HandlerStep(t, op, actor);
    hide Apply;
    var t' := Apply(t, op);
    assert OpenCreations(t'.db, e.claim.user) == OpenCreations(t.db, e.claim.user) - {op.attempt};
  }

  lemma RemovesWell(s: Sys, t: Sys, actor: ActorId, op: Op, e: Eraser)
    requires Stage(s, t, actor, e) && Enabled(t, op) && op.RemovePhoto? && op.actor == actor && op.stored
    requires At(t, actor) && t.erasers[actor] == e
    ensures At(Apply(t, op), actor)
    ensures var e' := e.(phase := e.phase.(photos := e.phase.photos - {op.photo}));
      Stage(s, Apply(t, op), actor, e') && Apply(t, op).erasers[actor] == e'
  {
    HandlerStep(t, op, actor);
    hide Apply;
    var t' := Apply(t, op);
    assert op.photo in PhotosOf(t.db, e.claim.user);
    assert PhotosOf(t'.db, e.claim.user) == PhotosOf(t.db, e.claim.user) - {op.photo};
  }

  /** The batch is dealt with: the next step is the one that its size says. */
  lemma ConcludesWell(s: Sys, t: Sys, actor: ActorId, op: Op, e: Eraser)
    requires Stage(s, t, actor, e) && Enabled(t, op) && op == Conclude(actor)
    requires At(t, actor) && t.erasers[actor] == e
    ensures At(Apply(t, op), actor)
    ensures var e' := e.(phase := Ready(StepAfter(s.db, e.claim.user, e.claim.step)));
      Stage(s, Apply(t, op), actor, e') && Apply(t, op).erasers[actor] == e'
  {
    HandlerStep(t, op, actor);
    hide Apply, OthersKept, Leased;
    match e.phase {
      case Erasing(_, _) => BatchDone(s.db, t.db, e.claim.user, Stripe);
      case Removing(_, _, _) => BatchDone(s.db, t.db, e.claim.user, Photos);
      case _ =>
    }
    hide DataAfter, LeftAfter;
  }

  lemma BatchDone(db: Db, db': Db, user: UserId, step: Step)
    requires step.Stripe? || step.Photos?
    requires db' == if step.Stripe? then db.(attempts := db'.attempts) else db.(photos := db'.photos)
    ensures DataAfter(db, db', user, step) <==> Left(db', user, step) == LeftAfter(db, user, step)
  {
    hide LeftAfter;
    assert forall other | other != step :: Left(db', user, other) == Left(db, user, other);
  }

  // ---- what the transactions store, under a lease

  ghost predicate Released(events: Outbox.Table, event: Outbox.EventId, request: RequestId) {
    && event in events && EraseEvent(events[event], request)
    && events[event].status.Pending? && events[event].attempts == 0
  }

  lemma AdvanceStoresStep(db: Db, event: Outbox.EventId, worker: Outbox.WorkerId, claim: Claim, next: Step,
      now: Outbox.Instant)
    requires AdvanceOutcome(db, event, worker, claim, next).Advanced? && EraseEvent(db.events[event], claim.request)
    requires db.erasures[claim.request] == ErasureRow(claim.user, claim.step)
    ensures var db' := AfterAdvance(db, event, worker, claim, next, now);
      && db' == db.(erasures := db.erasures[claim.request := ErasureRow(claim.user, next)], events := db'.events,
                    requests := if next.Completed? then db.requests[claim.request := RequestRow(claim.user, Closed)]
                                else db.requests)
      && (if next.Completed? then event in db'.events && db'.events[event] == db.events[event]
          else Released(db'.events, event, claim.request))
  {
  }

  lemma SwipeBatchStoresStep(db: Db, event: Outbox.EventId, worker: Outbox.WorkerId, claim: Claim,
      doomed: set<(UserId, UserId)>, now: Outbox.Instant)
    requires Outbox.Owned(db.events, event, worker) && EraseEvent(db.events[event], claim.request)
    requires claim.step.Swipes? && claim.request in db.erasures
    requires db.erasures[claim.request] == ErasureRow(claim.user, claim.step)
    ensures var db' := AfterSwipeBatch(db, event, worker, claim, SWIPE_BATCH, doomed, now);
      var next := if |doomed| < 1_000 then Postgres else Swipes;
      && db' == db.(erasures := db.erasures[claim.request := ErasureRow(claim.user, next)], events := db'.events,
                    swipes := db.swipes - doomed)
      && Released(db'.events, event, claim.request)
  {
  }

  lemma FinishCompletes(events: Outbox.Table, event: Outbox.EventId, worker: Outbox.WorkerId, now: Outbox.Instant)
    requires Outbox.Owned(events, event, worker)
    ensures var events' := Outbox.Apply(events, Outbox.Complete(event, worker, now));
      && event in events' && events'[event].status.Completed?
      && Outbox.SameKey(events'[event], events[event].kind, events[event].aggregate)
  {
  }

  // ---- ... and the steps that end a call

  /** The handler's state after an `advance` that is not refused. */
  lemma AdvanceLeaves(t: Sys, op: Op, e: Eraser)
    requires op.Advance? && At(t, op.actor) && t.erasers[op.actor] == e && e.phase.Ready?
    requires AdvanceOutcome(t.db, e.event, e.worker, e.claim, e.phase.next).Advanced?
    ensures var t' := t.(db := AfterAdvance(t.db, e.event, e.worker, e.claim, e.phase.next, op.now));
      Apply(t, op) == if e.phase.next.Completed? then In(t', op.actor, e.(phase := Finishing)) else Ended(t', op.actor)
  {
    hide AfterAdvance, AdvanceOutcome;
  }

  /** `advance` under the lease and the lock: the step is stored, and the event waits for the next claim. */
  lemma AdvancesWell(s: Sys, t: Sys, actor: ActorId, op: Op, e: Eraser)
    requires Stage(s, t, actor, e) && Inv(t) && Enabled(t, op) && op.Advance? && op.actor == actor
    requires At(t, actor) && t.erasers[actor] == e && !e.claim.step.Postgres?
    ensures !At(Apply(t, op), actor) && Advances(s, Apply(t, op), e.event, e.claim.request)
  {
    hide Apply, Inv, Quiet, AfterAdvance, AdvanceOutcome, DataAfter, Outbox.Apply;
    AdvanceIsNeverRefused(t, actor);
    ReadyOwns(t, e);
    AdvanceLeaves(t, op, e);
    AdvanceStoresStep(t.db, e.event, e.worker, e.claim, e.phase.next, op.now);
    Restored(s.erasers, actor, e);
    SameData(s.db, t.db, Apply(t, op).db, e.claim.user, e.claim.step);
  }

  lemma Restored(erasers: map<ActorId, Eraser>, actor: ActorId, e: Eraser)
    requires actor !in erasers
    ensures erasers[actor := e] - {actor} == erasers
  {
  }

  /** The owner is refused nothing for want of the lease. */
  lemma ReadyOwns(t: Sys, e: Eraser)
    requires Outbox.Owned(t.db.events, e.event, e.worker) && e.phase.Ready?
    ensures !AdvanceOutcome(t.db, e.event, e.worker, e.claim, e.phase.next).NotOwned?
  {
  }

  lemma SameData(db: Db, db1: Db, db2: Db, user: UserId, step: Step)
    requires db2.photos == db1.photos && db2.swipes == db1.swipes && db2.attempts == db1.attempts
    ensures DataAfter(db, db1, user, step) ==> DataAfter(db, db2, user, step)
  {
    assert forall other :: Left(db2, user, other) == Left(db1, user, other);
    hide LeftAfter, Left;
  }

  lemma CompletesWell(s: Sys, t: Sys, actor: ActorId, op: Op, e: Eraser)
    requires Stage(s, t, actor, e) && Inv(t) && Enabled(t, op) && op.Advance? && op.actor == actor
    requires At(t, actor) && t.erasers[actor] == e && e.claim.step.Postgres?
    ensures At(Apply(t, op), actor) && Apply(t, op).erasers[actor] == e.(phase := Finishing)
    ensures Stage(s, Apply(t, op), actor, e.(phase := Finishing))
  {
    hide Apply, Inv, AfterAdvance, AdvanceOutcome, DataAfter, Outbox.Apply;
    AdvanceIsNeverRefused(t, actor);
    ReadyOwns(t, e);
    AdvanceLeaves(t, op, e);
    AdvanceStoresStep(t.db, e.event, e.worker, e.claim, e.phase.next, op.now);
    SameData(s.db, t.db, Apply(t, op).db, e.claim.user, e.claim.step);
  }

  lemma FinishesWell(s: Sys, t: Sys, actor: ActorId, op: Op, e: Eraser)
    requires Stage(s, t, actor, e) && Enabled(t, op) && op.Finish? && op.actor == actor
    requires At(t, actor) && t.erasers[actor] == e
    ensures !At(Apply(t, op), actor) && Advances(s, Apply(t, op), e.event, e.claim.request)
  {
    HandlerStep(t, op, actor);
    hide Apply, Quiet, DataAfter, Outbox.Apply;
    FinishCompletes(t.db.events, e.event, e.worker, op.now);
    Restored(s.erasers, actor, e);
    SameData(s.db, t.db, Apply(t, op).db, e.claim.user, e.claim.step);
  }

  /** One batch of swipes and the step that its size says. */
  lemma DeletesWell(s: Sys, t: Sys, actor: ActorId, op: Op, e: Eraser)
    requires Stage(s, t, actor, e) && NoSelfSwipe(t.db.swipes)
    requires Enabled(t, op) && op.DeleteSwipes? && op.actor == actor
    requires At(t, actor) && t.erasers[actor] == e
    ensures !At(Apply(t, op), actor) && Advances(s, Apply(t, op), e.event, e.claim.request)
  {
    hide Apply, Quiet, SwipeBatch, AfterSwipeBatch, DataAfter, LeftAfter, Outbox.Apply, NoSelfSwipe;
    var user := e.claim.user;
    ShortSwipeBatchIsLast(t.db.swipes, user, 1_000, op.doomed);
    SwipeBatchLeaves(t, op, e);
    SwipeBatchStoresStep(t.db, e.event, e.worker, e.claim, op.doomed, op.now);
    Restored(s.erasers, actor, e);
    SwipesLess(t.db, Apply(t, op).db, user, op.doomed);
  }

  lemma SwipeBatchLeaves(t: Sys, op: Op, e: Eraser)
    requires op.DeleteSwipes? && At(t, op.actor) && t.erasers[op.actor] == e
    ensures Apply(t, op)
      == Ended(t, op.actor).(db := AfterSwipeBatch(t.db, e.event, e.worker, e.claim, SWIPE_BATCH, op.doomed, op.now))
  {
    hide AfterSwipeBatch;
  }

  lemma SwipesLess(db: Db, db': Db, user: UserId, doomed: set<(UserId, UserId)>)
    requires db'.photos == db.photos && db'.swipes == db.swipes - doomed && db'.attempts == db.attempts
    requires doomed <= SwipesOf(db.swipes, user) && |doomed| <= 1_000
    requires |doomed| < 1_000 ==> doomed == SwipesOf(db.swipes, user)
    ensures DataAfter(db, db', user, Swipes) && (|doomed| < 1_000 <==> Left(db, user, Swipes) < 1_000)
  {
    assert SwipesOf(db'.swipes, user) == SwipesOf(db.swipes, user) - doomed;
    Sql.SubsetSize(doomed, SwipesOf(db.swipes, user));
  }

  // ---------------------------------------------------------------- whole calls

  lemma NoSelfSwipes(t: Sys)
    requires Inv(t)
    ensures NoSelfSwipe(t.db.swipes)
  {
  }

  lemma StaysOnTheWay(s: Sys, t: Sys, op: Op, actor: ActorId, event: Outbox.EventId, worker: Outbox.WorkerId,
      request: RequestId)
    requires request in s.db.erasures && At(t, actor) && OnTheWay(s, t, actor, event, worker, request)
    requires Inv(t) && Enabled(t, op) && Smooth(op, actor)
    ensures OnTheWay(s, Apply(t, op), actor, event, worker, request)
  {
    hide Inv, Enabled, Apply, Stage, Advances;
    var e := t.erasers[actor];
    match op {
      case TryExclusive(_) => LocksWell(s, t, actor, op, e);
      case Reread(_) => LocksWell(s, t, actor, op, e);
      case ReadCreations(_, _) => ReadsWell(s, t, actor, op, e);
      case EraseCreation(_, _) => ErasesWell(s, t, actor, op, e);
      case MarkPhotos(_, _) => MarksWell(s, t, actor, op, e);
      case RemovePhoto(_, _, _) => RemovesWell(s, t, actor, op, e);
      case Conclude(_) => ConcludesWell(s, t, actor, op, e);
      case DeleteSwipes(_, _, _) =>
        NoSelfSwipes(t);
        DeletesWell(s, t, actor, op, e);
      case Advance(_, _) =>
        if e.claim.step.Postgres? {
          CompletesWell(s, t, actor, op, e);
        } else {
          AdvancesWell(s, t, actor, op, e);
        }
      case Finish(_, _) => FinishesWell(s, t, actor, op, e);
      case _ =>
    }
  }

  lemma {:induction false} PathGetsThere(s: Sys, t: Sys, ops: seq<Op>, actor: ActorId, event: Outbox.EventId,
      worker: Outbox.WorkerId, request: RequestId)
    requires request in s.db.erasures && Inv(t) && OnTheWay(s, t, actor, event, worker, request) && Path(t, ops, actor)
    ensures Advances(s, After(t, ops), event, request) && Inv(After(t, ops))
    decreases |ops|
  {
    hide Inv, Enabled, Apply, Advances;
    if ops != [] {
      StaysOnTheWay(s, t, ops[0], actor, event, worker, request);
      StepKeepsInv(t, ops[0]);
      PathGetsThere(s, Apply(t, ops[0]), ops[1..], actor, event, worker, request);
    }
  }

  /**
   * Every call by the lease holder, with nobody else on the account, whose provider and storage calls succeed: the
   * next step is stored if less data than a batch was left, and otherwise a whole batch of it is gone.
   */
  lemma CallProgresses(s: Sys, ops: seq<Op>, actor: ActorId, event: Outbox.EventId, worker: Outbox.WorkerId,
      request: RequestId)
    requires Inv(s) && Leased(s, event, worker, request) && Call(s, ops, actor, event, worker)
    ensures Advances(s, AfterCall(s, ops, actor, event, worker), event, request)
    ensures Inv(AfterCall(s, ops, actor, event, worker))
  {
    BeginsWell(s, actor, event, worker, request);
    StepKeepsInv(s, Begin(actor, event, worker));
    hide Inv, Apply, Enabled;
    PathGetsThere(s, Apply(s, Begin(actor, event, worker)), ops, actor, event, worker, request);
  }

  // ---- there is such a call

  /** How much of a call is still ahead. */
  function Effort(e: Eraser): nat {
    match e.phase
    case WantsLock => 5
    case Locked => 4
    case Working => 3
    case Erasing(_, _) => 2
    case Removing(_, _, _) => 2
    case Ready(_) => 1
    case Finishing => 0
  }

  function Pieces(e: Eraser): nat {
    match e.phase
    case Erasing(creations, _) => |creations|
    case Removing(photos, _, _) => |photos|
    case _ => 0
  }

  predicate Nearer(t: Sys, actor: ActorId, e: Eraser) {
    At(t, actor) ==> var e' := t.erasers[actor]; Effort(e') < Effort(e) || (Effort(e') == Effort(e) && Pieces(e') < Pieces(e))
  }

  lemma SwipeBatchExists(swipes: set<(UserId, UserId)>, user: UserId, n: nat) returns (doomed: set<(UserId, UserId)>)
    ensures SwipeBatch(swipes, user, n, doomed)
  {
    BranchOrders(swipes, user);
    var a := Sql.LimitedExists(ActorRows(swipes, user), BY_TARGET, n);
    var b := Sql.LimitedExists(TargetRows(swipes, user), BY_ACTOR, n);
    var m := Between(multiset{}, multiset(a) + multiset(b), if n < |a| + |b| then n else |a| + |b|);
    doomed := Members(m);
    assert DoomedAs(a, b, n, doomed, m);
  }

  /** The step that the handler takes once it has read the erasure under the lock. */
  lemma FirstWork(s: Sys, t: Sys, actor: ActorId, e: Eraser, now: Outbox.Instant) returns (op: Op)
    requires At(t, actor) && t.erasers[actor] == e && e.phase.Working? && Stage(s, t, actor, e)
    ensures Smooth(op, actor) && Enabled(t, op)
    ensures op.ReadCreations? || op.MarkPhotos? || op.DeleteSwipes? || op.Conclude?
  {
    hide SwipeBatch, OthersKept, DataAfter, Leased;
    match e.claim.step {
      case Stripe =>
        var batch := Sql.LimitedExists(OpenCreations(t.db, e.claim.user), BY_ID, BATCH);
        op := ReadCreations(actor, batch);
      case Photos =>
        var batch := Sql.LimitedExists(PhotosOf(t.db, e.claim.user), BY_ID, BATCH);
        op := MarkPhotos(actor, batch);
      case Swipes =>
        var doomed := SwipeBatchExists(t.db.swipes, e.claim.user, SWIPE_BATCH);
        op := DeleteSwipes(actor, doomed, now);
      case _ => op := Conclude(actor);
    }
  }

  /** Some step is always possible, and every possible one brings the call nearer to its end. */
  lemma NextStep(s: Sys, t: Sys, actor: ActorId, e: Eraser, now: Outbox.Instant) returns (op: Op)
    requires At(t, actor) && t.erasers[actor] == e && Stage(s, t, actor, e) && Inv(t)
    ensures Smooth(op, actor) && Enabled(t, op) && Nearer(Apply(t, op), actor, e)
  {
    hide Inv, Apply, Stage, Advances, StepAfter, SwipeBatch, OpenCreations, PhotosOf;
    match e.phase {
      case WantsLock =>
        op := TryExclusive(actor);
        LocksWell(s, t, actor, op, e);
      case Locked =>
        op := Reread(actor);
        LocksWell(s, t, actor, op, e);
      case Working =>
        op := FirstWork(s, t, actor, e, now);
        WorkEndsSoon(s, t, actor, op, e);
      case Erasing(_, _) => op := NextPiece(s, t, actor, e);
      case Removing(_, _, _) => op := NextPiece(s, t, actor, e);
      case Ready(_) =>
        op := Op.Advance(actor, now);
        AdvanceEndsSoon(s, t, actor, op, e);
      case Finishing =>
        op := Finish(actor, now);
        FinishesWell(s, t, actor, op, e);
    }
  }

  lemma NextPiece(s: Sys, t: Sys, actor: ActorId, e: Eraser) returns (op: Op)
    requires At(t, actor) && t.erasers[actor] == e && Stage(s, t, actor, e)
    requires e.phase.Erasing? || e.phase.Removing?
    ensures Smooth(op, actor) && Enabled(t, op) && Nearer(Apply(t, op), actor, e)
  {
    hide Apply, Stage, StepAfter;
    if (if e.phase.Erasing? then e.phase.creations else e.phase.photos) == {} {
      op := Conclude(actor);
      ConcludesWell(s, t, actor, op, e);
    } else if e.phase.Erasing? {
      var attempt :| attempt in e.phase.creations;
      op := EraseCreation(actor, attempt);
      ErasesWell(s, t, actor, op, e);
    } else {
      var photo :| photo in e.phase.photos;
      op := RemovePhoto(actor, photo, true);
      RemovesWell(s, t, actor, op, e);
    }
  }

  lemma WorkEndsSoon(s: Sys, t: Sys, actor: ActorId, op: Op, e: Eraser)
    requires At(t, actor) && t.erasers[actor] == e && e.phase.Working? && Stage(s, t, actor, e) && Inv(t)
    requires Smooth(op, actor) && Enabled(t, op)
    requires op.ReadCreations? || op.MarkPhotos? || op.DeleteSwipes? || op.Conclude?
    ensures Nearer(Apply(t, op), actor, e)
  {
    hide Inv, Enabled, Apply, Stage, Advances, NoSelfSwipe, EraseEvent, StepAfter;
    NoSelfSwipes(t);
    if op.ReadCreations? {
      ReadsWell(s, t, actor, op, e);
    } else if op.MarkPhotos? {
      MarksWell(s, t, actor, op, e);
    } else if op.DeleteSwipes? {
      DeletesWell(s, t, actor, op, e);
    } else {
      ConcludesWell(s, t, actor, op, e);
    }
  }

  lemma AdvanceEndsSoon(s: Sys, t: Sys, actor: ActorId, op: Op, e: Eraser)
    requires At(t, actor) && t.erasers[actor] == e && e.phase.Ready? && Stage(s, t, actor, e) && Inv(t)
    requires op.Advance? && op.actor == actor && Enabled(t, op)
    ensures Nearer(Apply(t, op), actor, e)
  {
    hide Inv, Enabled, Apply, Stage, Advances;
    if e.claim.step.Postgres? {
      CompletesWell(s, t, actor, op, e);
    } else {
      AdvancesWell(s, t, actor, op, e);
    }
  }

  lemma {:induction false} PathExists(s: Sys, t: Sys, actor: ActorId, event: Outbox.EventId, worker: Outbox.WorkerId,
      request: RequestId, now: Outbox.Instant) returns (ops: seq<Op>)
    requires request in s.db.erasures && Inv(t) && OnTheWay(s, t, actor, event, worker, request)
    ensures Path(t, ops, actor)
    decreases At(t, actor), if At(t, actor) then Effort(t.erasers[actor]) else 0,
      if At(t, actor) then Pieces(t.erasers[actor]) else 0
  {
    hide Inv, Enabled, Apply, Advances, Stage;
    ops := [];
    if At(t, actor) {
      var op := NextStep(s, t, actor, t.erasers[actor], now);
      StaysOnTheWay(s, t, op, actor, event, worker, request);
      StepKeepsInv(t, op);
      var rest := PathExists(s, Apply(t, op), actor, event, worker, request, now);
      ops := [op] + rest;
      assert ops[1..] == rest;
    }
  }

  lemma CallExists(s: Sys, actor: ActorId, event: Outbox.EventId, worker: Outbox.WorkerId, request: RequestId,
      now: Outbox.Instant) returns (ops: seq<Op>)
    requires Inv(s) && Leased(s, event, worker, request) && actor !in s.writers && actor !in s.erasers
    ensures Call(s, ops, actor, event, worker)
  {
    BeginsWell(s, actor, event, worker, request);
    StepKeepsInv(s, Begin(actor, event, worker));
    ops := PathExists(s, Apply(s, Begin(actor, event, worker)), actor, event, worker, request, now);
  }

  // ---------------------------------------------------------------- from acceptance to completion

  /** A worker claims the event and calls the handler. */
  datatype Round = Round(actor: ActorId, worker: Outbox.WorkerId, now: Outbox.Instant, staleBefore: Outbox.Instant,
                         ops: seq<Op>)

  function Claiming(event: Outbox.EventId, r: Round): Op {
    OutboxStep(Outbox.Claim(r.worker, r.now, r.staleBefore, {event}))
  }

  ghost predicate RoundOk(s: Sys, r: Round, event: Outbox.EventId) {
    Enabled(s, Claiming(event, r)) && Call(Apply(s, Claiming(event, r)), r.ops, r.actor, event, r.worker)
  }

  function AfterRound(s: Sys, r: Round, event: Outbox.EventId): Sys {
    AfterCall(Apply(s, Claiming(event, r)), r.ops, r.actor, event, r.worker)
  }

  ghost predicate Rounds(s: Sys, rs: seq<Round>, event: Outbox.EventId)
    decreases |rs|
  {
    rs == [] || (RoundOk(s, rs[0], event) && Rounds(AfterRound(s, rs[0], event), rs[1..], event))
  }

  function AfterRounds(s: Sys, rs: seq<Round>, event: Outbox.EventId): Sys
    decreases |rs|
  {
    if rs == [] then s else AfterRounds(AfterRound(s, rs[0], event), rs[1..], event)
  }

  /** How many calls an erasure still takes: one for each batch, and one that finds a short batch in each step. */
  function CallsLeft(db: Db, user: UserId, step: Step): nat
    decreases 4 - Rank(step)
  {
    if step.Completed? then 0 else Left(db, user, step) / BatchSize(step) + 1 + CallsLeft(db, user, Next(step))
  }

  /** Completed with its event and its request, or waiting for a worker. */
  ghost predicate Stands(s: Sys, event: Outbox.EventId, request: RequestId) {
    && request in s.db.erasures && event in s.db.events && EraseEvent(s.db.events[event], request)
    && Quiet(s, s.db.erasures[request].user)
    && (if s.db.erasures[request].step.Completed?
        then s.db.events[event].status.Completed? && request in s.db.requests
             && s.db.requests[request] == RequestRow(s.db.erasures[request].user, Closed)
        else s.db.events[event].status.Pending?)
  }

  function CallsLeftFor(s: Sys, request: RequestId): nat
    requires request in s.db.erasures
  {
    CallsLeft(s.db, s.db.erasures[request].user, s.db.erasures[request].step)
  }

  lemma ClaimLeases(s: Sys, r: Round, event: Outbox.EventId, request: RequestId)
    requires Stands(s, event, request) && !s.db.erasures[request].step.Completed? && Enabled(s, Claiming(event, r))
    ensures var t := Apply(s, Claiming(event, r));
      Leased(t, event, r.worker, request) && t == s.(db := s.db.(events := t.db.events))
  {
  }

  lemma {:induction false} OneCallLess(db: Db, db': Db, user: UserId, step: Step)
    requires !step.Completed? && DataAfter(db, db', user, step)
    ensures CallsLeft(db', user, StepAfter(db, user, step)) == CallsLeft(db, user, step) - 1
  {
    LaterSteps(db, db', user, Next(step), step);
    hide Left;
    match step {
      case Stripe => OneBatchLess(Left(db, user, step), 50);
      case Photos => OneBatchLess(Left(db, user, step), 50);
      case Swipes => OneBatchLess(Left(db, user, step), 1_000);
      case Postgres => assert Left(db, user, Postgres) == 0;
    }
  }

  lemma OneBatchLess(left: nat, size: nat)
    requires size == 50 || size == 1_000
    ensures left < size ==> left / size == 0
    ensures left >= size ==> (left - size) / size == left / size - 1
  {
  }

  lemma {:induction false} LaterSteps(db: Db, db': Db, user: UserId, from: Step, step: Step)
    requires DataAfter(db, db', user, step) && Rank(step) < Rank(from)
    ensures CallsLeft(db', user, from) == CallsLeft(db, user, from)
    decreases 4 - Rank(from)
  {
    hide Left, LeftAfter;
    if !from.Completed? {
      LaterSteps(db, db', user, Next(from), step);
    }
  }

  lemma SamePersonalData(db: Db, db': Db, user: UserId)
    requires db'.photos == db.photos && db'.swipes == db.swipes && db'.attempts == db.attempts
    ensures forall step :: Left(db', user, step) == Left(db, user, step)
  {
  }

  lemma RoundProgresses(s: Sys, r: Round, event: Outbox.EventId, request: RequestId)
    requires Inv(s) && Stands(s, event, request) && !s.db.erasures[request].step.Completed? && RoundOk(s, r, event)
    ensures var t := AfterRound(s, r, event);
      && Inv(t) && Stands(t, event, request) && t == s.(db := t.db)
      && t.db.erasures[request].user == s.db.erasures[request].user
      && CallsLeftFor(t, request) == CallsLeftFor(s, request) - 1
  {
    var row := s.db.erasures[request];
    var claimed := Apply(s, Claiming(event, r));
    ClaimLeases(s, r, event, request);
    StepKeepsInv(s, Claiming(event, r));
    hide Inv, Apply, Enabled, Call;
    CallProgresses(claimed, r.ops, r.actor, event, r.worker, request);
    ClosedWith(claimed, AfterRound(s, r, event), event, request);
    hide Advances;
    SamePersonalData(s.db, claimed.db, row.user);
    hide Left;
    OneCallLess(claimed.db, AfterRound(s, r, event).db, row.user, row.step);
    SameCallsLeft(s.db, claimed.db, row.user, row.step);
  }

  lemma {:induction false} SameCallsLeft(db: Db, db': Db, user: UserId, step: Step)
    requires forall other :: Left(db', user, other) == Left(db, user, other)
    ensures CallsLeft(db', user, step) == CallsLeft(db, user, step)
    decreases 4 - Rank(step)
  {
    hide Left;
    if !step.Completed? {
      SameCallsLeft(db, db', user, Next(step));
    }
  }

  lemma ClosedWith(s: Sys, t: Sys, event: Outbox.EventId, request: RequestId)
    requires request in s.db.erasures && !s.db.erasures[request].step.Completed? && Advances(s, t, event, request)
    requires Quiet(s, s.db.erasures[request].user)
    ensures var row := s.db.erasures[request];
      && Stands(t, event, request) && t == s.(db := t.db)
      && t.db.erasures[request] == ErasureRow(row.user, StepAfter(s.db, row.user, row.step))
      && DataAfter(s.db, t.db, row.user, row.step)
  {
    var row := s.db.erasures[request];
    assert StepAfter(s.db, row.user, row.step).Completed? ==> row.step.Postgres?;
    hide DataAfter, OthersKept, Left;
  }

  /** An accepted erasure takes exactly `CallsLeft` undisturbed calls: after k of them there are k fewer to go. */
  lemma {:induction false} UndisturbedCalls(s: Sys, rs: seq<Round>, event: Outbox.EventId, request: RequestId)
    requires Inv(s) && Stands(s, event, request) && Rounds(s, rs, event) && |rs| <= CallsLeftFor(s, request)
    ensures var t := AfterRounds(s, rs, event);
      && Inv(t) && Stands(t, event, request) && t == s.(db := t.db)
      && t.db.erasures[request].user == s.db.erasures[request].user
      && CallsLeftFor(t, request) == CallsLeftFor(s, request) - |rs|
    decreases |rs|
  {
    hide Inv, RoundOk, Stands, AfterRound, CallsLeft;
    StandsAccepted(s, event, request);
    if rs != [] {
      NotYetCompleted(s, request);
      RoundProgresses(s, rs[0], event, request);
      UndisturbedCalls(AfterRound(s, rs[0], event), rs[1..], event, request);
    }
  }

  lemma StandsAccepted(s: Sys, event: Outbox.EventId, request: RequestId)
    requires Stands(s, event, request)
    ensures request in s.db.erasures
  {
  }

  lemma NotYetCompleted(s: Sys, request: RequestId)
    requires request in s.db.erasures
    ensures CallsLeftFor(s, request) > 0 <==> !s.db.erasures[request].step.Completed?
  {
    hide Left;
  }

  /**
   * So that many undisturbed calls reach completion: the step, the request and the event are completed, and none of
   * the personal data is left.
   */
  lemma UndisturbedCallsComplete(s: Sys, rs: seq<Round>, event: Outbox.EventId, request: RequestId)
    requires Inv(s) && Stands(s, event, request) && Rounds(s, rs, event) && |rs| == CallsLeftFor(s, request)
    ensures var t := AfterRounds(s, rs, event);
      var user := s.db.erasures[request].user;
      && request in t.db.erasures && t.db.erasures[request] == ErasureRow(user, Completed)
      && event in t.db.events && t.db.events[event].status.Completed?
      && request in t.db.requests && t.db.requests[request] == RequestRow(user, Closed)
      && !HasOpenCreation(t.db, user) && !HasPhoto(t.db, user) && !HasSwipe(t.db, user)
  {
    hide Inv, Rounds, AfterRounds, CallsLeft, Clean;
    UndisturbedCalls(s, rs, event, request);
    var t := AfterRounds(s, rs, event);
    NotYetCompleted(t, request);
    CompletedIsClean(t, request);
  }

  lemma CompletedIsClean(s: Sys, request: RequestId)
    requires Inv(s) && request in s.db.erasures && s.db.erasures[request].step.Completed?
    ensures var user := s.db.erasures[request].user;
      !HasOpenCreation(s.db, user) && !HasPhoto(s.db, user) && !HasSwipe(s.db, user)
  {
    assert Clean(s.db, s.db.erasures[request]);
  }

  // ---- and there are such calls

  lemma RoundExists(s: Sys, event: Outbox.EventId, request: RequestId, actor: ActorId, worker: Outbox.WorkerId)
      returns (r: Round)
    requires Inv(s) && Stands(s, event, request) && !s.db.erasures[request].step.Completed?
    requires actor !in s.writers && actor !in s.erasers
    ensures RoundOk(s, r, event)
  {
    var now := s.db.events[event].availableAt;
    r := Round(actor, worker, now, now, []);
    ClaimIsPossible(s, r, event);
    ClaimLeases(s, r, event, request);
    StepKeepsInv(s, Claiming(event, r));
    hide Inv, Apply, Enabled, Call, Leased, Stands;
    var ops := CallExists(Apply(s, Claiming(event, r)), actor, event, worker, request, now);
    r := r.(ops := ops);
  }

  lemma ClaimIsPossible(s: Sys, r: Round, event: Outbox.EventId)
    requires event in s.db.events && s.db.events[event].status.Pending? && s.db.events[event].availableAt <= r.now
    ensures Enabled(s, Claiming(event, r))
  {
  }

  lemma {:induction false} RoundsExist(s: Sys, event: Outbox.EventId, request: RequestId, actor: ActorId,
      worker: Outbox.WorkerId) returns (rs: seq<Round>)
    requires Inv(s) && Stands(s, event, request) && actor !in s.writers && actor !in s.erasers
    ensures Rounds(s, rs, event) && |rs| == CallsLeftFor(s, request)
    decreases CallsLeftFor(s, request)
  {
    hide Inv, RoundOk, AfterRound, CallsLeft;
    NotYetCompleted(s, request);
    rs := [];
    if !s.db.erasures[request].step.Completed? {
      var r := RoundExists(s, event, request, actor, worker);
      RoundProgresses(s, r, event, request);
      hide Stands;
      var rest := RoundsExist(AfterRound(s, r, event), event, request, actor, worker);
      rs := [r] + rest;
      assert rs[1..] == rest;
    }
  }

  /** An accepted erasure stands at its first step, with its event waiting. */
  lemma AcceptedStands(s: Sys, user: UserId, request: RequestId, event: Outbox.EventId, now: Outbox.Instant)
    requires Inv(s) && Enabled(s, Accept(user, request, event, now)) && !HasErasure(s.db, user) && Quiet(s, user)
    ensures Stands(Apply(s, Accept(user, request, event, now)), event, request)
    ensures Apply(s, Accept(user, request, event, now)).db.erasures[request] == ErasureRow(user, Stripe)
  {
    var op := Accept(user, request, event, now);
    AcceptedEvents(s.db.events, request, event, now);
  }

  /** From acceptance, any worker carries an erasure through to completion, in exactly the calls that its data takes. */
  lemma AcceptedErasureCompletes(s: Sys, user: UserId, request: RequestId, event: Outbox.EventId, now: Outbox.Instant,
      actor: ActorId, worker: Outbox.WorkerId) returns (rs: seq<Round>)
    requires Inv(s) && Enabled(s, Accept(user, request, event, now)) && !HasErasure(s.db, user) && Quiet(s, user)
    requires actor !in s.writers && actor !in s.erasers
    ensures var accepted := Apply(s, Accept(user, request, event, now));
      var t := AfterRounds(accepted, rs, event);
      && Rounds(accepted, rs, event)
      && |rs| == |OpenCreations(s.db, user)| / 50 + |PhotosOf(s.db, user)| / 50 + |SwipesOf(s.db.swipes, user)| / 1_000 + 4
      && request in t.db.erasures && t.db.erasures[request] == ErasureRow(user, Completed)
      && event in t.db.events && t.db.events[event].status.Completed?
      && request in t.db.requests && t.db.requests[request] == RequestRow(user, Closed)
      && !HasOpenCreation(t.db, user) && !HasPhoto(t.db, user) && !HasSwipe(t.db, user)
  {
    var op := Accept(user, request, event, now);
    var accepted := Apply(s, op);
    AcceptedStands(s, user, request, event, now);
    StepKeepsInv(s, op);
    AcceptedCalls(s, op, accepted);
    AcceptedActors(s, op);
    hide Inv, Apply, Enabled, Stands, CallsLeft, RoundOk, AfterRound, Rounds, AfterRounds;
    rs := RoundsExist(accepted, event, request, actor, worker);
    UndisturbedCallsComplete(accepted, rs, event, request);
  }

  lemma AcceptedActors(s: Sys, op: Op)
    requires op.Accept?
    ensures Apply(s, op).erasers == s.erasers && Apply(s, op).writers == s.writers
  {
  }

  lemma AcceptedCalls(s: Sys, op: Op, accepted: Sys)
    requires op.Accept? && accepted == Apply(s, op)
    ensures CallsLeft(accepted.db, op.user, Stripe)
      == |OpenCreations(s.db, op.user)| / 50 + |PhotosOf(s.db, op.user)| / 50
         + |SwipesOf(s.db.swipes, op.user)| / 1_000 + 4
  {
    SamePersonalData(s.db, accepted.db, op.user);
    SameCallsLeft(s.db, accepted.db, op.user, Stripe);
    hide Apply;
    assert CallsLeft(s.db, op.user, Swipes) == |SwipesOf(s.db.swipes, op.user)| / 1_000 + 2;
  }
}
