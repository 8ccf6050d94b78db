// The resumable account-erasure saga, its database transactions, and the interleaving of any number of
// erasure workers with ordinary writers that hold shared account locks.

module ErasureDatabase {
  import opened Options
  import Sql
  import Outbox

  type UserId = nat
  type RequestId = nat

  datatype Step = Stripe | Photos | Swipes | Postgres | Completed

  function Rank(step: Step): nat {
    match step
    case Stripe => 0
    case Photos => 1
    case Swipes => 2
    case Postgres => 3
    case Completed => 4
  }

  datatype ErasureRow = ErasureRow(user: UserId, step: Step)

  datatype RequestStatus = Awaiting | InProgress | Closed

  /** A data-subject request for erasure. */
  datatype RequestRow = RequestRow(user: UserId, status: RequestStatus)

  datatype PhotoRow = PhotoRow(user: UserId, deleting: bool)

  /** A checkout attempt, with what matters of its Stripe customer creation. */
  datatype AttemptRow = AttemptRow(user: UserId, started: bool, erased: bool) {
    predicate Open() {
      started && !erased
    }
  }

  datatype Db = Db(
    deleted: set<UserId>,
    requests: map<RequestId, RequestRow>,
    erasures: map<RequestId, ErasureRow>,
    events: Outbox.Table,
    photos: map<nat, PhotoRow>,
    swipes: set<(UserId, UserId)>,
    attempts: map<nat, AttemptRow>)

  datatype Claim = Claim(request: RequestId, user: UserId, step: Step)

  predicate EraseEvent(e: Outbox.Event, request: RequestId) {
    Outbox.SameKey(e, Outbox.AccountErase, request)
  }

  /** The erasure whose event `worker` holds, if there is one. */
  function Claimed(db: Db, event: Outbox.EventId, worker: Outbox.WorkerId): Option<Claim> {
    if Outbox.Owned(db.events, event, worker) && db.events[event].kind.AccountErase?
       && db.events[event].aggregate in db.erasures
    then
      var request := db.events[event].aggregate;
      Some(Claim(request, db.erasures[request].user, db.erasures[request].step))
    else None
  }

  /** A handler may begin exactly with the event of an erasure that its worker holds, at the step that is stored. */
  lemma ClaimedColumns(db: Db, event: Outbox.EventId, worker: Outbox.WorkerId)
    ensures Claimed(db, event, worker).Some? <==>
      && event in db.events && db.events[event].status.Processing? && db.events[event].lockedBy == Some(worker)
      && db.events[event].kind.AccountErase? && db.events[event].aggregate in db.erasures
    ensures Claimed(db, event, worker).Some? ==>
      var claim := Claimed(db, event, worker).value;
      claim.request == db.events[event].aggregate
      && db.erasures[claim.request] == ErasureRow(claim.user, claim.step)
  {
  }

  predicate HasErasure(db: Db, user: UserId) {
    exists r | r in db.erasures :: db.erasures[r].user == user
  }

  /** Accepting an erasure: one workflow per account, its event, and the deleted flag, in one transaction. */
  function Accepted(db: Db, user: UserId, request: RequestId, event: Outbox.EventId, now: Outbox.Instant): Db {
    if HasErasure(db, user) then db
    else db.(requests := db.requests[request := RequestRow(user, InProgress)],
             erasures := db.erasures[request := ErasureRow(user, Stripe)],
             events := Outbox.Apply(db.events, Outbox.Enqueue(event, Outbox.AccountErase, request, now)),
             deleted := db.deleted + {user})
  }

  datatype Outcome = NotOwned | StepMoved | InvalidState | PhotosRemaining | SwipesRemaining | Advanced

  predicate HasPhoto(db: Db, user: UserId) {
    exists p | p in db.photos :: db.photos[p].user == user
  }

  predicate Involves(swipe: (UserId, UserId), user: UserId) {
    swipe.0 == user || swipe.1 == user
  }

  predicate HasSwipe(db: Db, user: UserId) {
    exists s | s in db.swipes :: Involves(s, user)
  }

  predicate HasOpenCreation(db: Db, user: UserId) {
    exists a | a in db.attempts :: db.attempts[a].user == user && db.attempts[a].Open()
  }

  /** What the transaction that moves an erasure to its next step answers or throws. */
  function AdvanceOutcome(db: Db, event: Outbox.EventId, worker: Outbox.WorkerId, claim: Claim, next: Step): Outcome {
    if !Outbox.Owned(db.events, event, worker) then NotOwned
    else if claim.request !in db.erasures || db.erasures[claim.request].step != claim.step then StepMoved
    else if next.Completed? then
      if claim.request !in db.requests || db.requests[claim.request] != RequestRow(claim.user, InProgress)
         || !claim.step.Postgres? then InvalidState
      else if HasPhoto(db, claim.user) then PhotosRemaining
      else if HasSwipe(db, claim.user) then SwipesRemaining
      else Advanced
    else Advanced
  }

  function BillingEventsOf(db: Db, user: UserId): set<Outbox.EventId> {
    set e | e in db.events &&
      (Outbox.SameKey(db.events[e], Outbox.SubscriptionReconcile, user) ||
       (db.events[e].kind.CustomerReconcile? && db.events[e].aggregate in db.attempts
        && db.attempts[db.events[e].aggregate].user == user))
  }

  function AfterAdvance(db: Db, event: Outbox.EventId, worker: Outbox.WorkerId, claim: Claim, next: Step,
      now: Outbox.Instant): Db {
    if !AdvanceOutcome(db, event, worker, claim, next).Advanced? then db
    else
      var moved := db.(erasures := db.erasures[claim.request := db.erasures[claim.request].(step := next)]);
      if next.Completed? then
        moved.(requests := db.requests[claim.request := RequestRow(claim.user, Closed)],
               events := Outbox.Apply(db.events, Outbox.DropBilling(BillingEventsOf(db, claim.user))))
      else moved.(events := Outbox.Apply(db.events, Outbox.Checkpoint(event, worker, now)))
  }

  // ---------------------------------------------------------------- swipe batches

  function ActorRows(swipes: set<(UserId, UserId)>, user: UserId): set<(UserId, UserId)> {
    set s | s in swipes && s.0 == user
  }

  function TargetRows(swipes: set<(UserId, UserId)>, user: UserId): set<(UserId, UserId)> {
    set s | s in swipes && s.1 == user
  }

  const BY_TARGET: ((UserId, UserId), (UserId, UserId)) -> bool :=
    (a: (UserId, UserId), b: (UserId, UserId)) => a.1 < b.1

  const BY_ACTOR: ((UserId, UserId), (UserId, UserId)) -> bool :=
    (a: (UserId, UserId), b: (UserId, UserId)) => a.0 < b.0

  ghost function Members<T>(m: multiset<T>): set<T> {
    set x | x in m
  }

  /** `doomed` are the rows that LIMIT n keeps of the UNION ALL of two branches, themselves limited to n. */
  ghost predicate DoomedOf(a: set<(UserId, UserId)>, b: set<(UserId, UserId)>, n: nat, doomed: set<(UserId, UserId)>) {
    exists m: multiset<(UserId, UserId)> :: DoomedAs(a, b, n, doomed, m)
  }

  ghost predicate DoomedAs(a: set<(UserId, UserId)>, b: set<(UserId, UserId)>, n: nat, doomed: set<(UserId, UserId)>,
      m: multiset<(UserId, UserId)>) {
    && m <= multiset(a) + multiset(b)
    && |m| == (if n < |a| + |b| then n else |a| + |b|)
    && doomed == Members(m)
  }

  ghost predicate SwipeBatch(swipes: set<(UserId, UserId)>, user: UserId, n: nat, doomed: set<(UserId, UserId)>) {
    exists a, b ::
      && Sql.Limited(ActorRows(swipes, user), BY_TARGET, n, a)
      && Sql.Limited(TargetRows(swipes, user), BY_ACTOR, n, b)
      && DoomedOf(a, b, n, doomed)
  }

  function SwipesOf(swipes: set<(UserId, UserId)>, user: UserId): set<(UserId, UserId)> {
    set s | s in swipes && Involves(s, user)
  }

  predicate NoSelfSwipe(swipes: set<(UserId, UserId)>) {
    forall s | s in swipes :: s.0 != s.1
  }

  function AfterSwipeBatch(db: Db, event: Outbox.EventId, worker: Outbox.WorkerId, claim: Claim, batchSize: nat,
      doomed: set<(UserId, UserId)>, now: Outbox.Instant): Db {
    if !Outbox.Owned(db.events, event, worker) then db
    else if claim.request !in db.erasures || !db.erasures[claim.request].step.Swipes? then db
    else
      var next := if |doomed| < batchSize then Postgres else Swipes;
      db.(swipes := db.swipes - doomed,
          erasures := db.erasures[claim.request := db.erasures[claim.request].(step := next)],
          events := Outbox.Apply(db.events, Outbox.Checkpoint(event, worker, now)))
  }

  lemma {:induction false} SetOfDistinct<T>(m: multiset<T>)
    requires forall x | x in m :: m[x] == 1
    ensures |Members(m)| == |m|
    decreases |m|
  {
    if |m| > 0 {
      var x :| x in m;
      SetOfDistinct(m - multiset{x});
      assert Members(m) == Members(m - multiset{x}) + {x};
    }
  }

  lemma FullPart<T>(m: multiset<T>, whole: multiset<T>)
    requires m <= whole && |m| == |whole|
    ensures m == whole
  {
    assert |whole - m| == |whole| - |m|;
    assert whole == m + (whole - m);
  }

  /**
   * Short batch means empty: a batch below its limit was every swipe of the user, because the CHECK constraint of
   * the table keeps out a self-swipe, which the two branches would both return.
   */
  lemma ShortSwipeBatchIsLast(swipes: set<(UserId, UserId)>, user: UserId, n: nat, doomed: set<(UserId, UserId)>)
    requires NoSelfSwipe(swipes) && SwipeBatch(swipes, user, n, doomed)
    ensures doomed <= SwipesOf(swipes, user) && |doomed| <= n
    ensures |doomed| < n ==> doomed == SwipesOf(swipes, user)
  {
    var a, b :|
      && Sql.Limited(ActorRows(swipes, user), BY_TARGET, n, a)
      && Sql.Limited(TargetRows(swipes, user), BY_ACTOR, n, b)
      && DoomedOf(a, b, n, doomed);
    var m :| DoomedAs(a, b, n, doomed, m);
    assert a !! b;
    SetOfDistinct(m) by {
      forall x | x in m ensures m[x] == 1 {
        assert m[x] <= (multiset(a) + multiset(b))[x];
      }
    }
    if |doomed| < n {
      WholeUnion(swipes, user, n, a, b, m);
    }
  }

  /** A union with fewer rows than the limit is everything. */
  lemma WholeUnion(swipes: set<(UserId, UserId)>, user: UserId, n: nat, a: set<(UserId, UserId)>,
      b: set<(UserId, UserId)>, m: multiset<(UserId, UserId)>)
    requires Sql.Limited(ActorRows(swipes, user), BY_TARGET, n, a)
    requires Sql.Limited(TargetRows(swipes, user), BY_ACTOR, n, b)
    requires DoomedAs(a, b, n, Members(m), m) && |m| < n
    ensures Members(m) == SwipesOf(swipes, user) && m == multiset(a) + multiset(b)
  {
    FullPart(m, multiset(a) + multiset(b));
    Sql.ShortMeansAll(ActorRows(swipes, user), BY_TARGET, n, a);
    Sql.ShortMeansAll(TargetRows(swipes, user), BY_ACTOR, n, b);
  }

  lemma {:induction false} AtMostTheRows<T>(m: multiset<T>)
    ensures |Members(m)| <= |m|
    decreases |m|
  {
    if |m| > 0 {
      var x :| x in m;
      AtMostTheRows(m - multiset{x});
      assert Members(m) <= Members(m - multiset{x}) + {x};
      Sql.SubsetSize(Members(m), Members(m - multiset{x}) + {x});
    }
  }

  lemma RepeatedRow<T>(m: multiset<T>) returns (x: T)
    requires |Members(m)| < |m|
    ensures m[x] > 1
  {
    if forall x | x in m :: m[x] == 1 {
      SetOfDistinct(m);
    }
    x :| x in m && m[x] != 1;
  }

  /**
   * Without the CHECK constraint, the batch can be short and leave rows of the user exactly if there is a self-swipe,
   * among the first rows of both branches, and as many rows of the user as the limit, which is two or more.
   */
  lemma ShortBatchMayLeaveRows(swipes: set<(UserId, UserId)>, user: UserId, n: nat)
    ensures (exists doomed :: SwipeBatch(swipes, user, n, doomed) && |doomed| < n && doomed != SwipesOf(swipes, user))
      <==> (user, user) in swipes && 2 <= n <= |SwipesOf(swipes, user)| && SelfSwipeIsEarly(swipes, user, n)
  {
    BranchOrders(swipes, user);
    if doomed :| SwipeBatch(swipes, user, n, doomed) && |doomed| < n && doomed != SwipesOf(swipes, user) {
      LeavingNeedsSelfSwipe(swipes, user, n, doomed);
    }
    if (user, user) in swipes && 2 <= n <= |SwipesOf(swipes, user)| && SelfSwipeIsEarly(swipes, user, n) {
      var doomed := LeavingBatch(swipes, user, n);
    }
  }

  predicate SelfSwipeIsEarly(swipes: set<(UserId, UserId)>, user: UserId, n: nat) {
    && |Sql.Preceding(ActorRows(swipes, user), BY_TARGET, (user, user))| < n
    && |Sql.Preceding(TargetRows(swipes, user), BY_ACTOR, (user, user))| < n
  }

  lemma BranchOrders(swipes: set<(UserId, UserId)>, user: UserId)
    ensures Sql.StrictOrder(ActorRows(swipes, user), BY_TARGET)
    ensures Sql.StrictOrder(TargetRows(swipes, user), BY_ACTOR)
  {
  }

  lemma LeavingNeedsSelfSwipe(swipes: set<(UserId, UserId)>, user: UserId, n: nat, doomed: set<(UserId, UserId)>)
    requires SwipeBatch(swipes, user, n, doomed) && |doomed| < n && doomed != SwipesOf(swipes, user)
    ensures (user, user) in swipes && 2 <= n <= |SwipesOf(swipes, user)| && SelfSwipeIsEarly(swipes, user, n)
  {
    BranchOrders(swipes, user);
    var a, b :|
      && Sql.Limited(ActorRows(swipes, user), BY_TARGET, n, a)
      && Sql.Limited(TargetRows(swipes, user), BY_ACTOR, n, b)
      && DoomedOf(a, b, n, doomed);
    var m :| DoomedAs(a, b, n, doomed, m);
    if |m| < n {
      WholeUnion(swipes, user, n, a, b, m);
    }
    var x := RepeatedRow(m);
    assert m[x] <= (multiset(a) + multiset(b))[x];
    assert x in a && x in b && x == (user, user);
    Sql.SelectedByRank(ActorRows(swipes, user), BY_TARGET, n, a, x);
    Sql.SelectedByRank(TargetRows(swipes, user), BY_ACTOR, n, b, x);
    UnionSize(swipes, user, n, a, b, doomed);
  }

  /** At least n rows in all: n + 1 or more with the self-swipe counted twice, or some row that the batch leaves. */
  lemma UnionSize(swipes: set<(UserId, UserId)>, user: UserId, n: nat, a: set<(UserId, UserId)>,
      b: set<(UserId, UserId)>, doomed: set<(UserId, UserId)>)
    requires a <= ActorRows(swipes, user) && b <= TargetRows(swipes, user) && (user, user) in a * b
    requires n <= |a| + |b| && DoomedOf(a, b, n, doomed) && doomed != SwipesOf(swipes, user)
    ensures n <= |SwipesOf(swipes, user)|
  {
    assert a * b == {(user, user)};
    assert |a + b| == |a| + |b| - 1;
    if |a| + |b| == n {
      var m :| DoomedAs(a, b, n, doomed, m);
      FullPart(m, multiset(a) + multiset(b));
      assert doomed == a + b;
      var left :| left in SwipesOf(swipes, user) && left !in a + b;
      Sql.SubsetSize(a + b + {left}, SwipesOf(swipes, user));
    } else {
      Sql.SubsetSize(a + b, SwipesOf(swipes, user));
    }
  }

  lemma LeavingBatch(swipes: set<(UserId, UserId)>, user: UserId, n: nat) returns (doomed: set<(UserId, UserId)>)
    requires (user, user) in swipes && 2 <= n <= |SwipesOf(swipes, user)| && SelfSwipeIsEarly(swipes, user, n)
    ensures SwipeBatch(swipes, user, n, doomed) && |doomed| < n && doomed != SwipesOf(swipes, user)
  {
    BranchOrders(swipes, user);
    var self := (user, user);
    var a := Sql.LimitedExists(ActorRows(swipes, user), BY_TARGET, n);
    var b := Sql.LimitedExists(TargetRows(swipes, user), BY_ACTOR, n);
    Sql.SelectedByRank(ActorRows(swipes, user), BY_TARGET, n, a, self);
    Sql.SelectedByRank(TargetRows(swipes, user), BY_ACTOR, n, b, self);
    assert SwipesOf(swipes, user) == ActorRows(swipes, user) + TargetRows(swipes, user);
    assert |a| + |b| >= n;
    var m := Between(multiset{self, self}, multiset(a) + multiset(b), n);
    doomed := Members(m);
    assert DoomedAs(a, b, n, doomed, m);
    assert Members(m) == Members(m - multiset{self});
    AtMostTheRows(m - multiset{self});
  }

  lemma {:induction false} Between<T>(least: multiset<T>, most: multiset<T>, size: nat) returns (m: multiset<T>)
    requires least <= most && |least| <= size <= |most|
    ensures least <= m <= most && |m| == size
    decreases size - |least|
  {
    if |least| == size {
      m := least;
    } else {
      assert |most - least| == |most| - |least|;
      var x :| x in most - least;
      m := Between(least + multiset{x}, most, size);
    }
  }

  // ---------------------------------------------------------------- the repository

  /** The tables that erasure transactions touch. A transaction that answers an error has rolled back. */
  class Repository {
    var deleted: set<UserId>
    var requests: map<RequestId, RequestRow>
    var erasures: map<RequestId, ErasureRow>
    var events: Outbox.Table
    var photos: map<nat, PhotoRow>
    var swipes: set<(UserId, UserId)>
    var attempts: map<nat, AttemptRow>

    function Snapshot(): Db
      reads this
    {
      Db(deleted, requests, erasures, events, photos, swipes, attempts)
    }

    /**
     * `enqueueAccountErasure`, for a supplied request or one that the caller has just opened. A supplied request that
     * is not the one of the erasure under way is a conflict, which throws.
     */
    method EnqueueAccountErasure(user: UserId, request: RequestId, supplied: bool, event: Outbox.EventId,
        now: Outbox.Instant) returns (accepted: Option<RequestId>)
      requires event !in events
      requires request in erasures ==> supplied && erasures[request].user == user
      requires forall q, r | q in erasures && r in erasures && erasures[q].user == erasures[r].user :: q == r
      modifies this
      ensures Snapshot() == Accepted(old(Snapshot()), user, request, event, now)
      ensures accepted.None? <==> supplied && request !in old(erasures) && HasErasure(old(Snapshot()), user)
      ensures HasErasure(old(Snapshot()), user) ==> Snapshot() == old(Snapshot())
      ensures accepted.Some? ==> accepted.value in erasures && erasures[accepted.value].user == user
      ensures accepted.Some? && (supplied || !HasErasure(old(Snapshot()), user)) ==> accepted == Some(request)
      ensures (forall r | r in old(erasures) :: old(erasures)[r].user != user) ==>
        && erasures == old(erasures)[request := ErasureRow(user, Stripe)] && deleted == old(deleted) + {user}
        && requests == old(requests)[request := RequestRow(user, InProgress)]
        && (exists e :: e in events && events[e].kind.AccountErase? && events[e].aggregate == request)
    {
      if HasErasure(Snapshot(), user) {
        var existing :| existing in erasures && erasures[existing].user == user;
        return if supplied && existing != request then None else Some(existing);
      }
      requests := requests[request := RequestRow(user, InProgress)];
      erasures := erasures[request := ErasureRow(user, Stripe)];
      Outbox.EnqueueEffect(events, event, Outbox.AccountErase, request, now);
      if !Outbox.Taken(events, Outbox.AccountErase, request) {
        events := events[event := Outbox.NewEvent(Outbox.AccountErase, request, now)];
      }
      assert exists e :: e in events && Outbox.SameKey(events[e], Outbox.AccountErase, request) by {
        if !Outbox.Taken(old(events), Outbox.AccountErase, request) {
          assert event in events && Outbox.SameKey(events[event], Outbox.AccountErase, request);
        }
      }
      deleted := deleted + {user};
      accepted := Some(request);
    }

    method Advance(event: Outbox.EventId, worker: Outbox.WorkerId, claim: Claim, next: Step, now: Outbox.Instant)
      returns (outcome: Outcome)
      modifies this
      ensures outcome == AdvanceOutcome(old(Snapshot()), event, worker, claim, next)
      ensures Snapshot() == AfterAdvance(old(Snapshot()), event, worker, claim, next, now)
      ensures outcome.NotOwned? <==> !Outbox.HeldIn(old(events), event, worker)
      ensures outcome.StepMoved? <==>
        && Outbox.HeldIn(old(events), event, worker)
        && !(claim.request in old(erasures) && old(erasures)[claim.request].step == claim.step)
      ensures outcome.Advanced? <==>
        && Outbox.HeldIn(old(events), event, worker)
        && claim.request in old(erasures) && old(erasures)[claim.request].step == claim.step
        && (next.Completed? ==>
              && claim.step.Postgres? && claim.request in old(requests)
              && old(requests)[claim.request].user == claim.user && old(requests)[claim.request].status.InProgress?
              && (forall p | p in old(photos) :: old(photos)[p].user != claim.user)
              && (forall t | t in old(swipes) :: t.0 != claim.user && t.1 != claim.user))
      ensures !outcome.Advanced? ==> Snapshot() == old(Snapshot())
      ensures outcome.Advanced? ==>
        && erasures == old(erasures)[claim.request := old(erasures)[claim.request].(step := next)]
        && requests == (if next.Completed? then old(requests)[claim.request := RequestRow(claim.user, Closed)] else old(requests))
        && deleted == old(deleted) && photos == old(photos) && swipes == old(swipes) && attempts == old(attempts)
      ensures outcome.Advanced? && !next.Completed? ==>
        events == old(events)[event := old(events)[event].(status := Outbox.Pending, attempts := 0, availableAt := now + 1_000,
                                                           lockedAt := None, lockedBy := None, errorCode := None)]
      ensures outcome.Advanced? && next.Completed? ==>
        && (forall e | e in events :: e in old(events) && events[e] == old(events)[e])
        && (forall e | e in old(events) && e !in events ::
              || (old(events)[e].kind.SubscriptionReconcile? && old(events)[e].aggregate == claim.user)
              || (old(events)[e].kind.CustomerReconcile? && old(events)[e].aggregate in attempts
                  && attempts[old(events)[e].aggregate].user == claim.user))
        && (forall e | e in events && events[e].kind.SubscriptionReconcile? :: events[e].aggregate != claim.user)
    {
      if event !in events || !events[event].OwnedBy(worker) {
        return NotOwned;
      }
      if claim.request !in erasures || erasures[claim.request].step != claim.step {
        return StepMoved;
      }
      if next.Completed? {
        if claim.request !in requests || requests[claim.request] != RequestRow(claim.user, InProgress)
           || !claim.step.Postgres? {
          return InvalidState;
        }
        if exists p | p in photos :: photos[p].user == claim.user {
          return PhotosRemaining;
        }
        if exists t | t in swipes :: Involves(t, claim.user) {
          return SwipesRemaining;
        }
        BillingDropped(events, BillingEventsOf(Snapshot(), claim.user));
        events := events - BillingEventsOf(Snapshot(), claim.user);
        requests := requests[claim.request := RequestRow(claim.user, Closed)];
      }
      erasures := erasures[claim.request := erasures[claim.request].(step := next)];
      if !next.Completed? {
        CheckpointUpdate(event, worker, now);
      }
      return Advanced;
    }

    /** The lease is given back with a full retry budget: the next step is a fresh job. */
    method CheckpointUpdate(event: Outbox.EventId, worker: Outbox.WorkerId, now: Outbox.Instant)
      modifies this`events
      ensures events == Outbox.Apply(old(events), Outbox.Checkpoint(event, worker, now))
      ensures events == if Outbox.HeldIn(old(events), event, worker)
        then old(events)[event := old(events)[event].(status := Outbox.Pending, attempts := 0, availableAt := now + 1_000,
                                                      lockedAt := None, lockedBy := None, errorCode := None)]
        else old(events)
    {
      if event in events && events[event].OwnedBy(worker) {
        events := events[event := events[event].(status := Outbox.Pending, attempts := 0,
                                                 availableAt := now + Outbox.SECOND, lockedAt := None,
                                                 lockedBy := None, errorCode := None)];
      }
    }

    method DeleteSwipeBatch(event: Outbox.EventId, worker: Outbox.WorkerId, claim: Claim, batchSize: nat,
        now: Outbox.Instant)
      returns (held: bool, ghost doomed: set<(UserId, UserId)>)
      modifies this
      ensures held ==> SwipeBatch(old(swipes), claim.user, batchSize, doomed)
      ensures Snapshot() == AfterSwipeBatch(old(Snapshot()), event, worker, claim, batchSize, doomed, now)
      ensures !held ==> Snapshot() == old(Snapshot())
      ensures held <==> Outbox.HeldIn(old(events), event, worker)
                        && claim.request in old(erasures) && old(erasures)[claim.request].step.Swipes?
      ensures held ==> swipes == old(swipes) - doomed && |doomed| <= batchSize
      ensures held ==> forall t | t in doomed :: t in old(swipes) && (t.0 == claim.user || t.1 == claim.user)
      ensures held ==> erasures == old(erasures)[claim.request :=
        ErasureRow(old(erasures)[claim.request].user, if |doomed| < batchSize then Postgres else Swipes)]
      ensures held ==> events == old(events)[event := old(events)[event].(status := Outbox.Pending, attempts := 0,
        availableAt := now + 1_000, lockedAt := None, lockedBy := None, errorCode := None)]
    {
      doomed := {};
      if event !in events || !events[event].OwnedBy(worker) {
        return false, doomed;
      }
      if claim.request !in erasures || !erasures[claim.request].step.Swipes? {
        return false, doomed;
      }
      var rows := SelectSwipes(swipes, claim.user, batchSize);
      doomed := rows;
      BatchIsOfUser(swipes, claim.user, batchSize, rows);
      swipes := swipes - rows;
      var next := if |rows| < batchSize then Postgres else Swipes;
      erasures := erasures[claim.request := erasures[claim.request].(step := next)];
      CheckpointUpdate(event, worker, now);
      return true, doomed;
    }

    method Defer(event: Outbox.EventId, worker: Outbox.WorkerId, now: Outbox.Instant)
      modifies this`events
      ensures events == Outbox.Apply(old(events), Outbox.Defer(event, worker, now))
      ensures events == if Outbox.HeldIn(old(events), event, worker)
        then old(events)[event := old(events)[event].(status := Outbox.Pending,
          attempts := if old(events)[event].attempts == 0 then 0 else old(events)[event].attempts - 1,
          availableAt := now + 5_000, lockedAt := None, lockedBy := None)]
        else old(events)
    {
      if event in events && events[event].OwnedBy(worker) {
        var e := events[event];
        events := events[event := e.(status := Outbox.Pending,
                                     attempts := if e.attempts == 0 then 0 else e.attempts - 1,
                                     availableAt := now + 5 * Outbox.SECOND, lockedAt := None, lockedBy := None)];
      }
    }
  }

  /** A batch, whatever the table holds, is some of the user's rows. */
  lemma BatchIsOfUser(swipes: set<(UserId, UserId)>, user: UserId, n: nat, doomed: set<(UserId, UserId)>)
    requires SwipeBatch(swipes, user, n, doomed)
    ensures doomed <= SwipesOf(swipes, user) && |doomed| <= n
  {
    var a, b :|
      && Sql.Limited(ActorRows(swipes, user), BY_TARGET, n, a)
      && Sql.Limited(TargetRows(swipes, user), BY_ACTOR, n, b)
      && DoomedOf(a, b, n, doomed);
    var m :| DoomedAs(a, b, n, doomed, m);
    AtMostTheRows(m);
    forall x | x in m ensures x in a || x in b {
      assert m[x] <= (multiset(a) + multiset(b))[x];
    }
  }

  lemma BillingDropped(events: Outbox.Table, chosen: set<Outbox.EventId>)
    ensures events - chosen == Outbox.Apply(events, Outbox.DropBilling(chosen))
  {
  }

  /** Both branches limited, then any `n` rows of their UNION ALL: the outer query has no ORDER BY. */
  method SelectSwipes(swipes: set<(UserId, UserId)>, user: UserId, n: nat) returns (doomed: set<(UserId, UserId)>)
    ensures SwipeBatch(swipes, user, n, doomed)
  {
    var a := Sql.Limit(ActorRows(swipes, user), BY_TARGET, n);
    var b := Sql.Limit(TargetRows(swipes, user), BY_ACTOR, n);
    doomed := PickRows(a, b, n);
  }

  method PickRows(a: set<(UserId, UserId)>, b: set<(UserId, UserId)>, n: nat) returns (doomed: set<(UserId, UserId)>)
    ensures DoomedOf(a, b, n, doomed)
  {
    doomed := {};
    var left := multiset(a) + multiset(b);
    ghost var picked := multiset{};
    var count := 0;
    while count < n && |left| > 0
      invariant count <= n && |picked| == count
      invariant picked + left == multiset(a) + multiset(b)
      invariant doomed == Members(picked)
      decreases n - count
    {
      var row :| row in left;
      left := left - multiset{row};
      picked := picked + multiset{row};
      doomed := doomed + {row};
      count := count + 1;
    }
    assert |picked + left| == |multiset(a) + multiset(b)|;
    assert DoomedAs(a, b, n, doomed, picked);
  }
}
