// The life of a match: creation from a mutual like, messaging, the continuation that both participants must ask for,
// the weekly quota it is charged to, blocking, expiry and account removal. Every operation is one transaction that
// holds the row lock of its match; the instant is read after that lock is granted.

module Matches {
  import opened Options
  import Sql

  type Instant = int  // milliseconds since 1970-01-01 00:00 UTC
  type Id = nat
  type User = nat

  const HOUR := 60 * 60 * 1000
  const DAY := 24 * HOUR
  const MATCH_WINDOW_MS := 24 * HOUR
  const MATCH_PURGE_MS := 30 * DAY
  const ENDED_MATCH_RETENTION_DAYS := 30
  const SMALLINT_MAX := 32767

  // ---------------------------------------------------------------- weeks

  /** 0 is Sunday; 1970-01-01 was a Thursday. */
  function WeekDay(day: int): nat {
    (day + 4) % 7
  }

  /** Midnight UTC of the Monday on or before `now`. */
  function StartOfUtcWeek(now: Instant): (start: Instant)
    ensures start % DAY == 0 && WeekDay(start / DAY) == 1
    ensures start <= now < start + 7 * DAY
  {
    var day := now / DAY;
    (day - (WeekDay(day) + 6) % 7) * DAY
  }

  /** No other Monday midnight has `now` in its week: two instants are charged together exactly when one is in the week of the other. */
  lemma WeekIsUnique(now: Instant, start: Instant)
    requires start % DAY == 0 && WeekDay(start / DAY) == 1 && start <= now < start + 7 * DAY
    ensures start == StartOfUtcWeek(now)
  {
    var other := StartOfUtcWeek(now);
    assert start == start / DAY * DAY && other == other / DAY * DAY;
    assert -7 < start / DAY - other / DAY < 7;
  }

  // ---------------------------------------------------------------- data

  datatype Status = Active | Awaiting | Confirmed | Expired | Ended

  /** How far a match is through its life; a match never goes back. */
  function Stage(status: Status): nat {
    match status
    case Active => 0
    case Awaiting => 1
    case Confirmed => 2
    case Expired => 2
    case Ended => 3
  }

  datatype MatchState = MatchState(revealed: bool, continued: bool)

  datatype Match = Match(
    user1: User,
    user2: User,
    status: Status,
    expiresAt: Instant,
    purgeAfter: Option<Instant>,
    initiator: Option<User>,
    createdAt: Instant,
    lastMessageAt: Option<Instant>,
    states: map<User, MatchState>)
  {
    predicate Includes(user: User) {
      user == user1 || user == user2
    }

    predicate Terminal() {
      status.Expired? || status.Ended?
    }

    function Continued(): set<User> {
      set u | u in states && states[u].continued
    }
  }

  datatype Account = Account(deleted: bool, banned: bool, anonymized: bool)

  datatype Subscription = Subscription(plan: string, provided: bool, status: string, periodEndsAt: Option<Instant>)

  /** A confirmation as it happened: who had asked first, the week it fell in, and the limit then in force. */
  datatype Confirmation = Confirmation(id: Id, initiator: User, week: Instant, limit: Option<nat>)

  datatype Db = Db(
    matches: map<Id, Match>,
    accounts: map<User, Account>,
    blocks: set<(User, User)>,
    plans: map<string, Option<nat>>,
    subscriptions: map<User, Subscription>,
    usage: map<(User, Instant), nat>,
    log: seq<Confirmation>)  // history: not a table
  {
    predicate Blocked(a: User, b: User) {
      (a, b) in blocks || (b, a) in blocks
    }

    predicate Deleted(u: User) {
      u in accounts && accounts[u].deleted
    }

    /** The trigger on match_state refuses any write once a participant is deleted. */
    predicate Live(m: Match) {
      !Deleted(m.user1) && !Deleted(m.user2)
    }

    predicate Used(u: User, week: Instant) {
      (u, week) in usage
    }

    function UsedCount(u: User, week: Instant): nat {
      if (u, week) in usage then usage[(u, week)] else 0
    }

    function With(id: Id, m: Match): Db {
      this.(matches := matches[id := m])
    }
  }

  datatype Op =
    | Create(id: Id, first: User, second: User, now: Instant)
    | Reveal(id: Id, user: User, now: Instant)
    | Message(id: Id, user: User, now: Instant)
    | Continue(id: Id, user: User, now: Instant)
    | OpenWindow(id: Id, now: Instant)
    | ExpireAwaiting(id: Id, now: Instant)
    | Purge(id: Id, now: Instant)
    | Block(user: User, target: User, now: Instant)
    | Unblock(user: User, target: User)
    | Anonymize(user: User, now: Instant)
    | SetAccount(user: User, account: Account)
    | SetSubscription(user: User, subscription: Option<Subscription>)
    | SetPlan(code: string, limit: Option<nat>)

  // ---------------------------------------------------------------- reading the plan

  predicate Entitles(s: Subscription, now: Instant) {
    || s.plan == "free"
    || ((!s.provided || s.status in {"trialing", "active", "past_due"}) && (s.periodEndsAt.None? || s.periodEndsAt.value > now))
  }

  /** The weekly limit of the plan in force, if that plan exists; no limit is None inside. */
  function EffectivePlan(plans: map<string, Option<nat>>, subscriptions: map<User, Subscription>, user: User, now: Instant):
    Option<Option<nat>>
  {
    var code := if user in subscriptions && Entitles(subscriptions[user], now) then subscriptions[user].plan else "free";
    if code in plans then Some(plans[code]) else None
  }

  // ---------------------------------------------------------------- transitions

  function Opened(m: Match, now: Instant): Match {
    m.(status := Awaiting, expiresAt := now + DAY)
  }

  function Lapsed(m: Match, now: Instant): Match {
    m.(status := Expired, purgeAfter := Some(now + MATCH_PURGE_MS))
  }

  /** The lazy opening that reveals and messages do: an overdue active match first becomes an awaiting one. */
  function LazilyOpened(m: Match, now: Instant): Match {
    if m.status.Active? && m.expiresAt <= now then Opened(m, now) else m
  }

  datatype Availability = Available | NotFound | InvalidState | Elapsed

  /** What locking a match for messaging answers, and the match it leaves. */
  function Access(db: Db, id: Id, user: User, now: Instant): (Availability, Db) {
    if id !in db.matches || !db.matches[id].Includes(user) || !db.Live(db.matches[id]) then (NotFound, db)
    else
      var m := LazilyOpened(db.matches[id], now);
      if m.status.Awaiting? && m.expiresAt <= now then (Elapsed, db.With(id, Lapsed(m, now)))
      else if m.Terminal() then (InvalidState, db)
      else (Available, db.With(id, m))
  }

  datatype Consent = Pending | BothAgreed | AlreadyRecorded | NotAvailableYet | Missing | Invalid | TooLate
                   | QuotaReached | Unavailable | PlanMissing
  {
    /** Errors that roll the transaction back. */
    predicate Throws() {
      Unavailable? || PlanMissing?
    }
  }

  function Answered(m: Match, user: User): Match
    requires user in m.states
  {
    m.(states := m.states[user := m.states[user].(continued := true)])
  }

  /** The first participant to ask becomes the initiator; nothing is charged. */
  function Initiated(m: Match, user: User): Match
    requires user in m.states
  {
    Answered(m, user).(initiator := Some(user))
  }

  /** The second request: charge the initiator's week and confirm the match. */
  function Settle(db: Db, id: Id, m: Match, user: User, now: Instant): (Consent, Db)
    requires m.initiator.Some? && user in m.states
  {
    var who := m.initiator.value;
    var week := StartOfUtcWeek(now);
    match EffectivePlan(db.plans, db.subscriptions, who, now)
    case None => (PlanMissing, db)
    case Some(limit) =>
      if limit.Some? && db.UsedCount(who, week) >= limit.value then (QuotaReached, db.With(id, m))
      else if !db.Live(m) then (Unavailable, db)
      else
        var usage := if limit.Some? then db.usage[(who, week) := db.UsedCount(who, week) + 1] else db.usage;
        var both := Answered(m, user);
        if |both.Continued()| == 2 then
          (BothAgreed, db.With(id, both.(status := Confirmed, purgeAfter := None))
                            .(usage := usage, log := db.log + [Confirmation(id, who, week, limit)]))
        else (Invalid, db.With(id, both).(usage := usage))
  }

  /** One participant asks to continue. */
  function Ask(db: Db, id: Id, user: User, now: Instant): (Consent, Db) {
    if id !in db.matches || !db.matches[id].Includes(user) then (Missing, db)
    else
      var found := db.matches[id];
      if found.status.Active? && found.expiresAt > now then (NotAvailableYet, db)
      else
        var m := LazilyOpened(found, now);
        if !m.status.Awaiting? then (Invalid, db)
        else if m.expiresAt <= now then (TooLate, db.With(id, Lapsed(m, now)))
        else if user !in m.states then (Missing, db.With(id, m))
        else if m.states[user].continued then (AlreadyRecorded, db.With(id, m))
        else if m.initiator.None? then
          if db.Live(m) then (Pending, db.With(id, Initiated(m, user))) else (Unavailable, db)
        else Settle(db, id, m, user, now)
  }

  datatype Creation = Created | Existing(id: Id) | BlockedPair | Unknown | BadRequest | Clash

  predicate Pair(m: Match, low: User, high: User) {
    m.user1 == low && m.user2 == high
  }

  function Fresh(low: User, high: User, now: Instant): Match {
    Match(low, high, Active, now + MATCH_WINDOW_MS, None, None, now, None,
          map[low := MatchState(false, false), high := MatchState(false, false)])
  }

  predicate MayMatch(db: Db, u: User) {
    u in db.accounts && !db.accounts[u].deleted && !db.accounts[u].banned
  }

  predicate Creatable(db: Db, id: Id, low: User, high: User) {
    && MayMatch(db, low) && MayMatch(db, high) && !db.Blocked(low, high)
    && id !in db.matches && !(exists i | i in db.matches :: Pair(db.matches[i], low, high))
  }

  /** The match that a mutual like makes, of the two users in id order. */
  function Paired(db: Db, op: Op): Db
    requires op.Create?
  {
    var low := if op.first < op.second then op.first else op.second;
    var high := if op.first < op.second then op.second else op.first;
    if op.first != op.second && Creatable(db, op.id, low, high) then db.With(op.id, Fresh(low, high, op.now)) else db
  }

  /** Ending every running match of a pair, or of one user. */
  function EndAll(matches: map<Id, Match>, ends: Match -> bool, purge: Instant, keepPurge: bool): map<Id, Match> {
    map i | i in matches ::
      if ends(matches[i]) && !matches[i].Terminal()
      then matches[i].(status := Ended, purgeAfter := if keepPurge && matches[i].purgeAfter.Some?
                                                      then matches[i].purgeAfter else Some(purge))
      else matches[i]
  }

  predicate Between(m: Match, a: User, b: User) {
    Pair(m, a, b) || Pair(m, b, a)
  }

  function BlockedAfter(db: Db, op: Op): Db
    requires op.Block?
  {
    if op.target !in db.accounts || db.accounts[op.target].deleted then db
    else if (op.user, op.target) !in db.blocks && db.Deleted(op.user) then db  // the trigger aborts the insert
    else db.(blocks := db.blocks + {(op.user, op.target)},
             matches := EndAll(db.matches, (m: Match) => Between(m, op.user, op.target),
                               op.now + ENDED_MATCH_RETENTION_DAYS * DAY, false))
  }

  function WithoutState(m: Match, u: User): Match {
    m.(states := m.states - {u})
  }

  /** The parts of fct_anonymize_user that touch matches, their states and the quota. */
  function AnonymizedAfter(db: Db, op: Op): Db
    requires op.Anonymize? && op.user in db.accounts
  {
    var ended := EndAll(db.matches, (m: Match) => m.Includes(op.user), op.now + 30 * DAY, true);
    db.(matches := (map i | i in ended :: WithoutState(ended[i], op.user)),
        usage := (map k | k in db.usage && k.0 != op.user :: db.usage[k]),
        subscriptions := db.subscriptions - {op.user},
        blocks := (set b | b in db.blocks && b.0 != op.user && b.1 != op.user),
        accounts := db.accounts[op.user := Account(true, false, true)])
  }

  function OpenedAfter(db: Db, id: Id, now: Instant): Db {
    if id in db.matches && db.matches[id].status.Active? && db.matches[id].expiresAt <= now
    then db.With(id, Opened(db.matches[id], now)) else db
  }

  function ExpiredAfter(db: Db, id: Id, now: Instant): Db {
    if id in db.matches && db.matches[id].status.Awaiting? && db.matches[id].expiresAt <= now
    then db.With(id, Lapsed(db.matches[id], now)) else db
  }

  predicate Purgeable(m: Match, now: Instant) {
    m.Terminal() && m.purgeAfter.Some? && m.purgeAfter.value <= now
  }

  function RevealedAfter(db: Db, id: Id, user: User, now: Instant): Db {
    var (a, next) := Access(db, id, user, now);
    if a.Available? && id in next.matches && user in next.matches[id].states then
      var m := next.matches[id];
      next.With(id, m.(states := m.states[user := m.states[user].(revealed := true)]))
    else next
  }

  function MessagedAfter(db: Db, id: Id, user: User, now: Instant): Db {
    var (a, next) := Access(db, id, user, now);
    if a.Available? && id in next.matches then next.With(id, next.matches[id].(lastMessageAt := Some(now))) else next
  }

  /**
   * What the rest of the system grants: match ids are never used twice, deletion and anonymisation are for good, and
   * a plan's limit fits its smallint column.
   */
  predicate Enabled(db: Db, op: Op) {
    match op
    case Create(id, _, _, _) => forall k | 0 <= k < |db.log| :: db.log[k].id != id
    case Purge(id, now) => id in db.matches && Purgeable(db.matches[id], now)
    case Anonymize(user, _) => db.Deleted(user)
    case SetAccount(user, a) =>
      user in db.accounts ==> (db.accounts[user].deleted ==> a.deleted) && db.accounts[user].anonymized == a.anonymized
    case SetPlan(_, limit) => limit.Some? ==> limit.value <= SMALLINT_MAX
    case _ => true
  }

  function Apply(db: Db, op: Op): Db
    requires Enabled(db, op)
  {
    match op
    case Create(_, _, _, _) => Paired(db, op)
    case Reveal(id, user, now) => RevealedAfter(db, id, user, now)
    case Message(id, user, now) => MessagedAfter(db, id, user, now)
    case Continue(id, user, now) => Ask(db, id, user, now).1
    case OpenWindow(id, now) => OpenedAfter(db, id, now)
    case ExpireAwaiting(id, now) => ExpiredAfter(db, id, now)
    case Purge(id, _) => db.(matches := db.matches - {id})
    case Block(_, _, _) => BlockedAfter(db, op)
    case Unblock(user, target) => db.(blocks := db.blocks - {(user, target)})
    case Anonymize(_, _) => AnonymizedAfter(db, op)
    case SetAccount(user, a) => db.(accounts := db.accounts[user := if user in db.accounts then a else a.(anonymized := false)])
    case SetSubscription(user, s) =>
      db.(subscriptions := if s.Some? then db.subscriptions[user := s.value] else db.subscriptions - {user})
    case SetPlan(code, limit) => db.(plans := db.plans[code := limit])
  }

  // ---------------------------------------------------------------- the invariant

  /** A match as every transaction leaves it. */
  predicate Sound(m: Match, gone1: bool, gone2: bool) {
    && m.user1 < m.user2
    && m.states.Keys <= {m.user1, m.user2}
    && (gone1 || m.user1 in m.states) && (gone2 || m.user2 in m.states)
    && (gone1 || gone2 ==> m.Terminal())
    && (m.status.Confirmed? ==> m.Continued() == {m.user1, m.user2})
    && (m.initiator.Some? ==> m.Includes(m.initiator.value))
    && (m.initiator.Some? && m.initiator.value in m.states ==> m.states[m.initiator.value].continued)
    && (m.initiator.None? ==> m.Continued() == {})
  }

  predicate Gone(accounts: map<User, Account>, u: User) {
    u in accounts && accounts[u].anonymized
  }

  predicate SoundIn(matches: map<Id, Match>, accounts: map<User, Account>, i: Id)
    requires i in matches
  {
    Sound(matches[i], Gone(accounts, matches[i].user1), Gone(accounts, matches[i].user2))
  }

  predicate AllSound(matches: map<Id, Match>, accounts: map<User, Account>) {
    forall i | i in matches :: SoundIn(matches, accounts, i)
  }

  predicate Counts(c: Confirmation, u: User, week: Instant) {
    c.initiator == u && c.week == week && c.limit.Some?
  }

  /** Confirmations in one week of matches initiated by one user under a limited plan. */
  function Charged(log: seq<Confirmation>, u: User, week: Instant): nat {
    if log == [] then 0
    else
      var n := |log| - 1;
      Charged(log[..n], u, week) + (if Counts(log[n], u, week) then 1 else 0)
  }

  predicate QuotaKept(db: Db, u: User, week: Instant) {
    if Gone(db.accounts, u) then (u, week) !in db.usage else db.UsedCount(u, week) == Charged(db.log, u, week)
  }

  /** When it was charged, each limited confirmation was within the limit then in force. */
  predicate WithinLimit(log: seq<Confirmation>, k: nat)
    requires k < |log|
  {
    log[k].limit.Some? ==> Charged(log[..k + 1], log[k].initiator, log[k].week) <= log[k].limit.value <= SMALLINT_MAX
  }

  ghost predicate Inv(db: Db) {
    && AllSound(db.matches, db.accounts)
    && (forall u, week :: QuotaKept(db, u, week))
    && (forall k | 0 <= k < |db.log| :: WithinLimit(db.log, k))
    && (forall u | u in db.accounts && db.accounts[u].anonymized :: db.accounts[u].deleted)
    && (forall code | code in db.plans && db.plans[code].Some? :: db.plans[code].value <= SMALLINT_MAX)
  }

  // ---------------------------------------------------------------- every operation keeps it

  lemma SoundWith(matches: map<Id, Match>, accounts: map<User, Account>, id: Id, m: Match)
    requires AllSound(matches, accounts)
    requires Sound(m, Gone(accounts, m.user1), Gone(accounts, m.user2))
    ensures AllSound(matches[id := m], accounts)
  {
    hide Sound, Gone;
    var next := matches[id := m];
    forall i | i in next ensures SoundIn(next, accounts, i) {
      if i != id {
        assert SoundIn(matches, accounts, i);
      }
    }
  }

  lemma OpeningIsSound(m: Match, gone1: bool, gone2: bool, now: Instant)
    requires Sound(m, gone1, gone2)
    ensures Sound(LazilyOpened(m, now), gone1, gone2)
    ensures m.status.Awaiting? ==> Sound(Lapsed(m, now), gone1, gone2)
  {
    var due := LazilyOpened(m, now);
    assert due.Continued() == m.Continued() == Lapsed(m, now).Continued();
  }

  /** The first request of a match leaves exactly its initiator continued. */
  lemma InitiationIsSound(m: Match, gone1: bool, gone2: bool, user: User)
    requires Sound(m, gone1, gone2) && m.status.Awaiting? && m.initiator.None? && user in m.states
    ensures Sound(Initiated(m, user), gone1, gone2)
  {
    assert Initiated(m, user).initiator == Some(user);
  }

  /**
   * The second request of an awaiting match makes both participants continued, so the confirming statement always
   * finds its two rows.
   */
  lemma SecondRequestConfirms(m: Match, gone1: bool, gone2: bool, user: User)
    requires Sound(m, gone1, gone2) && m.status.Awaiting? && m.initiator.Some?
    requires user in m.states && !m.states[user].continued
    ensures Answered(m, user).Continued() == {m.user1, m.user2} && m.user1 != m.user2
    ensures |Answered(m, user).Continued()| == 2
    ensures m.initiator.value != user
    ensures Sound(Answered(m, user).(status := Confirmed, purgeAfter := None), gone1, gone2)
  {
    var both := Answered(m, user);
    assert m.initiator.value in m.states;
    assert both.Continued() == {m.user1, m.user2};
    assert both.(status := Confirmed, purgeAfter := None).Continued() == both.Continued();
  }

  lemma OtherUpdatesAreSound(m: Match, gone1: bool, gone2: bool, user: User, now: Instant)
    requires Sound(m, gone1, gone2)
    ensures Sound(m.(lastMessageAt := Some(now)), gone1, gone2)
    ensures user in m.states ==> Sound(m.(states := m.states[user := m.states[user].(revealed := true)]), gone1, gone2)
  {
    assert m.(lastMessageAt := Some(now)).Continued() == m.Continued();
    if user in m.states {
      var shown := m.(states := m.states[user := m.states[user].(revealed := true)]);
      assert shown.Continued() == m.Continued();
    }
  }

  lemma AccessIsSound(db: Db, id: Id, user: User, now: Instant)
    requires AllSound(db.matches, db.accounts)
    ensures AllSound(Access(db, id, user, now).1.matches, db.accounts)
    ensures Access(db, id, user, now).1 == db.(matches := Access(db, id, user, now).1.matches)
  {
    hide Sound, Gone;
    if id in db.matches {
      var m := db.matches[id];
      var g1, g2 := Gone(db.accounts, m.user1), Gone(db.accounts, m.user2);
      assert SoundIn(db.matches, db.accounts, id);
      OpeningIsSound(m, g1, g2, now);
      OpeningIsSound(LazilyOpened(m, now), g1, g2, now);
      SoundWith(db.matches, db.accounts, id, LazilyOpened(m, now));
      if LazilyOpened(m, now).status.Awaiting? {
        SoundWith(db.matches, db.accounts, id, Lapsed(LazilyOpened(m, now), now));
      }
    }
  }

  lemma RevealIsSound(db: Db, id: Id, user: User, now: Instant)
    requires AllSound(db.matches, db.accounts)
    ensures AllSound(RevealedAfter(db, id, user, now).matches, db.accounts)
    ensures RevealedAfter(db, id, user, now) == db.(matches := RevealedAfter(db, id, user, now).matches)
  {
    hide Sound, Gone, Access;
    AccessIsSound(db, id, user, now);
    var next := Access(db, id, user, now).1;
    if id in next.matches {
      var m := next.matches[id];
      assert SoundIn(next.matches, db.accounts, id);
      OtherUpdatesAreSound(m, Gone(db.accounts, m.user1), Gone(db.accounts, m.user2), user, now);
      if user in m.states {
        SoundWith(next.matches, db.accounts, id, m.(states := m.states[user := m.states[user].(revealed := true)]));
      }
    }
  }

  lemma MessageIsSound(db: Db, id: Id, user: User, now: Instant)
    requires AllSound(db.matches, db.accounts)
    ensures AllSound(MessagedAfter(db, id, user, now).matches, db.accounts)
    ensures MessagedAfter(db, id, user, now) == db.(matches := MessagedAfter(db, id, user, now).matches)
  {
    hide Sound, Gone, Access;
    AccessIsSound(db, id, user, now);
    var next := Access(db, id, user, now).1;
    if id in next.matches {
      var m := next.matches[id];
      assert SoundIn(next.matches, db.accounts, id);
      OtherUpdatesAreSound(m, Gone(db.accounts, m.user1), Gone(db.accounts, m.user2), user, now);
      SoundWith(next.matches, db.accounts, id, m.(lastMessageAt := Some(now)));
    }
  }

  lemma CreateIsSound(db: Db, op: Op)
    requires op.Create? && AllSound(db.matches, db.accounts)
    requires forall u | u in db.accounts && db.accounts[u].anonymized :: db.accounts[u].deleted
    ensures AllSound(Paired(db, op).matches, db.accounts)
    ensures Paired(db, op) == db.(matches := Paired(db, op).matches)
  {
    var low := if op.first < op.second then op.first else op.second;
    var high := if op.first < op.second then op.second else op.first;
    if op.first != op.second && Creatable(db, op.id, low, high) {
      var m := Fresh(low, high, op.now);
      assert m.Continued() == {};
      SoundWith(db.matches, db.accounts, op.id, m);
    }
  }

  lemma EndingIsSound(m: Match, gone1: bool, gone2: bool, purge: Option<Instant>)
    requires Sound(m, gone1, gone2)
    ensures Sound(m.(status := Ended, purgeAfter := purge), gone1, gone2)
  {
    assert m.(status := Ended, purgeAfter := purge).Continued() == m.Continued();
  }

  lemma EndAllIsSound(matches: map<Id, Match>, accounts: map<User, Account>, ends: Match -> bool, purge: Instant,
      keep: bool)
    requires AllSound(matches, accounts)
    ensures AllSound(EndAll(matches, ends, purge, keep), accounts)
  {
    hide Sound, Gone;
    var next := EndAll(matches, ends, purge, keep);
    forall i | i in next ensures SoundIn(next, accounts, i) {
      assert SoundIn(matches, accounts, i);
      EndingIsSound(matches[i], Gone(accounts, matches[i].user1), Gone(accounts, matches[i].user2), next[i].purgeAfter);
    }
  }

  lemma RemovedStateIsSound(m: Match, gone1: bool, gone2: bool, u: User)
    requires Sound(m, gone1, gone2) && (m.Includes(u) ==> m.Terminal())
    ensures Sound(WithoutState(m, u), gone1 || m.user1 == u, gone2 || m.user2 == u)
  {
    var less := WithoutState(m, u);
    assert less.Continued() == m.Continued() - {u};
    assert !m.Includes(u) ==> less.states == m.states;
  }

  lemma AnonymizeIsSound(db: Db, op: Op)
    requires op.Anonymize? && op.user in db.accounts && AllSound(db.matches, db.accounts)
    ensures AllSound(AnonymizedAfter(db, op).matches, AnonymizedAfter(db, op).accounts)
  {
    hide Sound;
    var ends := (m: Match) => m.Includes(op.user);
    var ended := EndAll(db.matches, ends, op.now + 30 * DAY, true);
    EndAllIsSound(db.matches, db.accounts, ends, op.now + 30 * DAY, true);
    var next := AnonymizedAfter(db, op);
    forall i | i in next.matches ensures SoundIn(next.matches, next.accounts, i) {
      assert SoundIn(ended, db.accounts, i);
      var m := ended[i];
      assert m.Includes(op.user) ==> m.Terminal();
      RemovedStateIsSound(m, Gone(db.accounts, m.user1), Gone(db.accounts, m.user2), op.user);
      assert next.matches[i] == WithoutState(m, op.user);
    }
  }

  /** Anything that leaves accounts, usage and log alone keeps the quota. */
  lemma QuotaUntouched(db: Db, next: Db)
    requires Inv(db) && next.usage == db.usage && next.log == db.log && next.accounts == db.accounts
    ensures forall u, week :: QuotaKept(next, u, week)
    ensures forall k | 0 <= k < |next.log| :: WithinLimit(next.log, k)
  {
    hide WithinLimit, AllSound;
    forall u, week ensures QuotaKept(next, u, week) {
      assert QuotaKept(db, u, week);
    }
  }

  lemma MatchesChangeKeepsInv(db: Db, matches: map<Id, Match>)
    requires Inv(db) && AllSound(matches, db.accounts)
    ensures Inv(db.(matches := matches))
  {
    QuotaUntouched(db, db.(matches := matches));
  }

  lemma {:induction false} OneMoreCharge(log: seq<Confirmation>, c: Confirmation, u: User, week: Instant)
    ensures Charged(log + [c], u, week) == Charged(log, u, week) + (if Counts(c, u, week) then 1 else 0)
  {
    assert (log + [c])[..|log|] == log;
  }

  /** A charge moves one counter and one count together, and stays within the limit in force. */
  lemma ChargeKeepsQuota(db: Db, next: Db, c: Confirmation)
    requires Inv(db) && next.accounts == db.accounts && next.log == db.log + [c]
    requires !Gone(db.accounts, c.initiator)
    requires c.limit.None? ==> next.usage == db.usage
    requires c.limit.Some? ==>
      db.UsedCount(c.initiator, c.week) < c.limit.value <= SMALLINT_MAX
      && next.usage == db.usage[(c.initiator, c.week) := db.UsedCount(c.initiator, c.week) + 1]
    ensures forall u, week :: QuotaKept(next, u, week)
    ensures forall k | 0 <= k < |next.log| :: WithinLimit(next.log, k)
  {
    hide AllSound;
    forall u, week ensures QuotaKept(next, u, week) {
      assert QuotaKept(db, u, week);
      OneMoreCharge(db.log, c, u, week);
    }
    forall k | 0 <= k < |next.log| ensures WithinLimit(next.log, k) {
      if k < |db.log| {
        assert WithinLimit(db.log, k);
        assert next.log[..k + 1] == db.log[..k + 1];
      } else {
        assert QuotaKept(db, c.initiator, c.week);
        OneMoreCharge(db.log, c, c.initiator, c.week);
        assert next.log[..k + 1] == next.log;
      }
    }
  }

  lemma PlanLimitFits(db: Db, u: User, now: Instant)
    requires Inv(db) && EffectivePlan(db.plans, db.subscriptions, u, now).Some?
    ensures var limit := EffectivePlan(db.plans, db.subscriptions, u, now).value; limit.Some? ==> limit.value <= SMALLINT_MAX
  {
  }

  lemma SettleKeepsInv(db: Db, id: Id, m: Match, user: User, now: Instant)
    requires Inv(db) && Sound(m, Gone(db.accounts, m.user1), Gone(db.accounts, m.user2)) && m.status.Awaiting?
    requires m.initiator.Some? && user in m.states && !m.states[user].continued
    ensures Inv(Settle(db, id, m, user, now).1)
    ensures !Settle(db, id, m, user, now).0.Invalid?
  {
    var g1, g2 := Gone(db.accounts, m.user1), Gone(db.accounts, m.user2);
    SecondRequestConfirms(m, g1, g2, user);
    SoundWith(db.matches, db.accounts, id, m);
    MatchesChangeKeepsInv(db, db.matches[id := m]);
    var plan := EffectivePlan(db.plans, db.subscriptions, m.initiator.value, now);
    if plan.Some? {
      PlanLimitFits(db, m.initiator.value, now);
      var next := Settle(db, id, m, user, now).1;
      if Settle(db, id, m, user, now).0.BothAgreed? {
        SoundWith(db.matches, db.accounts, id, Answered(m, user).(status := Confirmed, purgeAfter := None));
        assert !Gone(db.accounts, m.initiator.value);
        ChargeKeepsQuota(db, next, Confirmation(id, m.initiator.value, StartOfUtcWeek(now), plan.value));
      }
    }
  }

  lemma AskKeepsInv(db: Db, id: Id, user: User, now: Instant)
    requires Inv(db)
    ensures Inv(Ask(db, id, user, now).1)
  {
    hide Inv, Sound, Settle, AllSound;
    if id in db.matches {
      var m := db.matches[id];
      InvGivesSound(db, id);
      var g1, g2 := Gone(db.accounts, m.user1), Gone(db.accounts, m.user2);
      OpeningIsSound(m, g1, g2, now);
      var due := LazilyOpened(m, now);
      OpeningIsSound(due, g1, g2, now);
      MatchChangeKeepsInv(db, id, due);
      if due.status.Awaiting? {
        MatchChangeKeepsInv(db, id, Lapsed(due, now));
        if user in due.states {
          if due.initiator.None? {
            InitiationIsSound(due, g1, g2, user);
            MatchChangeKeepsInv(db, id, Initiated(due, user));
          } else if !due.states[user].continued {
            SettleKeepsInv(db, id, due, user, now);
          }
        }
      }
    }
  }

  lemma InvGivesSound(db: Db, id: Id)
    requires Inv(db) && id in db.matches
    ensures SoundIn(db.matches, db.accounts, id)
  {
  }

  lemma MatchChangeKeepsInv(db: Db, id: Id, m: Match)
    requires Inv(db) && Sound(m, Gone(db.accounts, m.user1), Gone(db.accounts, m.user2))
    ensures Inv(db.With(id, m))
  {
    hide Sound;
    SoundWith(db.matches, db.accounts, id, m);
    MatchesChangeKeepsInv(db, db.matches[id := m]);
  }

  /** The `invalid_state` at the end of a continuation request is never reached: it is answered only before the window. */
  lemma InvalidOnlyOutsideTheWindow(db: Db, id: Id, user: User, now: Instant)
    requires Inv(db)
    ensures Ask(db, id, user, now).0.Invalid? <==>
      id in db.matches && db.matches[id].Includes(user) && (db.matches[id].status.Confirmed? || db.matches[id].Terminal())
    ensures Ask(db, id, user, now).0.Invalid? ==> Ask(db, id, user, now).1 == db
  {
    hide Inv, Sound, Settle, AllSound;
    if id in db.matches {
      var m := db.matches[id];
      InvGivesSound(db, id);
      var g1, g2 := Gone(db.accounts, m.user1), Gone(db.accounts, m.user2);
      OpeningIsSound(m, g1, g2, now);
      var due := LazilyOpened(m, now);
      if due.status.Awaiting? && user in due.states && due.initiator.Some? && !due.states[user].continued {
        SettleKeepsInv(db, id, due, user, now);
      }
    }
  }

  lemma AnonymizeKeepsInv(db: Db, op: Op)
    requires Inv(db) && op.Anonymize? && db.Deleted(op.user)
    ensures Inv(AnonymizedAfter(db, op))
  {
    AnonymizeIsSound(db, op);
    var next := AnonymizedAfter(db, op);
    hide AllSound, WithinLimit;
    forall u, week ensures QuotaKept(next, u, week) {
      assert QuotaKept(db, u, week);
    }
  }

  lemma AccountChangeKeepsInv(db: Db, op: Op)
    requires Inv(db) && op.SetAccount? && Enabled(db, op)
    ensures Inv(Apply(db, op))
  {
    var next := Apply(db, op);
    assert forall u :: Gone(next.accounts, u) == Gone(db.accounts, u);
    hide Sound, WithinLimit, Gone;
    forall i | i in next.matches ensures SoundIn(next.matches, next.accounts, i) {
      assert SoundIn(db.matches, db.accounts, i);
    }
    forall u, week ensures QuotaKept(next, u, week) {
      assert QuotaKept(db, u, week);
    }
  }

  lemma WindowKeepsInv(db: Db, id: Id, now: Instant)
    requires Inv(db)
    ensures Inv(OpenedAfter(db, id, now)) && Inv(ExpiredAfter(db, id, now))
  {
    hide Inv, Sound, AllSound;
    if id in db.matches {
      var m := db.matches[id];
      InvGivesSound(db, id);
      OpeningIsSound(m, Gone(db.accounts, m.user1), Gone(db.accounts, m.user2), now);
      MatchChangeKeepsInv(db, id, LazilyOpened(m, now));
      if m.status.Awaiting? {
        MatchChangeKeepsInv(db, id, Lapsed(m, now));
      }
    }
  }

  lemma BlockKeepsInv(db: Db, op: Op)
    requires Inv(db) && op.Block?
    ensures Inv(BlockedAfter(db, op))
  {
    var ends := (m: Match) => Between(m, op.user, op.target);
    var purge := op.now + ENDED_MATCH_RETENTION_DAYS * DAY;
    EndAllIsSound(db.matches, db.accounts, ends, purge, false);
    hide AllSound;
    QuotaUntouched(db, BlockedAfter(db, op));
  }

  lemma PurgeKeepsInv(db: Db, id: Id)
    requires Inv(db)
    ensures Inv(db.(matches := db.matches - {id}))
  {
    hide Sound, Gone;
    var rest := db.matches - {id};
    forall i | i in rest ensures SoundIn(rest, db.accounts, i) {
      assert SoundIn(db.matches, db.accounts, i);
    }
    MatchesChangeKeepsInv(db, rest);
  }

  lemma CreateKeepsInv(db: Db, op: Op)
    requires Inv(db) && op.Create?
    ensures Inv(Paired(db, op))
  {
    CreateIsSound(db, op);
    MatchesChangeKeepsInv(db, Paired(db, op).matches);
  }

  lemma MessagingKeepsInv(db: Db, id: Id, user: User, now: Instant)
    requires Inv(db)
    ensures Inv(Access(db, id, user, now).1)
    ensures Inv(RevealedAfter(db, id, user, now)) && Inv(MessagedAfter(db, id, user, now))
  {
    AccessIsSound(db, id, user, now);
    RevealIsSound(db, id, user, now);
    MessageIsSound(db, id, user, now);
    hide Access, RevealedAfter, MessagedAfter, Inv;
    MatchesChangeKeepsInv(db, Access(db, id, user, now).1.matches);
    MatchesChangeKeepsInv(db, RevealedAfter(db, id, user, now).matches);
    MatchesChangeKeepsInv(db, MessagedAfter(db, id, user, now).matches);
  }

  lemma SettingsKeepInv(db: Db, op: Op)
    requires Inv(db) && (op.SetPlan? || op.SetSubscription? || op.Unblock?) && Enabled(db, op)
    ensures Inv(Apply(db, op))
  {
    hide AllSound, WithinLimit;
    QuotaUntouched(db, Apply(db, op));
  }

  lemma StepKeepsInv(db: Db, op: Op)
    requires Inv(db) && Enabled(db, op)
    ensures Inv(Apply(db, op))
  {
    match op {
      case Create(_, _, _, _) => CreateKeepsInv(db, op);
      case Reveal(id, user, now) => MessagingKeepsInv(db, id, user, now);
      case Message(id, user, now) => MessagingKeepsInv(db, id, user, now);
      case Continue(id, user, now) => AskKeepsInv(db, id, user, now);
      case OpenWindow(id, now) => WindowKeepsInv(db, id, now);
      case ExpireAwaiting(id, now) => WindowKeepsInv(db, id, now);
      case Purge(id, _) => PurgeKeepsInv(db, id);
      case Block(_, _, _) => BlockKeepsInv(db, op);
      case Unblock(_, _) => SettingsKeepInv(db, op);
      case Anonymize(_, _) => AnonymizeKeepsInv(db, op);
      case SetAccount(_, _) => AccountChangeKeepsInv(db, op);
      case SetSubscription(_, _) => SettingsKeepInv(db, op);
      case SetPlan(_, _) => SettingsKeepInv(db, op);
    }
  }

  // ---------------------------------------------------------------- matches only move forward

  /** What no operation takes back about a match that stays in the table. */
  predicate Forward(a: Match, b: Match) {
    && b.user1 == a.user1 && b.user2 == a.user2 && b.createdAt == a.createdAt
    && Stage(a.status) <= Stage(b.status)
    && (Stage(a.status) == Stage(b.status) ==> a.status == b.status)
    && (a.Terminal() ==> b.status == a.status)
    && (a.initiator.Some? ==> b.initiator == a.initiator)
    && (forall u | u in a.states && u in b.states :: StillSaid(a.states[u], b.states[u]))
  }

  predicate StillSaid(a: MatchState, b: MatchState) {
    (a.revealed ==> b.revealed) && (a.continued ==> b.continued)
  }

  lemma SameIsForward(m: Match)
    ensures Forward(m, m)
  {
  }

  lemma ProgressIsForward(m: Match, user: User, now: Instant)
    ensures Forward(m, LazilyOpened(m, now))
    ensures var due := LazilyOpened(m, now);
      due.status.Awaiting? ==> Forward(m, Lapsed(due, now))
    ensures var due := LazilyOpened(m, now);
      due.status.Awaiting? && user in due.states ==>
        && (due.initiator.None? ==> Forward(m, Initiated(due, user)))
        && Forward(m, Answered(due, user))
        && Forward(m, Answered(due, user).(status := Confirmed, purgeAfter := None))
  {
  }

  lemma AccessIsForward(db: Db, id: Id, user: User, now: Instant, i: Id)
    requires i in db.matches
    ensures i in Access(db, id, user, now).1.matches
    ensures Forward(db.matches[i], Access(db, id, user, now).1.matches[i])
  {
    SameIsForward(db.matches[i]);
    ProgressIsForward(db.matches[i], user, now);
    hide Forward, LazilyOpened, Lapsed;
  }

  lemma ForwardTwice(a: Match, b: Match, c: Match)
    requires Forward(a, b) && Forward(b, c) && a.states.Keys <= b.states.Keys
    ensures Forward(a, c)
  {
    hide StillSaid;
    forall u | u in a.states && u in c.states ensures StillSaid(a.states[u], c.states[u]) {
      assert StillSaid(a.states[u], b.states[u]) && StillSaid(b.states[u], c.states[u]);
      SaidTwice(a.states[u], b.states[u], c.states[u]);
    }
  }

  lemma SaidTwice(a: MatchState, b: MatchState, c: MatchState)
    requires StillSaid(a, b) && StillSaid(b, c)
    ensures StillSaid(a, c)
  {
  }

  lemma MessagingIsForward(db: Db, id: Id, user: User, now: Instant, i: Id)
    requires i in db.matches
    ensures i in RevealedAfter(db, id, user, now).matches && i in MessagedAfter(db, id, user, now).matches
    ensures Forward(db.matches[i], RevealedAfter(db, id, user, now).matches[i])
    ensures Forward(db.matches[i], MessagedAfter(db, id, user, now).matches[i])
  {
    AccessIsForward(db, id, user, now, i);
    AccessKeepsStates(db, id, user, now, i);
    var mid := Access(db, id, user, now).1.matches[i];
    ForwardTwice(db.matches[i], mid, RevealedAfter(db, id, user, now).matches[i]);
    ForwardTwice(db.matches[i], mid, MessagedAfter(db, id, user, now).matches[i]);
  }

  lemma AccessKeepsStates(db: Db, id: Id, user: User, now: Instant, i: Id)
    requires i in db.matches
    ensures i in Access(db, id, user, now).1.matches
    ensures Access(db, id, user, now).1.matches[i].states == db.matches[i].states
  {
  }

  lemma SettleIsForward(db: Db, id: Id, m: Match, user: User, now: Instant, i: Id)
    requires m.initiator.Some? && user in m.states && id in db.matches && i in db.matches
    requires Forward(db.matches[i], db.matches[i]) && Forward(db.matches[id], m)
    requires Forward(db.matches[id], Answered(m, user))
    requires Forward(db.matches[id], Answered(m, user).(status := Confirmed, purgeAfter := None))
    ensures i in Settle(db, id, m, user, now).1.matches
    ensures Forward(db.matches[i], Settle(db, id, m, user, now).1.matches[i])
  {
    hide Forward, Answered, EffectivePlan, StartOfUtcWeek;
  }

  lemma AskIsForward(db: Db, id: Id, user: User, now: Instant, i: Id)
    requires i in db.matches
    ensures i in Ask(db, id, user, now).1.matches
    ensures Forward(db.matches[i], Ask(db, id, user, now).1.matches[i])
  {
    SameIsForward(db.matches[i]);
    if id in db.matches {
      ProgressIsForward(db.matches[id], user, now);
      var due := LazilyOpened(db.matches[id], now);
      if due.status.Awaiting? && due.initiator.Some? && user in due.states {
        SettleIsForward(db, id, due, user, now, i);
      }
    }
    hide Forward, Settle, LazilyOpened, Lapsed, Initiated, Answered;
  }

  lemma SettleAddsNone(db: Db, id: Id, m: Match, user: User, now: Instant)
    requires m.initiator.Some? && user in m.states && id in db.matches
    ensures Settle(db, id, m, user, now).1.matches.Keys == db.matches.Keys
  {
    hide Answered, EffectivePlan, StartOfUtcWeek;
  }

  lemma AskAddsNone(db: Db, id: Id, user: User, now: Instant)
    ensures Ask(db, id, user, now).1.matches.Keys == db.matches.Keys
  {
    if id in db.matches {
      var due := LazilyOpened(db.matches[id], now);
      if due.initiator.Some? && user in due.states {
        SettleAddsNone(db, id, due, user, now);
      }
    }
    hide Settle, LazilyOpened, Lapsed, Initiated, Answered;
  }

  lemma AccessAddsNone(db: Db, id: Id, user: User, now: Instant)
    ensures Access(db, id, user, now).1.matches.Keys == db.matches.Keys
  {
    hide LazilyOpened, Lapsed;
  }

  lemma MessagingAddsNone(db: Db, id: Id, user: User, now: Instant)
    ensures RevealedAfter(db, id, user, now).matches.Keys == db.matches.Keys
    ensures MessagedAfter(db, id, user, now).matches.Keys == db.matches.Keys
  {
    AccessAddsNone(db, id, user, now);
    hide Access;
  }

  lemma AnonymizeIsForward(db: Db, op: Op, i: Id)
    requires op.Anonymize? && op.user in db.accounts && i in db.matches
    ensures i in AnonymizedAfter(db, op).matches
    ensures Forward(db.matches[i], AnonymizedAfter(db, op).matches[i])
  {
  }

  /** One transaction never moves a match back, un-reveals, un-continues, or changes who asked first. */
  lemma StepIsForward(db: Db, op: Op, i: Id)
    requires Enabled(db, op) && i in db.matches && i in Apply(db, op).matches
    ensures Forward(db.matches[i], Apply(db, op).matches[i])
  {
    hide Access, Ask, AnonymizedAfter, RevealedAfter, MessagedAfter, Forward;
    match op {
      case Reveal(id, user, now) => MessagingIsForward(db, id, user, now, i);
      case Message(id, user, now) => MessagingIsForward(db, id, user, now, i);
      case Continue(id, user, now) => AskIsForward(db, id, user, now, i);
      case Anonymize(_, _) => AnonymizeIsForward(db, op, i);
      case _ => OtherIsForward(db, op, i);
    }
  }

  lemma OtherIsForward(db: Db, op: Op, i: Id)
    requires !op.Reveal? && !op.Message? && !op.Continue? && !op.Anonymize?
    requires Enabled(db, op) && i in db.matches && i in Apply(db, op).matches
    ensures Forward(db.matches[i], Apply(db, op).matches[i])
  {
    var m := db.matches[i];
    SameIsForward(m);
    if op.OpenWindow? || op.ExpireAwaiting? {
      ProgressIsForward(m, 0, op.now);
      WindowSteps(m, op.now);
    }
    if op.Block? {
      EndedIsForward(m, Some(op.now + ENDED_MATCH_RETENTION_DAYS * DAY));
    }
    hide Forward, Opened, Lapsed, Ask, Access, AnonymizedAfter, RevealedAfter, MessagedAfter, Between;
  }

  lemma WindowSteps(m: Match, now: Instant)
    ensures m.status.Active? && m.expiresAt <= now ==> Opened(m, now) == LazilyOpened(m, now)
    ensures m.status.Awaiting? ==> LazilyOpened(m, now) == m
  {
  }

  lemma EndedIsForward(m: Match, purge: Option<Instant>)
    ensures !m.Terminal() ==> Forward(m, m.(status := Ended, purgeAfter := purge))
  {
  }

  // ---------------------------------------------------------------- whole runs

  const EMPTY := Db(map[], map[], {}, map[], map[], map[], [])

  ghost predicate Run(states: seq<Db>, ops: seq<Op>) {
    && |states| == |ops| + 1 && states[0] == EMPTY
    && forall k | 0 <= k < |ops| :: Step(states[k], ops[k], states[k + 1])
  }

  ghost predicate Step(db: Db, op: Op, next: Db) {
    Enabled(db, op) && next == Apply(db, op)
  }

  lemma {:induction false} RunKeepsInv(states: seq<Db>, ops: seq<Op>, n: nat)
    requires Run(states, ops) && n < |states|
    ensures Inv(states[n])
  {
    hide Apply, Enabled;
    if n > 0 {
      RunKeepsInv(states, ops, n - 1);
      assert Step(states[n - 1], ops[n - 1], states[n]);
      StepKeepsInv(states[n - 1], ops[n - 1]);
    } else {
      EmptyInv();
    }
  }

  lemma EmptyInv()
    ensures Inv(EMPTY)
  {
  }

  /** A confirmed match has exactly two participants, different ones, and both asked to continue. */
  lemma ConfirmedMeansBothContinued(states: seq<Db>, ops: seq<Op>, n: nat, id: Id)
    requires Run(states, ops) && n < |states| && id in states[n].matches && states[n].matches[id].status.Confirmed?
    ensures var m := states[n].matches[id];
      m.user1 != m.user2 && m.states.Keys == {m.user1, m.user2} && m.states[m.user1].continued && m.states[m.user2].continued
  {
    RunKeepsInv(states, ops, n);
    InvGivesSound(states[n], id);
    var m := states[n].matches[id];
    assert m.user1 in m.Continued() && m.user2 in m.Continued();
  }

  /** Conservation: a user's count for a week is the number of confirmations that week, under a limited plan, that the user initiated. */
  lemma UsageIsConfirmations(states: seq<Db>, ops: seq<Op>, n: nat, u: User, week: Instant)
    requires Run(states, ops) && n < |states| && !Gone(states[n].accounts, u)
    ensures states[n].UsedCount(u, week) == Charged(states[n].log, u, week)
  {
    RunKeepsInv(states, ops, n);
    assert QuotaKept(states[n], u, week);
  }

  /** Every charge was within the limit in force when it was made. */
  lemma ChargesWithinLimit(states: seq<Db>, ops: seq<Op>, n: nat, k: nat)
    requires Run(states, ops) && n < |states| && k < |states[n].log| && states[n].log[k].limit.Some?
    ensures var c := states[n].log[k]; Charged(states[n].log[..k + 1], c.initiator, c.week) <= c.limit.value
  {
    RunKeepsInv(states, ops, n);
    assert WithinLimit(states[n].log, k);
  }

  /** So a user whose limit never exceeded some number has not confirmed more matches than that in any week. */
  lemma ConfirmationsBounded(states: seq<Db>, ops: seq<Op>, n: nat, u: User, week: Instant, most: nat)
    requires Run(states, ops) && n < |states|
    requires forall k | 0 <= k < |states[n].log| && Counts(states[n].log[k], u, week) ::
               states[n].log[k].limit.value <= most
    ensures Charged(states[n].log, u, week) <= most
    ensures !Gone(states[n].accounts, u) ==> states[n].UsedCount(u, week) <= most
  {
    RunKeepsInv(states, ops, n);
    LogBounded(states[n].log, u, week, most);
    if !Gone(states[n].accounts, u) {
      UsageIsConfirmations(states, ops, n, u, week);
    }
  }

  lemma {:induction false} LogBounded(log: seq<Confirmation>, u: User, week: Instant, most: nat)
    requires forall k | 0 <= k < |log| :: WithinLimit(log, k)
    requires forall k | 0 <= k < |log| && Counts(log[k], u, week) :: log[k].limit.value <= most
    ensures Charged(log, u, week) <= most
  {
    if log != [] {
      var n := |log| - 1;
      assert WithinLimit(log, n) && log[..n + 1] == log;
      if !Counts(log[n], u, week) {
        forall k | 0 <= k < n ensures WithinLimit(log[..n], k) {
          assert WithinLimit(log, k) && log[..n][..k + 1] == log[..k + 1];
        }
        LogBounded(log[..n], u, week, most);
      }
    }
  }

  lemma {:induction false} RunIsForward(states: seq<Db>, ops: seq<Op>, m: nat, n: nat, id: Id)
    requires Run(states, ops) && m <= n < |states|
    requires forall k | m <= k <= n :: id in states[k].matches
    ensures Stage(states[m].matches[id].status) <= Stage(states[n].matches[id].status)
    ensures states[m].matches[id].Terminal() ==> states[n].matches[id].status == states[m].matches[id].status
    ensures states[m].matches[id].initiator.Some? ==> states[n].matches[id].initiator == states[m].matches[id].initiator
    decreases n - m
  {
    hide Apply, Enabled;
    if m < n {
      RunIsForward(states, ops, m, n - 1, id);
      assert id in states[n].matches && Step(states[n - 1], ops[n - 1], states[n]);
      StepIsForward(states[n - 1], ops[n - 1], id);
    }
  }

  // ---------------------------------------------------------------- a match is confirmed once

  predicate Concluded(matches: map<Id, Match>, id: Id) {
    id in matches ==> matches[id].status.Confirmed? || matches[id].status.Ended?
  }

  predicate LogSound(db: Db) {
    && (forall j, k | 0 <= j < k < |db.log| :: db.log[j].id != db.log[k].id)
    && (forall k | 0 <= k < |db.log| :: Concluded(db.matches, db.log[k].id))
  }

  lemma OnlyAskLogs(db: Db, op: Op)
    requires Enabled(db, op) && !op.Continue?
    ensures Apply(db, op).log == db.log
  {
    hide EndAll, LazilyOpened, Lapsed, Creatable, Fresh, Ask;
    if op.Reveal? || op.Message? {
      MessagingKeepsLog(db, op.id, op.user, op.now);
      hide Access, RevealedAfter, MessagedAfter;
    }
  }

  lemma MessagingKeepsLog(db: Db, id: Id, user: User, now: Instant)
    ensures RevealedAfter(db, id, user, now).log == db.log && MessagedAfter(db, id, user, now).log == db.log
  {
    AccessKeepsLog(db, id, user, now);
    hide Access;
  }

  lemma AccessKeepsLog(db: Db, id: Id, user: User, now: Instant)
    ensures Access(db, id, user, now).1 == db.(matches := Access(db, id, user, now).1.matches)
  {
  }

  lemma AskLog(db: Db, id: Id, user: User, now: Instant)
    ensures var (r, next) := Ask(db, id, user, now);
      && (!r.BothAgreed? ==> next.log == db.log)
      && (!r.BothAgreed? && !r.Invalid? ==> next.usage == db.usage)
    ensures var (r, next) := Ask(db, id, user, now);
      r.BothAgreed? ==>
        && |next.log| == |db.log| + 1 && next.log[..|db.log|] == db.log && next.log[|db.log|].id == id
        && id in db.matches && (db.matches[id].status.Active? || db.matches[id].status.Awaiting?)
        && id in next.matches && next.matches[id].status.Confirmed?
  {
  }

  predicate AnswerShows(r: Consent, next: Db, m: Match, id: Id, user: User) {
    match r
    case Pending => m.initiator == Some(user) && m.status.Awaiting? && m.Continued() == {user}
    case TooLate => m.status.Expired?
    case NotAvailableYet => m.status.Active?
    case BothAgreed =>
      m.status.Confirmed? && next.log != [] && next.log[|next.log| - 1].id == id
      && m.initiator == Some(next.log[|next.log| - 1].initiator)
    case _ => true
  }

  lemma SettleCases(db: Db, id: Id, m: Match, user: User, now: Instant)
    requires m.initiator.Some? && user in m.states
    ensures var who, week := m.initiator.value, StartOfUtcWeek(now);
      var plan := EffectivePlan(db.plans, db.subscriptions, who, now);
      var full := plan.Some? && plan.value.Some? && db.UsedCount(who, week) >= plan.value.value;
      && (plan.None? ==> Settle(db, id, m, user, now) == (PlanMissing, db))
      && (full ==> Settle(db, id, m, user, now) == (QuotaReached, db.With(id, m)))
      && (plan.Some? && !full && !db.Live(m) ==> Settle(db, id, m, user, now) == (Unavailable, db))
    ensures var who, week := m.initiator.value, StartOfUtcWeek(now);
      var plan := EffectivePlan(db.plans, db.subscriptions, who, now);
      plan.Some? && !(plan.value.Some? && db.UsedCount(who, week) >= plan.value.value) && db.Live(m)
        && |Answered(m, user).Continued()| == 2
      ==> Settle(db, id, m, user, now) == (BothAgreed, Agreed(db, id, m, user, week, plan.value))
  {
    hide EffectivePlan, StartOfUtcWeek;
  }

  function Agreed(db: Db, id: Id, m: Match, user: User, week: Instant, limit: Option<nat>): Db
    requires m.initiator.Some? && user in m.states
  {
    var who := m.initiator.value;
    db.With(id, Answered(m, user).(status := Confirmed, purgeAfter := None))
      .(usage := if limit.Some? then db.usage[(who, week) := db.UsedCount(who, week) + 1] else db.usage,
        log := db.log + [Confirmation(id, who, week, limit)])
  }

  /**
   * What the answer to a continuation request tells its caller: a request that throws or is refused outside the
   * window changes nothing, only a confirmation is charged or recorded, and the first request makes its initiator.
   */
  lemma ConsentMeaning(db: Db, id: Id, user: User, now: Instant)
    requires Inv(db)
    ensures var (r, next) := Ask(db, id, user, now);
      && (r.BothAgreed? <==> next.log != db.log)
      && (!r.BothAgreed? ==> next.usage == db.usage)
      && (r.Throws() || r.Invalid? || r.NotAvailableYet? ==> next == db)
    ensures id in db.matches ==> id in Ask(db, id, user, now).1.matches
    ensures id in db.matches ==> var (r, next) := Ask(db, id, user, now); AnswerShows(r, next, next.matches[id], id, user)
  {
    AskLog(db, id, user, now);
    InvalidOnlyOutsideTheWindow(db, id, user, now);
    AnswerIsShown(db, id, user, now);
    hide Inv, Sound, Settle, Initiated, Gone, AnswerShows;
  }

  lemma AnswerIsShown(db: Db, id: Id, user: User, now: Instant)
    requires Inv(db)
    ensures id in db.matches ==> id in Ask(db, id, user, now).1.matches
    ensures id in db.matches ==> var (r, next) := Ask(db, id, user, now); AnswerShows(r, next, next.matches[id], id, user)
  {
    AskAddsNone(db, id, user, now);
    if id in db.matches {
      var r := Ask(db, id, user, now).0;
      if r.Pending? {
        PendingShows(db, id, user, now);
      } else if r.BothAgreed? || r.TooLate? {
        LastAnswerShows(db, id, user, now);
      } else if r.NotAvailableYet? {
        EarlyShows(db, id, user, now);
      }
      hide Ask, Inv;
    }
  }

  lemma PendingShows(db: Db, id: Id, user: User, now: Instant)
    requires Inv(db) && id in db.matches && Ask(db, id, user, now).0.Pending?
    ensures var next := Ask(db, id, user, now).1;
      id in next.matches && AnswerShows(Pending, next, next.matches[id], id, user)
  {
    AnswersGiven(db, id, user, now);
    AnswersStored(db, id, user, now);
    NobodyContinued(db, id);
    hide Ask, Inv, EffectivePlan, StartOfUtcWeek, NobodyDeleted, QuotaOpen, PlanExists;
    var next := Ask(db, id, user, now).1;
    assert next.matches[id].Continued() == {user};
  }

  lemma LastAnswerShows(db: Db, id: Id, user: User, now: Instant)
    requires Inv(db) && id in db.matches && (Ask(db, id, user, now).0.BothAgreed? || Ask(db, id, user, now).0.TooLate?)
    ensures var (r, next) := Ask(db, id, user, now);
      id in next.matches && AnswerShows(r, next, next.matches[id], id, user)
  {
    AnswersGiven(db, id, user, now);
    AnswersStored(db, id, user, now);
    hide Ask, Inv, EffectivePlan, StartOfUtcWeek, NobodyDeleted, QuotaOpen, PlanExists;
  }

  lemma EarlyShows(db: Db, id: Id, user: User, now: Instant)
    requires Inv(db) && id in db.matches && Ask(db, id, user, now).0.NotAvailableYet?
    ensures var next := Ask(db, id, user, now).1;
      id in next.matches && AnswerShows(NotAvailableYet, next, next.matches[id], id, user)
  {
    RefusalsGiven(db, id, user, now);
    hide Inv;
  }

  /** By the time the second participant asks, the confirming statement will find both. */
  lemma TwoAnswers(db: Db, id: Id, user: User, now: Instant)
    requires Inv(db)
    ensures id in db.matches ==> var m := LazilyOpened(db.matches[id], now);
      m.status.Awaiting? && m.initiator.Some? && user in m.states && !m.states[user].continued ==>
        |Answered(m, user).Continued()| == 2
  {
    hide Inv, Sound;
    if id in db.matches {
      var m := LazilyOpened(db.matches[id], now);
      var g1, g2 := Gone(db.accounts, m.user1), Gone(db.accounts, m.user2);
      InvGivesSound(db, id);
      OpeningIsSound(db.matches[id], g1, g2, now);
      if m.status.Awaiting? && m.initiator.Some? && user in m.states && !m.states[user].continued {
        SecondRequestConfirms(m, g1, g2, user);
      }
    }
  }

  lemma NewMatchesAreUnlogged(db: Db, op: Op, id: Id)
    requires Enabled(db, op) && id !in db.matches && id in Apply(db, op).matches
    ensures op.Create? && op.id == id
  {
    hide Ask, RevealedAfter, MessagedAfter;
    if op.Reveal? || op.Message? || op.Continue? {
      MessagingAddsNone(db, op.id, op.user, op.now);
      AskAddsNone(db, op.id, op.user, op.now);
    }
  }

  lemma StepKeepsLog(db: Db, op: Op)
    requires Inv(db) && LogSound(db) && Enabled(db, op)
    ensures LogSound(Apply(db, op))
  {
    var next := Apply(db, op);
    if op.Continue? {
      AskLog(db, op.id, op.user, op.now);
      InvalidOnlyOutsideTheWindow(db, op.id, op.user, op.now);
    } else {
      OnlyAskLogs(db, op);
    }
    hide Inv, Ask, Access;
    forall k | 0 <= k < |next.log| ensures Concluded(next.matches, next.log[k].id) {
      if k < |db.log| {
        var id := db.log[k].id;
        assert next.log[k] == db.log[k] && Concluded(db.matches, id);
        ConcludedStays(db, op, k);
      }
    }
    if next.log != db.log {
      assert forall k | 0 <= k < |db.log| :: Concluded(db.matches, db.log[k].id) && next.log[k] == db.log[k];
    }
  }

  lemma ConcludedStays(db: Db, op: Op, k: nat)
    requires Enabled(db, op) && k < |db.log| && Concluded(db.matches, db.log[k].id)
    ensures Concluded(Apply(db, op).matches, db.log[k].id)
  {
    var id := db.log[k].id;
    if id in Apply(db, op).matches {
      if id in db.matches {
        StepIsForward(db, op, id);
        hide Apply;
      } else {
        NewMatchesAreUnlogged(db, op, id);
      }
    }
  }

  /** A match is confirmed, and charged, at most once. */
  lemma {:induction false} ConfirmedOnce(states: seq<Db>, ops: seq<Op>, n: nat)
    requires Run(states, ops) && n < |states|
    ensures forall j, k | 0 <= j < k < |states[n].log| :: states[n].log[j].id != states[n].log[k].id
    ensures LogSound(states[n])
  {
    hide Apply, Enabled;
    if n > 0 {
      ConfirmedOnce(states, ops, n - 1);
      RunKeepsInv(states, ops, n - 1);
      assert Step(states[n - 1], ops[n - 1], states[n]);
      StepKeepsLog(states[n - 1], ops[n - 1]);
    }
  }

  // ---------------------------------------------------------------- when each answer is given, by the rows

  /** The match is in its continuation window: overdue to be opened, or opened and not over. */
  predicate InWindow(m: Match, now: Instant) {
    || (m.status.Active? && m.expiresAt <= now)
    || (m.status.Awaiting? && now < m.expiresAt)
  }

  /** A participant who has not answered yet asks inside the window. */
  predicate MayAnswer(db: Db, id: Id, user: User, now: Instant) {
    && id in db.matches && (user == db.matches[id].user1 || user == db.matches[id].user2)
    && InWindow(db.matches[id], now) && user in db.matches[id].states && !db.matches[id].states[user].continued
  }

  predicate NobodyDeleted(db: Db, m: Match) {
    && !(m.user1 in db.accounts && db.accounts[m.user1].deleted)
    && !(m.user2 in db.accounts && db.accounts[m.user2].deleted)
  }

  /** The plan of the one who asked first has room for one more confirmation in the week of `now`. */
  predicate QuotaOpen(db: Db, who: User, now: Instant) {
    var plan := EffectivePlan(db.plans, db.subscriptions, who, now);
    plan.Some? && (plan.value.None? || db.UsedCount(who, StartOfUtcWeek(now)) < plan.value.value)
  }

  predicate PlanExists(db: Db, who: User, now: Instant) {
    EffectivePlan(db.plans, db.subscriptions, who, now).Some?
  }

  lemma SettleAnswers(db: Db, id: Id, m: Match, user: User, now: Instant)
    requires m.initiator.Some? && user in m.states && |Answered(m, user).Continued()| == 2
    ensures var r, who := Settle(db, id, m, user, now).0, m.initiator.value;
      && (r.PlanMissing? <==> !PlanExists(db, who, now))
      && (r.QuotaReached? <==> PlanExists(db, who, now) && !QuotaOpen(db, who, now))
      && (r.Unavailable? <==> QuotaOpen(db, who, now) && !NobodyDeleted(db, m))
      && (r.BothAgreed? <==> QuotaOpen(db, who, now) && NobodyDeleted(db, m))
      && r in {PlanMissing, QuotaReached, Unavailable, BothAgreed}
  {
    hide EffectivePlan, StartOfUtcWeek;
  }

  /** When a request is refused, or too early, too late or repeated. */
  lemma RefusalsGiven(db: Db, id: Id, user: User, now: Instant)
    requires Inv(db)
    ensures var r := Ask(db, id, user, now).0;
      var inside := id in db.matches && (user == db.matches[id].user1 || user == db.matches[id].user2);
      && (r.Missing? <==> !inside || (InWindow(db.matches[id], now) && user !in db.matches[id].states))
      && (r.NotAvailableYet? <==> inside && db.matches[id].status.Active? && now < db.matches[id].expiresAt)
      && (r.TooLate? <==> inside && db.matches[id].status.Awaiting? && db.matches[id].expiresAt <= now)
      && (r.Invalid? <==> inside && (db.matches[id].status.Confirmed? || db.matches[id].Terminal()))
      && (r.AlreadyRecorded? <==> inside && InWindow(db.matches[id], now) && user in db.matches[id].states
                                  && db.matches[id].states[user].continued)
  {
    InvalidOnlyOutsideTheWindow(db, id, user, now);
    TwoAnswers(db, id, user, now);
    if id in db.matches {
      var m := LazilyOpened(db.matches[id], now);
      if m.initiator.Some? && user in m.states && |Answered(m, user).Continued()| == 2 {
        SettleAnswers(db, id, m, user, now);
      }
    }
    hide Inv, Settle, Answered, Initiated, QuotaOpen, PlanExists, NobodyDeleted;
  }

  /**
   * When a request is answered, by the rows alone. The first is pending if neither account is deleted. The second
   * confirms the match if, besides, the plan of the first exists and has room.
   */
  lemma AnswersGiven(db: Db, id: Id, user: User, now: Instant)
    requires Inv(db)
    ensures var r := Ask(db, id, user, now).0;
      var first := MayAnswer(db, id, user, now) && db.matches[id].initiator.None?;
      var second := MayAnswer(db, id, user, now) && db.matches[id].initiator.Some?;
      && (r.Pending? <==> first && NobodyDeleted(db, db.matches[id]))
      && (r.PlanMissing? <==> second && !PlanExists(db, db.matches[id].initiator.value, now))
      && (r.QuotaReached? <==> second && PlanExists(db, db.matches[id].initiator.value, now)
                               && !QuotaOpen(db, db.matches[id].initiator.value, now))
      && (r.BothAgreed? <==> second && QuotaOpen(db, db.matches[id].initiator.value, now)
                             && NobodyDeleted(db, db.matches[id]))
      && (r.Unavailable? <==> !(if MayAnswer(db, id, user, now) then NobodyDeleted(db, db.matches[id]) else true)
                              && (first || (second && QuotaOpen(db, db.matches[id].initiator.value, now))))
  {
    TwoAnswers(db, id, user, now);
    if id in db.matches {
      var m := LazilyOpened(db.matches[id], now);
      if m.initiator.Some? && user in m.states && |Answered(m, user).Continued()| == 2 {
        SettleAnswers(db, id, m, user, now);
      }
    }
    hide Inv, Settle, Answered, Initiated, QuotaOpen, PlanExists;
  }

  /** What the two answers that change the match store. */
  lemma AnswersStored(db: Db, id: Id, user: User, now: Instant)
    requires Inv(db)
    ensures Ask(db, id, user, now).0.Pending? ==>
      var m := db.matches[id];
      Ask(db, id, user, now).1 == db.(matches := db.matches[id := m.(
        status := Awaiting, expiresAt := if m.status.Active? then now + 86_400_000 else m.expiresAt,
        initiator := Some(user), states := m.states[user := m.states[user].(continued := true)])])
    ensures Ask(db, id, user, now).0.BothAgreed? ==>
      var m, who := db.matches[id], db.matches[id].initiator.value;
      var limit := EffectivePlan(db.plans, db.subscriptions, who, now).value;
      Ask(db, id, user, now).1 == db.(
        matches := db.matches[id := m.(
          status := Confirmed, expiresAt := if m.status.Active? then now + 86_400_000 else m.expiresAt,
          purgeAfter := None, states := m.states[user := m.states[user].(continued := true)])],
        usage := if limit.Some?
          then db.usage[(who, StartOfUtcWeek(now)) := db.UsedCount(who, StartOfUtcWeek(now)) + 1] else db.usage,
        log := db.log + [Confirmation(id, who, StartOfUtcWeek(now), limit)])
    ensures Ask(db, id, user, now).0.TooLate? ==>
      Ask(db, id, user, now).1 == db.(matches := db.matches[id :=
        db.matches[id].(status := Expired, purgeAfter := Some(now + 2_592_000_000))])
  {
    AnswersGiven(db, id, user, now);
    ConfirmationStored(db, id, user, now);
    hide Inv, EffectivePlan, StartOfUtcWeek, NobodyDeleted, Match.Continued, Settle;
  }

  lemma ConfirmationStored(db: Db, id: Id, user: User, now: Instant)
    requires Inv(db)
    ensures Ask(db, id, user, now).0.BothAgreed? ==>
      var m, who := db.matches[id], db.matches[id].initiator.value;
      var limit := EffectivePlan(db.plans, db.subscriptions, who, now).value;
      Ask(db, id, user, now).1 == db.(
        matches := db.matches[id := m.(
          status := Confirmed, expiresAt := if m.status.Active? then now + 86_400_000 else m.expiresAt,
          purgeAfter := None, states := m.states[user := m.states[user].(continued := true)])],
        usage := if limit.Some?
          then db.usage[(who, StartOfUtcWeek(now)) := db.UsedCount(who, StartOfUtcWeek(now)) + 1] else db.usage,
        log := db.log + [Confirmation(id, who, StartOfUtcWeek(now), limit)])
  {
    AnswersGiven(db, id, user, now);
    hide Inv, EffectivePlan, StartOfUtcWeek, NobodyDeleted, Match.Continued;
  }

  /** Two requests inside the window, by the two participants, under an open quota: the match is confirmed. */
  lemma TwoRequestsConfirm(db: Db, id: Id, first: User, second: User, now: Instant, later: Instant)
    requires Inv(db) && first != second && MayAnswer(db, id, first, now) && NobodyDeleted(db, db.matches[id])
    requires db.matches[id].initiator.None? && second in db.matches[id].states
    requires second == db.matches[id].user1 || second == db.matches[id].user2
    requires later < (if db.matches[id].status.Active? then now + 86_400_000 else db.matches[id].expiresAt)
    requires QuotaOpen(db, first, later)
    ensures Ask(db, id, first, now).0 == Pending
    ensures var (r, end) := Ask(Ask(db, id, first, now).1, id, second, later);
      r == BothAgreed && id in end.matches && end.matches[id].status == Confirmed
      && end.matches[id].initiator == Some(first)
  {
    var next := Ask(db, id, first, now).1;
    AnswersGiven(db, id, first, now);
    AnswersStored(db, id, first, now);
    AskKeepsInv(db, id, first, now);
    InvGivesSoundValue(db, id);
    NobodyContinued(db, id);
    hide Ask, Inv, EffectivePlan, StartOfUtcWeek;
    assert MayAnswer(next, id, second, later);
    AnswersGiven(next, id, second, later);
    AnswersStored(next, id, second, later);
  }

  lemma NobodyContinued(db: Db, id: Id)
    requires Inv(db) && id in db.matches && db.matches[id].initiator.None?
    ensures forall u | u in db.matches[id].states :: !db.matches[id].states[u].continued
  {
    InvGivesSound(db, id);
    forall u | u in db.matches[id].states ensures !db.matches[id].states[u].continued {
      assert u !in db.matches[id].Continued();
    }
  }

  // ---------------------------------------------------------------- the other transactions, column by column

  /** Messaging and reveals: when a match may be used, and what locking it changes. */
  lemma AccessColumns(db: Db, id: Id, user: User, now: Instant)
    ensures var (a, next) := Access(db, id, user, now);
      var usable := id in db.matches && (user == db.matches[id].user1 || user == db.matches[id].user2)
          && NobodyDeleted(db, db.matches[id]);
      && (a.NotFound? <==> !usable)
      && (a.Elapsed? <==> usable && db.matches[id].status.Awaiting? && db.matches[id].expiresAt <= now)
      && (a.InvalidState? <==> usable && (db.matches[id].status.Expired? || db.matches[id].status.Ended?))
      && (a.Elapsed? ==> next == db.(matches := db.matches[id :=
            db.matches[id].(status := Expired, purgeAfter := Some(now + 2_592_000_000))]))
      && (a.Available? && db.matches[id].status.Active? && db.matches[id].expiresAt <= now ==>
            next == db.(matches := db.matches[id := db.matches[id].(status := Awaiting, expiresAt := now + 86_400_000)]))
      && (!a.Elapsed? && !(a.Available? && db.matches[id].status.Active? && db.matches[id].expiresAt <= now) ==> next == db)
  {
    assert id in db.matches ==> db.matches[id := db.matches[id]] == db.matches;
  }

  lemma MessageColumns(db: Db, id: Id, user: User, now: Instant)
    ensures var (a, next) := Access(db, id, user, now);
      && (!a.Available? ==> MessagedAfter(db, id, user, now) == next && RevealedAfter(db, id, user, now) == next)
      && (a.Available? ==>
            && id in next.matches
            && MessagedAfter(db, id, user, now)
               == next.(matches := next.matches[id := next.matches[id].(lastMessageAt := Some(now))])
            && (user in next.matches[id].states ==>
                  RevealedAfter(db, id, user, now) == next.(matches := next.matches[id := next.matches[id].(
                    states := next.matches[id].states[user := next.matches[id].states[user].(revealed := true)])])))
  {
  }

  /** A mutual like makes a match exactly for two different, usable, unblocked users who have none. */
  lemma CreateColumns(db: Db, id: Id, first: User, second: User, now: Instant)
    requires id !in db.matches
    ensures var op := Create(id, first, second, now);
      var low, high := if first < second then first else second, if first < second then second else first;
      var allowed := first != second && first in db.accounts && second in db.accounts
          && !db.accounts[first].deleted && !db.accounts[second].deleted
          && !db.accounts[first].banned && !db.accounts[second].banned
          && (first, second) !in db.blocks && (second, first) !in db.blocks
          && (forall i | i in db.matches :: !(db.matches[i].user1 == low && db.matches[i].user2 == high));
      Paired(db, op) == if allowed
        then db.(matches := db.matches[id := Match(low, high, Active, now + 86_400_000, None, None, now, None,
                   map[low := MatchState(false, false), high := MatchState(false, false)])])
        else db
  {
  }

  /** Blocking ends the matches of the two that are not over, and no other. */
  lemma BlockColumns(db: Db, user: User, target: User, now: Instant)
    requires target in db.accounts && !db.accounts[target].deleted
    requires (user, target) in db.blocks || !(user in db.accounts && db.accounts[user].deleted)
    ensures var next := BlockedAfter(db, Block(user, target, now));
      && next == db.(matches := next.matches, blocks := db.blocks + {(user, target)}) && next.matches.Keys == db.matches.Keys
    ensures forall i | i in db.matches ::
      var m := db.matches[i];
      var ends := ((m.user1 == user && m.user2 == target) || (m.user1 == target && m.user2 == user))
        && !m.status.Expired? && !m.status.Ended?;
      BlockedAfter(db, Block(user, target, now)).matches[i]
        == if ends then m.(status := Ended, purgeAfter := Some(now + 2_592_000_000)) else m
  {
  }

  /** Anonymising a user ends what still runs, keeps a purge date that is set, and takes the user's states and usage. */
  lemma AnonymizeColumns(db: Db, user: User, now: Instant)
    requires user in db.accounts
    ensures var next := AnonymizedAfter(db, Anonymize(user, now));
      && next.matches.Keys == db.matches.Keys && next.log == db.log && next.plans == db.plans
      && next.accounts == db.accounts[user := Account(true, false, true)]
      && next.subscriptions == db.subscriptions - {user}
      && (forall k | k in db.usage :: (k in next.usage <==> k.0 != user))
      && (forall k | k in next.usage :: k in db.usage && next.usage[k] == db.usage[k])
    ensures forall i | i in db.matches ::
      var m := db.matches[i];
      var ends := (m.user1 == user || m.user2 == user) && !m.status.Expired? && !m.status.Ended?;
      AnonymizedAfter(db, Anonymize(user, now)).matches[i] == m.(
        states := m.states - {user}, status := if ends then Ended else m.status,
        purgeAfter := if ends && m.purgeAfter.None? then Some(now + 2_592_000_000) else m.purgeAfter)
  {
  }

  /** What the batched maintenance does to one row. */
  lemma WindowColumns(db: Db, id: Id, now: Instant)
    ensures OpenedAfter(db, id, now)
      == if id in db.matches && db.matches[id].status.Active? && db.matches[id].expiresAt <= now
         then db.(matches := db.matches[id := db.matches[id].(status := Awaiting, expiresAt := now + 86_400_000)]) else db
    ensures ExpiredAfter(db, id, now)
      == if id in db.matches && db.matches[id].status.Awaiting? && db.matches[id].expiresAt <= now
         then db.(matches := db.matches[id := db.matches[id].(status := Expired, purgeAfter := Some(now + 2_592_000_000))])
         else db
    ensures id in db.matches ==>
      var m := db.matches[id];
      Purgeable(m, now) <==> (m.status.Expired? || m.status.Ended?) && m.purgeAfter.Some? && m.purgeAfter.value <= now
  {
  }

  /** Which matches a user's pages show: not ended, with a partner who still has an account and no block between them. */
  lemma ShownColumns(db: Db, user: User, cursor: Option<(Instant, Id)>, id: Id)
    requires Inv(db) && id in db.matches
    ensures var m := db.matches[id];
      var other := if m.user1 == user then m.user2 else m.user1;
      var at := if m.lastMessageAt.Some? then m.lastMessageAt.value else m.createdAt;
      id in ShownMatches(db, user, cursor) <==>
        && (m.user1 == user || m.user2 == user) && !m.status.Ended?
        && other in db.accounts && !db.accounts[other].deleted
        && (user, other) !in db.blocks && (other, user) !in db.blocks
        && (cursor.Some? ==> at < cursor.value.0 || (at == cursor.value.0 && id < cursor.value.1))
  {
    hide Inv;
  }

  // ---------------------------------------------------------------- a page of a user's matches

  function Activity(m: Match): Instant {
    if m.lastMessageAt.Some? then m.lastMessageAt.value else m.createdAt
  }

  /** ORDER BY activity_at DESC, id DESC. */
  predicate Newer(matches: map<Id, Match>, a: Id, b: Id) {
    a in matches && b in matches
    && (Activity(matches[a]) > Activity(matches[b]) || (Activity(matches[a]) == Activity(matches[b]) && a > b))
  }

  predicate Shown(db: Db, user: User, other: User, id: Id, cursor: Option<(Instant, Id)>)
    requires id in db.matches
  {
    var m := db.matches[id];
    && !m.status.Ended? && other in db.accounts && !db.accounts[other].deleted && !db.Blocked(user, other)
    && (cursor.None? || Activity(m) < cursor.value.0 || (Activity(m) == cursor.value.0 && id < cursor.value.1))
  }

  /** The branch of the page query where the user has the smaller id, and the one where the user has the larger. */
  function FirstBranch(db: Db, user: User, cursor: Option<(Instant, Id)>): set<Id> {
    set i | i in db.matches && db.matches[i].user1 == user && Shown(db, user, db.matches[i].user2, i, cursor)
  }

  function SecondBranch(db: Db, user: User, cursor: Option<(Instant, Id)>): set<Id> {
    set i | i in db.matches && db.matches[i].user2 == user && Shown(db, user, db.matches[i].user1, i, cursor)
  }

  /** All that the page query is about, without its two branches and their limits. */
  function ShownMatches(db: Db, user: User, cursor: Option<(Instant, Id)>): set<Id> {
    set i | i in db.matches && db.matches[i].Includes(user)
         && Shown(db, user, if db.matches[i].user1 == user then db.matches[i].user2 else db.matches[i].user1, i, cursor)
  }

  lemma BranchesSplit(db: Db, user: User, cursor: Option<(Instant, Id)>)
    requires Inv(db)
    ensures FirstBranch(db, user, cursor) !! SecondBranch(db, user, cursor)
    ensures FirstBranch(db, user, cursor) + SecondBranch(db, user, cursor) == ShownMatches(db, user, cursor)
    ensures ShownMatches(db, user, cursor) <= db.matches.Keys
  {
    hide Inv, Shown;
    forall i | i in db.matches ensures db.matches[i].user1 != db.matches[i].user2 {
      InvGivesSoundValue(db, i);
    }
  }

  /** Latest activity first: the last message, or the creation while there is none; then the greater id. */
  lemma NewerColumns(matches: map<Id, Match>, a: Id, b: Id)
    requires a in matches && b in matches
    ensures var at := (m: Match) => if m.lastMessageAt.Some? then m.lastMessageAt.value else m.createdAt;
      Newer(matches, a, b) <==> at(matches[a]) > at(matches[b]) || (at(matches[a]) == at(matches[b]) && a > b)
  {
  }

  lemma NewerIsStrict(matches: map<Id, Match>, rows: set<Id>)
    requires rows <= matches.Keys
    ensures Sql.StrictOrder(rows, (a, b) => Newer(matches, a, b))
  {
  }

  /**
   * The page query reads only limit + offset rows of each branch, and still returns rows offset to offset + limit of
   * the full list of the user's visible matches, each once.
   */
  lemma MatchPage(db: Db, user: User, cursor: Option<(Instant, Id)>, limit: nat, offset: nat,
      first: set<Id>, second: set<Id>, merged: seq<Id>, full: seq<Id>)
    requires Inv(db)
    requires var newer := (a, b) => Newer(db.matches, a, b);
      && Sql.Limited(FirstBranch(db, user, cursor), newer, limit + offset, first)
      && Sql.Limited(SecondBranch(db, user, cursor), newer, limit + offset, second)
      && Sql.Listing(first + second, newer, merged) && Sql.Listing(ShownMatches(db, user, cursor), newer, full)
    ensures Sql.Page(merged, limit, offset) == Sql.Page(full, limit, offset)
  {
    hide Inv, Shown;
    var newer := (a, b) => Newer(db.matches, a, b);
    var a, b := FirstBranch(db, user, cursor), SecondBranch(db, user, cursor);
    BranchesSplit(db, user, cursor);
    NewerIsStrict(db.matches, a + b);
    hide FirstBranch, SecondBranch, ShownMatches, Newer;
    Sql.PageOfLimitedBranches(a, b, newer, limit, offset, first, second, merged, full);
  }

  // ---------------------------------------------------------------- the repository

  lemma WrittenTwice(matches: map<Id, Match>, id: Id, a: Match, b: Match)
    ensures matches[id := a][id := b] == matches[id := b]
  {
  }

  class MatchesRepository {
    var matches: map<Id, Match>
    var accounts: map<User, Account>
    var blocks: set<(User, User)>
    var plans: map<string, Option<nat>>
    var subscriptions: map<User, Subscription>
    var usage: map<(User, Instant), nat>
    ghost var log: seq<Confirmation>

    constructor ()
      ensures Value() == EMPTY && Inv(Value())
    {
      matches, accounts, blocks, plans, subscriptions, usage, log := map[], map[], {}, map[], map[], map[], [];
      new;
      EmptyInv();
    }

    ghost function Value(): Db
      reads this
    {
      Db(matches, accounts, blocks, plans, subscriptions, usage, log)
    }

    /** The match that a mutual like leads to: the one just made, or the one the pair already has. */
    method CreateFromMutualLike(id: Id, firstUserId: User, secondUserId: User, now: Instant) returns (r: Creation)
      requires Inv(Value()) && Enabled(Value(), Create(id, firstUserId, secondUserId, now))
      modifies this`matches
      ensures Value() == Apply(old(Value()), Create(id, firstUserId, secondUserId, now)) && Inv(Value())
      ensures r.Created? <==> matches != old(matches)
      ensures r.Created? ==> matches.Keys == old(matches).Keys + {id}
      ensures r.Existing? ==> r.id in matches && Between(matches[r.id], firstUserId, secondUserId)
      ensures r.BlockedPair? ==> old(Value()).Blocked(firstUserId, secondUserId)
      ensures r.BadRequest? <==> firstUserId == secondUserId
      ensures var blocked := (firstUserId, secondUserId) in blocks || (secondUserId, firstUserId) in blocks;
        var usable := firstUserId in accounts && !accounts[firstUserId].deleted && !accounts[firstUserId].banned
          && secondUserId in accounts && !accounts[secondUserId].deleted && !accounts[secondUserId].banned;
        && (r.BlockedPair? <==> firstUserId != secondUserId && blocked)
        && (r.Unknown? <==> firstUserId != secondUserId && !blocked && !usable)
        && (r.Existing? <==> firstUserId != secondUserId && !blocked && usable
                             && exists i | i in old(matches) ::
                                  if firstUserId < secondUserId then Pair(old(matches)[i], firstUserId, secondUserId)
                                  else Pair(old(matches)[i], secondUserId, firstUserId))
    {
      hide Inv;
      CreateKeepsInv(Value(), Create(id, firstUserId, secondUserId, now));
      if firstUserId == secondUserId {
        return BadRequest;
      }
      var low, high := firstUserId, secondUserId;
      if !(firstUserId < secondUserId) {
        low, high := secondUserId, firstUserId;
      }
      var blocked := (low, high) in blocks || (high, low) in blocks;
      if !(low in accounts && !accounts[low].deleted && !accounts[low].banned
           && high in accounts && !accounts[high].deleted && !accounts[high].banned && !blocked) {
        return if blocked then BlockedPair else Unknown;
      }
      var pair := set i | i in matches && Pair(matches[i], low, high);
      if pair != {} {
        var i :| i in pair;
        return Existing(i);
      }
      assert forall i | i in matches :: Pair(matches[i], low, high) ==> i in pair;
      if id in matches {
        return Clash;
      }
      matches := matches[id := Match(low, high, Active, now + MATCH_WINDOW_MS, None, None, now, None,
                                     map[low := MatchState(false, false), high := MatchState(false, false)])];
      r := Created;
    }

    /** Locks a match for a message or a reveal, opening or expiring it first when its time has come. */
    method LockMessagingMatch(matchId: Id, userId: User, now: Instant) returns (r: Availability)
      requires Inv(Value())
      modifies this`matches
      ensures (r, Value()) == Access(old(Value()), matchId, userId, now) && Inv(Value())
      ensures r.Available? ==> matchId in matches && matches[matchId].Includes(userId) && Value().Live(matches[matchId])
      ensures r.Available? && matches[matchId].status.Awaiting? ==> matches[matchId].expiresAt > now
      ensures r.Elapsed? ==> matchId in matches && matches[matchId].status.Expired?
    {
      hide Inv;
      MessagingKeepsInv(Value(), matchId, userId, now);
      if matchId !in matches || !matches[matchId].Includes(userId) {
        return NotFound;
      }
      var found := matches[matchId];
      var live := BothLive(found);
      if !live {
        return NotFound;
      }
      if found.status.Active? && found.expiresAt <= now {
        matches := matches[matchId := found.(status := Awaiting, expiresAt := now + 24 * HOUR)];
        found := matches[matchId];
      }
      if found.status.Awaiting? && found.expiresAt <= now {
        matches := matches[matchId := found.(status := Expired, purgeAfter := Some(now + MATCH_PURGE_MS))];
        return Elapsed;
      }
      if !found.status.Active? && !found.status.Awaiting? && !found.status.Confirmed? {
        return InvalidState;
      }
      assert matches == old(matches)[matchId := found];
      r := Available;
    }

    /** Whether both participants have now revealed their photos; a reveal is never taken back. */
    method RecordReveal(matchId: Id, userId: User, now: Instant) returns (r: Availability, both: bool)
      requires Inv(Value())
      modifies this`matches
      ensures Value() == Apply(old(Value()), Reveal(matchId, userId, now)) && Inv(Value())
      ensures r.Available? ==> matchId in matches && userId in matches[matchId].states
      ensures r.Available? ==> matches[matchId].states[userId].revealed
      ensures r.Available? && both ==> matches[matchId].states.Keys == {matches[matchId].user1, matches[matchId].user2}
      ensures r.Available? ==> (both <==>
        |matches[matchId].states| == 2 && forall u | u in matches[matchId].states :: matches[matchId].states[u].revealed)
    {
      hide Inv, Access;
      MessagingKeepsInv(Value(), matchId, userId, now);
      both := false;
      r := LockMessagingMatch(matchId, userId, now);
      if !r.Available? {
        return;
      }
      if userId !in matches[matchId].states {
        r := NotFound;
        return;
      }
      InvGivesSoundValue(Value(), matchId);
      var m := matches[matchId];
      matches := matches[matchId := m.(states := m.states[userId := m.states[userId].(revealed := true)])];
      both := |matches[matchId].states| == 2
        && forall u | u in matches[matchId].states :: matches[matchId].states[u].revealed;
      if both {
        Sql.SubsetOfSameSize(matches[matchId].states.Keys, {m.user1, m.user2});
      }
    }

    /** The plan that covers the user now: a subscription counts only while it is paid for and not over. */
    method PlanLimit(userId: User, now: Instant) returns (limit: Option<Option<nat>>)
      ensures limit == EffectivePlan(plans, subscriptions, userId, now)
      ensures userId !in subscriptions && "free" in plans ==> limit == Some(plans["free"])
      ensures var entitled := userId in subscriptions && (subscriptions[userId].plan == "free"
            || ((subscriptions[userId].provided ==> subscriptions[userId].status in {"trialing", "active", "past_due"})
                && (subscriptions[userId].periodEndsAt.Some? ==> now < subscriptions[userId].periodEndsAt.value)));
        var code := if entitled then subscriptions[userId].plan else "free";
        limit == if code in plans then Some(plans[code]) else None
    {
      var code := "free";
      if userId in subscriptions {
        var s := subscriptions[userId];
        if s.plan == "free"
           || ((!s.provided || s.status == "trialing" || s.status == "active" || s.status == "past_due")
               && (s.periodEndsAt.None? || s.periodEndsAt.value > now)) {
          code := s.plan;
        }
      }
      if code !in plans {
        return None;
      }
      limit := Some(plans[code]);
    }

    /** A participant asks to continue: statement by statement, rolled back when the database or the plan refuses. */
    method RecordContinuationConsent(matchId: Id, userId: User, now: Instant) returns (r: Consent)
      requires Inv(Value())
      modifies this`matches, this`usage, this`log
      ensures (r, Value()) == Ask(old(Value()), matchId, userId, now) && Inv(Value())
    {
      hide Inv, Settle;
      ghost var before := Value();
      AskKeepsInv(before, matchId, userId, now);
      InvalidOnlyOutsideTheWindow(before, matchId, userId, now);
      TwoAnswers(before, matchId, userId, now);
      var begin := matches;
      if matchId !in matches || !matches[matchId].Includes(userId) {
        return Missing;
      }
      var found := matches[matchId];
      if found.status.Active? {
        if found.expiresAt > now {
          return NotAvailableYet;
        }
        matches := matches[matchId := found.(status := Awaiting, expiresAt := now + 24 * HOUR)];
        found := matches[matchId];
      }
      assert found == LazilyOpened(begin[matchId], now) && matches == begin[matchId := found];
      if !found.status.Awaiting? {
        assert matches == begin;
        return Invalid;
      }
      r := AnswerRequest(matchId, userId, now, begin, before);
    }

    /** The rest of the request, for a match that awaits continuation. */
    method AnswerRequest(matchId: Id, userId: User, now: Instant, begin: map<Id, Match>, ghost before: Db) returns (r: Consent)
      requires matchId in begin && begin[matchId].Includes(userId) && before == Value().(matches := begin)
      requires begin[matchId].status.Active? ==> begin[matchId].expiresAt <= now
      requires matchId in matches && matches == begin[matchId := matches[matchId]]
      requires matches[matchId] == LazilyOpened(begin[matchId], now) && matches[matchId].status.Awaiting?
      requires userId in matches[matchId].states && !matches[matchId].states[userId].continued ==>
        matches[matchId].initiator.Some? ==> |Answered(matches[matchId], userId).Continued()| == 2
      modifies this`matches, this`usage, this`log
      ensures (r, Value()) == Ask(before, matchId, userId, now)
    {
      hide Settle, Match.Continued;
      var found := matches[matchId];
      if found.expiresAt <= now {
        matches := matches[matchId := found.(status := Expired, purgeAfter := Some(now + MATCH_PURGE_MS))];
        WrittenTwice(begin, matchId, found, matches[matchId]);
        return TooLate;
      }
      if userId !in found.states {
        return Missing;
      }
      if found.states[userId].continued {
        return AlreadyRecorded;
      }
      if found.initiator.None? {
        var live := BothLive(found);
        if !live {
          matches := begin;
          return Unavailable;
        }
        Initiate(matchId, userId);
        WrittenTwice(begin, matchId, found, matches[matchId]);
        return Pending;
      }
      assert Ask(before, matchId, userId, now) == Settle(before, matchId, found, userId, now);
      hide Ask;
      r := Confirm(matchId, userId, now, begin, before);
    }

    /** What the trigger on match_state checks before it lets a row be written. */
    method BothLive(m: Match) returns (live: bool)
      ensures live == Value().Live(m)
    {
      live := !(m.user1 in accounts && accounts[m.user1].deleted) && !(m.user2 in accounts && accounts[m.user2].deleted);
    }

    /** The insert-or-increment of the week's counter, which the database refuses at the limit. */
    method Charge(who: User, weekStart: Instant, weeklyLimit: nat) returns (charged: bool)
      modifies this`usage
      ensures charged <==> old(Value()).UsedCount(who, weekStart) < weeklyLimit
      ensures charged ==> usage == old(usage)[(who, weekStart) := old(Value()).UsedCount(who, weekStart) + 1]
      ensures !charged ==> usage == old(usage)
    {
      if (who, weekStart) in usage {
        charged := weeklyLimit > 0 && usage[(who, weekStart)] < weeklyLimit;
        if charged {
          usage := usage[(who, weekStart) := usage[(who, weekStart)] + 1];
        }
      } else {
        charged := weeklyLimit > 0;
        if charged {
          usage := usage[(who, weekStart) := 1];
        }
      }
    }

    /** An unlimited plan is not charged. */
    method ChargeWeek(who: User, weekStart: Instant, limit: Option<nat>) returns (charged: bool)
      modifies this`usage
      ensures charged <==> limit.None? || old(Value()).UsedCount(who, weekStart) < limit.value
      ensures usage == if charged && limit.Some?
        then old(usage)[(who, weekStart) := old(Value()).UsedCount(who, weekStart) + 1] else old(usage)
    {
      charged := true;
      if limit.Some? {
        charged := Charge(who, weekStart, limit.value);
      }
    }

    /** The second half of the request: the charge, the answer and the confirmation. */
    method Confirm(matchId: Id, userId: User, now: Instant, begin: map<Id, Match>, ghost before: Db)
        returns (r: Consent)
      requires matchId in matches && matches == begin[matchId := matches[matchId]] && before == Value().(matches := begin)
      requires userId in matches[matchId].states && matches[matchId].initiator.Some?
      requires matches[matchId].status.Awaiting? && matches[matchId].expiresAt > now
      requires |Answered(matches[matchId], userId).Continued()| == 2
      modifies this`matches, this`usage, this`log
      ensures (r, Value()) == Settle(before, matchId, old(matches[matchId]), userId, now)
    {
      hide EffectivePlan, StartOfUtcWeek, Answered, Settle, Agreed, Match.Continued;
      var found := matches[matchId];
      SettleCases(before, matchId, found, userId, now);
      var who := found.initiator.value;
      var plan := PlanLimit(who, now);
      if plan.None? {
        matches := begin;
        return PlanMissing;
      }
      var weekStart := StartOfUtcWeek(now);
      var saved := usage;
      var charged := ChargeWeek(who, weekStart, plan.value);
      if !charged {
        return QuotaReached;
      }
      r := Agree(matchId, userId, begin, saved, weekStart, plan.value, before);
    }

    /** The answer and the confirmation, for two accounts that still live; otherwise the charge is rolled back too. */
    method Agree(matchId: Id, userId: User, begin: map<Id, Match>, saved: map<(User, Instant), nat>, weekStart: Instant,
        ghost limit: Option<nat>, ghost before: Db) returns (r: Consent)
      requires matchId in matches && matches == begin[matchId := matches[matchId]]
      requires before == Value().(matches := begin, usage := saved)
      requires userId in matches[matchId].states && matches[matchId].initiator.Some?
      requires |Answered(matches[matchId], userId).Continued()| == 2
      requires var who := matches[matchId].initiator.value;
        usage == if limit.Some? then saved[(who, weekStart) := before.UsedCount(who, weekStart) + 1] else saved
      modifies this`matches, this`usage, this`log
      ensures (r, Value()) == if before.Live(old(matches[matchId]))
        then (BothAgreed, Agreed(before, matchId, old(matches[matchId]), userId, weekStart, limit)) else (Unavailable, before)
    {
      hide Answered, Match.Continued;
      var found := matches[matchId];
      var live := BothLive(found);
      if !live {
        matches, usage := begin, saved;
        return Unavailable;
      }
      var confirmed := Conclude(matchId, userId, Confirmation(matchId, found.initiator.value, weekStart, limit));
      WrittenTwice(begin, matchId, found, matches[matchId]);
      r := if confirmed then BothAgreed else Invalid;
    }

    /** Records the first answer, then who gave it. */
    method Initiate(matchId: Id, userId: User)
      requires matchId in matches && userId in matches[matchId].states
      modifies this`matches
      ensures matches == old(matches)[matchId := Initiated(old(matches[matchId]), userId)]
    {
      var found := matches[matchId];
      var answered := found.(states := found.states[userId := found.states[userId].(continued := true)]);
      matches := matches[matchId := answered];
      matches := matches[matchId := answered.(initiator := Some(userId))];
      WrittenTwice(old(matches), matchId, answered, matches[matchId]);
    }

    /** Records the answer, then confirms the match if that made two. */
    method Conclude(matchId: Id, userId: User, ghost entry: Confirmation) returns (confirmed: bool)
      requires matchId in matches && userId in matches[matchId].states
      modifies this`matches, this`log
      ensures confirmed <==> |Answered(old(matches[matchId]), userId).Continued()| == 2
      ensures log == if confirmed then old(log) + [entry] else old(log)
      ensures matches == old(matches)[matchId := if confirmed
        then Answered(old(matches[matchId]), userId).(status := Confirmed, purgeAfter := None)
        else Answered(old(matches[matchId]), userId)]
    {
      var found := matches[matchId];
      var answered := found.(states := found.states[userId := found.states[userId].(continued := true)]);
      matches := matches[matchId := answered];
      confirmed := |answered.Continued()| == 2;
      if confirmed {
        matches := matches[matchId := answered.(status := Confirmed, purgeAfter := None)];
        log := log + [entry];
      }
    }

    /** Blocking ends every running match of the pair; expired and ended ones keep their dates. */
    method BlockUser(blockerId: User, blockedId: User, now: Instant) returns (r: bool, aborted: bool)
      requires Inv(Value())
      modifies this`matches, this`blocks
      ensures Value() == Apply(old(Value()), Block(blockerId, blockedId, now)) && Inv(Value())
      ensures !r || aborted ==> Value() == old(Value())
      ensures r && !aborted ==> Value().Blocked(blockerId, blockedId)
    {
      hide Inv, EndAll, BlockedAfter;
      BlockKeepsInv(Value(), Block(blockerId, blockedId, now));
      BlockMeaning(Value(), Block(blockerId, blockedId, now));
      aborted := false;
      if blockedId !in accounts || accounts[blockedId].deleted {
        return false, false;
      }
      if (blockerId, blockedId) !in blocks {
        if blockerId in accounts && accounts[blockerId].deleted {
          return true, true;
        }
        blocks := blocks + {(blockerId, blockedId)};
      }
      EndMatchesOf(blockerId, blockedId, now);
      r := true;
    }

    method EndMatchesOf(blockerId: User, blockedId: User, now: Instant)
      modifies this`matches
      ensures matches == EndAll(old(matches), (m: Match) => Between(m, blockerId, blockedId),
                                now + ENDED_MATCH_RETENTION_DAYS * DAY, false)
    {
      var ended := Some(now + ENDED_MATCH_RETENTION_DAYS * DAY);
      matches := map i | i in matches ::
        if Between(matches[i], blockerId, blockedId)
           && (matches[i].status.Active? || matches[i].status.Awaiting? || matches[i].status.Confirmed?)
        then matches[i].(status := Ended, purgeAfter := ended) else matches[i];
    }
  }

  /** A block that goes through leaves the pair blocked and without a running match; any other changes nothing. */
  lemma BlockMeaning(db: Db, op: Op)
    requires op.Block?
    ensures var next := BlockedAfter(db, op);
      if op.target !in db.accounts || db.accounts[op.target].deleted
         || ((op.user, op.target) !in db.blocks && db.Deleted(op.user))
      then next == db
      else && next.Blocked(op.user, op.target)
           && next.matches == EndAll(db.matches, (m: Match) => Between(m, op.user, op.target),
                                     op.now + ENDED_MATCH_RETENTION_DAYS * DAY, false)
           && next == db.(matches := next.matches, blocks := db.blocks + {(op.user, op.target)})
           && (forall i | i in next.matches && Between(next.matches[i], op.user, op.target) :: next.matches[i].Terminal())
  {
  }

  lemma InvGivesSoundValue(db: Db, id: Id)
    requires Inv(db) && id in db.matches
    ensures db.matches[id].states.Keys <= {db.matches[id].user1, db.matches[id].user2}
    ensures db.matches[id].user1 != db.matches[id].user2
  {
    InvGivesSound(db, id);
  }
}
