// The batched maintenance of matches: opening, expiring and purging what is due, at most a batch of each at a time.

module MatchMaintenance {
  import opened Options
  import Sql
  import M = Matches

  type Instant = M.Instant
  type Id = nat

  datatype ChatMessage = ChatMessage(matchId: Id, createdAt: Instant)
  datatype Report = Report(matchId: Option<Id>, createdAt: Instant)

  datatype Tables = Tables(matches: map<Id, M.Match>, messages: map<Id, ChatMessage>, reports: map<Id, Report>)
  {
    /** The foreign keys of messages and reports. */
    predicate References() {
      && (forall m | m in messages :: messages[m].matchId in matches)
      && (forall r | r in reports && reports[r].matchId.Some? :: reports[r].matchId.value in matches)
    }

    predicate Mentioned(id: Id) {
      || (exists m | m in messages :: messages[m].matchId == id)
      || (exists r | r in reports :: reports[r].matchId == Some(id))
    }
  }

  /** Rows that other transactions hold locked: SKIP LOCKED passes over them. */
  datatype Locks = Locks(matches: set<Id>, messages: set<Id>, reports: set<Id>)

  const NO_LOCKS := Locks({}, {}, {})

  // ---------------------------------------------------------------- what is due

  predicate DueActive(t: Tables, i: Id, now: Instant) {
    i in t.matches && t.matches[i].status.Active? && t.matches[i].expiresAt <= now
  }

  predicate DueAwaiting(t: Tables, i: Id, now: Instant) {
    i in t.matches && t.matches[i].status.Awaiting? && t.matches[i].expiresAt <= now
  }

  predicate DuePurge(t: Tables, i: Id, now: Instant) {
    i in t.matches && M.Purgeable(t.matches[i], now)
  }

  function ActiveDue(t: Tables, now: Instant): set<Id> {
    set i | i in t.matches && DueActive(t, i, now)
  }

  function AwaitingDue(t: Tables, now: Instant): set<Id> {
    set i | i in t.matches && DueAwaiting(t, i, now)
  }

  function MessagesDue(t: Tables, now: Instant): set<Id> {
    set m | m in t.messages && DuePurge(t, t.messages[m].matchId, now)
  }

  function ReportsDue(t: Tables, now: Instant): set<Id> {
    set r | r in t.reports && t.reports[r].matchId.Some? && DuePurge(t, t.reports[r].matchId.value, now)
  }

  function PurgeDue(t: Tables, now: Instant): set<Id> {
    set i | i in t.matches && DuePurge(t, i, now)
  }

  /** The matches that may go: due, and no longer mentioned. */
  function Removable(t: Tables, now: Instant): set<Id> {
    set i | i in t.matches && DuePurge(t, i, now) && !t.Mentioned(i)
  }

  /** What is due, by the columns. */
  lemma DueColumns(t: Tables, now: Instant, i: Id)
    ensures i in ActiveDue(t, now) <==> i in t.matches && t.matches[i].status.Active? && t.matches[i].expiresAt <= now
    ensures i in AwaitingDue(t, now) <==> i in t.matches && t.matches[i].status.Awaiting? && t.matches[i].expiresAt <= now
    ensures i in PurgeDue(t, now) <==> i in t.matches && OverSince(t.matches[i], now)
    ensures i in MessagesDue(t, now) <==>
              i in t.messages && t.messages[i].matchId in t.matches && OverSince(t.matches[t.messages[i].matchId], now)
    ensures i in ReportsDue(t, now) <==>
      && i in t.reports && t.reports[i].matchId.Some?
      && t.reports[i].matchId.value in t.matches && OverSince(t.matches[t.reports[i].matchId.value], now)
    ensures i in Removable(t, now) <==>
      && i in t.matches && OverSince(t.matches[i], now)
      && (forall m | m in t.messages :: t.messages[m].matchId != i)
      && (forall r | r in t.reports :: t.reports[r].matchId != Some(i))
  {
  }

  /** Expired or ended, and kept for as long as it had to be. */
  predicate OverSince(m: M.Match, now: Instant) {
    (m.status.Expired? || m.status.Ended?) && m.purgeAfter.Some? && m.purgeAfter.value <= now
  }

  /** What the five statements do to a row that they choose, and that they leave every other row alone. */
  lemma StatementColumns(t: Tables, chosen: set<Id>, now: Instant)
    ensures OpenAll(t, chosen, now) == t.(matches := map i | i in t.matches ::
      if i in chosen then t.matches[i].(status := M.Awaiting, expiresAt := now + 86_400_000) else t.matches[i])
    ensures ExpireAll(t, chosen, now) == t.(matches := map i | i in t.matches ::
      if i in chosen then t.matches[i].(status := M.Expired, purgeAfter := Some(now + 2_592_000_000)) else t.matches[i])
    ensures DeleteMessages(t, chosen) == t.(messages := t.messages - chosen)
    ensures DetachReports(t, chosen) == t.(reports := map r | r in t.reports ::
      if r in chosen then Report(None, t.reports[r].createdAt) else t.reports[r])
    ensures RemoveMatches(t, chosen) == t.(matches := t.matches - chosen)
  {
  }

  /** All the work there is at one instant. */
  function Work(t: Tables, now: Instant): nat {
    |ActiveDue(t, now)| + |AwaitingDue(t, now)| + |MessagesDue(t, now)| + |ReportsDue(t, now)| + |PurgeDue(t, now)|
  }

  // ---------------------------------------------------------------- the five statements

  /** The three statements that change matches. */
  datatype Statement = Opening | Expiring | Removing

  function MatchesAfter(statement: Statement, matches: map<Id, M.Match>, chosen: set<Id>, now: Instant): map<Id, M.Match> {
    match statement
    case Opening => map i | i in matches :: if i in chosen then M.Opened(matches[i], now) else matches[i]
    case Expiring => map i | i in matches :: if i in chosen then M.Lapsed(matches[i], now) else matches[i]
    case Removing => matches - chosen
  }

  function OpenAll(t: Tables, chosen: set<Id>, now: Instant): Tables {
    t.(matches := MatchesAfter(Opening, t.matches, chosen, now))
  }

  function ExpireAll(t: Tables, chosen: set<Id>, now: Instant): Tables {
    t.(matches := MatchesAfter(Expiring, t.matches, chosen, now))
  }

  function DeleteMessages(t: Tables, chosen: set<Id>): Tables {
    t.(messages := t.messages - chosen)
  }

  function DetachReports(t: Tables, chosen: set<Id>): Tables {
    t.(reports := map r | r in t.reports :: if r in chosen then t.reports[r].(matchId := None) else t.reports[r])
  }

  function RemoveMatches(t: Tables, chosen: set<Id>): Tables {
    t.(matches := MatchesAfter(Removing, t.matches, chosen, 0))
  }

  lemma Less<T>(before: set<T>, chosen: set<T>, after: set<T>)
    requires chosen <= before && after == before - chosen
    ensures |before| == |after| + |chosen|
  {
  }

  /** An opened match is due again only a day later, so opening is pure progress. */
  lemma OpenSets(t: Tables, chosen: set<Id>, now: Instant)
    requires chosen <= ActiveDue(t, now)
    ensures var next := OpenAll(t, chosen, now);
      && ActiveDue(next, now) == ActiveDue(t, now) - chosen && AwaitingDue(next, now) == AwaitingDue(t, now)
      && PurgeDue(next, now) == PurgeDue(t, now)
      && (forall i :: DuePurge(next, i, now) <==> DuePurge(t, i, now))
  {
  }

  lemma SameRowsDue(t: Tables, next: Tables, now: Instant)
    requires next.messages == t.messages && next.reports == t.reports
    requires forall i :: DuePurge(next, i, now) <==> DuePurge(t, i, now)
    ensures MessagesDue(next, now) == MessagesDue(t, now) && ReportsDue(next, now) == ReportsDue(t, now)
  {
    hide DuePurge;
  }

  lemma OpenProgress(t: Tables, chosen: set<Id>, now: Instant)
    requires chosen <= ActiveDue(t, now)
    ensures ActiveDue(OpenAll(t, chosen, now), now) == ActiveDue(t, now) - chosen
    ensures AwaitingDue(OpenAll(t, chosen, now), now) == AwaitingDue(t, now)
    ensures Work(t, now) == Work(OpenAll(t, chosen, now), now) + |chosen|
    ensures t.References() ==> OpenAll(t, chosen, now).References()
  {
    var next := OpenAll(t, chosen, now);
    OpenSets(t, chosen, now);
    SameRowsDue(t, next, now);
    Less(ActiveDue(t, now), chosen, ActiveDue(next, now));
    hide ActiveDue, AwaitingDue, MessagesDue, ReportsDue, PurgeDue;
  }

  /** An expired match is due for purging only after its retention, so expiring is pure progress. */
  lemma ExpireSets(t: Tables, chosen: set<Id>, now: Instant)
    requires chosen <= AwaitingDue(t, now)
    ensures var next := ExpireAll(t, chosen, now);
      && ActiveDue(next, now) == ActiveDue(t, now) && AwaitingDue(next, now) == AwaitingDue(t, now) - chosen
      && PurgeDue(next, now) == PurgeDue(t, now)
      && (forall i :: DuePurge(next, i, now) <==> DuePurge(t, i, now))
  {
  }

  lemma ExpireProgress(t: Tables, chosen: set<Id>, now: Instant)
    requires chosen <= AwaitingDue(t, now)
    ensures ActiveDue(ExpireAll(t, chosen, now), now) == ActiveDue(t, now)
    ensures AwaitingDue(ExpireAll(t, chosen, now), now) == AwaitingDue(t, now) - chosen
    ensures Work(t, now) == Work(ExpireAll(t, chosen, now), now) + |chosen|
    ensures t.References() ==> ExpireAll(t, chosen, now).References()
  {
    var next := ExpireAll(t, chosen, now);
    ExpireSets(t, chosen, now);
    SameRowsDue(t, next, now);
    Less(AwaitingDue(t, now), chosen, AwaitingDue(next, now));
    hide ActiveDue, AwaitingDue, MessagesDue, ReportsDue, PurgeDue;
  }

  lemma DeleteProgress(t: Tables, chosen: set<Id>, now: Instant)
    requires chosen <= MessagesDue(t, now)
    ensures MessagesDue(DeleteMessages(t, chosen), now) == MessagesDue(t, now) - chosen
    ensures ActiveDue(DeleteMessages(t, chosen), now) == ActiveDue(t, now)
    ensures AwaitingDue(DeleteMessages(t, chosen), now) == AwaitingDue(t, now)
    ensures Work(t, now) == Work(DeleteMessages(t, chosen), now) + |chosen|
    ensures t.References() ==> DeleteMessages(t, chosen).References()
  {
    var next := DeleteMessages(t, chosen);
    DeleteSets(t, chosen, now);
    Less(MessagesDue(t, now), chosen, MessagesDue(next, now));
    hide ActiveDue, AwaitingDue, MessagesDue, ReportsDue, PurgeDue;
  }

  lemma DeleteSets(t: Tables, chosen: set<Id>, now: Instant)
    requires chosen <= MessagesDue(t, now)
    ensures var next := DeleteMessages(t, chosen);
      && ActiveDue(next, now) == ActiveDue(t, now) && AwaitingDue(next, now) == AwaitingDue(t, now)
      && PurgeDue(next, now) == PurgeDue(t, now) && ReportsDue(next, now) == ReportsDue(t, now)
    ensures MessagesDue(DeleteMessages(t, chosen), now) == MessagesDue(t, now) - chosen
  {
    var next := DeleteMessages(t, chosen);
    assert forall i :: DuePurge(next, i, now) <==> DuePurge(t, i, now);
    hide DuePurge;
  }

  lemma DetachProgress(t: Tables, chosen: set<Id>, now: Instant)
    requires chosen <= ReportsDue(t, now)
    ensures ReportsDue(DetachReports(t, chosen), now) == ReportsDue(t, now) - chosen
    ensures MessagesDue(DetachReports(t, chosen), now) == MessagesDue(t, now)
    ensures ActiveDue(DetachReports(t, chosen), now) == ActiveDue(t, now)
    ensures AwaitingDue(DetachReports(t, chosen), now) == AwaitingDue(t, now)
    ensures Work(t, now) == Work(DetachReports(t, chosen), now) + |chosen|
    ensures t.References() ==> DetachReports(t, chosen).References()
  {
    var next := DetachReports(t, chosen);
    DetachSets(t, chosen, now);
    Less(ReportsDue(t, now), chosen, ReportsDue(next, now));
    hide ActiveDue, AwaitingDue, MessagesDue, ReportsDue, PurgeDue;
  }

  lemma DetachSets(t: Tables, chosen: set<Id>, now: Instant)
    requires chosen <= ReportsDue(t, now)
    ensures var next := DetachReports(t, chosen);
      && ActiveDue(next, now) == ActiveDue(t, now) && AwaitingDue(next, now) == AwaitingDue(t, now)
      && PurgeDue(next, now) == PurgeDue(t, now) && MessagesDue(next, now) == MessagesDue(t, now)
    ensures ReportsDue(DetachReports(t, chosen), now) == ReportsDue(t, now) - chosen
  {
    var next := DetachReports(t, chosen);
    assert forall i :: DuePurge(next, i, now) <==> DuePurge(t, i, now);
    hide DuePurge;
    DetachLeaves(t, chosen, now);
  }

  lemma DetachLeaves(t: Tables, chosen: set<Id>, now: Instant)
    requires chosen <= ReportsDue(t, now)
    ensures ReportsDue(DetachReports(t, chosen), now) == ReportsDue(t, now) - chosen
  {
    var next := DetachReports(t, chosen);
    assert forall i :: DuePurge(next, i, now) <==> DuePurge(t, i, now);
    hide DuePurge;
    forall r | r in t.reports ensures r in ReportsDue(next, now) <==> r in ReportsDue(t, now) && r !in chosen {
    }
  }

  /** Removing unmentioned matches leaves every message and report its match. */
  lemma RemoveProgress(t: Tables, chosen: set<Id>, now: Instant)
    requires chosen <= Removable(t, now)
    ensures PurgeDue(RemoveMatches(t, chosen), now) == PurgeDue(t, now) - chosen
    ensures ActiveDue(RemoveMatches(t, chosen), now) == ActiveDue(t, now)
    ensures AwaitingDue(RemoveMatches(t, chosen), now) == AwaitingDue(t, now)
    ensures MessagesDue(RemoveMatches(t, chosen), now) == MessagesDue(t, now)
    ensures ReportsDue(RemoveMatches(t, chosen), now) == ReportsDue(t, now)
    ensures Work(t, now) == Work(RemoveMatches(t, chosen), now) + |chosen|
    ensures t.References() ==> RemoveMatches(t, chosen).References()
  {
    var next := RemoveMatches(t, chosen);
    RemoveSets(t, chosen, now);
    RemoveRows(t, chosen, now);
    Less(PurgeDue(t, now), chosen, PurgeDue(next, now));
    hide ActiveDue, AwaitingDue, MessagesDue, ReportsDue, PurgeDue;
  }

  lemma RemoveSets(t: Tables, chosen: set<Id>, now: Instant)
    requires chosen <= Removable(t, now)
    ensures PurgeDue(RemoveMatches(t, chosen), now) == PurgeDue(t, now) - chosen && chosen <= PurgeDue(t, now)
    ensures ActiveDue(RemoveMatches(t, chosen), now) == ActiveDue(t, now)
    ensures AwaitingDue(RemoveMatches(t, chosen), now) == AwaitingDue(t, now)
  {
  }

  lemma RemoveRows(t: Tables, chosen: set<Id>, now: Instant)
    requires chosen <= Removable(t, now)
    ensures MessagesDue(RemoveMatches(t, chosen), now) == MessagesDue(t, now)
    ensures ReportsDue(RemoveMatches(t, chosen), now) == ReportsDue(t, now)
    ensures t.References() ==> RemoveMatches(t, chosen).References()
  {
    assert forall i | i in chosen :: !t.Mentioned(i);
    assert forall m | m in t.messages :: t.messages[m].matchId !in chosen;
    assert forall r | r in t.reports && t.reports[r].matchId.Some? :: t.reports[r].matchId.value !in chosen;
  }

  /** Once no due match has a message or a report, every due match may go. */
  lemma NothingMentionsDueMatches(t: Tables, now: Instant)
    requires MessagesDue(t, now) == {} && ReportsDue(t, now) == {}
    ensures Removable(t, now) == PurgeDue(t, now)
  {
    forall m | m in t.messages ensures !DuePurge(t, t.messages[m].matchId, now) {
      assert m !in MessagesDue(t, now);
    }
    forall r | r in t.reports && t.reports[r].matchId.Some? ensures !DuePurge(t, t.reports[r].matchId.value, now) {
      assert r !in ReportsDue(t, now);
    }
    hide DuePurge;
  }

  // ---------------------------------------------------------------- one batch

  datatype BatchResult = BatchResult(windows: nat, expired: nat, deletedMessages: nat, detachedReports: nat, purged: nat)
  {
    function Total(): nat {
      windows + expired + deletedMessages + detachedReports + purged
    }

    /** What `merge` adds up, field by field. */
    function Plus(r: BatchResult): (sum: BatchResult)
      ensures sum.Total() == Total() + r.Total()
    {
      BatchResult(windows + r.windows, expired + r.expired, deletedMessages + r.deletedMessages,
                  detachedReports + r.detachedReports, purged + r.purged)
    }
  }

  function Max(a: nat, b: nat): nat {
    if a < b then b else a
  }

  predicate BatchIsFull(r: BatchResult, batchSize: nat) {
    Max(Max(Max(r.windows, r.expired), Max(r.deletedMessages, r.detachedReports)), r.purged) >= batchSize
  }

  // ---- what each count counts

  function OpenedRows(t: Tables, u: Tables): set<Id> {
    set i | i in t.matches && i in u.matches && t.matches[i].status.Active? && u.matches[i].status.Awaiting?
  }

  function ExpiredRows(t: Tables, u: Tables): set<Id> {
    set i | i in t.matches && i in u.matches && t.matches[i].status.Awaiting? && u.matches[i].status.Expired?
  }

  function DeletedRows(t: Tables, u: Tables): set<Id> {
    set m | m in t.messages && m !in u.messages
  }

  function DetachedRows(t: Tables, u: Tables): set<Id> {
    set r | r in t.reports && r in u.reports && t.reports[r].matchId.Some? && u.reports[r].matchId.None?
  }

  function PurgedRows(t: Tables, u: Tables): set<Id> {
    set i | i in t.matches && i !in u.matches
  }

  /** Each count is the number of the rows that went that way between two states of the tables. */
  predicate Counts(t: Tables, u: Tables, r: BatchResult) {
    && r.windows == |OpenedRows(t, u)| && r.expired == |ExpiredRows(t, u)| && r.deletedMessages == |DeletedRows(t, u)|
    && r.detachedReports == |DetachedRows(t, u)| && r.purged == |PurgedRows(t, u)|
  }

  /** What maintenance at one instant may do to the rows. */
  ghost predicate Maintained(t: Tables, u: Tables, now: Instant) {
    && u.matches.Keys <= t.matches.Keys && u.messages.Keys <= t.messages.Keys && u.reports.Keys == t.reports.Keys
    && (forall i | i in t.matches && i !in u.matches :: OverSince(t.matches[i], now))
    && (forall i | i in u.matches ::
          || u.matches[i] == t.matches[i]
          || (t.matches[i].status.Active? && u.matches[i] == M.Opened(t.matches[i], now))
          || (t.matches[i].status.Awaiting? && t.matches[i].expiresAt <= now && u.matches[i] == M.Lapsed(t.matches[i], now)))
    && (forall r | r in t.reports :: u.reports[r] == t.reports[r] || u.reports[r] == t.reports[r].(matchId := None))
  }

  lemma Disjoint<T>(a: set<T>, b: set<T>, both: set<T>)
    requires a !! b && both == a + b
    ensures |both| == |a| + |b|
  {
  }

  /** Stretches of maintenance at one instant add up. */
  lemma CountsAdd(t: Tables, u: Tables, v: Tables, now: Instant, r: BatchResult, q: BatchResult)
    requires Maintained(t, u, now) && Maintained(u, v, now) && Counts(t, u, r) && Counts(u, v, q)
    ensures Maintained(t, v, now) && Counts(t, v, r.Plus(q))
  {
    hide OpenedRows, ExpiredRows, DeletedRows, DetachedRows, PurgedRows, Maintained;
    MaintainedOn(t, u, v, now);
    OpenedAdd(t, u, v, now);
    ExpiredAdd(t, u, v, now);
    PurgedAdd(t, u, v, now);
    DeletedAdd(t, u, v, now);
    DetachedAdd(t, u, v, now);
  }

  /** The five statements of one batch. */
  lemma FiveCounts(t0: Tables, t1: Tables, t2: Tables, t3: Tables, t4: Tables, t5: Tables, now: Instant,
      windows: nat, expired: nat, deletedMessages: nat, detachedReports: nat, purged: nat)
    requires Maintained(t0, t1, now) && Counts(t0, t1, BatchResult(windows, 0, 0, 0, 0))
    requires Maintained(t1, t2, now) && Counts(t1, t2, BatchResult(0, expired, 0, 0, 0))
    requires Maintained(t2, t3, now) && Counts(t2, t3, BatchResult(0, 0, deletedMessages, 0, 0))
    requires Maintained(t3, t4, now) && Counts(t3, t4, BatchResult(0, 0, 0, detachedReports, 0))
    requires Maintained(t4, t5, now) && Counts(t4, t5, BatchResult(0, 0, 0, 0, purged))
    ensures Maintained(t0, t5, now)
    ensures Counts(t0, t5, BatchResult(windows, expired, deletedMessages, detachedReports, purged))
  {
    hide Counts, Maintained;
    CountsAdd(t0, t1, t2, now, BatchResult(windows, 0, 0, 0, 0), BatchResult(0, expired, 0, 0, 0));
    CountsAdd(t0, t2, t3, now, BatchResult(windows, expired, 0, 0, 0), BatchResult(0, 0, deletedMessages, 0, 0));
    CountsAdd(t0, t3, t4, now, BatchResult(windows, expired, deletedMessages, 0, 0),
              BatchResult(0, 0, 0, detachedReports, 0));
    CountsAdd(t0, t4, t5, now, BatchResult(windows, expired, deletedMessages, detachedReports, 0),
              BatchResult(0, 0, 0, 0, purged));
  }

  lemma MaintainedOn(t: Tables, u: Tables, v: Tables, now: Instant)
    requires Maintained(t, u, now) && Maintained(u, v, now)
    ensures Maintained(t, v, now)
  {
  }

  /** A match goes each way once: opened rows are not due again, and expired ones are kept. */
  lemma RowGoesOnce(t: Tables, u: Tables, v: Tables, now: Instant, i: Id)
    requires Maintained(t, u, now) && Maintained(u, v, now)
    ensures i in OpenedRows(t, v) <==> i in OpenedRows(t, u) || i in OpenedRows(u, v)
    ensures !(i in OpenedRows(t, u) && i in OpenedRows(u, v))
    ensures i in ExpiredRows(t, v) <==> i in ExpiredRows(t, u) || i in ExpiredRows(u, v)
    ensures !(i in ExpiredRows(t, u) && i in ExpiredRows(u, v))
    ensures i in PurgedRows(t, v) <==> i in PurgedRows(t, u) || i in PurgedRows(u, v)
    ensures !(i in PurgedRows(t, u) && i in PurgedRows(u, v))
  {
  }

  lemma OpenedAdd(t: Tables, u: Tables, v: Tables, now: Instant)
    requires Maintained(t, u, now) && Maintained(u, v, now)
    ensures |OpenedRows(t, v)| == |OpenedRows(t, u)| + |OpenedRows(u, v)|
  {
    forall i ensures i in OpenedRows(t, v) <==> i in OpenedRows(t, u) || i in OpenedRows(u, v) {
      RowGoesOnce(t, u, v, now, i);
    }
    forall i ensures !(i in OpenedRows(t, u) && i in OpenedRows(u, v)) {
      RowGoesOnce(t, u, v, now, i);
    }
    hide OpenedRows, Maintained;
    Disjoint(OpenedRows(t, u), OpenedRows(u, v), OpenedRows(t, v));
  }

  lemma ExpiredAdd(t: Tables, u: Tables, v: Tables, now: Instant)
    requires Maintained(t, u, now) && Maintained(u, v, now)
    ensures |ExpiredRows(t, v)| == |ExpiredRows(t, u)| + |ExpiredRows(u, v)|
  {
    forall i ensures i in ExpiredRows(t, v) <==> i in ExpiredRows(t, u) || i in ExpiredRows(u, v) {
      RowGoesOnce(t, u, v, now, i);
    }
    forall i ensures !(i in ExpiredRows(t, u) && i in ExpiredRows(u, v)) {
      RowGoesOnce(t, u, v, now, i);
    }
    hide ExpiredRows, Maintained;
    Disjoint(ExpiredRows(t, u), ExpiredRows(u, v), ExpiredRows(t, v));
  }

  lemma PurgedAdd(t: Tables, u: Tables, v: Tables, now: Instant)
    requires Maintained(t, u, now) && Maintained(u, v, now)
    ensures |PurgedRows(t, v)| == |PurgedRows(t, u)| + |PurgedRows(u, v)|
  {
    forall i ensures i in PurgedRows(t, v) <==> i in PurgedRows(t, u) || i in PurgedRows(u, v) {
      RowGoesOnce(t, u, v, now, i);
    }
    forall i ensures !(i in PurgedRows(t, u) && i in PurgedRows(u, v)) {
      RowGoesOnce(t, u, v, now, i);
    }
    hide PurgedRows, Maintained;
    Disjoint(PurgedRows(t, u), PurgedRows(u, v), PurgedRows(t, v));
  }

  lemma DeletedAdd(t: Tables, u: Tables, v: Tables, now: Instant)
    requires Maintained(t, u, now) && Maintained(u, v, now)
    ensures |DeletedRows(t, v)| == |DeletedRows(t, u)| + |DeletedRows(u, v)|
  {
    assert DeletedRows(t, v) == DeletedRows(t, u) + DeletedRows(u, v);
    Disjoint(DeletedRows(t, u), DeletedRows(u, v), DeletedRows(t, v));
  }

  lemma DetachedAdd(t: Tables, u: Tables, v: Tables, now: Instant)
    requires Maintained(t, u, now) && Maintained(u, v, now)
    ensures |DetachedRows(t, v)| == |DetachedRows(t, u)| + |DetachedRows(u, v)|
  {
    assert DetachedRows(t, v) == DetachedRows(t, u) + DetachedRows(u, v);
    Disjoint(DetachedRows(t, u), DetachedRows(u, v), DetachedRows(t, v));
  }

  /** One statement, and the count that it raises. */
  lemma OpenCounts(t: Tables, chosen: set<Id>, now: Instant)
    requires chosen <= ActiveDue(t, now)
    ensures Maintained(t, OpenAll(t, chosen, now), now) && Counts(t, OpenAll(t, chosen, now), BatchResult(|chosen|, 0, 0, 0, 0))
  {
    assert OpenedRows(t, OpenAll(t, chosen, now)) == chosen;
  }

  lemma ExpireCounts(t: Tables, chosen: set<Id>, now: Instant)
    requires chosen <= AwaitingDue(t, now)
    ensures Maintained(t, ExpireAll(t, chosen, now), now)
    ensures Counts(t, ExpireAll(t, chosen, now), BatchResult(0, |chosen|, 0, 0, 0))
  {
    assert ExpiredRows(t, ExpireAll(t, chosen, now)) == chosen;
  }

  lemma DeleteCounts(t: Tables, chosen: set<Id>, now: Instant)
    requires chosen <= MessagesDue(t, now)
    ensures Maintained(t, DeleteMessages(t, chosen), now)
    ensures Counts(t, DeleteMessages(t, chosen), BatchResult(0, 0, |chosen|, 0, 0))
  {
    assert DeletedRows(t, DeleteMessages(t, chosen)) == chosen;
  }

  lemma DetachCounts(t: Tables, chosen: set<Id>, now: Instant)
    requires chosen <= ReportsDue(t, now)
    ensures Maintained(t, DetachReports(t, chosen), now)
    ensures Counts(t, DetachReports(t, chosen), BatchResult(0, 0, 0, |chosen|, 0))
  {
    assert DetachedRows(t, DetachReports(t, chosen)) == chosen;
  }

  lemma RemoveCounts(t: Tables, chosen: set<Id>, now: Instant)
    requires chosen <= Removable(t, now)
    ensures Maintained(t, RemoveMatches(t, chosen), now)
    ensures Counts(t, RemoveMatches(t, chosen), BatchResult(0, 0, 0, 0, |chosen|))
  {
    assert PurgedRows(t, RemoveMatches(t, chosen)) == chosen;
  }

  predicate ExpiresBefore(matches: map<Id, M.Match>, a: Id, b: Id) {
    a in matches && b in matches
    && (matches[a].expiresAt < matches[b].expiresAt || (matches[a].expiresAt == matches[b].expiresAt && a < b))
  }

  predicate PurgesBefore(matches: map<Id, M.Match>, a: Id, b: Id) {
    a in matches && b in matches && matches[a].purgeAfter.Some? && matches[b].purgeAfter.Some?
    && (matches[a].purgeAfter.value < matches[b].purgeAfter.value
        || (matches[a].purgeAfter.value == matches[b].purgeAfter.value && a < b))
  }

  /** By the purge date of the match, the match, the creation of the row, the row. */
  predicate RowBefore(matches: map<Id, M.Match>, matchA: Id, createdA: Instant, a: Id, matchB: Id, createdB: Instant, b: Id) {
    if matchA != matchB then PurgesBefore(matches, matchA, matchB)
    else createdA < createdB || (createdA == createdB && a < b)
  }

  predicate MessageBefore(t: Tables, a: Id, b: Id) {
    a in t.messages && b in t.messages
    && RowBefore(t.matches, t.messages[a].matchId, t.messages[a].createdAt, a,
                 t.messages[b].matchId, t.messages[b].createdAt, b)
  }

  predicate ReportBefore(t: Tables, a: Id, b: Id) {
    a in t.reports && b in t.reports && t.reports[a].matchId.Some? && t.reports[b].matchId.Some?
    && RowBefore(t.matches, t.reports[a].matchId.value, t.reports[a].createdAt, a,
                 t.reports[b].matchId.value, t.reports[b].createdAt, b)
  }

  /** The orders of the statements: what is due longest goes first, then the smaller id. */
  lemma OrderColumns(t: Tables, a: Id, b: Id)
    ensures a in t.matches && b in t.matches ==>
      (ExpiresBefore(t.matches, a, b) <==>
        t.matches[a].expiresAt < t.matches[b].expiresAt
        || (t.matches[a].expiresAt == t.matches[b].expiresAt && a < b))
    ensures a in t.matches && b in t.matches && t.matches[a].purgeAfter.Some? && t.matches[b].purgeAfter.Some? ==>
      (PurgesBefore(t.matches, a, b) <==>
        t.matches[a].purgeAfter.value < t.matches[b].purgeAfter.value
        || (t.matches[a].purgeAfter == t.matches[b].purgeAfter && a < b))
    ensures a in t.messages && b in t.messages && t.messages[a].matchId == t.messages[b].matchId ==>
      (MessageBefore(t, a, b) <==>
        t.messages[a].createdAt < t.messages[b].createdAt
        || (t.messages[a].createdAt == t.messages[b].createdAt && a < b))
    ensures a in t.messages && b in t.messages && t.messages[a].matchId != t.messages[b].matchId ==>
      (MessageBefore(t, a, b) <==> PurgesBefore(t.matches, t.messages[a].matchId, t.messages[b].matchId))
    ensures a in t.reports && b in t.reports && t.reports[a].matchId.Some? && t.reports[b].matchId == t.reports[a].matchId ==>
      (ReportBefore(t, a, b) <==>
        t.reports[a].createdAt < t.reports[b].createdAt
        || (t.reports[a].createdAt == t.reports[b].createdAt && a < b))
    ensures a in t.reports && b in t.reports && t.reports[a].matchId.Some? && t.reports[b].matchId.Some? ==>
      t.reports[b].matchId != t.reports[a].matchId ==>
      (ReportBefore(t, a, b) <==> PurgesBefore(t.matches, t.reports[a].matchId.value, t.reports[b].matchId.value))
  {
  }

  lemma ExpiryOrder(t: Tables, rows: set<Id>)
    requires rows <= t.matches.Keys
    ensures Sql.StrictOrder(rows, (a, b) => ExpiresBefore(t.matches, a, b))
  {
  }

  lemma PurgeOrder(t: Tables, rows: set<Id>, now: Instant)
    requires rows <= PurgeDue(t, now)
    ensures Sql.StrictOrder(rows, (a, b) => PurgesBefore(t.matches, a, b))
  {
  }

  lemma MessageOrder(t: Tables, rows: set<Id>, now: Instant)
    requires rows <= MessagesDue(t, now)
    ensures Sql.StrictOrder(rows, (a, b) => MessageBefore(t, a, b))
  {
  }

  lemma ReportOrder(t: Tables, rows: set<Id>, now: Instant)
    requires rows <= ReportsDue(t, now)
    ensures Sql.StrictOrder(rows, (a, b) => ReportBefore(t, a, b))
  {
  }

  /** Taking fewer rows than the limit, with none locked, means that there were no more. */
  lemma ShortStatement<T(!new)>(due: set<T>, locked: set<T>, before: (T, T) -> bool, limit: nat, chosen: set<T>)
    requires Sql.Limited(due - locked, before, limit, chosen)
    ensures chosen <= due && |chosen| <= limit
    ensures locked == {} && |chosen| < limit ==> chosen == due
  {
    if locked == {} && |chosen| < limit {
      assert due - locked == due;
      Sql.ShortMeansAll(due, before, limit, chosen);
    }
  }

  // ---------------------------------------------------------------- the repository

  datatype MaintenanceResult = MaintenanceResult(counts: BatchResult, batches: nat, workRemaining: bool)

  class MatchMaintenanceRepository {
    var tables: Tables

    constructor (tables: Tables)
      ensures this.tables == tables
    {
      this.tables := tables;
    }

    method OpenDue(now: Instant, batchSize: nat, locks: Locks) returns (count: nat, ghost chosen: set<Id>)
      modifies this
      ensures Maintained(old(tables), tables, now) && Counts(old(tables), tables, BatchResult(count, 0, 0, 0, 0))
      ensures tables == OpenAll(old(tables), chosen, now) && count == |chosen|
      ensures KeepsMachine(old(tables).matches, tables.matches)
      ensures Sql.Limited(ActiveDue(old(tables), now) - locks.matches, (a, b) => ExpiresBefore(old(tables).matches, a, b), batchSize, chosen)
      ensures ActiveDue(tables, now) <= ActiveDue(old(tables), now) && AwaitingDue(tables, now) == AwaitingDue(old(tables), now)
      ensures Work(old(tables), now) == Work(tables, now) + count && count <= batchSize
      ensures old(tables).References() ==> tables.References()
      ensures locks.matches == {} && count < batchSize ==> ActiveDue(tables, now) == {}
    {
      hide Counts, Maintained;
      var due := ActiveDue(tables, now);
      ExpiryOrder(tables, due - locks.matches);
      var t := tables;
      var before := (a, b) => ExpiresBefore(t.matches, a, b);
      var rows := Sql.Limit(due - locks.matches, before, batchSize);
      ShortStatement(due, locks.matches, before, batchSize, rows);
      chosen := rows;
      OpenCounts(tables, chosen, now);
      OpenProgress(tables, chosen, now);
      StatementKeepsMachine(Opening, t.matches, chosen, now);
      tables := OpenAll(tables, rows, now);
      count := |rows|;
    }

    method ExpireDue(now: Instant, batchSize: nat, locks: Locks) returns (count: nat, ghost chosen: set<Id>)
      modifies this
      ensures Maintained(old(tables), tables, now) && Counts(old(tables), tables, BatchResult(0, count, 0, 0, 0))
      ensures tables == ExpireAll(old(tables), chosen, now) && count == |chosen|
      ensures KeepsMachine(old(tables).matches, tables.matches)
      ensures Sql.Limited(AwaitingDue(old(tables), now) - locks.matches, (a, b) => ExpiresBefore(old(tables).matches, a, b), batchSize, chosen)
      ensures ActiveDue(tables, now) == ActiveDue(old(tables), now)
      ensures Work(old(tables), now) == Work(tables, now) + count && count <= batchSize
      ensures old(tables).References() ==> tables.References()
      ensures locks.matches == {} && count < batchSize ==> AwaitingDue(tables, now) == {}
    {
      hide Counts, Maintained;
      var due := AwaitingDue(tables, now);
      ExpiryOrder(tables, due - locks.matches);
      var t := tables;
      var before := (a, b) => ExpiresBefore(t.matches, a, b);
      var rows := Sql.Limit(due - locks.matches, before, batchSize);
      ShortStatement(due, locks.matches, before, batchSize, rows);
      chosen := rows;
      ExpireCounts(tables, chosen, now);
      ExpireProgress(tables, chosen, now);
      StatementKeepsMachine(Expiring, t.matches, chosen, now);
      tables := ExpireAll(tables, rows, now);
      count := |rows|;
    }

    method DeleteDueMessages(now: Instant, batchSize: nat, locks: Locks) returns (count: nat, ghost chosen: set<Id>)
      modifies this
      ensures Maintained(old(tables), tables, now) && Counts(old(tables), tables, BatchResult(0, 0, count, 0, 0))
      ensures tables == DeleteMessages(old(tables), chosen) && tables.matches == old(tables).matches && count == |chosen|
      ensures Sql.Limited(MessagesDue(old(tables), now) - locks.messages, (a, b) => MessageBefore(old(tables), a, b), batchSize, chosen)
      ensures ActiveDue(tables, now) == ActiveDue(old(tables), now) && AwaitingDue(tables, now) == AwaitingDue(old(tables), now)
      ensures Work(old(tables), now) == Work(tables, now) + count && count <= batchSize
      ensures old(tables).References() ==> tables.References()
      ensures locks.messages == {} && count < batchSize ==> MessagesDue(tables, now) == {}
    {
      hide Counts, Maintained;
      var due := MessagesDue(tables, now);
      MessageOrder(tables, due - locks.messages, now);
      var t := tables;
      var before := (a, b) => MessageBefore(t, a, b);
      var rows := Sql.Limit(due - locks.messages, before, batchSize);
      ShortStatement(due, locks.messages, before, batchSize, rows);
      chosen := rows;
      DeleteCounts(tables, chosen, now);
      DeleteProgress(tables, chosen, now);
      tables := DeleteMessages(tables, rows);
      count := |rows|;
    }

    method DetachDueReports(now: Instant, batchSize: nat, locks: Locks) returns (count: nat, ghost chosen: set<Id>)
      modifies this
      ensures Maintained(old(tables), tables, now) && Counts(old(tables), tables, BatchResult(0, 0, 0, count, 0))
      ensures tables == DetachReports(old(tables), chosen) && tables.matches == old(tables).matches && count == |chosen|
      ensures Sql.Limited(ReportsDue(old(tables), now) - locks.reports, (a, b) => ReportBefore(old(tables), a, b), batchSize, chosen)
      ensures ActiveDue(tables, now) == ActiveDue(old(tables), now) && AwaitingDue(tables, now) == AwaitingDue(old(tables), now)
      ensures MessagesDue(tables, now) == MessagesDue(old(tables), now)
      ensures Work(old(tables), now) == Work(tables, now) + count && count <= batchSize
      ensures old(tables).References() ==> tables.References()
      ensures locks.reports == {} && count < batchSize ==> ReportsDue(tables, now) == {}
    {
      hide Counts, Maintained;
      var due := ReportsDue(tables, now);
      ReportOrder(tables, due - locks.reports, now);
      var t := tables;
      var before := (a, b) => ReportBefore(t, a, b);
      var rows := Sql.Limit(due - locks.reports, before, batchSize);
      ShortStatement(due, locks.reports, before, batchSize, rows);
      chosen := rows;
      DetachCounts(tables, chosen, now);
      DetachProgress(tables, chosen, now);
      tables := DetachReports(tables, rows);
      count := |rows|;
    }

    /** Deletes only matches that nothing mentions. */
    method PurgeDueMatches(now: Instant, batchSize: nat, locks: Locks) returns (count: nat, ghost chosen: set<Id>)
      modifies this
      ensures Maintained(old(tables), tables, now) && Counts(old(tables), tables, BatchResult(0, 0, 0, 0, count))
      ensures tables == RemoveMatches(old(tables), chosen) && count == |chosen|
      ensures KeepsMachine(old(tables).matches, tables.matches)
      ensures Sql.Limited(Removable(old(tables), now) - locks.matches, (a, b) => PurgesBefore(old(tables).matches, a, b), batchSize, chosen)
      ensures ActiveDue(tables, now) == ActiveDue(old(tables), now) && AwaitingDue(tables, now) == AwaitingDue(old(tables), now)
      ensures MessagesDue(tables, now) == MessagesDue(old(tables), now) && ReportsDue(tables, now) == ReportsDue(old(tables), now)
      ensures Work(old(tables), now) == Work(tables, now) + count && count <= batchSize
      ensures old(tables).References() ==> tables.References()
      ensures forall i | i in old(tables).matches && i !in tables.matches ::
        DuePurge(old(tables), i, now) && !old(tables).Mentioned(i)
      ensures locks.matches == {} && count < batchSize && MessagesDue(tables, now) == {} && ReportsDue(tables, now) == {} ==>
        PurgeDue(tables, now) == {}
    {
      hide Counts, Maintained;
      var due := Removable(tables, now);
      PurgeOrder(tables, due - locks.matches, now);
      var t := tables;
      var before := (a, b) => PurgesBefore(t.matches, a, b);
      var rows := Sql.Limit(due - locks.matches, before, batchSize);
      ShortStatement(due, locks.matches, before, batchSize, rows);
      chosen := rows;
      RemoveCounts(tables, chosen, now);
      RemoveProgress(tables, chosen, now);
      StatementKeepsMachine(Removing, t.matches, chosen, now);
      tables := RemoveMatches(tables, rows);
      count := |rows|;
      if MessagesDue(tables, now) == {} && ReportsDue(tables, now) == {} {
        NothingMentionsDueMatches(t, now);
      }
    }

    /**
     * One batch lowers the work by exactly what it reports, and keeps the invariants of the match machine; one that
     * is not full, with nothing locked, leaves no work.
     */
    method RunMaintenance(now: Instant, batchSize: nat, locks: Locks) returns (result: BatchResult)
      modifies this
      ensures Counts(old(tables), tables, result) && Maintained(old(tables), tables, now)
      ensures Work(old(tables), now) == Work(tables, now) + result.Total()
      ensures old(tables).References() ==> tables.References()
      ensures KeepsMachine(old(tables).matches, tables.matches)
      ensures locks == NO_LOCKS && !BatchIsFull(result, batchSize) ==> Work(tables, now) == 0
    {
      hide ActiveDue, AwaitingDue, MessagesDue, ReportsDue, PurgeDue, Removable, DuePurge, M.Inv;
      hide OpenAll, ExpireAll, DeleteMessages, DetachReports, RemoveMatches, Sql.Limited, Tables.References;
      hide Counts, Maintained;
      ghost var t0 := tables;
      var windows, _ := OpenDue(now, batchSize, locks);
      ghost var t1 := tables;
      var expired, _ := ExpireDue(now, batchSize, locks);
      ghost var t2 := tables;
      var deletedMessages, _ := DeleteDueMessages(now, batchSize, locks);
      ghost var t3 := tables;
      var detachedReports, _ := DetachDueReports(now, batchSize, locks);
      ghost var t4 := tables;
      var purged, _ := PurgeDueMatches(now, batchSize, locks);
      FiveCounts(t0, t1, t2, t3, t4, tables, now, windows, expired, deletedMessages, detachedReports, purged);
      result := BatchResult(windows, expired, deletedMessages, detachedReports, purged);
    }

    /**
     * The leader's loop; `locks(k)` is what others hold locked during batch k. The totals account for all the work
     * done. After at least one batch, and with nothing locked during the last one, no work is left if
     * `workRemaining` is false, which it is whenever there was less work than maxBatches times batchSize.
     * Without any batch the answer is false, and means nothing.
     */
    method RunMaintenanceAsLeader(acquired: bool, now: Instant, batchSize: nat, maxBatches: nat, locks: nat -> Locks)
        returns (totals: Option<MaintenanceResult>)
      modifies this
      ensures totals.Some? <==> acquired
      ensures totals.None? || maxBatches == 0 ==> tables == old(tables)
      ensures totals.Some? ==> Work(old(tables), now) == Work(tables, now) + totals.value.counts.Total()
      ensures totals.Some? ==> Counts(old(tables), tables, totals.value.counts)
      ensures totals.Some? ==> totals.value.batches <= maxBatches && (totals.value.batches > 0 <==> maxBatches > 0)
      ensures totals.Some? && maxBatches == 0 ==> !totals.value.workRemaining
      ensures totals.Some? && maxBatches > 0 && !totals.value.workRemaining && locks(totals.value.batches - 1) == NO_LOCKS ==>
        Work(tables, now) == 0
      ensures totals.Some? && totals.value.workRemaining ==> totals.value.batches == maxBatches
      ensures totals.Some? && Work(old(tables), now) < maxBatches * batchSize ==>
        maxBatches > 0 && !totals.value.workRemaining
      ensures totals.Some? && Work(old(tables), now) < maxBatches * batchSize && (forall k :: locks(k) == NO_LOCKS) ==>
        Work(tables, now) == 0
      ensures old(tables).References() ==> tables.References()
      ensures KeepsMachine(old(tables).matches, tables.matches)
    {
      hide Work, M.Inv, Tables.References, Counts, Maintained, KeepsMachine, Budget, BatchIsFull;
      hide BatchResult.Plus, BatchResult.Total;
      NothingYet(tables, now);
      BudgetIsProduct(0, batchSize);
      BudgetIsProduct(maxBatches, batchSize);
      if !acquired {
        return None;
      }
      var counts := BatchResult(0, 0, 0, 0, 0);
      assert counts.Total() == 0 by {
        NoCounts();
      }
      var batches: nat, workRemaining := 0, false;
      while batches < maxBatches
        invariant batches <= maxBatches
        invariant batches == 0 ==> tables == old(tables)
        invariant Work(old(tables), now) == Work(tables, now) + counts.Total()
        invariant old(tables).References() ==> tables.References()
        invariant KeepsMachine(old(tables).matches, tables.matches)
        invariant workRemaining <==> batches > 0
        invariant counts.Total() >= Budget(batches, batchSize)
        invariant Maintained(old(tables), tables, now) && Counts(old(tables), tables, counts)
      {
        ghost var before := tables;
        var result := RunMaintenance(now, batchSize, locks(batches));
        FullBatches(counts.Total(), result, batches, batchSize);
        CountsAdd(old(tables), before, tables, now, counts, result);
        KeepsOn(old(tables).matches, before.matches, tables.matches);
        counts := counts.Plus(result);
        batches := batches + 1;
        workRemaining := BatchIsFull(result, batchSize);
        if !workRemaining {
          break;
        }
      }
      totals := Some(MaintenanceResult(counts, batches, workRemaining));
    }
  }

  lemma KeepsOn(a: map<Id, M.Match>, b: map<Id, M.Match>, c: map<Id, M.Match>)
    requires KeepsMachine(a, b) && KeepsMachine(b, c)
    ensures KeepsMachine(a, c)
  {
    hide M.Inv;
    forall db: M.Db | M.Inv(db) && db.matches == a ensures M.Inv(db.(matches := c)) {
      assert M.Inv(db.(matches := b));
      assert db.(matches := b).(matches := c) == db.(matches := c);
    }
  }

  lemma NothingYet(t: Tables, now: Instant)
    ensures KeepsMachine(t.matches, t.matches)
    ensures Maintained(t, t, now) && Counts(t, t, BatchResult(0, 0, 0, 0, 0))
  {
    hide M.Inv;
    forall db: M.Db | M.Inv(db) && db.matches == t.matches ensures M.Inv(db.(matches := t.matches)) {
      assert db.(matches := t.matches) == db;
    }
  }

  lemma NoCounts()
    ensures BatchResult(0, 0, 0, 0, 0).Total() == 0
  {
  }

  /** What `batches` full batches do at least. */
  function Budget(batches: nat, batchSize: nat): nat {
    batches * batchSize
  }

  lemma BudgetIsProduct(batches: nat, batchSize: nat)
    ensures Budget(batches, batchSize) == batches * batchSize
  {
  }

  lemma FullBatches(done: nat, result: BatchResult, batches: nat, batchSize: nat)
    requires done >= Budget(batches, batchSize)
    ensures BatchIsFull(result, batchSize) ==> done + result.Total() >= Budget(batches + 1, batchSize)
  {
    assert (batches + 1) * batchSize == batches * batchSize + batchSize;
  }

  // ---------------------------------------------------------------- batches are runs of the match machine

  function StatementOp(statement: Statement, id: Id, now: Instant): M.Op {
    match statement
    case Opening => M.OpenWindow(id, now)
    case Expiring => M.ExpireAwaiting(id, now)
    case Removing => M.Purge(id, now)
  }

  /** The condition under which the statement chooses a match. */
  predicate DueFor(statement: Statement, m: M.Match, now: Instant) {
    match statement
    case Opening => m.status.Active? && m.expiresAt <= now
    case Expiring => m.status.Awaiting? && m.expiresAt <= now
    case Removing => M.Purgeable(m, now)
  }

  ghost predicate AllDue(statement: Statement, matches: map<Id, M.Match>, ids: set<Id>, now: Instant) {
    forall i | i in ids :: i in matches && DueFor(statement, matches[i], now)
  }

  /** The single-row transactions of the match machine, for the ids in this order. */
  ghost function OneByOne(db: M.Db, statement: Statement, ids: seq<Id>, now: Instant): M.Db
    requires Sql.Distinct(ids) && AllDue(statement, db.matches, Sql.Elements(ids), now)
    decreases |ids|
  {
    if ids == [] then db
    else
      OneStep(db, statement, ids, now);
      OneByOne(M.Apply(db, StatementOp(statement, ids[0], now)), statement, ids[1..], now)
  }

  lemma OneStep(db: M.Db, statement: Statement, ids: seq<Id>, now: Instant)
    requires ids != [] && Sql.Distinct(ids) && AllDue(statement, db.matches, Sql.Elements(ids), now)
    ensures M.Enabled(db, StatementOp(statement, ids[0], now))
    ensures var next := M.Apply(db, StatementOp(statement, ids[0], now));
      && next == db.(matches := MatchesAfter(statement, db.matches, {ids[0]}, now))
      && Sql.Distinct(ids[1..]) && AllDue(statement, next.matches, Sql.Elements(ids[1..]), now)
  {
    assert ids[0] in Sql.Elements(ids);
    SplitElements(ids);
    hide Sql.Elements;
    RowStep(db, statement, ids[0], now);
    hide M.Apply, StatementOp, DueFor;
  }

  lemma SplitElements(ids: seq<Id>)
    requires ids != [] && Sql.Distinct(ids)
    ensures Sql.Distinct(ids[1..]) && ids[0] !in Sql.Elements(ids[1..])
    ensures Sql.Elements(ids) == Sql.Elements(ids[1..]) + {ids[0]}
  {
    assert forall k | 0 < k < |ids| :: ids[k] == ids[1..][k - 1];
  }

  lemma RowStep(db: M.Db, statement: Statement, id: Id, now: Instant)
    requires id in db.matches && DueFor(statement, db.matches[id], now)
    ensures M.Enabled(db, StatementOp(statement, id, now))
    ensures M.Apply(db, StatementOp(statement, id, now)) == db.(matches := MatchesAfter(statement, db.matches, {id}, now))
  {
  }

  /**
   * A statement over many due rows does what the single-row transactions of the match machine do one after the
   * other, in any order, so it keeps every invariant of that machine.
   */
  lemma {:induction false} BatchIsSteps(db: M.Db, statement: Statement, ids: seq<Id>, now: Instant)
    requires Sql.Distinct(ids) && AllDue(statement, db.matches, Sql.Elements(ids), now)
    ensures OneByOne(db, statement, ids, now) == db.(matches := MatchesAfter(statement, db.matches, Sql.Elements(ids), now))
    ensures M.Inv(db) ==> M.Inv(OneByOne(db, statement, ids, now))
    decreases |ids|
  {
    hide M.Inv, M.Apply, StatementOp, DueFor;
    if ids == [] {
      assert MatchesAfter(statement, db.matches, {}, now) == db.matches;
    } else {
      OneStep(db, statement, ids, now);
      var next := M.Apply(db, StatementOp(statement, ids[0], now));
      if M.Inv(db) {
        M.StepKeepsInv(db, StatementOp(statement, ids[0], now));
      }
      BatchIsSteps(next, statement, ids[1..], now);
      SplitElements(ids);
      OneAndTheRest(statement, db.matches, ids[0], Sql.Elements(ids[1..]), now);
    }
  }

  lemma OneAndTheRest(statement: Statement, matches: map<Id, M.Match>, id: Id, rest: set<Id>, now: Instant)
    requires id in matches && id !in rest
    ensures MatchesAfter(statement, MatchesAfter(statement, matches, {id}, now), rest, now)
         == MatchesAfter(statement, matches, rest + {id}, now)
  {
  }

  /** Whatever the other tables hold, a database of the match machine stays one. */
  ghost predicate KeepsMachine(matches: map<Id, M.Match>, after: map<Id, M.Match>) {
    forall db: M.Db | M.Inv(db) && db.matches == matches :: M.Inv(db.(matches := after))
  }

  lemma StatementKeepsMachine(statement: Statement, matches: map<Id, M.Match>, chosen: set<Id>, now: Instant)
    requires AllDue(statement, matches, chosen, now)
    ensures KeepsMachine(matches, MatchesAfter(statement, matches, chosen, now))
  {
    hide M.Inv, MatchesAfter, AllDue;
    var ids := Listed(chosen);
    forall db: M.Db | M.Inv(db) && db.matches == matches
      ensures M.Inv(db.(matches := MatchesAfter(statement, matches, chosen, now)))
    {
      BatchIsSteps(db, statement, ids, now);
    }
  }

  lemma {:induction false} Listed(chosen: set<Id>) returns (ids: seq<Id>)
    ensures Sql.Distinct(ids) && Sql.Elements(ids) == chosen
  {
    ids := [];
    if chosen != {} {
      var id :| id in chosen;
      var rest := Listed(chosen - {id});
      ids := [id] + rest;
      assert ids[1..] == rest;
      assert Sql.Elements(ids) == Sql.Elements(rest) + {id};
    }
  }
}
