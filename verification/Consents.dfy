// The consent log: an append-only history of grants and withdrawals, the two ways in which the service reads it, and
// the personal data that may be stored only under a consent.

module Consents {
  import opened Options

  type User = nat

  datatype Choice = Terms | Privacy | Sensitive | Location

  /** One row; its place in the log is its event sequence. */
  datatype Event = Event(user: User, choice: Choice, granted: bool, version: string, withdrawn: bool)

  type Log = seq<Event>

  type Versions = map<Choice, string>

  datatype State = State(
    accounts: map<User, bool>,  // the accounts, and whether they are deleted
    log: Log,
    sex: set<User>,  // users whose profile stores a sex
    profiles: set<User>,
    preferences: set<User>,
    presence: set<User>)
  {
    predicate Live(u: User) {
      u in accounts && !accounts[u]
    }
  }

  datatype Change = Change(choice: Choice, granted: bool, version: string)

  datatype Op =
    | RecordConsents(user: User, changes: seq<Change>)
    | UpsertProfile(user: User, withSex: bool, versions: Versions)
    | UpsertPreferences(user: User, versions: Versions)
    | UpsertPresence(user: User, versions: Versions)
    | ExpirePresence(gone: set<User>)
    | Join(user: User)
    | DeleteAccount(user: User)
    | Anonymize(user: User)

  // ---------------------------------------------------------------- reading the log

  predicate Of(e: Event, u: User, c: Choice) {
    e.user == u && e.choice == c
  }

  /** ORDER BY event_sequence DESC LIMIT 1. */
  function Latest(log: Log, u: User, c: Choice): (i: Option<nat>)
    ensures i.Some? ==> i.value < |log| && Of(log[i.value], u, c)
    ensures forall k | 0 <= k < |log| && (i.None? || i.value < k) :: !Of(log[k], u, c)
  {
    if log == [] then None
    else
      var n := |log| - 1;
      if Of(log[n], u, c) then Some(n) else Latest(log[..n], u, c)
  }

  predicate IsActive(e: Event, u: User, c: Choice) {
    Of(e, u, c) && e.granted && !e.withdrawn
  }

  /** The rows WHERE granted AND withdrawn_at IS NULL. */
  function Active(log: Log, u: User, c: Choice): set<nat> {
    set k: nat | k < |log| && IsActive(log[k], u, c)
  }

  /** The guard's EXISTS over the active rows. */
  predicate HasActive(log: Log, u: User, c: Choice, version: string) {
    exists k | 0 <= k < |log| :: IsActive(log[k], u, c) && log[k].version == version
  }

  /** What the reader of latest events sees. */
  predicate LatestGrants(log: Log, u: User, c: Choice, version: string) {
    Latest(log, u, c).Some? && log[Latest(log, u, c).value].granted && log[Latest(log, u, c).value].version == version
  }

  // ---------------------------------------------------------------- writing it

  function Withdrawn(log: Log, u: User, c: Choice): Log {
    seq(|log|, k requires 0 <= k < |log| => if IsActive(log[k], u, c) then log[k].(withdrawn := true) else log[k])
  }

  predicate Unchanged(log: Log, u: User, change: Change) {
    var i := Latest(log, u, change.choice);
    i.Some? && log[i.value].granted == change.granted && log[i.value].version == change.version
  }

  function Appended(log: Log, u: User, change: Change): Log {
    Withdrawn(log, u, change.choice) + [Event(u, change.choice, change.granted, change.version, !change.granted)]
  }

  /** One change: nothing if it says what the latest event says; a withdrawal also takes the data it covered. */
  function RecordedOne(s: State, u: User, change: Change): State {
    if Unchanged(s.log, u, change) then s
    else
      var logged := s.(log := Appended(s.log, u, change));
      if change.granted then logged
      else match change.choice
        case Sensitive => logged.(sex := s.sex - {u}, preferences := s.preferences - {u})
        case Location => logged.(presence := s.presence - {u})
        case _ => logged
  }

  function RecordedAll(s: State, u: User, changes: seq<Change>): State {
    if changes == [] then s
    else
      var n := |changes| - 1;
      RecordedOne(RecordedAll(s, u, changes[..n]), u, changes[n])
  }

  /** Terms, privacy notice and, where asked for, one sensitive consent, each active in the required version. */
  predicate Covered(log: Log, u: User, sensitive: Option<Choice>, versions: Versions) {
    forall c | c in Required(sensitive) :: c in versions && HasActive(log, u, c, versions[c])
  }

  function Required(sensitive: Option<Choice>): set<Choice> {
    {Terms, Privacy} + (if sensitive.Some? then {sensitive.value} else {})
  }

  function Apply(s: State, op: Op): State {
    match op
    case RecordConsents(u, changes) => if s.Live(u) then RecordedAll(s, u, changes) else s
    case UpsertProfile(u, withSex, versions) =>
      if s.Live(u) && Covered(s.log, u, if withSex then Some(Sensitive) else None, versions)
      then s.(profiles := s.profiles + {u}, sex := if withSex then s.sex + {u} else s.sex - {u}) else s
    case UpsertPreferences(u, versions) =>
      if s.Live(u) && Covered(s.log, u, Some(Sensitive), versions) then s.(preferences := s.preferences + {u}) else s
    case UpsertPresence(u, versions) =>
      if s.Live(u) && Covered(s.log, u, Some(Location), versions) then s.(presence := s.presence + {u}) else s
    case ExpirePresence(gone) => s.(presence := s.presence - gone)
    case Join(u) => if u in s.accounts then s else s.(accounts := s.accounts[u := false])
    case DeleteAccount(u) => if u in s.accounts then s.(accounts := s.accounts[u := true]) else s
    case Anonymize(u) =>
      if !(u in s.accounts && s.accounts[u]) then s
      else s.(log := AllWithdrawn(s.log, u), sex := s.sex - {u}, profiles := s.profiles - {u},
              preferences := s.preferences - {u}, presence := s.presence - {u})
  }

  function AllWithdrawn(log: Log, u: User): Log {
    seq(|log|, k requires 0 <= k < |log| => if log[k].user == u then log[k].(withdrawn := true) else log[k])
  }

  // ---------------------------------------------------------------- the invariant

  /** The active row of a user and a choice is the latest event, if that is a grant; there is no other. */
  predicate ChoiceOk(log: Log, u: User, c: Choice) {
    var i := Latest(log, u, c);
    Active(log, u, c) == if i.Some? && log[i.value].granted then {i.value} else {}
  }

  predicate DataOk(s: State, u: User) {
    && (u in s.sex ==> Active(s.log, u, Sensitive) != {} && u in s.profiles)
    && (u in s.preferences ==> Active(s.log, u, Sensitive) != {})
    && (u in s.presence ==> Active(s.log, u, Location) != {})
  }

  ghost predicate Inv(s: State) {
    && (forall u, c | s.Live(u) :: ChoiceOk(s.log, u, c))
    && (forall u | s.Live(u) :: DataOk(s, u))
    && (forall u | u in s.sex || u in s.preferences || u in s.presence :: u in s.accounts)
    && (forall k | 0 <= k < |s.log| :: s.log[k].user in s.accounts)
  }

  // ---------------------------------------------------------------- appending

  lemma LatestIs(log: Log, u: User, c: Choice, i: nat)
    requires i < |log| && Of(log[i], u, c) && forall k | i < k < |log| :: !Of(log[k], u, c)
    ensures Latest(log, u, c) == Some(i)
  {
  }

  /** After a change the latest event of its choice is that change, and the active rows follow it. */
  lemma AppendedChoice(log: Log, u: User, change: Change)
    ensures ChoiceOk(Appended(log, u, change), u, change.choice)
    ensures LatestGrants(Appended(log, u, change), u, change.choice, change.version) <==> change.granted
  {
    var next := Appended(log, u, change);
    LatestIs(next, u, change.choice, |log|);
    assert forall k | 0 <= k < |log| :: next[k] == Withdrawn(log, u, change.choice)[k];
    assert |log| in Active(next, u, change.choice) <==> change.granted;
  }

  /** Other users and other choices are not concerned. */
  lemma AppendedOther(log: Log, u: User, change: Change, v: User, c: Choice)
    requires v != u || c != change.choice
    ensures Active(Appended(log, u, change), v, c) == Active(log, v, c)
    ensures Latest(Appended(log, u, change), v, c) == Latest(log, v, c)
    ensures ChoiceOk(log, v, c) ==> ChoiceOk(Appended(log, u, change), v, c)
  {
    var next := Appended(log, u, change);
    assert forall k | 0 <= k < |log| :: next[k] == Withdrawn(log, u, change.choice)[k];
    assert forall k | 0 <= k < |log| :: Of(next[k], v, c) == Of(log[k], v, c);
    var i := Latest(log, v, c);
    if i.Some? {
      LatestIs(next, v, c, i.value);
      assert next[i.value].granted == log[i.value].granted;
    }
    forall k: nat | k < |next| ensures k in Active(next, v, c) <==> k in Active(log, v, c) {
      assert k < |log| ==> IsActive(next[k], v, c) == IsActive(log[k], v, c);
    }
  }

  lemma RecordOneKeepsInv(s: State, u: User, change: Change)
    requires Inv(s) && s.Live(u)
    ensures Inv(RecordedOne(s, u, change)) && RecordedOne(s, u, change).accounts == s.accounts
  {
    if !Unchanged(s.log, u, change) {
      var t := RecordedOne(s, u, change);
      hide Unchanged, Latest;
      forall v, c | t.Live(v) ensures ChoiceOk(t.log, v, c) {
        assert ChoiceOk(s.log, v, c);
        if v == u && c == change.choice {
          AppendedChoice(s.log, u, change);
        } else {
          AppendedOther(s.log, u, change, v, c);
        }
      }
      forall v | t.Live(v) ensures DataOk(t, v) {
        DataFollows(s, u, change, v);
      }
      assert forall k | 0 <= k < |s.log| :: t.log[k].user == s.log[k].user;
    }
  }

  lemma DataFollows(s: State, u: User, change: Change, v: User)
    requires Inv(s) && s.Live(u) && s.Live(v) && !Unchanged(s.log, u, change)
    ensures DataOk(RecordedOne(s, u, change), v)
  {
    assert DataOk(s, v);
    forall c ensures
      Active(s.log, v, c) != {} && !(v == u && c == change.choice && !change.granted) ==>
        Active(Appended(s.log, u, change), v, c) != {}
    {
      if v == u && c == change.choice {
        assert IsActive(Appended(s.log, u, change)[|s.log|], u, c) <==> change.granted;
        assert change.granted ==> |s.log| in Active(Appended(s.log, u, change), u, c);
      } else {
        AppendedOther(s.log, u, change, v, c);
      }
    }
    hide Active, Unchanged, Appended;
  }

  lemma {:induction false} RecordAllKeepsInv(s: State, u: User, changes: seq<Change>)
    requires Inv(s) && s.Live(u)
    ensures Inv(RecordedAll(s, u, changes)) && RecordedAll(s, u, changes).accounts == s.accounts
    decreases |changes|
  {
    hide RecordedOne, Inv;
    if changes != [] {
      var n := |changes| - 1;
      RecordAllKeepsInv(s, u, changes[..n]);
      RecordOneKeepsInv(RecordedAll(s, u, changes[..n]), u, changes[n]);
    }
  }

  lemma CoveredHasActive(log: Log, u: User, sensitive: Choice, versions: Versions)
    requires Covered(log, u, Some(sensitive), versions)
    ensures Active(log, u, sensitive) != {}
  {
    assert sensitive in Required(Some(sensitive));
    var k :| 0 <= k < |log| && IsActive(log[k], u, sensitive) && log[k].version == versions[sensitive];
    assert k in Active(log, u, sensitive);
  }

  lemma StepKeepsInv(s: State, op: Op)
    requires Inv(s)
    ensures Inv(Apply(s, op))
  {
    match op {
      case RecordConsents(u, changes) =>
        if s.Live(u) {
          RecordAllKeepsInv(s, u, changes);
        }
      case UpsertProfile(u, withSex, versions) =>
        if withSex && Covered(s.log, u, Some(Sensitive), versions) {
          CoveredHasActive(s.log, u, Sensitive, versions);
        }
        DataStepKeepsInv(s, op);
      case UpsertPreferences(u, versions) =>
        if Covered(s.log, u, Some(Sensitive), versions) {
          CoveredHasActive(s.log, u, Sensitive, versions);
        }
        DataStepKeepsInv(s, op);
      case UpsertPresence(u, versions) =>
        if Covered(s.log, u, Some(Location), versions) {
          CoveredHasActive(s.log, u, Location, versions);
        }
        DataStepKeepsInv(s, op);
      case Anonymize(u) => AnonymizeKeepsInv(s, u);
      case Join(u) => JoinKeepsInv(s, u);
      case _ => DataStepKeepsInv(s, op);
    }
  }

  lemma DataStepKeepsInv(s: State, op: Op)
    requires Inv(s)
    requires !op.RecordConsents? && !op.Anonymize? && !op.Join?
    requires op.UpsertProfile? && op.withSex && Covered(s.log, op.user, Some(Sensitive), op.versions) ==>
      Active(s.log, op.user, Sensitive) != {}
    requires op.UpsertPreferences? && Covered(s.log, op.user, Some(Sensitive), op.versions) ==>
      Active(s.log, op.user, Sensitive) != {}
    requires op.UpsertPresence? && Covered(s.log, op.user, Some(Location), op.versions) ==>
      Active(s.log, op.user, Location) != {}
    ensures Inv(Apply(s, op))
  {
    hide Covered, ChoiceOk, Active;
    var t := Apply(s, op);
    forall u | t.Live(u) ensures DataOk(t, u) {
      assert s.Live(u) && DataOk(s, u);
    }
  }

  lemma AnonymizeKeepsInv(s: State, u: User)
    requires Inv(s)
    ensures Inv(Apply(s, Anonymize(u)))
  {
    var t := Apply(s, Anonymize(u));
    if u in s.accounts && s.accounts[u] {
      forall v, c | t.Live(v)
        ensures ChoiceOk(t.log, v, c) && Active(t.log, v, c) == Active(s.log, v, c)
      {
        assert ChoiceOk(s.log, v, c) && v != u;
        assert forall k | 0 <= k < |s.log| :: Of(t.log[k], v, c) == Of(s.log[k], v, c);
        assert forall k | 0 <= k < |s.log| :: IsActive(t.log[k], v, c) == IsActive(s.log[k], v, c);
        SameLatest(s.log, t.log, v, c);
      }
      hide Active, ChoiceOk, Latest;
      forall v | t.Live(v) ensures DataOk(t, v) {
        assert DataOk(s, v);
      }
    }
  }

  lemma SameLatest(a: Log, b: Log, u: User, c: Choice)
    requires |a| == |b| && forall k | 0 <= k < |a| :: Of(a[k], u, c) == Of(b[k], u, c)
    ensures Latest(a, u, c) == Latest(b, u, c)
  {
    var i := Latest(a, u, c);
    if i.Some? {
      LatestIs(b, u, c, i.value);
    }
  }

  lemma JoinKeepsInv(s: State, u: User)
    requires Inv(s)
    ensures Inv(Apply(s, Join(u)))
  {
    if u !in s.accounts {
      var t := Apply(s, Join(u));
      assert forall k | 0 <= k < |s.log| :: s.log[k].user != u;
      forall v, c | t.Live(v) ensures ChoiceOk(t.log, v, c) {
        if v == u {
          assert Latest(s.log, u, c).None? && Active(s.log, u, c) == {};
        } else {
          assert s.Live(v);
        }
      }
      hide ChoiceOk, Active, Latest;
      forall v | t.Live(v) ensures DataOk(t, v) {
        assert v != u ==> s.Live(v) && DataOk(s, v);
      }
    }
  }

  // ---------------------------------------------------------------- the rows, column by column

  /** The latest event of a user and a choice, and the active rows. */
  lemma LogColumns(log: Log, u: User, c: Choice, version: string, i: nat)
    ensures Latest(log, u, c) == Some(i) <==>
      && i < |log| && log[i].user == u && log[i].choice == c
      && (forall k | i < k < |log| :: !(log[k].user == u && log[k].choice == c))
    ensures HasActive(log, u, c, version) <==>
      (exists k | 0 <= k < |log| ::
         log[k].user == u && log[k].choice == c && log[k].granted && !log[k].withdrawn && log[k].version == version)
  {
    if i < |log| && Of(log[i], u, c) && forall k | i < k < |log| :: !Of(log[k], u, c) {
      LatestIs(log, u, c, i);
    }
    if k :| 0 <= k < |log| && IsActive(log[k], u, c) && log[k].version == version {
      assert log[k].user == u && log[k].choice == c && log[k].granted && !log[k].withdrawn;
    }
    if k :| 0 <= k < |log| && log[k].user == u && log[k].choice == c && log[k].granted && !log[k].withdrawn
            && log[k].version == version {
      assert IsActive(log[k], u, c);
    }
  }

  /** What one change writes: nothing when it repeats the latest event, and otherwise one event, with what it ends. */
  lemma ChangeColumns(s: State, u: User, change: Change)
    ensures var next := RecordedOne(s, u, change);
      var i := Latest(s.log, u, change.choice);
      var repeats := i.Some? && s.log[i.value].granted == change.granted && s.log[i.value].version == change.version;
      && (repeats ==> next == s)
      && (!repeats ==>
            && next == s.(log := next.log, sex := next.sex, preferences := next.preferences, presence := next.presence)
            && |next.log| == |s.log| + 1
            && next.log[|s.log|] == Event(u, change.choice, change.granted, change.version, !change.granted)
            && (forall k | 0 <= k < |s.log| :: next.log[k] == s.log[k].(withdrawn := s.log[k].withdrawn
                  || (s.log[k].user == u && s.log[k].choice == change.choice && s.log[k].granted)))
            && next.sex == (if !change.granted && change.choice == Sensitive then s.sex - {u} else s.sex)
            && next.preferences == (if !change.granted && change.choice == Sensitive then s.preferences - {u} else s.preferences)
            && next.presence == (if !change.granted && change.choice == Location then s.presence - {u} else s.presence))
  {
    hide Latest;
  }

  /** What the three kinds of personal data ask for. */
  lemma CoveredColumns(log: Log, u: User, sensitive: Option<Choice>, versions: Versions)
    ensures Covered(log, u, sensitive, versions) <==>
      && Terms in versions && HasActive(log, u, Terms, versions[Terms])
      && Privacy in versions && HasActive(log, u, Privacy, versions[Privacy])
      && (sensitive.Some? ==> sensitive.value in versions && HasActive(log, u, sensitive.value, versions[sensitive.value]))
  {
    hide HasActive;
    assert Terms in Required(sensitive) && Privacy in Required(sensitive);
    assert sensitive.Some? ==> sensitive.value in Required(sensitive);
  }

  lemma DataColumns(s: State, u: User, withSex: bool, versions: Versions)
    ensures var live := u in s.accounts && !s.accounts[u];
      && Apply(s, UpsertProfile(u, withSex, versions))
         == (if live && Covered(s.log, u, if withSex then Some(Sensitive) else None, versions)
             then s.(profiles := s.profiles + {u}, sex := if withSex then s.sex + {u} else s.sex - {u}) else s)
      && Apply(s, UpsertPreferences(u, versions))
         == (if live && Covered(s.log, u, Some(Sensitive), versions) then s.(preferences := s.preferences + {u}) else s)
      && Apply(s, UpsertPresence(u, versions))
         == (if live && Covered(s.log, u, Some(Location), versions) then s.(presence := s.presence + {u}) else s)
      && Apply(s, DeleteAccount(u)) == (if u in s.accounts then s.(accounts := s.accounts[u := true]) else s)
  {
    hide Covered;
  }

  // ---------------------------------------------------------------- whole runs

  const EMPTY := State(map[], [], {}, {}, {}, {})

  ghost predicate Run(states: seq<State>, ops: seq<Op>) {
    && |states| == |ops| + 1 && states[0] == EMPTY
    && forall k | 0 <= k < |ops| :: states[k + 1] == Apply(states[k], ops[k])
  }

  lemma {:induction false} RunKeepsInv(states: seq<State>, ops: seq<Op>, n: nat)
    requires Run(states, ops) && n < |states|
    ensures Inv(states[n])
  {
    hide Apply;
    if n > 0 {
      RunKeepsInv(states, ops, n - 1);
      StepKeepsInv(states[n - 1], ops[n - 1]);
    }
  }

  /** The latest event is a grant of a version if and only if there is exactly one active row and it has that version. */
  lemma LatestIffActive(states: seq<State>, ops: seq<Op>, n: nat, u: User, c: Choice, version: string)
    requires Run(states, ops) && n < |states| && states[n].Live(u)
    ensures LatestGrants(states[n].log, u, c, version) <==>
      |Active(states[n].log, u, c)| == 1 && HasActive(states[n].log, u, c, version)
    ensures LatestGrants(states[n].log, u, c, version) <==> HasActive(states[n].log, u, c, version)
  {
    RunKeepsInv(states, ops, n);
    var log := states[n].log;
    assert ChoiceOk(log, u, c);
    forall k | 0 <= k < |log| && IsActive(log[k], u, c) ensures k in Active(log, u, c) {
    }
    if LatestGrants(log, u, c, version) {
      assert Latest(log, u, c).value in Active(log, u, c);
    }
  }

  /** What getConsents calls a complete onboarding. */
  predicate OnboardedByLatest(log: Log, u: User, versions: Versions)
    requires Terms in versions && Privacy in versions
  {
    LatestGrants(log, u, Terms, versions[Terms]) && LatestGrants(log, u, Privacy, versions[Privacy])
  }

  /** What the guard's query calls a complete onboarding, for an account whose role is `user`. */
  predicate OnboardedByGuard(log: Log, u: User, versions: Versions)
    requires Terms in versions && Privacy in versions
  {
    HasActive(log, u, Terms, versions[Terms]) && HasActive(log, u, Privacy, versions[Privacy])
  }

  /** The two readers never disagree about an ordinary user whose account is not deleted. */
  lemma ReadersAgree(states: seq<State>, ops: seq<Op>, n: nat, u: User, versions: Versions)
    requires Run(states, ops) && n < |states| && states[n].Live(u) && Terms in versions && Privacy in versions
    ensures OnboardedByLatest(states[n].log, u, versions) <==> OnboardedByGuard(states[n].log, u, versions)
  {
    LatestIffActive(states, ops, n, u, Terms, versions[Terms]);
    LatestIffActive(states, ops, n, u, Privacy, versions[Privacy]);
  }

  /** Whatever sensitive data is stored about a user is stored under a consent that is active. */
  lemma StoredDataHasConsent(states: seq<State>, ops: seq<Op>, n: nat, u: User)
    requires Run(states, ops) && n < |states| && states[n].Live(u)
    ensures u in states[n].sex || u in states[n].preferences ==>
      Latest(states[n].log, u, Sensitive).Some? && states[n].log[Latest(states[n].log, u, Sensitive).value].granted
    ensures u in states[n].presence ==>
      Latest(states[n].log, u, Location).Some? && states[n].log[Latest(states[n].log, u, Location).value].granted
  {
    RunKeepsInv(states, ops, n);
    assert DataOk(states[n], u) && ChoiceOk(states[n].log, u, Sensitive) && ChoiceOk(states[n].log, u, Location);
  }

  lemma EventsStay(log: Log, u: User, change: Change, k: nat)
    requires k < |log|
    ensures |Appended(log, u, change)| == |log| + 1
    ensures Appended(log, u, change)[k].(withdrawn := log[k].withdrawn) == log[k]
    ensures log[k].withdrawn ==> Appended(log, u, change)[k].withdrawn
  {
  }

  // ---------------------------------------------------------------- the repository and its readers

  class UsersRepository {
    var accounts: map<User, bool>
    var log: Log
    var sex: set<User>
    var profiles: set<User>
    var preferences: set<User>
    var presence: set<User>

    constructor ()
      ensures Value() == EMPTY && Inv(Value())
    {
      accounts, log, sex, profiles, preferences, presence := map[], [], {}, {}, {}, {};
    }

    function Value(): State
      reads this
    {
      State(accounts, log, sex, profiles, preferences, presence)
    }

    /** The loop over the changes, each read against the log that the ones before it left. */
    method RecordChanges(userId: User, changes: seq<Change>) returns (found: bool)
      requires Inv(Value())
      modifies this
      ensures Value() == Apply(old(Value()), RecordConsents(userId, changes)) && Inv(Value())
      ensures found == old(Value()).Live(userId)
    {
      StepKeepsInv(Value(), RecordConsents(userId, changes));
      hide Inv;
      found := userId in accounts && !accounts[userId];
      if !found {
        return;
      }
      for i := 0 to |changes|
        invariant Value() == RecordedAll(old(Value()), userId, changes[..i])
      {
        assert changes[..i + 1][..i] == changes[..i];
        RecordChange(userId, changes[i]);
      }
      assert changes[..|changes|] == changes;
    }

    method RecordChange(userId: User, change: Change)
      modifies this`log, this`sex, this`preferences, this`presence
      ensures Value() == RecordedOne(old(Value()), userId, change)
    {
      var current := LatestEvent(userId, change.choice);
      if current.Some? && current.value.granted == change.granted && current.value.version == change.version {
        return;
      }
      WithdrawActive(userId, change.choice);
      log := log + [Event(userId, change.choice, change.granted, change.version, !change.granted)];
      if !change.granted && change.choice == Sensitive {
        sex := sex - {userId};
        preferences := preferences - {userId};
      }
      if !change.granted && change.choice == Location {
        presence := presence - {userId};
      }
    }

    method WithdrawActive(userId: User, choice: Choice)
      modifies this`log
      ensures log == Withdrawn(old(log), userId, choice)
    {
      var rows: Log := [];
      for k := 0 to |log|
        invariant log == old(log) && |rows| == k
        invariant forall j | 0 <= j < k :: rows[j] == Withdrawn(log, userId, choice)[j]
      {
        rows := rows + [if IsActive(log[k], userId, choice) then log[k].(withdrawn := true) else log[k]];
      }
      log := rows;
    }

    /** Scans back from the newest event. */
    method LatestEvent(userId: User, choice: Choice) returns (e: Option<Event>)
      ensures e == if Latest(log, userId, choice).Some? then Some(log[Latest(log, userId, choice).value]) else None
    {
      var n: nat := |log|;
      while n > 0
        invariant n <= |log| && forall k | n <= k < |log| :: !Of(log[k], userId, choice)
      {
        n := n - 1;
        if Of(log[n], userId, choice) {
          LatestIs(log, userId, choice, n);
          return Some(log[n]);
        }
      }
      e := None;
    }

    /** Refuses to write when the account is gone, and throws when a required consent is not active. */
    method LockLegalChoices(userId: User, sensitive: Option<Choice>, versions: Versions) returns (found: bool, covered: bool)
      ensures found == Value().Live(userId)
      ensures found ==> (covered <==> Covered(log, userId, sensitive, versions))
    {
      found := userId in accounts && !accounts[userId];
      covered := false;
      if found {
        covered := forall c | c in Required(sensitive) :: c in versions && HasActive(log, userId, c, versions[c]);
      }
    }

    method UpsertProfileRow(userId: User, withSex: bool, versions: Versions) returns (stored: bool)
      requires Inv(Value())
      modifies this`profiles, this`sex
      ensures Value() == Apply(old(Value()), UpsertProfile(userId, withSex, versions)) && Inv(Value())
      ensures stored <==> Value().Live(userId) && Covered(log, userId, if withSex then Some(Sensitive) else None, versions)
      ensures stored ==> userId in profiles && (userId in sex <==> withSex)
    {
      StepKeepsInv(Value(), UpsertProfile(userId, withSex, versions));
      hide Inv;
      var found, covered := LockLegalChoices(userId, if withSex then Some(Sensitive) else None, versions);
      stored := found && covered;
      if stored {
        profiles := profiles + {userId};
        sex := if withSex then sex + {userId} else sex - {userId};
      }
    }

    method UpsertPreferencesRow(userId: User, versions: Versions) returns (stored: bool)
      requires Inv(Value())
      modifies this`preferences
      ensures Value() == Apply(old(Value()), UpsertPreferences(userId, versions)) && Inv(Value())
      ensures stored <==> Value().Live(userId) && Covered(log, userId, Some(Sensitive), versions)
    {
      StepKeepsInv(Value(), UpsertPreferences(userId, versions));
      hide Inv;
      var found, covered := LockLegalChoices(userId, Some(Sensitive), versions);
      stored := found && covered;
      if stored {
        preferences := preferences + {userId};
      }
    }

    method UpsertPresenceRow(userId: User, versions: Versions) returns (stored: bool)
      requires Inv(Value())
      modifies this`presence
      ensures Value() == Apply(old(Value()), UpsertPresence(userId, versions)) && Inv(Value())
      ensures stored <==> Value().Live(userId) && Covered(log, userId, Some(Location), versions)
    {
      StepKeepsInv(Value(), UpsertPresence(userId, versions));
      hide Inv;
      var found, covered := LockLegalChoices(userId, Some(Location), versions);
      stored := found && covered;
      if stored {
        presence := presence + {userId};
      }
    }

    /** The part of getConsents that lists what onboarding still requires. */
    method RequiredActions(userId: User, versions: Versions) returns (required: seq<Choice>)
      requires Terms in versions && Privacy in versions
      ensures required == [] <==> OnboardedByLatest(log, userId, versions)
      ensures forall c :: c in required <==> (c == Terms || c == Privacy) && !LatestGrants(log, userId, c, versions[c])
    {
      required := [];
      var terms := LatestEvent(userId, Terms);
      if terms.None? || !terms.value.granted || terms.value.version != versions[Terms] {
        required := required + [Terms];
      }
      var privacy := LatestEvent(userId, Privacy);
      if privacy.None? || !privacy.value.granted || privacy.value.version != versions[Privacy] {
        required := required + [Privacy];
      }
    }
  }

  // ---------------------------------------------------------------- what the service lets through

  predicate DistinctChoices(changes: seq<Change>) {
    forall i, j | 0 <= i < j < |changes| :: changes[i].choice != changes[j].choice
  }

  lemma OneChangeShows(s: State, u: User, change: Change, c: Choice)
    requires c != change.choice
    ensures Latest(RecordedOne(s, u, change).log, u, c) == Latest(s.log, u, c)
    ensures forall v :: LatestGrants(RecordedOne(s, u, change).log, u, c, v) == LatestGrants(s.log, u, c, v)
  {
    if !Unchanged(s.log, u, change) {
      AppendedOther(s.log, u, change, u, c);
      var i := Latest(s.log, u, c);
      if i.Some? {
        EventsStay(s.log, u, change, i.value);
      }
    }
  }

  lemma ChangeShows(s: State, u: User, change: Change)
    ensures LatestGrants(RecordedOne(s, u, change).log, u, change.choice, change.version) <==> change.granted
  {
    if !Unchanged(s.log, u, change) {
      AppendedChoice(s.log, u, change);
    }
  }

  /** After a valid request every one of its changes is what the log says. */
  lemma {:induction false} ChangesShow(s: State, u: User, changes: seq<Change>, i: nat)
    requires DistinctChoices(changes) && i < |changes|
    ensures LatestGrants(RecordedAll(s, u, changes).log, u, changes[i].choice, changes[i].version) <==> changes[i].granted
    decreases |changes|
  {
    hide RecordedOne, LatestGrants;
    var n := |changes| - 1;
    var before := RecordedAll(s, u, changes[..n]);
    if i == n {
      ChangeShows(before, u, changes[n]);
    } else {
      ChangesShow(s, u, changes[..n], i);
      OneChangeShows(before, u, changes[n], changes[i].choice);
    }
  }
}
