// Swipe decisions: recording one, its retention, and why a mutual like is never missed by both of its authors.

module Swipes {
  import opened Options

  type Instant = int
  type User = nat

  const DAY := 24 * 60 * 60 * 1000
  const SWIPE_RETENTION_DAYS := 365

  datatype Decision = Like | Pass

  datatype Swipe = Swipe(decision: Decision, swipedAt: Instant, expiresAt: Instant)

  type Table = map<(User, User), Swipe>  // keyed by actor and target

  /** The decision in force, if there is one. */
  function InForce(t: Table, actor: User, target: User, now: Instant): Option<Decision> {
    if (actor, target) in t && t[(actor, target)].expiresAt > now then Some(t[(actor, target)].decision) else None
  }

  function Stored(decision: Decision, now: Instant): Swipe {
    Swipe(decision, now, now + SWIPE_RETENTION_DAYS * DAY)
  }

  /** A new decision is written only where none is in force. */
  function Recorded(t: Table, actor: User, target: User, decision: Decision, now: Instant): Table {
    if InForce(t, actor, target, now).Some? then t else t[(actor, target) := Stored(decision, now)]
  }

  /** The table with the clock of its last transaction. */
  datatype State = State(rows: Table, clock: Instant)

  datatype Op =
    | Record(actor: User, target: User, decision: Decision, now: Instant)
    | Purge(chosen: set<(User, User)>, now: Instant)

  /** Purges take what has expired, and the clock does not go back. */
  predicate Enabled(s: State, op: Op) {
    s.clock <= op.now && (op.Purge? ==> forall k | k in op.chosen && k in s.rows :: s.rows[k].expiresAt <= op.now)
  }

  function Apply(s: State, op: Op): State {
    match op
    case Record(actor, target, decision, now) => State(Recorded(s.rows, actor, target, decision, now), now)
    case Purge(chosen, now) => State(s.rows - chosen, now)
  }

  ghost predicate Run(states: seq<State>, ops: seq<Op>) {
    |states| == |ops| + 1 && forall k | 0 <= k < |ops| :: Enabled(states[k], ops[k]) && states[k + 1] == Apply(states[k], ops[k])
  }

  /** A decision in force stays what it is, whatever is recorded or purged, until its last day is over. */
  lemma {:induction false} DecisionStands(states: seq<State>, ops: seq<Op>, m: nat, n: nat, actor: User, target: User)
    requires Run(states, ops) && m <= n < |states| && (actor, target) in states[m].rows
    requires states[n].clock < states[m].rows[(actor, target)].expiresAt
    ensures (actor, target) in states[n].rows && states[n].rows[(actor, target)] == states[m].rows[(actor, target)]
    ensures states[m].clock <= states[n].clock
    decreases n - m
  {
    if m < n {
      ClockAdvances(states, ops, n - 1, n);
      DecisionStands(states, ops, m, n - 1, actor, target);
      assert states[n] == Apply(states[n - 1], ops[n - 1]) && states[n].clock == ops[n - 1].now;
    }
  }

  lemma {:induction false} ClockAdvances(states: seq<State>, ops: seq<Op>, m: nat, n: nat)
    requires Run(states, ops) && m <= n < |states|
    ensures states[m].clock <= states[n].clock
    decreases n - m
  {
    if m < n {
      ClockAdvances(states, ops, m, n - 1);
      assert states[n] == Apply(states[n - 1], ops[n - 1]) && Enabled(states[n - 1], ops[n - 1]);
    }
  }

  /** Recording leaves the decision that is then in force: the new one, or the one that was. */
  lemma RecordedIsInForce(t: Table, actor: User, target: User, decision: Decision, now: Instant)
    ensures var next := Recorded(t, actor, target, decision, now);
      && InForce(next, actor, target, now) == Some(if InForce(t, actor, target, now).Some?
                                                   then InForce(t, actor, target, now).value else decision)
      && (forall k | k in t && k != (actor, target) :: k in next && next[k] == t[k])
      && (forall k | k in next && k != (actor, target) :: k in t)
  {
  }

  /** A decision counts for 365 days, and a swipe writes one exactly where none counts. */
  lemma RecordColumns(t: Table, actor: User, target: User, decision: Decision, now: Instant)
    ensures var counts := (actor, target) in t && now < t[(actor, target)].expiresAt;
      && (InForce(t, actor, target, now).Some? <==> counts)
      && (counts ==> InForce(t, actor, target, now) == Some(t[(actor, target)].decision))
      && Recorded(t, actor, target, decision, now)
         == if counts then t else t[(actor, target) := Swipe(decision, now, now + 31_536_000_000)]
  {
  }

  /**
   * Two users like each other at the same time: each records a like and then, later, looks for the other's. However
   * the four transactions and any others interleave, at least one of the two finds the other's like, so the match is
   * attempted. The looks come at states fa and fb, after the records that end at ra and rb.
   */
  lemma MutualLikeIsSeen(states: seq<State>, ops: seq<Op>, a: User, b: User, ra: nat, rb: nat, fa: nat, fb: nat)
    requires Run(states, ops) && ra < |ops| && rb < |ops| && ra < fa < |states| && rb < fb < |states|
    requires ops[ra].Record? && ops[ra].actor == a && ops[ra].target == b
    requires ops[rb].Record? && ops[rb].actor == b && ops[rb].target == a
    requires InForce(states[ra + 1].rows, a, b, states[ra + 1].clock) == Some(Like)
    requires InForce(states[rb + 1].rows, b, a, states[rb + 1].clock) == Some(Like)
    requires states[fb].clock < states[ra + 1].rows[(a, b)].expiresAt
    requires states[fa].clock < states[rb + 1].rows[(b, a)].expiresAt
    ensures InForce(states[fa].rows, b, a, states[fa].clock) == Some(Like)
         || InForce(states[fb].rows, a, b, states[fb].clock) == Some(Like)
  {
    if rb < fa {
      DecisionStands(states, ops, rb + 1, fa, b, a);
    } else {
      DecisionStands(states, ops, ra + 1, fb, a, b);
    }
  }

  class DiscoveryStore {
    var rows: Table

    constructor ()
      ensures rows == map[]
    {
      rows := map[];
    }

    /** Insert, or find the decision that is there; an expired one is replaced. */
    method RecordSwipe(actorId: User, targetId: User, decision: Decision, now: Instant)
      returns (created: bool, recorded: Decision)
      modifies this
      ensures rows == Recorded(old(rows), actorId, targetId, decision, now)
      ensures created <==> InForce(old(rows), actorId, targetId, now).None?
      ensures InForce(rows, actorId, targetId, now) == Some(recorded)
    {
      if (actorId, targetId) !in rows {
        rows := rows[(actorId, targetId) := Stored(decision, now)];
        return true, decision;
      }
      var existing := rows[(actorId, targetId)];
      if existing.expiresAt > now {
        return false, existing.decision;
      }
      rows := rows[(actorId, targetId) := Stored(decision, now)];
      return true, decision;
    }

    /** The targets among these that the actor's decisions in force exclude from the feed. */
    method SwipedTargetIds(actorId: User, targetIds: set<User>, now: Instant) returns (swiped: set<User>)
      ensures forall u :: u in swiped <==> u in targetIds && InForce(rows, actorId, u, now).Some?
    {
      swiped := set u | u in targetIds && (actorId, u) in rows && rows[(actorId, u)].expiresAt > now;
    }
  }
}
