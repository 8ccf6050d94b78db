// The advisory locks that keep account erasure apart from the writers whose effects leave the database: any number
// of sessions may share an account, or one session has it alone. Nobody waits: a lock that is not free is refused.

module AccountActivity {
  import Sql

  /** An account, by its UUID in lower case. */
  type User = string
  type Session = nat

  /** Who holds what: the sessions that share each account, and the session that has it alone. */
  datatype Locks = Locks(shared: map<User, set<Session>>, alone: map<User, Session>)
  {
    function Sharers(u: User): set<Session> {
      if u in shared then shared[u] else {}
    }

    /** What pg_try_advisory_lock and its shared form grant to a session that holds nothing yet on this account. */
    predicate Free(u: User, exclusive: bool) {
      u !in alone && (exclusive ==> Sharers(u) == {})
    }

    predicate HeldBy(session: Session, u: User) {
      session in Sharers(u) || (u in alone && alone[u] == session)
    }

    function With(session: Session, u: User, exclusive: bool): Locks {
      if exclusive then this.(alone := alone[u := session]) else this.(shared := shared[u := Sharers(u) + {session}])
    }

    /** pg_advisory_unlock_all. */
    function Without(session: Session): Locks {
      Locks(map u | u in shared :: shared[u] - {session}, map u | u in alone && alone[u] != session :: alone[u])
    }
  }

  /** An account that one session has alone is shared by none. */
  predicate Separate(l: Locks) {
    forall u | u in l.alone :: l.Sharers(u) == {}
  }

  predicate SameLocks(a: Locks, b: Locks) {
    && (forall u | u in a.shared.Keys + b.shared.Keys :: a.Sharers(u) == b.Sharers(u))
    && a.alone == b.alone
  }

  ghost predicate HoldsNothing(l: Locks, session: Session) {
    forall u :: !l.HeldBy(session, u)
  }

  /** The locks after a session that held nothing took these accounts. */
  ghost predicate Taken(before: Locks, after: Locks, session: Session, users: set<User>, exclusive: bool) {
    && Separate(after)
    && (forall u :: after.Sharers(u) == before.Sharers(u) + (if u in users && !exclusive then {session} else {}))
    && (forall u :: u in after.alone <==> u in before.alone || (u in users && exclusive))
    && (forall u | u in after.alone :: after.alone[u] == if u in users && exclusive then session else before.alone[u])
  }

  lemma OneMore(before: Locks, l: Locks, session: Session, users: set<User>, exclusive: bool, u: User)
    requires Taken(before, l, session, users, exclusive) && u !in users && before.Free(u, exclusive)
    ensures l.Free(u, exclusive) && Taken(before, l.With(session, u, exclusive), session, users + {u}, exclusive)
  {
  }

  lemma NothingTaken(l: Locks, session: Session, exclusive: bool)
    requires Separate(l)
    ensures Taken(l, l, session, {}, exclusive)
  {
  }

  lemma StillTaken(before: Locks, l: Locks, session: Session, users: set<User>, exclusive: bool, u: User)
    requires Taken(before, l, session, users, exclusive) && u !in users && !l.Free(u, exclusive)
    ensures !before.Free(u, exclusive)
  {
  }

  lemma StillFree(before: Locks, l: Locks, session: Session, users: set<User>, exclusive: bool, u: User)
    requires Taken(before, l, session, users, exclusive) && u !in users && l.Free(u, exclusive)
    ensures before.Free(u, exclusive)
  {
  }

  /** Giving everything back leaves the locks of the others, and only those. */
  lemma GivenBack(before: Locks, l: Locks, session: Session, users: set<User>, exclusive: bool)
    requires HoldsNothing(before, session) && Taken(before, l, session, users, exclusive)
    requires forall u | u in users :: before.Free(u, exclusive)
    ensures SameLocks(l.Without(session), before) && Separate(l.Without(session))
  {
    var less := l.Without(session);
    forall u ensures less.Sharers(u) == before.Sharers(u) {
      assert !before.HeldBy(session, u);
    }
    forall u ensures u in less.alone <==> u in before.alone {
      assert !before.HeldBy(session, u);
    }
    assert less.alone == before.alone;
  }

  // ---------------------------------------------------------------- the ids of accounts

  function LowerChar(c: char): char {
    if 'A' <= c <= 'Z' then c - 'A' + 'a' else c
  }

  function Lower(id: string): (u: User)
    ensures |u| == |id| && forall i | 0 <= i < |id| :: u[i] == LowerChar(id[i])
  {
    seq(|id|, i requires 0 <= i < |id| => LowerChar(id[i]))
  }

  /** The accounts that a list of ids names, in any spelling. */
  function Accounts(ids: seq<string>): set<User> {
    set id | id in ids :: Lower(id)
  }

  /** Strings in the order in which sort() puts them. */
  predicate Before(a: string, b: string) {
    if b == [] then false
    else if a == [] then true
    else a[0] < b[0] || (a[0] == b[0] && Before(a[1..], b[1..]))
  }

  lemma {:induction false} BeforeIsTotal(a: string, b: string)
    ensures !Before(a, a)
    ensures a != b ==> Before(a, b) || Before(b, a)
  {
    if a != [] {
      BeforeIsTotal(a[1..], if b == [] then b else b[1..]);
      assert a == [a[0]] + a[1..];
      assert b != [] ==> b == [b[0]] + b[1..];
    }
  }

  lemma {:induction false} BeforeIsTransitive(a: string, b: string, c: string)
    requires Before(a, b) && Before(b, c)
    ensures Before(a, c)
  {
    if a != [] && a[0] == b[0] == c[0] {
      BeforeIsTransitive(a[1..], b[1..], c[1..]);
    }
  }

  lemma BeforeIsOrder(users: set<User>)
    ensures Sql.StrictOrder(users, Before)
  {
    forall a, b | a in users && b in users ensures !Before(a, a) && (a != b ==> Before(a, b) || Before(b, a)) {
      BeforeIsTotal(a, b);
    }
    forall a, b, c | a in users && b in users && c in users && Before(a, b) && Before(b, c) ensures Before(a, c) {
      BeforeIsTransitive(a, b, c);
    }
  }

  /** Two spellings of one account are the same account to the locks. */
  lemma SpellingDoesNotMatter(a: string, b: string)
    requires |a| == |b| && forall i | 0 <= i < |a| :: LowerChar(a[i]) == LowerChar(b[i])
    ensures Accounts([a]) == Accounts([b]) == Accounts([a, b]) && Lower(Lower(a)) == Lower(a)
  {
    assert Lower(a) == Lower(b);
    assert Accounts([a]) == {Lower(a)} && Accounts([b]) == {Lower(b)};
    assert Accounts([a, b]) == {Lower(a)} by {
      assert a in [a, b];
    }
  }

  class AccountActivityService {
    var locks: Locks

    constructor ()
      ensures locks == Locks(map[], map[])
    {
      locks := Locks(map[], map[]);
    }

    /** Each account once, in order, however often, in whatever order and spelling it was named. */
    method CanonicalIds(ids: seq<string>) returns (canonical: seq<User>)
      ensures forall u :: u in canonical <==> u in Accounts(ids)
      ensures forall i, j | 0 <= i < j < |canonical| :: Before(canonical[i], canonical[j])
    {
      var rest := Accounts(ids);
      canonical := [];
      while rest != {}
        invariant forall u :: u in Accounts(ids) <==> u in canonical || u in rest
        invariant forall u, v | u in canonical && v in rest :: Before(u, v)
        invariant forall i, j | 0 <= i < j < |canonical| :: Before(canonical[i], canonical[j])
        decreases |rest|
      {
        BeforeIsOrder(rest);
        var first := Sql.First(rest, Before);
        forall i | 0 <= i < |canonical| ensures Before(canonical[i], first) {
          assert canonical[i] in canonical && first in rest;
        }
        canonical := canonical + [first];
        rest := rest - {first};
      }
    }

    /** All the accounts or none: a session that cannot have them all holds nothing. */
    method Lock(session: Session, userIds: seq<string>, exclusive: bool) returns (acquired: bool)
      requires Separate(locks) && HoldsNothing(locks, session)
      modifies this
      ensures acquired <==> forall u | u in Accounts(userIds) :: old(locks).Free(u, exclusive)
      ensures acquired ==> Taken(old(locks), locks, session, Accounts(userIds), exclusive)
      ensures !acquired ==> SameLocks(locks, old(locks)) && Separate(locks)
    {
      hide Taken;
      var ids := CanonicalIds(userIds);
      NothingTaken(locks, session, exclusive);
      ghost var held: set<User> := {};
      for i := 0 to |ids|
        invariant held == (set u | u in ids[..i])
        invariant Taken(old(locks), locks, session, held, exclusive)
        invariant forall u | u in held :: old(locks).Free(u, exclusive)
      {
        assert ids[..i + 1] == ids[..i] + [ids[i]];
        BeforeIsTotal(ids[i], ids[i]);
        assert ids[i] !in ids[..i];
        if !locks.Free(ids[i], exclusive) {
          StillTaken(old(locks), locks, session, held, exclusive, ids[i]);
          assert ids[i] in Accounts(userIds) && !old(locks).Free(ids[i], exclusive);
          GivenBack(old(locks), locks, session, held, exclusive);
          locks := locks.Without(session);
          return false;
        }
        StillFree(old(locks), locks, session, held, exclusive, ids[i]);
        OneMore(old(locks), locks, session, held, exclusive, ids[i]);
        locks := locks.With(session, ids[i], exclusive);
        held := held + {ids[i]};
      }
      assert ids[..|ids|] == ids;
      assert held == Accounts(userIds);
      acquired := true;
    }

    /**
     * A writer may start its work only with every account locked and, read after locking, none deleted and none
     * banned unless maintenance allows it. Otherwise it holds nothing.
     */
    method RunShared(session: Session, userIds: seq<string>, allowBanned: bool, deleted: set<User>, banned: set<User>)
      returns (started: bool)
      requires Separate(locks) && HoldsNothing(locks, session)
      modifies this
      ensures Separate(locks)
      ensures started <==> forall u | u in Accounts(userIds) ::
        u !in old(locks).alone && u !in deleted && (allowBanned || u !in banned)
      ensures started ==> forall u | u in Accounts(userIds) :: session in locks.Sharers(u) && u !in locks.alone
      ensures !started ==> SameLocks(locks, old(locks))
    {
      var acquired := Lock(session, userIds, false);
      started := false;
      if acquired {
        started := forall u | u in Accounts(userIds) :: u !in deleted && (allowBanned || u !in banned);
        if !started {
          GivenBack(old(locks), locks, session, Accounts(userIds), false);
          locks := locks.Without(session);
        }
      }
    }

    /** An erasure that gets its account alone has drained every writer of it. */
    method TryExclusive(session: Session, userId: string) returns (acquired: bool)
      requires Separate(locks) && HoldsNothing(locks, session)
      modifies this
      ensures Separate(locks)
      ensures acquired <==> old(locks).Free(Lower(userId), true)
      ensures acquired <==> Lower(userId) !in old(locks).alone && old(locks).Sharers(Lower(userId)) == {}
      ensures acquired ==> var u := Lower(userId); u in locks.alone && locks.alone[u] == session && locks.Sharers(u) == {}
      ensures !acquired ==> SameLocks(locks, old(locks))
    {
      assert Accounts([userId]) == {Lower(userId)};
      acquired := Lock(session, [userId], true);
    }

    /** The end of the work, however it ended. */
    method Release(session: Session)
      requires Separate(locks)
      modifies this
      ensures Separate(locks) && HoldsNothing(locks, session)
      ensures forall u :: locks.Sharers(u) == old(locks).Sharers(u) - {session}
      ensures forall u :: u in locks.alone <==> u in old(locks).alone && old(locks).alone[u] != session
    {
      locks := locks.Without(session);
    }
  }
}
