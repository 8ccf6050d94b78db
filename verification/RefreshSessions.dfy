// Mobile sessions: families of rotating refresh tokens, replay detection, revocation, and the device tokens tied to a
// session. Every operation is one transaction that locks the account first.

module RefreshSessions {
  import opened Options

  type Instant = int
  type User = nat
  type FamilyId = nat
  type Jti = nat  // a token's unique identifier; the table is keyed by it

  datatype Account = Account(deleted: bool, banned: bool)
  {
    predicate Active() {
      !deleted && !banned
    }
  }

  datatype Reason = Replay | LoggedOut | LogoutAll | UserRevoked | Banned

  datatype Family = Family(user: User, lastRefreshedAt: Instant, expiresAt: Instant, revoked: Option<(Instant, Reason)>)
  {
    predicate Live(now: Instant) {
      revoked.None? && expiresAt > now
    }
  }

  datatype Token = Token(user: User, family: FamilyId, parent: Option<Jti>, hash: nat, revoked: bool,
                         rotatedAt: Option<Instant>, expiresAt: Instant)

  datatype Device = Device(id: nat, user: User, session: Option<FamilyId>)

  datatype NewToken = NewToken(jti: Jti, hash: nat, createdAt: Instant, expiresAt: Instant)

  datatype State = State(
    accounts: map<User, Account>,
    families: map<FamilyId, Family>,
    tokens: map<Jti, Token>,
    devices: map<nat, Device>,  // keyed by the unique push token
    clock: Instant,
    exchanged: seq<Jti>)  // history: the tokens that were exchanged, in order

  datatype Op =
    | Create(user: User, session: FamilyId, token: NewToken, now: Instant)
    | Rotate(jti: Jti, hash: nat, token: NewToken, now: Instant)
    | Logout(user: User, session: FamilyId, jti: Jti, hash: nat, device: Option<nat>, now: Instant)
    | Revoke(user: User, session: FamilyId, target: Option<FamilyId>, now: Instant)
    | Ban(user: User, now: Instant)
    | Unban(user: User, now: Instant)
    | Delete(user: User, now: Instant)
    | Join(user: User, now: Instant)
    | RegisterDevice(user: User, session: FamilyId, push: nat, id: nat, now: Instant)
    | RemoveDevice(user: User, id: nat, now: Instant)
    | RemoveToken(push: nat, now: Instant)
    | PurgeTokens(chosen: set<Jti>, now: Instant)
    | PurgeFamilies(gone: set<FamilyId>, now: Instant)

  // ---------------------------------------------------------------- helpers of the operations

  predicate ActiveAccount(s: State, user: User) {
    user in s.accounts && s.accounts[user].Active()
  }

  predicate ActiveFamily(s: State, user: User, session: FamilyId, now: Instant) {
    session in s.families && s.families[session].user == user && s.families[session].Live(now)
  }

  /** The token that this identifier and secret prove, while it and its account are usable. */
  predicate Authentic(s: State, jti: Jti, hash: nat, now: Instant) {
    jti in s.tokens && s.tokens[jti].hash == hash && ActiveAccount(s, s.tokens[jti].user) && s.tokens[jti].expiresAt > now
  }

  /** Which families a revocation reaches: one session, or all of the user's. */
  predicate Reached(user: User, session: Option<FamilyId>, owner: User, family: FamilyId) {
    owner == user && (session.None? || session.value == family)
  }

  function RevokedFamilies(s: State, user: User, reason: Reason, session: Option<FamilyId>, now: Instant): State {
    s.(families := (map f | f in s.families ::
         if Reached(user, session, s.families[f].user, f) && s.families[f].revoked.None?
         then s.families[f].(revoked := Some((now, reason))) else s.families[f]),
       tokens := (map j | j in s.tokens ::
         if Reached(user, session, s.tokens[j].user, s.tokens[j].family)
         then s.tokens[j].(revoked := true) else s.tokens[j]),
       devices := (map d | d in s.devices && !Tied(s.devices[d], user, session) :: s.devices[d]))
  }

  predicate Tied(d: Device, user: User, session: Option<FamilyId>) {
    d.user == user && (session.None? || d.session == session)
  }

  function Inserted(next: NewToken, user: User, family: FamilyId, parent: Option<Jti>): Token {
    Token(user, family, parent, next.hash, false, None, next.expiresAt)
  }

  function Created(s: State, user: User, session: FamilyId, next: NewToken): State {
    if !ActiveAccount(s, user) then s
    else s.(families := s.families[session := Family(user, next.createdAt, next.expiresAt, None)],
            tokens := s.tokens[next.jti := Inserted(next, user, session, None)])
  }

  function Exchanged(s: State, jti: Jti, next: NewToken, now: Instant): State
    requires jti in s.tokens && s.tokens[jti].family in s.families
  {
    var t := s.tokens[jti];
    s.(tokens := s.tokens[jti := t.(revoked := true, rotatedAt := Some(now))]
                   [next.jti := Inserted(next, t.user, t.family, Some(jti))],
       families := s.families[t.family := s.families[t.family].(lastRefreshedAt := now, expiresAt := next.expiresAt)],
       exchanged := s.exchanged + [jti])
  }

  /** Presenting a refresh token: exchange it, or revoke its family when it had been exchanged before. */
  function Rotated(s: State, jti: Jti, hash: nat, next: NewToken, now: Instant): (Option<(User, FamilyId)>, State) {
    if !Authentic(s, jti, hash, now) || !ActiveFamily(s, s.tokens[jti].user, s.tokens[jti].family, now) then (None, s)
    else
      var t := s.tokens[jti];
      if !t.revoked then (Some((t.user, t.family)), Exchanged(s, jti, next, now))
      else if t.rotatedAt.Some? then (None, RevokedFamilies(s, t.user, Replay, Some(t.family), now))
      else (None, s)
  }

  function LoggedOutAfter(s: State, op: Op): (bool, State)
    requires op.Logout?
  {
    if !Authentic(s, op.jti, op.hash, op.now) || s.tokens[op.jti].user != op.user
       || s.tokens[op.jti].family != op.session || !ActiveFamily(s, op.user, op.session, op.now) then (false, s)
    else
      var out := RevokedFamilies(s, op.user, LoggedOut, Some(op.session), op.now);
      (true, if op.device.Some? then WithoutDevice(out, op.user, op.device.value) else out)
  }

  function WithoutDevice(s: State, user: User, id: nat): State {
    s.(devices := map d | d in s.devices && !(s.devices[d].id == id && s.devices[d].user == user) :: s.devices[d])
  }

  function RevokedAfter(s: State, op: Op): State
    requires op.Revoke?
  {
    if !ActiveAccount(s, op.user) || !ActiveFamily(s, op.user, op.session, op.now) then s
    else if op.target.Some? && !(op.target.value in s.families && s.families[op.target.value].user == op.user) then s
    else RevokedFamilies(s, op.user, if op.target.Some? then UserRevoked else LogoutAll, op.target, op.now)
  }

  /** The trigger on deleted_at: the families go, and with them their tokens and devices. */
  function DeletedAfter(s: State, user: User): State
    requires user in s.accounts
  {
    s.(accounts := s.accounts[user := s.accounts[user].(deleted := true)],
       families := (map f | f in s.families && s.families[f].user != user :: s.families[f]),
       tokens := (map j | j in s.tokens && s.tokens[j].user != user :: s.tokens[j]),
       devices := (map d | d in s.devices && (s.devices[d].user != user || s.devices[d].session.None?) :: s.devices[d]))
  }

  function RegisteredAfter(s: State, op: Op): State
    requires op.RegisterDevice?
  {
    if !ActiveAccount(s, op.user) || !ActiveFamily(s, op.user, op.session, op.now) then s
    else s.(devices := s.devices[op.push := Device(if op.push in s.devices then s.devices[op.push].id else op.id,
                                                   op.user, Some(op.session))])
  }

  /** Purging tokens clears the parent of every child that stays. */
  function WithoutTokens(s: State, chosen: set<Jti>): State {
    s.(tokens := map j | j in s.tokens && j !in chosen ::
         if s.tokens[j].parent.Some? && s.tokens[j].parent.value in chosen
         then s.tokens[j].(parent := None) else s.tokens[j])
  }

  /** What the rest of the system grants: fresh identifiers, a clock that does not go back, and purges of what has expired. */
  predicate Enabled(s: State, op: Op) {
    && op.now >= s.clock
    && match op
       case Create(_, session, token, _) => session !in s.families && FreshToken(s, token)
       case Rotate(_, _, token, _) => FreshToken(s, token)
       case Delete(user, _) => user in s.accounts
       case PurgeTokens(chosen, now) => forall j | j in chosen :: j in s.tokens && s.tokens[j].expiresAt <= now
       case PurgeFamilies(gone, now) => forall f | f in gone :: EmptyFamily(s, f, now)
       case _ => true
  }

  predicate FreshToken(s: State, token: NewToken) {
    token.jti !in s.tokens && token.jti !in s.exchanged
  }

  predicate EmptyFamily(s: State, f: FamilyId, now: Instant) {
    f in s.families && s.families[f].expiresAt <= now && forall j | j in s.tokens :: s.tokens[j].family != f
  }

  function Effect(s: State, op: Op): State
    requires Enabled(s, op)
  {
    match op
    case Create(user, session, token, _) => Created(s, user, session, token)
    case Rotate(jti, hash, token, now) => Rotated(s, jti, hash, token, now).1
    case Logout(_, _, _, _, _, _) => LoggedOutAfter(s, op).1
    case Revoke(_, _, _, _) => RevokedAfter(s, op)
    case Ban(user, now) =>
      if user !in s.accounts || s.accounts[user].deleted then s
      else RevokedFamilies(s, user, Banned, None, now).(accounts := s.accounts[user := s.accounts[user].(banned := true)])
    case Unban(user, _) =>
      if user !in s.accounts || s.accounts[user].deleted then s
      else s.(accounts := s.accounts[user := s.accounts[user].(banned := false)])
    case Delete(user, _) => DeletedAfter(s, user)
    case Join(user, _) => if user in s.accounts then s else s.(accounts := s.accounts[user := Account(false, false)])
    case RegisterDevice(_, _, _, _, _) => RegisteredAfter(s, op)
    case RemoveDevice(user, id, _) => WithoutDevice(s, user, id)
    case RemoveToken(push, _) => s.(devices := s.devices - {push})
    case PurgeTokens(chosen, _) => WithoutTokens(s, chosen)
    case PurgeFamilies(gone, _) =>
      s.(families := s.families - gone,
         devices := map d | d in s.devices && !(s.devices[d].session.Some? && s.devices[d].session.value in gone) :: s.devices[d])
  }

  function Apply(s: State, op: Op): State
    requires Enabled(s, op)
  {
    Effect(s.(clock := op.now), op)
  }

  // ---------------------------------------------------------------- the invariant

  function Unrevoked(s: State, f: FamilyId): set<Jti> {
    set j | j in s.tokens && s.tokens[j].family == f && !s.tokens[j].revoked
  }

  /** Every token belongs to a family of its user; a revoked token of a family that is not revoked was exchanged. */
  predicate TokenOk(s: State, j: Jti)
    requires j in s.tokens
  {
    var t := s.tokens[j];
    && t.family in s.families && s.families[t.family].user == t.user
    && (t.rotatedAt.Some? ==> t.revoked)
    && (t.revoked && s.families[t.family].revoked.None? ==> t.rotatedAt.Some?)
    && (!t.revoked ==> s.families[t.family].revoked.None? && t.expiresAt == s.families[t.family].expiresAt)
  }

  predicate SameToken(s: State, i: Jti, j: Jti)
    requires i in s.tokens && j in s.tokens
  {
    !s.tokens[i].revoked && !s.tokens[j].revoked && s.tokens[i].family == s.tokens[j].family ==> i == j
  }

  /** A family that is neither revoked nor expired has an unrevoked token, and belongs to an active account. */
  predicate FamilyOk(s: State, f: FamilyId)
    requires f in s.families
  {
    s.families[f].revoked.None? ==>
      && ActiveAccount(s, s.families[f].user)
      && (s.families[f].expiresAt > s.clock ==> Unrevoked(s, f) != {})
  }

  predicate DeviceOk(s: State, d: nat)
    requires d in s.devices
  {
    s.devices[d].session.Some? ==>
      && s.devices[d].session.value in s.families
      && s.families[s.devices[d].session.value].user == s.devices[d].user
      && s.families[s.devices[d].session.value].revoked.None?
  }

  predicate ExchangedOk(s: State, k: nat)
    requires k < |s.exchanged|
  {
    s.exchanged[k] in s.tokens ==> s.tokens[s.exchanged[k]].revoked && s.tokens[s.exchanged[k]].rotatedAt.Some?
  }

  predicate Inv(s: State) {
    && (forall j | j in s.tokens :: TokenOk(s, j))
    && (forall i, j | i in s.tokens && j in s.tokens :: SameToken(s, i, j))
    && (forall f | f in s.families :: FamilyOk(s, f))
    && (forall d | d in s.devices :: DeviceOk(s, d))
    && (forall k | 0 <= k < |s.exchanged| :: ExchangedOk(s, k))
    && (forall j, k | 0 <= j < k < |s.exchanged| :: s.exchanged[j] != s.exchanged[k])
  }

  // ---------------------------------------------------------------- every operation keeps it

  lemma ClockKeepsInv(s: State, now: Instant)
    requires Inv(s) && now >= s.clock
    ensures Inv(s.(clock := now))
  {
    var t := s.(clock := now);
    forall f | f in t.families ensures FamilyOk(t, f) {
      assert FamilyOk(s, f);
      assert Unrevoked(t, f) == Unrevoked(s, f);
    }
    forall j | j in t.tokens ensures TokenOk(t, j) {
      assert TokenOk(s, j);
    }
    forall i, j | i in t.tokens && j in t.tokens ensures SameToken(t, i, j) {
      assert SameToken(s, i, j);
    }
    forall d | d in t.devices ensures DeviceOk(t, d) {
      assert DeviceOk(s, d);
    }
    forall k | 0 <= k < |t.exchanged| ensures ExchangedOk(t, k) {
      assert ExchangedOk(s, k);
    }
  }

  /** A revocation leaves no unrevoked token and no device behind it. */
  lemma RevocationKeepsInv(s: State, user: User, reason: Reason, session: Option<FamilyId>, now: Instant)
    requires Inv(s)
    ensures Inv(RevokedFamilies(s, user, reason, session, now))
  {
    var t := RevokedFamilies(s, user, reason, session, now);
    forall j | j in t.tokens ensures TokenOk(t, j) {
      assert TokenOk(s, j);
    }
    forall i, j | i in t.tokens && j in t.tokens ensures SameToken(t, i, j) {
      assert SameToken(s, i, j);
    }
    forall f | f in t.families ensures FamilyOk(t, f) {
      RevocationSpares(s, user, reason, session, now, f);
    }
    forall d | d in t.devices ensures DeviceOk(t, d) {
      assert DeviceOk(s, d);
    }
    forall k | 0 <= k < |t.exchanged| ensures ExchangedOk(t, k) {
      assert ExchangedOk(s, k);
    }
  }

  lemma RevocationSpares(s: State, user: User, reason: Reason, session: Option<FamilyId>, now: Instant, f: FamilyId)
    requires Inv(s) && f in s.families
    ensures FamilyOk(RevokedFamilies(s, user, reason, session, now), f)
  {
    var t := RevokedFamilies(s, user, reason, session, now);
    assert FamilyOk(s, f);
    if t.families[f].revoked.None? && t.families[f].expiresAt > t.clock {
      var j :| j in Unrevoked(s, f);
      assert TokenOk(s, j);
      assert j in Unrevoked(t, f);
    }
  }

  lemma CreationKeepsInv(s: State, user: User, session: FamilyId, next: NewToken)
    requires Inv(s) && session !in s.families && FreshToken(s, next)
    ensures Inv(Created(s, user, session, next))
  {
    var t := Created(s, user, session, next);
    if ActiveAccount(s, user) {
      forall j | j in t.tokens ensures TokenOk(t, j) {
        if j != next.jti {
          assert TokenOk(s, j);
        }
      }
      forall i, j | i in t.tokens && j in t.tokens ensures SameToken(t, i, j) {
        if i != next.jti {
          assert TokenOk(s, i);
        }
        if j != next.jti {
          assert TokenOk(s, j);
        }
        if i != next.jti && j != next.jti {
          assert SameToken(s, i, j);
        }
      }
      forall f | f in t.families ensures FamilyOk(t, f) {
        if f == session {
          assert next.jti in Unrevoked(t, f);
        } else {
          assert FamilyOk(s, f);
          assert Unrevoked(s, f) <= Unrevoked(t, f);
        }
      }
      forall d | d in t.devices ensures DeviceOk(t, d) {
        assert DeviceOk(s, d);
      }
      forall k | 0 <= k < |t.exchanged| ensures ExchangedOk(t, k) {
        assert ExchangedOk(s, k);
      }
    }
  }

  /** Exchanging the unrevoked token of a live family makes its successor the unrevoked token of that family. */
  lemma ExchangeKeepsInv(s: State, jti: Jti, next: NewToken, now: Instant)
    requires Inv(s) && FreshToken(s, next) && jti in s.tokens && !s.tokens[jti].revoked
    requires s.tokens[jti].family in s.families
    ensures Inv(Exchanged(s, jti, next, now))
    ensures jti !in s.exchanged
  {
    var t := Exchanged(s, jti, next, now);
    var family := s.tokens[jti].family;
    assert TokenOk(s, jti);
    OthersAreRevoked(s, jti);
    ExchangeTokens(s, jti, next, now);
    forall f | f in t.families ensures FamilyOk(t, f) {
      assert FamilyOk(s, f);
      if f == family {
        assert next.jti in Unrevoked(t, f);
      } else if t.families[f].revoked.None? && t.families[f].expiresAt > t.clock {
        var j :| j in Unrevoked(s, f);
        assert j in Unrevoked(t, f);
      }
    }
    forall d | d in t.devices ensures DeviceOk(t, d) {
      assert DeviceOk(s, d);
    }
    forall k | 0 <= k < |s.exchanged| ensures s.exchanged[k] != jti {
      assert ExchangedOk(s, k);
    }
    forall k | 0 <= k < |t.exchanged| ensures ExchangedOk(t, k) {
      if k < |s.exchanged| {
        assert ExchangedOk(s, k);
        assert t.exchanged[k] == s.exchanged[k];
      }
    }
  }

  lemma OthersAreRevoked(s: State, jti: Jti)
    requires Inv(s) && jti in s.tokens && !s.tokens[jti].revoked
    ensures forall j | j in s.tokens && s.tokens[j].family == s.tokens[jti].family && j != jti :: s.tokens[j].revoked
  {
    forall j | j in s.tokens && s.tokens[j].family == s.tokens[jti].family && j != jti ensures s.tokens[j].revoked {
      assert SameToken(s, j, jti);
    }
  }

  lemma ExchangeTokens(s: State, jti: Jti, next: NewToken, now: Instant)
    requires Inv(s) && FreshToken(s, next) && jti in s.tokens && !s.tokens[jti].revoked
    requires s.tokens[jti].family in s.families
    ensures var t := Exchanged(s, jti, next, now);
      && (forall j | j in t.tokens :: TokenOk(t, j))
      && (forall i, j | i in t.tokens && j in t.tokens :: SameToken(t, i, j))
  {
    var t := Exchanged(s, jti, next, now);
    OthersAreRevoked(s, jti);
    assert TokenOk(s, jti);
    forall j | j in t.tokens ensures TokenOk(t, j) {
      if j != next.jti {
        assert TokenOk(s, j);
      }
    }
    forall i, j | i in t.tokens && j in t.tokens ensures SameToken(t, i, j) {
      if i != next.jti && j != next.jti {
        assert SameToken(s, i, j);
      }
    }
  }

  lemma RotationKeepsInv(s: State, jti: Jti, hash: nat, next: NewToken, now: Instant)
    requires Inv(s) && FreshToken(s, next)
    ensures Inv(Rotated(s, jti, hash, next, now).1)
  {
    hide Inv;
    if Authentic(s, jti, hash, now) && ActiveFamily(s, s.tokens[jti].user, s.tokens[jti].family, now) {
      var t := s.tokens[jti];
      if !t.revoked {
        ExchangeKeepsInv(s, jti, next, now);
      } else {
        RevocationKeepsInv(s, t.user, Replay, Some(t.family), now);
      }
    }
  }

  /** Taking devices away, or changing who owns one within the rules, breaks nothing. */
  lemma DevicesKeepInv(s: State, devices: map<nat, Device>)
    requires Inv(s) && forall d | d in devices :: DeviceOk(s.(devices := devices), d)
    ensures Inv(s.(devices := devices))
  {
    var t := s.(devices := devices);
    forall j | j in t.tokens ensures TokenOk(t, j) {
      assert TokenOk(s, j);
    }
    forall i, j | i in t.tokens && j in t.tokens ensures SameToken(t, i, j) {
      assert SameToken(s, i, j);
    }
    forall f | f in t.families ensures FamilyOk(t, f) {
      assert FamilyOk(s, f);
      assert Unrevoked(t, f) == Unrevoked(s, f);
    }
    forall k | 0 <= k < |t.exchanged| ensures ExchangedOk(t, k) {
      assert ExchangedOk(s, k);
    }
  }

  lemma FewerDevicesKeepInv(s: State, devices: map<nat, Device>)
    requires Inv(s) && forall d | d in devices :: d in s.devices && devices[d] == s.devices[d]
    ensures Inv(s.(devices := devices))
  {
    forall d | d in devices ensures DeviceOk(s.(devices := devices), d) {
      assert DeviceOk(s, d);
    }
    hide Inv;
    DevicesKeepInv(s, devices);
  }

  lemma LogoutKeepsInv(s: State, op: Op)
    requires Inv(s) && op.Logout?
    ensures Inv(LoggedOutAfter(s, op).1)
  {
    hide Inv, RevokedFamilies;
    RevocationKeepsInv(s, op.user, LoggedOut, Some(op.session), op.now);
    var out := RevokedFamilies(s, op.user, LoggedOut, Some(op.session), op.now);
    if op.device.Some? {
      FewerDevicesKeepInv(out, WithoutDevice(out, op.user, op.device.value).devices);
    }
  }

  lemma RegistrationKeepsInv(s: State, op: Op)
    requires Inv(s) && op.RegisterDevice?
    ensures Inv(RegisteredAfter(s, op))
  {
    var t := RegisteredAfter(s, op);
    forall d | d in t.devices ensures DeviceOk(t, d) {
      if d in s.devices {
        assert DeviceOk(s, d);
      }
    }
    hide Inv;
    DevicesKeepInv(s, t.devices);
  }

  lemma AccountsKeepInv(s: State, accounts: map<User, Account>)
    requires Inv(s)
    requires forall f | f in s.families && s.families[f].revoked.None? ::
      s.families[f].user in accounts && accounts[s.families[f].user].Active()
    ensures Inv(s.(accounts := accounts))
  {
    var t := s.(accounts := accounts);
    forall j | j in t.tokens ensures TokenOk(t, j) {
      assert TokenOk(s, j);
    }
    forall i, j | i in t.tokens && j in t.tokens ensures SameToken(t, i, j) {
      assert SameToken(s, i, j);
    }
    forall f | f in t.families ensures FamilyOk(t, f) {
      assert FamilyOk(s, f);
      assert Unrevoked(t, f) == Unrevoked(s, f);
    }
    forall d | d in t.devices ensures DeviceOk(t, d) {
      assert DeviceOk(s, d);
    }
    forall k | 0 <= k < |t.exchanged| ensures ExchangedOk(t, k) {
      assert ExchangedOk(s, k);
    }
  }

  lemma LiveFamiliesAreActive(s: State)
    requires Inv(s)
    ensures forall f | f in s.families && s.families[f].revoked.None? :: ActiveAccount(s, s.families[f].user)
  {
    forall f | f in s.families && s.families[f].revoked.None? ensures ActiveAccount(s, s.families[f].user) {
      assert FamilyOk(s, f);
    }
  }

  lemma BanKeepsInv(s: State, user: User, now: Instant)
    requires Inv(s) && user in s.accounts
    ensures Inv(RevokedFamilies(s, user, Banned, None, now).(accounts := s.accounts[user := s.accounts[user].(banned := true)]))
  {
    RevocationKeepsInv(s, user, Banned, None, now);
    LiveFamiliesAreActive(s);
    hide Inv;
    AccountsKeepInv(RevokedFamilies(s, user, Banned, None, now), s.accounts[user := s.accounts[user].(banned := true)]);
  }

  lemma MembershipKeepsInv(s: State, op: Op)
    requires Inv(s) && (op.Unban? || op.Join?) && Enabled(s, op)
    ensures Inv(Effect(s, op))
  {
    LiveFamiliesAreActive(s);
    hide Inv;
    AccountsKeepInv(s, Effect(s, op).accounts);
  }

  lemma DeletionKeepsInv(s: State, user: User)
    requires Inv(s) && user in s.accounts
    ensures Inv(DeletedAfter(s, user))
  {
    var t := DeletedAfter(s, user);
    forall j | j in t.tokens ensures TokenOk(t, j) {
      assert TokenOk(s, j);
    }
    forall i, j | i in t.tokens && j in t.tokens ensures SameToken(t, i, j) {
      assert SameToken(s, i, j);
    }
    forall f | f in t.families ensures FamilyOk(t, f) {
      assert FamilyOk(s, f);
      if t.families[f].revoked.None? && t.families[f].expiresAt > t.clock {
        var j :| j in Unrevoked(s, f);
        assert TokenOk(s, j);
        assert j in Unrevoked(t, f);
      }
    }
    forall d | d in t.devices ensures DeviceOk(t, d) {
      assert DeviceOk(s, d);
    }
    forall k | 0 <= k < |t.exchanged| ensures ExchangedOk(t, k) {
      assert ExchangedOk(s, k);
    }
  }

  /** Purging expired tokens never takes the unrevoked token of a family that has not expired. */
  lemma TokenPurgeKeepsInv(s: State, chosen: set<Jti>)
    requires Inv(s) && forall j | j in chosen :: j in s.tokens && s.tokens[j].expiresAt <= s.clock
    ensures Inv(WithoutTokens(s, chosen))
  {
    var t := WithoutTokens(s, chosen);
    forall j | j in t.tokens ensures TokenOk(t, j) {
      assert TokenOk(s, j);
    }
    forall i, j | i in t.tokens && j in t.tokens ensures SameToken(t, i, j) {
      assert SameToken(s, i, j);
    }
    forall f | f in t.families ensures FamilyOk(t, f) {
      assert FamilyOk(s, f);
      if t.families[f].revoked.None? && t.families[f].expiresAt > t.clock {
        var j :| j in Unrevoked(s, f);
        assert TokenOk(s, j);
        assert j in Unrevoked(t, f);
      }
    }
    forall d | d in t.devices ensures DeviceOk(t, d) {
      assert DeviceOk(s, d);
    }
    forall k | 0 <= k < |t.exchanged| ensures ExchangedOk(t, k) {
      assert ExchangedOk(s, k);
    }
  }

  lemma FamilyPurgeKeepsInv(s: State, op: Op)
    requires Inv(s) && op.PurgeFamilies? && Enabled(s, op)
    ensures Inv(Effect(s, op))
  {
    var t := Effect(s, op);
    forall j | j in t.tokens ensures TokenOk(t, j) {
      assert TokenOk(s, j);
      assert s.tokens[j].family in op.gone ==> EmptyFamily(s, s.tokens[j].family, op.now);
    }
    forall i, j | i in t.tokens && j in t.tokens ensures SameToken(t, i, j) {
      assert SameToken(s, i, j);
    }
    forall f | f in t.families ensures FamilyOk(t, f) {
      assert FamilyOk(s, f);
      assert Unrevoked(t, f) == Unrevoked(s, f);
    }
    forall d | d in t.devices ensures DeviceOk(t, d) {
      assert DeviceOk(s, d);
    }
    forall k | 0 <= k < |t.exchanged| ensures ExchangedOk(t, k) {
      assert ExchangedOk(s, k);
    }
  }

  lemma EffectKeepsInv(s: State, op: Op)
    requires Inv(s) && Enabled(s, op) && s.clock == op.now
    ensures Inv(Effect(s, op))
  {
    hide Inv, RevokedFamilies, Created, Rotated, LoggedOutAfter, DeletedAfter, RegisteredAfter, WithoutTokens;
    match op {
      case Create(user, session, token, _) => CreationKeepsInv(s, user, session, token);
      case Rotate(jti, hash, token, now) => RotationKeepsInv(s, jti, hash, token, now);
      case Logout(_, _, _, _, _, _) => LogoutKeepsInv(s, op);
      case Revoke(user, _, target, now) =>
        RevocationKeepsInv(s, user, UserRevoked, target, now);
        RevocationKeepsInv(s, user, LogoutAll, target, now);
      case Ban(user, now) =>
        if user in s.accounts {
          BanKeepsInv(s, user, now);
        }
      case Unban(_, _) => MembershipKeepsInv(s, op);
      case Delete(user, _) => DeletionKeepsInv(s, user);
      case Join(_, _) => MembershipKeepsInv(s, op);
      case RegisterDevice(_, _, _, _, _) => RegistrationKeepsInv(s, op);
      case RemoveDevice(user, id, _) => FewerDevicesKeepInv(s, WithoutDevice(s, user, id).devices);
      case RemoveToken(push, _) => FewerDevicesKeepInv(s, s.devices - {push});
      case PurgeTokens(chosen, _) => TokenPurgeKeepsInv(s, chosen);
      case PurgeFamilies(_, _) => FamilyPurgeKeepsInv(s, op);
    }
  }

  lemma StepKeepsInv(s: State, op: Op)
    requires Inv(s) && Enabled(s, op)
    ensures Inv(Apply(s, op))
  {
    hide Inv, Effect;
    ClockKeepsInv(s, op.now);
    EffectKeepsInv(s.(clock := op.now), op);
  }

  // ---------------------------------------------------------------- whole runs

  const EMPTY := State(map[], map[], map[], map[], 0, [])

  ghost predicate Run(states: seq<State>, ops: seq<Op>) {
    && |states| == |ops| + 1 && states[0] == EMPTY
    && forall k | 0 <= k < |ops| :: Step(states[k], ops[k], states[k + 1])
  }

  ghost predicate Step(s: State, op: Op, next: State) {
    Enabled(s, op) && next == Apply(s, op)
  }

  lemma {:induction false} RunKeepsInv(states: seq<State>, ops: seq<Op>, n: nat)
    requires Run(states, ops) && n < |states|
    ensures Inv(states[n])
  {
    hide Apply, Enabled;
    if n > 0 {
      RunKeepsInv(states, ops, n - 1);
      assert Step(states[n - 1], ops[n - 1], states[n]);
      StepKeepsInv(states[n - 1], ops[n - 1]);
    }
  }

  /** A family that is neither revoked nor expired has exactly one unrevoked token, and that token expires with it. */
  lemma LiveFamilyHasOneToken(states: seq<State>, ops: seq<Op>, n: nat, f: FamilyId)
    requires Run(states, ops) && n < |states| && f in states[n].families && states[n].families[f].Live(states[n].clock)
    ensures |Unrevoked(states[n], f)| == 1
    ensures forall j | j in Unrevoked(states[n], f) :: states[n].tokens[j].expiresAt == states[n].families[f].expiresAt
  {
    var s := states[n];
    RunKeepsInv(states, ops, n);
    assert FamilyOk(s, f);
    var j :| j in Unrevoked(s, f);
    forall i | i in Unrevoked(s, f) ensures i == j && s.tokens[i].expiresAt == s.families[f].expiresAt {
      assert SameToken(s, i, j) && TokenOk(s, i);
    }
    assert Unrevoked(s, f) == {j};
  }

  /** A revoked family has no unrevoked token and no device; a banned or deleted account has no family that is not revoked. */
  lemma RevokedFamilyIsBare(states: seq<State>, ops: seq<Op>, n: nat, f: FamilyId)
    requires Run(states, ops) && n < |states| && f in states[n].families
    ensures states[n].families[f].revoked.Some? ==> Unrevoked(states[n], f) == {}
    ensures states[n].families[f].revoked.Some? ==> forall d | d in states[n].devices :: states[n].devices[d].session != Some(f)
    ensures !ActiveAccount(states[n], states[n].families[f].user) ==> states[n].families[f].revoked.Some?
  {
    var s := states[n];
    RunKeepsInv(states, ops, n);
    assert FamilyOk(s, f);
    if s.families[f].revoked.Some? {
      forall j | j in s.tokens ensures j !in Unrevoked(s, f) {
        assert TokenOk(s, j);
      }
      forall d | d in s.devices ensures s.devices[d].session != Some(f) {
        assert DeviceOk(s, d);
      }
    }
  }

  /** No token is ever exchanged twice. */
  lemma ExchangedOnce(states: seq<State>, ops: seq<Op>, n: nat)
    requires Run(states, ops) && n < |states|
    ensures forall j, k | 0 <= j < k < |states[n].exchanged| :: states[n].exchanged[j] != states[n].exchanged[k]
  {
    RunKeepsInv(states, ops, n);
  }

  /**
   * The answer to a presented refresh token: an exchange exactly for the one unrevoked token of a live family, the
   * revocation of the family exactly for an authentic token already exchanged, and otherwise, a wrong secret above
   * all, nothing.
   */
  lemma RefreshOutcome(s: State, jti: Jti, hash: nat, next: NewToken, now: Instant)
    requires Inv(s) && FreshToken(s, next)
    ensures var (r, t) := Rotated(s, jti, hash, next, now);
      var good := Authentic(s, jti, hash, now) && ActiveFamily(s, s.tokens[jti].user, s.tokens[jti].family, now);
      && (r.Some? <==> good && !s.tokens[jti].revoked)
      && (r.None? && t != s ==> good && s.tokens[jti].revoked)
      && (!good ==> t == s)
    ensures var (r, t) := Rotated(s, jti, hash, next, now);
      r.Some? ==> Unrevoked(t, r.value.1) == {next.jti} && t.tokens[next.jti].parent == Some(jti)
    ensures Authentic(s, jti, hash, now) && ActiveFamily(s, s.tokens[jti].user, s.tokens[jti].family, now) ==>
      s.tokens[jti].revoked ==> ReplayedFamily(Rotated(s, jti, hash, next, now).1, s.tokens[jti].family, now)
  {
    if Authentic(s, jti, hash, now) && ActiveFamily(s, s.tokens[jti].user, s.tokens[jti].family, now) {
      assert TokenOk(s, jti);
      if s.tokens[jti].revoked {
        ReplayRevokes(s, jti, now);
      } else {
        OthersAreRevoked(s, jti);
      }
    }
  }

  /** The step hands out this token: a new session's first, or the next one of a session whose token is exchanged. */
  predicate Issues(s: State, op: Op, j: Jti, hash: nat) {
    && (op.Create? || op.Rotate?) && op.token.jti == j && op.token.hash == hash && j !in s.tokens
    && (op.Rotate? ==> op.jti in s.tokens && s.tokens[op.jti].hash == op.hash && !s.tokens[op.jti].revoked)
  }

  lemma TokenComesFrom(s: State, op: Op, j: Jti)
    requires Enabled(s, op) && j in Apply(s, op).tokens
    ensures j in s.tokens ==> Apply(s, op).tokens[j].hash == s.tokens[j].hash
    ensures j !in s.tokens ==> Issues(s, op, j, Apply(s, op).tokens[j].hash)
  {
  }

  /** Every token in the table has the hash it was issued with. */
  lemma {:induction false} TokenWasIssued(states: seq<State>, ops: seq<Op>, n: nat, j: Jti)
    requires Run(states, ops) && n < |states| && j in states[n].tokens
    ensures exists k :: 0 <= k < n && Issues(states[k], ops[k], j, states[n].tokens[j].hash)
  {
    hide Apply, Enabled, Issues;
    assert n > 0;
    assert Step(states[n - 1], ops[n - 1], states[n]);
    TokenComesFrom(states[n - 1], ops[n - 1], j);
    if j in states[n - 1].tokens {
      TokenWasIssued(states, ops, n - 1, j);
    }
  }

  /**
   * An exchange presents the very hash that its token was issued with: when the session was created, or by the
   * exchange of the token before it. A forged secret is never exchanged.
   */
  lemma ExchangePresentsIssuedHash(states: seq<State>, ops: seq<Op>, n: nat)
    requires Run(states, ops) && n < |ops| && ops[n].Rotate?
    requires states[n + 1].exchanged != states[n].exchanged
    ensures states[n + 1].exchanged == states[n].exchanged + [ops[n].jti]
    ensures exists k :: 0 <= k < n && Issues(states[k], ops[k], ops[n].jti, ops[n].hash)
  {
    assert Step(states[n], ops[n], states[n + 1]);
    RotateColumns(states[n].(clock := ops[n].now), ops[n].jti, ops[n].hash, ops[n].token, ops[n].now);
    hide Rotated, Issues;
    TokenWasIssued(states, ops, n, ops[n].jti);
  }

  // ---- what the statements do, column by column

  /** The token may be presented: it is there, with this secret, and it, its account and its session are usable. */
  predicate Presentable(s: State, jti: Jti, hash: nat, now: Instant) {
    && jti in s.tokens && s.tokens[jti].hash == hash && s.tokens[jti].expiresAt > now
    && s.tokens[jti].user in s.accounts && !s.accounts[s.tokens[jti].user].deleted && !s.accounts[s.tokens[jti].user].banned
    && s.tokens[jti].family in s.families && s.families[s.tokens[jti].family].user == s.tokens[jti].user
    && s.families[s.tokens[jti].family].revoked.None? && s.families[s.tokens[jti].family].expiresAt > now
  }

  lemma RotateColumns(s: State, jti: Jti, hash: nat, next: NewToken, now: Instant)
    ensures var (r, t) := Rotated(s, jti, hash, next, now);
      && (r.Some? <==> Presentable(s, jti, hash, now) && !s.tokens[jti].revoked)
      && (r.Some? ==>
            && r == Some((s.tokens[jti].user, s.tokens[jti].family))
            && t == s.(tokens := s.tokens[jti := s.tokens[jti].(revoked := true, rotatedAt := Some(now))]
                         [next.jti := Token(s.tokens[jti].user, s.tokens[jti].family, Some(jti), next.hash, false, None,
                                            next.expiresAt)],
                       families := s.families[s.tokens[jti].family := s.families[s.tokens[jti].family].(
                         lastRefreshedAt := now, expiresAt := next.expiresAt)],
                       exchanged := s.exchanged + [jti]))
      && (!Presentable(s, jti, hash, now) ==> t == s)
      && (Presentable(s, jti, hash, now) && s.tokens[jti].revoked ==>
            t == if s.tokens[jti].rotatedAt.Some?
                 then RevokedFamilies(s, s.tokens[jti].user, Replay, Some(s.tokens[jti].family), now) else s)
  {
    hide RevokedFamilies;
  }

  /** A revocation, row by row: of one session or of all, and of nobody else. */
  lemma RevocationColumns(s: State, user: User, reason: Reason, session: Option<FamilyId>, now: Instant)
    ensures var t := RevokedFamilies(s, user, reason, session, now);
      && t == s.(families := t.families, tokens := t.tokens, devices := t.devices)
      && t.families.Keys == s.families.Keys && t.tokens.Keys == s.tokens.Keys
    ensures forall f | f in s.families ::
      RevokedFamilies(s, user, reason, session, now).families[f]
        == if s.families[f].user == user && s.families[f].revoked.None? && (session.None? || session == Some(f))
           then s.families[f].(revoked := Some((now, reason))) else s.families[f]
    ensures forall j | j in s.tokens ::
      RevokedFamilies(s, user, reason, session, now).tokens[j]
        == if s.tokens[j].user == user && (session.None? || session == Some(s.tokens[j].family))
           then s.tokens[j].(revoked := true) else s.tokens[j]
    ensures forall d | d in s.devices ::
      var goes := s.devices[d].user == user && (session.None? || s.devices[d].session == session);
      d !in RevokedFamilies(s, user, reason, session, now).devices <==> goes
    ensures forall d | d in RevokedFamilies(s, user, reason, session, now).devices ::
      d in s.devices && RevokedFamilies(s, user, reason, session, now).devices[d] == s.devices[d]
  {
  }

  lemma LogoutColumns(s: State, op: Op)
    requires op.Logout?
    ensures var (done, t) := LoggedOutAfter(s, op);
      && (done <==> && Presentable(s, op.jti, op.hash, op.now)
                    && s.tokens[op.jti].user == op.user && s.tokens[op.jti].family == op.session)
      && (!done ==> t == s)
      && (done ==> var out := RevokedFamilies(s, op.user, LoggedOut, Some(op.session), op.now);
            && t == out.(devices := t.devices)
            && (forall d | d in out.devices ::
                  var named := op.device.Some? && out.devices[d].user == op.user && out.devices[d].id == op.device.value;
                  d !in t.devices <==> named)
            && (forall d | d in t.devices :: d in out.devices && t.devices[d] == out.devices[d]))
  {
    hide RevokedFamilies;
  }

  /** One's own sessions only, from a live one; another user's session is not touched. */
  lemma RevokeColumns(s: State, op: Op)
    requires op.Revoke?
    ensures var allowed := op.user in s.accounts && !s.accounts[op.user].deleted && !s.accounts[op.user].banned
          && op.session in s.families && s.families[op.session].user == op.user
          && s.families[op.session].revoked.None? && s.families[op.session].expiresAt > op.now
          && (op.target.Some? ==> op.target.value in s.families && s.families[op.target.value].user == op.user);
      RevokedAfter(s, op)
        == if allowed then RevokedFamilies(s, op.user, if op.target.Some? then UserRevoked else LogoutAll, op.target, op.now)
           else s
  {
    hide RevokedFamilies;
  }

  lemma RegisterColumns(s: State, op: Op)
    requires op.RegisterDevice?
    ensures var allowed := op.user in s.accounts && !s.accounts[op.user].deleted && !s.accounts[op.user].banned
          && op.session in s.families && s.families[op.session].user == op.user
          && s.families[op.session].revoked.None? && s.families[op.session].expiresAt > op.now;
      && (!allowed ==> RegisteredAfter(s, op) == s)
      && (allowed ==> RegisteredAfter(s, op) == s.(devices := s.devices[op.push :=
            Device(if op.push in s.devices then s.devices[op.push].id else op.id, op.user, Some(op.session))]))
  {
  }

  /** A ban and a deletion take effect at once, on every session of the user. */
  lemma BanColumns(s: State, user: User, now: Instant)
    requires user in s.accounts && !s.accounts[user].deleted && now >= s.clock
    ensures var t := Apply(s, Ban(user, now));
      && user in t.accounts && t.accounts[user].banned
      && (forall f | f in s.families && s.families[f].user == user :: t.families[f].revoked.Some?)
      && (forall f | f in s.families && s.families[f].user != user :: t.families[f] == s.families[f])
      && (forall d | d in t.devices :: t.devices[d].user != user)
    ensures var t := Apply(s, Delete(user, now));
      && user in t.accounts && t.accounts[user].deleted
      && (forall f | f in t.families :: f in s.families && t.families[f] == s.families[f] && s.families[f].user != user)
      && (forall f | f in s.families && s.families[f].user != user :: f in t.families)
      && (forall j | j in t.tokens :: t.tokens[j].user != user)
  {
  }

  lemma CreateColumns(s: State, user: User, session: FamilyId, next: NewToken)
    ensures Created(s, user, session, next)
      == if user in s.accounts && !s.accounts[user].deleted && !s.accounts[user].banned
         then s.(families := s.families[session := Family(user, next.createdAt, next.expiresAt, None)],
                 tokens := s.tokens[next.jti := Token(user, session, None, next.hash, false, None, next.expiresAt)])
         else s
  {
  }

  predicate ReplayedFamily(t: State, f: FamilyId, now: Instant) {
    && f in t.families && t.families[f].revoked == Some((now, Replay))
    && Unrevoked(t, f) == {} && forall d | d in t.devices :: t.devices[d].session != Some(f)
  }

  lemma ReplayRevokes(s: State, jti: Jti, now: Instant)
    requires Inv(s) && jti in s.tokens && s.tokens[jti].family in s.families
    requires s.families[s.tokens[jti].family].revoked.None?
    ensures ReplayedFamily(RevokedFamilies(s, s.tokens[jti].user, Replay, Some(s.tokens[jti].family), now),
                           s.tokens[jti].family, now)
  {
    var f, user := s.tokens[jti].family, s.tokens[jti].user;
    var t := RevokedFamilies(s, user, Replay, Some(f), now);
    assert TokenOk(s, jti);
    forall j | j in s.tokens && s.tokens[j].family == f ensures t.tokens[j].revoked {
      assert TokenOk(s, j);
    }
    forall d | d in t.devices ensures t.devices[d].session != Some(f) {
      assert DeviceOk(s, d);
    }
  }

  lemma StepKeepsRevoked(s: State, op: Op, f: FamilyId)
    requires Enabled(s, op) && f in s.families && s.families[f].revoked.Some? && f in Apply(s, op).families
    ensures Apply(s, op).families[f].revoked == s.families[f].revoked
  {
  }

  /** A revoked family stays revoked, for its first reason, as long as it is in the table. */
  lemma {:induction false} RevokedForGood(states: seq<State>, ops: seq<Op>, m: nat, n: nat, f: FamilyId)
    requires Run(states, ops) && m <= n < |states|
    requires forall k | m <= k <= n :: f in states[k].families
    requires states[m].families[f].revoked.Some?
    ensures states[n].families[f].revoked == states[m].families[f].revoked
    decreases n - m
  {
    hide Apply, Enabled;
    if m < n {
      RevokedForGood(states, ops, m, n - 1, f);
      assert f in states[n - 1].families && f in states[n].families && Step(states[n - 1], ops[n - 1], states[n]);
      StepKeepsRevoked(states[n - 1], ops[n - 1], f);
    }
  }

  /** So once a replay, a logout or a ban has revoked a family, none of its tokens is ever exchanged again. */
  lemma RevokedIsNeverExchanged(states: seq<State>, ops: seq<Op>, m: nat, n: nat, f: FamilyId)
    requires Run(states, ops) && m <= n < |ops|
    requires forall k | m <= k <= n :: f in states[k].families
    requires states[m].families[f].revoked.Some? && ops[n].Rotate?
    ensures var r := Rotated(states[n].(clock := ops[n].now), ops[n].jti, ops[n].hash, ops[n].token, ops[n].now).0;
      r.Some? ==> r.value.1 != f
  {
    RevokedForGood(states, ops, m, n, f);
  }

  // ---------------------------------------------------------------- the repositories

  /** The families that a revocation would newly revoke. */
  function LiveReached(families: map<FamilyId, Family>, user: User, session: Option<FamilyId>): set<FamilyId> {
    set f | f in families && Reached(user, session, families[f].user, f) && families[f].revoked.None?
  }

  class RefreshSessionRepository {
    var accounts: map<User, Account>
    var families: map<FamilyId, Family>
    var tokens: map<Jti, Token>
    var devices: map<nat, Device>
    ghost var clock: Instant
    ghost var exchanged: seq<Jti>

    constructor ()
      ensures Value() == EMPTY && Inv(Value())
    {
      accounts, families, tokens, devices, clock, exchanged := map[], map[], map[], map[], 0, [];
    }

    ghost function Value(): State
      reads this
    {
      State(accounts, families, tokens, devices, clock, exchanged)
    }

    method LockActiveAccount(userId: User) returns (active: bool)
      ensures active == ActiveAccount(Value(), userId)
    {
      active := userId in accounts && !accounts[userId].deleted && !accounts[userId].banned;
    }

    method FamilyIsActive(userId: User, sessionId: FamilyId, now: Instant) returns (active: bool)
      ensures active == ActiveFamily(Value(), userId, sessionId, now)
    {
      active := sessionId in families && families[sessionId].user == userId && families[sessionId].revoked.None?
        && families[sessionId].expiresAt > now;
    }

    /** The account is locked between reading the token and reading it again. */
    method LockToken(jti: Jti, hash: nat, owner: Option<User>, now: Instant) returns (token: Option<Token>)
      ensures token.Some? <==>
        Authentic(Value(), jti, hash, now) && (owner.Some? ==> tokens[jti].user == owner.value)
      ensures token.Some? ==> token.value == tokens[jti]
      ensures token.Some? <==>
        && jti in tokens && tokens[jti].hash == hash && tokens[jti].expiresAt > now
        && (owner.Some? ==> tokens[jti].user == owner.value)
        && tokens[jti].user in accounts && !accounts[tokens[jti].user].deleted && !accounts[tokens[jti].user].banned
    {
      if jti !in tokens || (owner.Some? && tokens[jti].user != owner.value) || tokens[jti].hash != hash {
        return None;
      }
      var active := LockActiveAccount(tokens[jti].user);
      if !active {
        return None;
      }
      token := if tokens[jti].expiresAt > now then Some(tokens[jti]) else None;
    }

    method Create(userId: User, sessionId: FamilyId, token: NewToken, now: Instant) returns (created: bool)
      requires Inv(Value()) && Enabled(Value(), Op.Create(userId, sessionId, token, now))
      modifies this
      ensures Value() == Apply(old(Value()), Op.Create(userId, sessionId, token, now)) && Inv(Value())
      ensures created == ActiveAccount(old(Value()), userId)
    {
      StepKeepsInv(Value(), Op.Create(userId, sessionId, token, now));
      hide Inv;
      clock := now;
      created := LockActiveAccount(userId);
      if !created {
        return;
      }
      families := families[sessionId := Family(userId, token.createdAt, token.expiresAt, None)];
      InsertToken(userId, sessionId, token, None);
    }

    method InsertToken(userId: User, sessionId: FamilyId, token: NewToken, parent: Option<Jti>)
      modifies this`tokens
      ensures tokens == old(tokens)[token.jti := Inserted(token, userId, sessionId, parent)]
    {
      tokens := tokens[token.jti := Token(userId, sessionId, parent, token.hash, false, None, token.expiresAt)];
    }

    /** The three statements of revokeFamilies; the count is of families that were not revoked before. */
    method RevokeFamilies(userId: User, reason: Reason, sessionId: Option<FamilyId>, now: Instant) returns (count: nat)
      modifies this`families, this`tokens, this`devices
      ensures Value() == RevokedFamilies(old(Value()), userId, reason, sessionId, now)
      ensures count == |LiveReached(old(families), userId, sessionId)|
    {
      hide Reached, Tied, LiveReached;
      count := |LiveReached(families, userId, sessionId)|;
      RevokeRows(userId, reason, sessionId, now);
      RevokeTokens(userId, sessionId);
      RemoveDevices(userId, sessionId);
    }

    method RemoveDevices(userId: User, sessionId: Option<FamilyId>)
      modifies this`devices
      ensures devices == map d | d in old(devices) && !Tied(old(devices)[d], userId, sessionId) :: old(devices)[d]
    {
      devices := map d | d in devices && !(devices[d].user == userId && (sessionId.None? || devices[d].session == sessionId))
        :: devices[d];
    }

    method RevokeRows(userId: User, reason: Reason, sessionId: Option<FamilyId>, now: Instant)
      modifies this`families
      ensures families == map f | f in old(families) ::
        if Reached(userId, sessionId, old(families)[f].user, f) && old(families)[f].revoked.None?
        then old(families)[f].(revoked := Some((now, reason))) else old(families)[f]
    {
      families := map f | f in families ::
        if f in LiveReached(families, userId, sessionId) then families[f].(revoked := Some((now, reason))) else families[f];
    }

    method RevokeTokens(userId: User, sessionId: Option<FamilyId>)
      modifies this`tokens
      ensures tokens == map j | j in old(tokens) ::
        if Reached(userId, sessionId, old(tokens)[j].user, old(tokens)[j].family)
        then old(tokens)[j].(revoked := true) else old(tokens)[j]
    {
      tokens := map j | j in tokens ::
        if tokens[j].user == userId && !tokens[j].revoked && (sessionId.None? || tokens[j].family == sessionId.value)
        then tokens[j].(revoked := true) else tokens[j];
    }

    method Rotate(jti: Jti, hash: nat, next: NewToken, now: Instant) returns (identity: Option<(User, FamilyId)>)
      requires Inv(Value()) && Enabled(Value(), Op.Rotate(jti, hash, next, now))
      modifies this
      ensures Value() == Apply(old(Value()), Op.Rotate(jti, hash, next, now)) && Inv(Value())
      ensures identity == Rotated(old(Value()).(clock := now), jti, hash, next, now).0
      ensures identity.Some? <==> Presentable(old(Value()), jti, hash, now) && !old(tokens)[jti].revoked
      ensures identity.Some? ==>
        && next.jti in tokens
        && tokens[next.jti] == Token(identity.value.0, identity.value.1, Some(jti), next.hash, false, None, next.expiresAt)
      ensures jti !in old(tokens) || old(tokens)[jti].hash != hash ==>
        identity.None? && families == old(families) && tokens == old(tokens) && devices == old(devices)
    {
      StepKeepsInv(Value(), Op.Rotate(jti, hash, next, now));
      RotateColumns(Value().(clock := now), jti, hash, next, now);
      hide Inv, RevokedFamilies;
      clock := now;
      var found := LockToken(jti, hash, None, now);
      if found.None? {
        return None;
      }
      var token := found.value;
      var active := FamilyIsActive(token.user, token.family, now);
      if !active {
        return None;
      }
      if token.revoked {
        if token.rotatedAt.Some? {
          var _ := RevokeFamilies(token.user, Replay, Some(token.family), now);
        }
        return None;
      }
      tokens := tokens[jti := token.(revoked := true, rotatedAt := Some(now))];
      InsertToken(token.user, token.family, next, Some(jti));
      families := families[token.family := families[token.family].(lastRefreshedAt := now, expiresAt := next.expiresAt)];
      exchanged := exchanged + [jti];
      identity := Some((token.user, token.family));
    }

    method Logout(userId: User, sessionId: FamilyId, jti: Jti, hash: nat, deviceId: Option<nat>, now: Instant)
      returns (done: bool)
      requires Inv(Value()) && Enabled(Value(), Op.Logout(userId, sessionId, jti, hash, deviceId, now))
      modifies this
      ensures Value() == Apply(old(Value()), Op.Logout(userId, sessionId, jti, hash, deviceId, now)) && Inv(Value())
      ensures !done ==> Value() == old(Value()).(clock := now)
      ensures done <==> && Presentable(old(Value()), jti, hash, now)
                        && old(tokens)[jti].user == userId && old(tokens)[jti].family == sessionId
      ensures jti !in old(tokens) || old(tokens)[jti].hash != hash ==>
        !done && families == old(families) && tokens == old(tokens) && devices == old(devices)
      ensures done ==> sessionId in families && families[sessionId].revoked == Some((now, LoggedOut))
    {
      StepKeepsInv(Value(), Op.Logout(userId, sessionId, jti, hash, deviceId, now));
      hide Inv;
      clock := now;
      var token := LockToken(jti, hash, Some(userId), now);
      if token.None? || token.value.family != sessionId {
        return false;
      }
      var active := FamilyIsActive(userId, sessionId, now);
      if !active {
        return false;
      }
      var _ := RevokeFamilies(userId, LoggedOut, Some(sessionId), now);
      if deviceId.Some? {
        devices := map d | d in devices && !(devices[d].id == deviceId.value && devices[d].user == userId) :: devices[d];
      }
      done := true;
    }

    method Revoke(userId: User, currentSessionId: FamilyId, targetId: Option<FamilyId>, now: Instant)
      returns (count: Option<nat>)
      requires Inv(Value()) && Enabled(Value(), Op.Revoke(userId, currentSessionId, targetId, now))
      modifies this
      ensures Value() == Apply(old(Value()), Op.Revoke(userId, currentSessionId, targetId, now)) && Inv(Value())
      ensures count.None? ==> Value() == old(Value()).(clock := now)
      ensures count.Some? && targetId.None? ==>
        forall f | f in families && families[f].user == userId :: families[f].revoked.Some?
      ensures count.Some? && targetId.None? ==> count.value == |LiveReached(old(families), userId, None)|
      ensures count == Some(1) && targetId.Some? ==> targetId.value in families && families[targetId.value].revoked.Some?
    {
      StepKeepsInv(Value(), Op.Revoke(userId, currentSessionId, targetId, now));
      hide Inv;
      clock := now;
      var account := LockActiveAccount(userId);
      var family := FamilyIsActive(userId, currentSessionId, now);
      if !account || !family {
        return None;
      }
      if targetId.Some? {
        if targetId.value !in families || families[targetId.value].user != userId {
          return Some(0);
        }
      }
      var revoked := RevokeFamilies(userId, if targetId.Some? then UserRevoked else LogoutAll, targetId, now);
      count := Some(if targetId.Some? then 1 else revoked);
    }

    method RegisterDevice(userId: User, sessionId: FamilyId, push: nat, id: nat, now: Instant) returns (registered: bool)
      requires Inv(Value()) && Enabled(Value(), Op.RegisterDevice(userId, sessionId, push, id, now))
      modifies this
      ensures Value() == Apply(old(Value()), Op.RegisterDevice(userId, sessionId, push, id, now)) && Inv(Value())
      ensures registered ==> push in devices && devices[push].user == userId && devices[push].session == Some(sessionId)
      ensures !registered ==> devices == old(devices)
    {
      StepKeepsInv(Value(), Op.RegisterDevice(userId, sessionId, push, id, now));
      hide Inv;
      clock := now;
      var account := LockActiveAccount(userId);
      if !account {
        return false;
      }
      registered := FamilyIsActive(userId, sessionId, now);
      if registered {
        if push in devices {
          devices := devices[push := devices[push].(user := userId, session := Some(sessionId))];
        } else {
          devices := devices[push := Device(id, userId, Some(sessionId))];
        }
      }
    }
  }
}
