// Profile photos across the database, the object storage and the outbox: uploads in several steps, deletions that
// workers finish later, cleanup of what was left behind, and the idempotency records of uploads.

module Photos {
  import opened Options

  type Instant = int
  type User = nat
  type PhotoId = nat  // it names the row and, with the user, the object

  datatype Status = Pending | Processing | Ready | Deleting

  datatype Photo = Photo(user: User, status: Status, recorded: bool, updatedAt: Instant)
  {
    predicate InFlight() {
      status.Pending? || status.Processing?
    }
  }

  datatype RequestStatus = Running | Completed | Consumed

  datatype Request = Request(sha: nat, status: RequestStatus, photo: Option<PhotoId>, expiresAt: Instant)

  type RequestKey = (User, nat)

  datatype EventStatus = Queued | Claimed | Done | DeadLetter | Discarded

  /** How far the upload that made a photo has come. */
  datatype Stage = Created | Recorded | Stored | Over

  datatype State = State(
    live: set<User>,  // users with a profile whose account is not deleted
    photos: map<PhotoId, Photo>,
    requests: map<RequestKey, Request>,
    objects: set<PhotoId>,
    events: map<PhotoId, EventStatus>,  // the photo.delete events, by photo
    uploads: map<PhotoId, Stage>,  // every upload there has been
    condemned: set<PhotoId>,  // history: photos that were once `deleting`
    answered: set<PhotoId>)  // history: photos whose deletion a dispatcher reported as completed

  datatype Op =
    | Create(photo: PhotoId, user: User, key: nat, sha: nat, expiresAt: Instant, now: Instant)
    | Record(photo: PhotoId, now: Instant)
    | Put(photo: PhotoId)
    | Activate(photo: PhotoId, now: Instant)
    | Discard(photo: PhotoId)
    | BeginDelete(user: User, now: Instant)
    | DeleteAll(user: User, chosen: set<PhotoId>, now: Instant)
    | Cleanup(chosen: set<PhotoId>, staleBefore: Instant, retryBefore: Instant, now: Instant)
    | Reconcile(photo: PhotoId, staleBefore: Instant, now: Instant)
    | Reject(photo: PhotoId, now: Instant)
    | FindNone(photo: PhotoId)
    | DeleteObject(photo: PhotoId)
    | CompleteDeletion(photo: PhotoId)
    | ClaimEvent(photo: PhotoId)
    | CompleteEvent(photo: PhotoId)
    | FailEvent(photo: PhotoId, dead: bool)
    | RetryEvent(photo: PhotoId)
    | DiscardEvent(photo: PhotoId)
    | PurgeEvent(photo: PhotoId)
    | PurgeRequests(expired: set<RequestKey>, now: Instant)
    | SetLive(user: User, on: bool)

  // ---------------------------------------------------------------- creating

  datatype Creation = NoProfile | Started | InProgress | Conflict | Used | Replay(photo: PhotoId)

  predicate UploadInFlight(photos: map<PhotoId, Photo>, user: User) {
    exists p | p in photos :: photos[p].user == user && photos[p].InFlight()
  }

  /** What a repeated idempotency key answers. */
  function RepeatedKey(photos: map<PhotoId, Photo>, user: User, r: Request, sha: nat): Creation {
    if r.sha != sha then Conflict
    else if r.status.Running? then InProgress
    else if r.status.Completed? && r.photo.Some? && r.photo.value in photos && photos[r.photo.value].user == user
            && photos[r.photo.value].status.Ready? then Replay(r.photo.value)
    else Used
  }

  predicate Remembered(s: State, op: Op)
    requires op.Create?
  {
    (op.user, op.key) in s.requests && s.requests[(op.user, op.key)].expiresAt > op.now
  }

  function CreationOf(s: State, op: Op): Creation
    requires op.Create?
  {
    if op.user !in s.live then NoProfile
    else if Remembered(s, op) then RepeatedKey(s.photos, op.user, s.requests[(op.user, op.key)], op.sha)
    else if UploadInFlight(s.photos, op.user) then InProgress
    else Started
  }

  function CreatedAfter(s: State, op: Op): State
    requires op.Create?
  {
    var key := (op.user, op.key);
    var cleared := if op.user in s.live && !Remembered(s, op) then s.(requests := s.requests - {key}) else s;
    if CreationOf(s, op).Started? then
      s.(photos := s.photos[op.photo := Photo(op.user, Processing, false, op.now)],
         requests := s.requests[key := Request(op.sha, Running, Some(op.photo), op.expiresAt)],
         uploads := s.uploads[op.photo := Created])
    else cleared
  }

  // ---------------------------------------------------------------- the other steps

  predicate IsProcessing(s: State, p: PhotoId) {
    p in s.photos && s.photos[p].status.Processing?
  }

  function RecordedAfter(s: State, p: PhotoId, now: Instant): State
    requires p in s.uploads
  {
    if IsProcessing(s, p) && s.photos[p].user in s.live
    then s.(photos := s.photos[p := s.photos[p].(recorded := true, updatedAt := now)], uploads := s.uploads[p := Recorded])
    else s
  }

  /** Marking photos as deleting; it is where every deletion begins. */
  function Condemned(s: State, chosen: set<PhotoId>, now: Instant): State {
    s.(photos := (map p | p in s.photos ::
         if p in chosen then s.photos[p].(status := Deleting, updatedAt := now) else s.photos[p]),
       condemned := s.condemned + chosen)
  }

  function ReadyOf(photos: map<PhotoId, Photo>, user: User): set<PhotoId> {
    set p | p in photos && photos[p].user == user && photos[p].status.Ready?
  }

  /** INSERT ... ON CONFLICT DO NOTHING for each photo. */
  function Enqueued(events: map<PhotoId, EventStatus>, chosen: set<PhotoId>): map<PhotoId, EventStatus> {
    map p | p in events.Keys + chosen :: if p in events then events[p] else Queued
  }

  predicate RunningRequest(requests: map<RequestKey, Request>, p: PhotoId, user: User, k: RequestKey)
    requires k in requests
  {
    k.0 == user && requests[k].photo == Some(p) && requests[k].status.Running?
  }

  function RunningRequests(requests: map<RequestKey, Request>, p: PhotoId, user: User): set<RequestKey> {
    set k | k in requests && RunningRequest(requests, p, user, k)
  }

  datatype Activation = Activated | Unavailable | RequestLost | Broken

  /** The old photo goes, the new one is shown, its request is completed; without that request nothing happens. */
  function ActivationOf(s: State, p: PhotoId): Activation
  {
    if !(p in s.photos && s.photos[p].user in s.live && IsProcessing(s, p) && s.photos[p].recorded) then Unavailable
    else if |RunningRequests(s.requests, p, s.photos[p].user)| != 1 then RequestLost
    else Activated
  }

  function ActivatedAfter(s: State, p: PhotoId, now: Instant): State
    requires p in s.uploads
  {
    if !ActivationOf(s, p).Activated? then s.(uploads := s.uploads[p := Over])
    else
      var user := s.photos[p].user;
      var shown := ReadyOf(s.photos, user);
      var gone := Condemned(s, shown, now);
      gone.(photos := gone.photos[p := s.photos[p].(status := Ready, updatedAt := now)],
            events := Enqueued(s.events, shown),
            requests := (map k | k in s.requests ::
              if RunningRequest(s.requests, p, user, k) then s.requests[k].(status := Completed) else s.requests[k]),
            uploads := s.uploads[p := Over])
  }

  function DiscardedAfter(s: State, p: PhotoId): State
    requires p in s.uploads
  {
    var rest := if p in s.photos
      then s.(requests := s.requests - RunningRequests(s.requests, p, s.photos[p].user),
              photos := if s.photos[p].InFlight() then s.photos - {p} else s.photos)
      else s;
    rest.(uploads := s.uploads[p := Over])
  }

  function BeginDeleteAfter(s: State, user: User, now: Instant): State {
    if user !in s.live then s
    else Condemned(s, ReadyOf(s.photos, user), now).(events := Enqueued(s.events, ReadyOf(s.photos, user)))
  }

  function CompletedAfter(s: State, p: PhotoId): State {
    s.(requests := (map k | k in s.requests ::
         if s.requests[k].photo == Some(p) then s.requests[k].(status := Consumed, photo := None) else s.requests[k]),
       photos := if p in s.photos && s.photos[p].status.Deleting? then s.photos - {p} else s.photos,
       answered := s.answered + {p})
  }

  predicate Stale(photo: Photo, staleBefore: Instant, retryBefore: Instant) {
    (photo.InFlight() && photo.updatedAt <= staleBefore) || (photo.status.Deleting? && photo.updatedAt <= retryBefore)
  }

  /** When a step can happen: uploads go in order, deletions act on photos once seen as deleting, ids are fresh. */
  predicate Enabled(s: State, op: Op) {
    match op
    case Create(p, _, _, _, _, _) => p !in s.uploads
    case Record(p, _) => p in s.uploads && s.uploads[p].Created?
    case Put(p) => p in s.uploads && s.uploads[p].Recorded?
    case Activate(p, _) => p in s.uploads && s.uploads[p].Stored?
    case Discard(p) => p in s.uploads && s.uploads[p].Created?
    case DeleteAll(user, chosen, _) => forall p | p in chosen :: p in s.photos && s.photos[p].user == user
    case Cleanup(chosen, stale, retry, _) => forall p | p in chosen :: p in s.photos && Stale(s.photos[p], stale, retry)
    case Reconcile(p, stale, _) =>
      p in s.photos && (s.photos[p].status.Deleting? || (s.photos[p].InFlight() && s.photos[p].updatedAt <= stale))
    case Reject(p, _) => p in s.photos && !s.photos[p].InFlight()
    case FindNone(p) => p in s.events && !(p in s.photos && s.photos[p].status.Deleting?)
    case DeleteObject(p) => p in s.condemned
    case CompleteDeletion(p) => p in s.condemned
    case ClaimEvent(p) => p in s.events && (s.events[p].Queued? || s.events[p].Claimed?)
    case CompleteEvent(p) => p in s.events && s.events[p].Claimed? && p in s.answered
    case FailEvent(p, _) => p in s.events && s.events[p].Claimed?
    case RetryEvent(p) => p in s.events && s.events[p].DeadLetter?
    case DiscardEvent(p) => p in s.events && s.events[p].DeadLetter? && p !in s.photos
    case PurgeEvent(p) => p in s.events && (s.events[p].Done? || s.events[p].Discarded?)
    case PurgeRequests(expired, now) => forall k | k in expired :: k in s.requests && s.requests[k].expiresAt <= now
    case _ => true
  }

  function Apply(s: State, op: Op): State
    requires Enabled(s, op)
  {
    match op
    case Create(_, _, _, _, _, _) => CreatedAfter(s, op)
    case Record(p, now) => RecordedAfter(s, p, now)
    case Put(p) => s.(objects := s.objects + {p}, uploads := s.uploads[p := Stored])
    case Activate(p, now) => ActivatedAfter(s, p, now)
    case Discard(p) => DiscardedAfter(s, p)
    case BeginDelete(user, now) => BeginDeleteAfter(s, user, now)
    case DeleteAll(_, chosen, now) => Condemned(s, chosen, now)
    case Cleanup(chosen, _, _, now) => Condemned(s, chosen, now)
    case Reconcile(p, _, now) => Condemned(s, {p}, now).(events := s.events[p := Queued])
    case Reject(p, now) =>
      if s.photos[p].status.Ready? then Condemned(s, {p}, now).(events := s.events[p := Queued])
      else s.(events := s.events[p := Queued])
    case FindNone(p) => s.(answered := s.answered + {p})
    case DeleteObject(p) => s.(objects := s.objects - {p})
    case CompleteDeletion(p) => CompletedAfter(s, p)
    case ClaimEvent(p) => s.(events := s.events[p := Claimed])
    case CompleteEvent(p) => s.(events := s.events[p := Done])
    case FailEvent(p, dead) => s.(events := s.events[p := if dead then DeadLetter else Queued])
    case RetryEvent(p) => s.(events := s.events[p := Queued])
    case DiscardEvent(p) => s.(events := s.events[p := Discarded])
    case PurgeEvent(p) => s.(events := s.events - {p})
    case PurgeRequests(expired, _) => s.(requests := s.requests - expired)
    case SetLive(user, on) => s.(live := if on then s.live + {user} else s.live - {user})
  }

  // ---------------------------------------------------------------- the steps, column by column

  /** What an upload request is answered. */
  lemma CreationColumns(s: State, photo: PhotoId, user: User, key: nat, sha: nat, expiresAt: Instant, now: Instant)
    ensures var r := CreationOf(s, Create(photo, user, key, sha, expiresAt, now));
      var known := (user, key) in s.requests && now < s.requests[(user, key)].expiresAt;
      var busy := exists p :: p in s.photos && s.photos[p].user == user
                              && (s.photos[p].status.Pending? || s.photos[p].status.Processing?);
      && (r.NoProfile? <==> user !in s.live)
      && (r.Started? <==> user in s.live && !known && !busy)
      && (r.Conflict? <==> user in s.live && known && s.requests[(user, key)].sha != sha)
      && (r.InProgress? <==>
            && user in s.live
            && if known then s.requests[(user, key)].sha == sha && s.requests[(user, key)].status.Running? else busy)
      && (r.Replay? ==> known && s.requests[(user, key)].photo == Some(r.photo))
    ensures var r := CreationOf(s, Create(photo, user, key, sha, expiresAt, now));
      r.Replay? <==>
        && user in s.live && (user, key) in s.requests && now < s.requests[(user, key)].expiresAt
        && s.requests[(user, key)].sha == sha && s.requests[(user, key)].status.Completed?
        && s.requests[(user, key)].photo.Some? && s.requests[(user, key)].photo.value in s.photos
        && s.photos[s.requests[(user, key)].photo.value].user == user
        && s.photos[s.requests[(user, key)].photo.value].status.Ready?
  {
    assert UploadInFlight(s.photos, user) <==>
      exists p :: p in s.photos && s.photos[p].user == user
                  && (s.photos[p].status.Pending? || s.photos[p].status.Processing?) by {
      if p :| p in s.photos && s.photos[p].user == user && (s.photos[p].status.Pending? || s.photos[p].status.Processing?) {
        assert s.photos[p].user == user && s.photos[p].InFlight();
      }
    }
  }

  lemma CreatedColumns(s: State, photo: PhotoId, user: User, key: nat, sha: nat, expiresAt: Instant, now: Instant)
    ensures var op := Create(photo, user, key, sha, expiresAt, now);
      var forgotten := user in s.live && (user, key) in s.requests && s.requests[(user, key)].expiresAt <= now;
      CreatedAfter(s, op) == if CreationOf(s, op).Started?
        then s.(photos := s.photos[photo := Photo(user, Processing, false, now)],
                requests := s.requests[(user, key) := Request(sha, Running, Some(photo), expiresAt)],
                uploads := s.uploads[photo := Created])
        else if forgotten then s.(requests := s.requests - {(user, key)}) else s
  {
    hide RepeatedKey;
    var cleared := s.requests - {(user, key)};
    assert (user, key) !in s.requests ==> cleared == s.requests;
    assert cleared[(user, key) := Request(sha, Running, Some(photo), expiresAt)]
        == s.requests[(user, key) := Request(sha, Running, Some(photo), expiresAt)];
  }

  /** A new photo is shown, and the one shown before goes; other photos and other users' are not touched. */
  lemma ActivationColumns(s: State, p: PhotoId, now: Instant)
    requires p in s.uploads
    ensures ActivationOf(s, p).Activated? <==>
      && p in s.photos && s.photos[p].user in s.live && s.photos[p].status.Processing? && s.photos[p].recorded
      && |set k | k in s.requests && k.0 == s.photos[p].user && s.requests[k].photo == Some(p)
                  && s.requests[k].status.Running?| == 1
    ensures ActivationOf(s, p).Activated? ==>
      var next := ActivatedAfter(s, p, now);
      && next.photos.Keys == s.photos.Keys && next.objects == s.objects && next.live == s.live
      && next.photos[p] == s.photos[p].(status := Ready, updatedAt := now)
      && (forall q | q in s.photos && q != p ::
            next.photos[q] == if s.photos[q].user == s.photos[p].user && s.photos[q].status.Ready?
                              then s.photos[q].(status := Deleting, updatedAt := now) else s.photos[q])
      && (forall q | q in s.photos && q != p && s.photos[q].user == s.photos[p].user && s.photos[q].status.Ready? ::
            q in next.events)
    ensures !ActivationOf(s, p).Activated? ==> ActivatedAfter(s, p, now) == s.(uploads := s.uploads[p := Over])
  {
    if p in s.photos {
      assert RunningRequests(s.requests, p, s.photos[p].user)
          == set k | k in s.requests && k.0 == s.photos[p].user && s.requests[k].photo == Some(p)
                     && s.requests[k].status.Running?;
    }
  }

  /** The request of an activated photo is completed, and no other. */
  lemma ActivatedRequests(s: State, p: PhotoId, now: Instant)
    requires p in s.uploads && ActivationOf(s, p).Activated?
    ensures var next := ActivatedAfter(s, p, now);
      next.requests.Keys == s.requests.Keys
      && forall k | k in s.requests ::
           next.requests[k] == if k.0 == s.photos[p].user && s.requests[k].photo == Some(p) && s.requests[k].status.Running?
                               then s.requests[k].(status := Completed) else s.requests[k]
  {
  }

  lemma DeletionColumns(s: State, user: User, now: Instant)
    ensures var next := BeginDeleteAfter(s, user, now);
      && next.photos.Keys == s.photos.Keys && next.objects == s.objects && next.requests == s.requests
      && (user !in s.live ==> next == s)
      && (user in s.live ==> forall p | p in s.photos ::
            next.photos[p] == if s.photos[p].user == user && s.photos[p].status.Ready?
                              then s.photos[p].(status := Deleting, updatedAt := now) else s.photos[p])
      && (user in s.live ==> forall p | p in s.photos && s.photos[p].user == user && s.photos[p].status.Ready? ::
            p in next.events)
  {
  }

  /** A deletion is completed by removing a deleting row, and by unbinding the request that made the photo. */
  lemma CompletionColumns(s: State, p: PhotoId)
    ensures var next := CompletedAfter(s, p);
      && next == s.(photos := next.photos, requests := next.requests, answered := s.answered + {p})
      && next.photos == (if p in s.photos && s.photos[p].status == Deleting then s.photos - {p} else s.photos)
      && next.requests.Keys == s.requests.Keys
      && (forall k | k in s.requests ::
            next.requests[k] == if s.requests[k].photo == Some(p)
                                then s.requests[k].(status := Consumed, photo := None) else s.requests[k])
  {
  }

  /** A failed upload that was not finished is taken back with its request. */
  lemma DiscardColumns(s: State, p: PhotoId)
    requires p in s.uploads && p in s.photos
    ensures var next := DiscardedAfter(s, p);
      && next == s.(photos := next.photos, requests := next.requests, uploads := s.uploads[p := Over])
      && next.photos == (if s.photos[p].status == Pending || s.photos[p].status == Processing
                         then s.photos - {p} else s.photos)
      && (forall k | k in next.requests :: k in s.requests && next.requests[k] == s.requests[k])
      && (forall k | k in s.requests ::
            var gone := k.0 == s.photos[p].user && s.requests[k].photo == Some(p) && s.requests[k].status == Running;
            k !in next.requests <==> gone)
  {
  }

  /** What the cleanup may claim: uploads that got stuck, and deletions to be tried again. */
  lemma StaleColumns(photo: Photo, staleBefore: Instant, retryBefore: Instant)
    ensures Stale(photo, staleBefore, retryBefore) <==>
      match photo.status
      case Pending => photo.updatedAt <= staleBefore
      case Processing => photo.updatedAt <= staleBefore
      case Deleting => photo.updatedAt <= retryBefore
      case Ready => false
  {
  }

  // ---------------------------------------------------------------- the invariant

  predicate SamePlace(s: State, p: PhotoId, q: PhotoId)
    requires p in s.photos && q in s.photos
  {
    && (s.photos[p].user == s.photos[q].user && s.photos[p].status.Ready? && s.photos[q].status.Ready? ==> p == q)
    && (s.photos[p].user == s.photos[q].user && s.photos[p].InFlight() && s.photos[q].InFlight() ==> p == q)
  }

  predicate PhotoOk(s: State, p: PhotoId)
    requires p in s.photos
  {
    && p in s.uploads
    && (s.photos[p].status.Deleting? <==> p in s.condemned)
    && (s.photos[p].status.Ready? ==> p in s.objects && s.photos[p].recorded && s.uploads[p].Over?)
  }

  /** What an upload put into the storage is there until its photo is condemned. */
  predicate UploadOk(s: State, p: PhotoId)
    requires p in s.uploads
  {
    s.uploads[p].Stored? ==> p in s.objects || p in s.condemned
  }

  /** A deletion event is about a condemned photo; once it is done or discarded the row is gone. */
  predicate EventOk(s: State, p: PhotoId)
    requires p in s.events
  {
    p in s.condemned && (s.events[p].Done? || s.events[p].Discarded? ==> p !in s.photos)
  }

  predicate AnsweredOk(s: State, p: PhotoId) {
    p in s.condemned && p !in s.photos
  }

  predicate RequestOk(s: State, k: RequestKey)
    requires k in s.requests
  {
    var r := s.requests[k];
    && (r.status.Consumed? ==> r.photo.None?)
    && (r.photo.Some? ==> r.photo.value in s.photos && s.photos[r.photo.value].user == k.0)
    && (r.photo.Some? && r.status.Running? ==> !s.photos[r.photo.value].status.Ready?)
    && (r.photo.Some? && r.status.Completed? ==> !s.photos[r.photo.value].InFlight())
  }

  predicate OneRequest(s: State, j: RequestKey, k: RequestKey)
    requires j in s.requests && k in s.requests
  {
    s.requests[j].photo.Some? && s.requests[j].photo == s.requests[k].photo ==> j == k
  }

  predicate Inv(s: State) {
    && (forall p | p in s.photos :: PhotoOk(s, p))
    && (forall p, q | p in s.photos && q in s.photos :: SamePlace(s, p, q))
    && (forall p | p in s.uploads :: UploadOk(s, p))
    && (forall p | p in s.events :: EventOk(s, p))
    && (forall p | p in s.answered :: AnsweredOk(s, p))
    && (forall p | p in s.condemned :: p in s.uploads)
    && (forall k | k in s.requests :: RequestOk(s, k))
    && (forall j, k | j in s.requests && k in s.requests :: OneRequest(s, j, k))
  }

  // ---------------------------------------------------------------- every operation keeps it

  /** Condemning photos, alone. */
  lemma CondemnKeepsInv(s: State, chosen: set<PhotoId>, now: Instant)
    requires Inv(s) && chosen <= s.photos.Keys
    ensures Inv(Condemned(s, chosen, now))
  {
    var t := Condemned(s, chosen, now);
    forall p | p in t.photos ensures PhotoOk(t, p) {
      assert PhotoOk(s, p);
    }
    forall p, q | p in t.photos && q in t.photos ensures SamePlace(t, p, q) {
      assert SamePlace(s, p, q);
    }
    forall p | p in t.uploads ensures UploadOk(t, p) {
      assert UploadOk(s, p);
    }
    forall p | p in t.events ensures EventOk(t, p) {
      assert EventOk(s, p);
    }
    forall p | p in t.answered ensures AnsweredOk(t, p) {
      assert AnsweredOk(s, p);
    }
    forall p | p in t.condemned ensures p in t.uploads {
      assert p in chosen ==> PhotoOk(s, p);
    }
    forall k | k in t.requests ensures RequestOk(t, k) {
      assert RequestOk(s, k);
    }
    forall j, k | j in t.requests && k in t.requests ensures OneRequest(t, j, k) {
      assert OneRequest(s, j, k);
    }
  }

  lemma EventsKeepInv(s: State, events: map<PhotoId, EventStatus>)
    requires Inv(s) && forall p | p in events :: EventOk(s.(events := events), p)
    ensures Inv(s.(events := events))
  {
    var t := s.(events := events);
    forall p | p in t.photos ensures PhotoOk(t, p) {
      assert PhotoOk(s, p);
    }
    forall p, q | p in t.photos && q in t.photos ensures SamePlace(t, p, q) {
      assert SamePlace(s, p, q);
    }
    forall p | p in t.uploads ensures UploadOk(t, p) {
      assert UploadOk(s, p);
    }
    forall p | p in t.answered ensures AnsweredOk(t, p) {
      assert AnsweredOk(s, p);
    }
    forall k | k in t.requests ensures RequestOk(t, k) {
      assert RequestOk(s, k);
    }
    forall j, k | j in t.requests && k in t.requests ensures OneRequest(t, j, k) {
      assert OneRequest(s, j, k);
    }
  }

  /** One event changes to a status that its photo allows. */
  lemma EventKeepsInv(s: State, p: PhotoId, e: EventStatus)
    requires Inv(s) && p in s.condemned && (e.Done? || e.Discarded? ==> p !in s.photos)
    ensures Inv(s.(events := s.events[p := e]))
  {
    var events := s.events[p := e];
    forall q | q in events ensures EventOk(s.(events := events), q) {
      assert q != p ==> EventOk(s, q);
    }
    hide Inv;
    EventsKeepInv(s, events);
  }

  /** Queueing deletions of photos condemned in the same transaction. */
  lemma EnqueueKeepsInv(s: State, chosen: set<PhotoId>)
    requires Inv(s) && chosen <= s.condemned
    ensures Inv(s.(events := Enqueued(s.events, chosen)))
  {
    var events := Enqueued(s.events, chosen);
    forall q | q in events ensures EventOk(s.(events := events), q) {
      assert q in s.events ==> EventOk(s, q);
    }
    hide Inv;
    EventsKeepInv(s, events);
  }

  lemma CreateKeepsInv(s: State, op: Op)
    requires Inv(s) && op.Create? && op.photo !in s.uploads
    ensures Inv(CreatedAfter(s, op))
  {
    var key := (op.user, op.key);
    var t := CreatedAfter(s, op);
    forall p | p in t.photos ensures PhotoOk(t, p) {
      assert p in s.photos ==> PhotoOk(s, p);
    }
    forall p | p in s.photos ensures p != op.photo {
      assert PhotoOk(s, p);
    }
    forall p, q | p in t.photos && q in t.photos ensures SamePlace(t, p, q) {
      assert p in s.photos && q in s.photos ==> SamePlace(s, p, q);
      assert !UploadInFlight(s.photos, op.user) ==>
        forall r | r in s.photos && s.photos[r].InFlight() :: s.photos[r].user != op.user;
    }
    forall p | p in t.uploads ensures UploadOk(t, p) {
      assert p in s.uploads ==> UploadOk(s, p);
    }
    forall p | p in t.events ensures EventOk(t, p) {
      assert EventOk(s, p);
    }
    forall p | p in t.answered ensures AnsweredOk(t, p) {
      assert AnsweredOk(s, p);
    }
    CreateRequests(s, op);
  }

  lemma CreateRequests(s: State, op: Op)
    requires Inv(s) && op.Create? && op.photo !in s.uploads
    ensures var t := CreatedAfter(s, op);
      && (forall k | k in t.requests :: RequestOk(t, k))
      && (forall j, k | j in t.requests && k in t.requests :: OneRequest(t, j, k))
  {
    var key := (op.user, op.key);
    var t := CreatedAfter(s, op);
    forall k | k in s.requests ensures s.requests[k].photo != Some(op.photo) {
      assert RequestOk(s, k);
      assert op.photo in s.photos ==> PhotoOk(s, op.photo);
    }
    forall k | k in t.requests ensures RequestOk(t, k) {
      assert k in s.requests ==> RequestOk(s, k);
    }
    forall j, k | j in t.requests && k in t.requests ensures OneRequest(t, j, k) {
      assert j in s.requests && k in s.requests ==> OneRequest(s, j, k);
    }
  }

  lemma RecordKeepsInv(s: State, p: PhotoId, now: Instant)
    requires Inv(s) && p in s.uploads && s.uploads[p].Created?
    ensures Inv(RecordedAfter(s, p, now))
  {
    var t := RecordedAfter(s, p, now);
    forall q | q in t.photos ensures PhotoOk(t, q) {
      assert PhotoOk(s, q);
    }
    forall q, r | q in t.photos && r in t.photos ensures SamePlace(t, q, r) {
      assert SamePlace(s, q, r);
    }
    forall q | q in t.uploads ensures UploadOk(t, q) {
      assert UploadOk(s, q);
    }
    forall q | q in t.events ensures EventOk(t, q) {
      assert EventOk(s, q);
    }
    forall q | q in t.answered ensures AnsweredOk(t, q) {
      assert AnsweredOk(s, q);
    }
    forall k | k in t.requests ensures RequestOk(t, k) {
      assert RequestOk(s, k);
    }
    forall j, k | j in t.requests && k in t.requests ensures OneRequest(t, j, k) {
      assert OneRequest(s, j, k);
    }
  }

  /** Objects and upload stages move without touching any row. */
  lemma StorageKeepsInv(s: State, objects: set<PhotoId>, uploads: map<PhotoId, Stage>)
    requires Inv(s) && uploads.Keys == s.uploads.Keys
    requires forall p | p in s.photos && s.photos[p].status.Ready? :: p in objects && uploads[p].Over?
    requires forall p | p in uploads && uploads[p].Stored? :: p in objects || p in s.condemned
    ensures Inv(s.(objects := objects, uploads := uploads))
  {
    var t := s.(objects := objects, uploads := uploads);
    forall q | q in t.photos ensures PhotoOk(t, q) {
      assert PhotoOk(s, q);
    }
    forall q, r | q in t.photos && r in t.photos ensures SamePlace(t, q, r) {
      assert SamePlace(s, q, r);
    }
    forall q | q in t.events ensures EventOk(t, q) {
      assert EventOk(s, q);
    }
    forall q | q in t.answered ensures AnsweredOk(t, q) {
      assert AnsweredOk(s, q);
    }
    forall k | k in t.requests ensures RequestOk(t, k) {
      assert RequestOk(s, k);
    }
    forall j, k | j in t.requests && k in t.requests ensures OneRequest(t, j, k) {
      assert OneRequest(s, j, k);
    }
  }

  lemma PutKeepsInv(s: State, p: PhotoId)
    requires Inv(s) && p in s.uploads && s.uploads[p].Recorded?
    ensures Inv(s.(objects := s.objects + {p}, uploads := s.uploads[p := Stored]))
  {
    forall q | q in s.photos && s.photos[q].status.Ready? ensures q in s.objects && s.uploads[q].Over? {
      assert PhotoOk(s, q);
    }
    forall q | q in s.uploads && s.uploads[q].Stored? ensures q in s.objects || q in s.condemned {
      assert UploadOk(s, q);
    }
    hide Inv;
    StorageKeepsInv(s, s.objects + {p}, s.uploads[p := Stored]);
  }

  /** Only condemned photos lose their object, and a photo that is shown was never condemned. */
  lemma DeleteObjectKeepsInv(s: State, p: PhotoId)
    requires Inv(s) && p in s.condemned
    ensures Inv(s.(objects := s.objects - {p}))
  {
    forall q | q in s.photos && s.photos[q].status.Ready? ensures q in s.objects - {p} && s.uploads[q].Over? {
      assert PhotoOk(s, q);
    }
    forall q | q in s.uploads && s.uploads[q].Stored? ensures q in s.objects - {p} || q in s.condemned {
      assert UploadOk(s, q);
    }
    hide Inv;
    StorageKeepsInv(s, s.objects - {p}, s.uploads);
    assert s.(objects := s.objects - {p}) == s.(objects := s.objects - {p}, uploads := s.uploads);
  }

  lemma StageOverKeepsInv(s: State, p: PhotoId)
    requires Inv(s) && p in s.uploads
    ensures Inv(s.(uploads := s.uploads[p := Over]))
  {
    forall q | q in s.photos && s.photos[q].status.Ready? ensures q in s.objects && s.uploads[q].Over? {
      assert PhotoOk(s, q);
    }
    forall q | q in s.uploads && s.uploads[q].Stored? ensures q in s.objects || q in s.condemned {
      assert UploadOk(s, q);
    }
    hide Inv;
    StorageKeepsInv(s, s.objects, s.uploads[p := Over]);
    assert s.(uploads := s.uploads[p := Over]) == s.(objects := s.objects, uploads := s.uploads[p := Over]);
  }

  /** Once the old photo of the user is condemned, showing the new one keeps one ready photo, with its object. */
  lemma ShowKeepsInv(s: State, p: PhotoId, now: Instant)
    requires Inv(s) && p in s.uploads && s.uploads[p].Over? && IsProcessing(s, p) && s.photos[p].recorded
    requires p in s.objects && ReadyOf(s.photos, s.photos[p].user) == {}
    ensures var user := s.photos[p].user;
      Inv(s.(photos := s.photos[p := s.photos[p].(status := Ready, updatedAt := now)],
             requests := (map k | k in s.requests ::
               if RunningRequest(s.requests, p, user, k) then s.requests[k].(status := Completed) else s.requests[k])))
  {
    var user := s.photos[p].user;
    var t := s.(photos := s.photos[p := s.photos[p].(status := Ready, updatedAt := now)],
                requests := (map k | k in s.requests ::
                  if RunningRequest(s.requests, p, user, k) then s.requests[k].(status := Completed) else s.requests[k]));
    forall q | q in t.photos ensures PhotoOk(t, q) {
      assert PhotoOk(s, q);
    }
    forall q, r | q in t.photos && r in t.photos ensures SamePlace(t, q, r) {
      assert SamePlace(s, q, r);
      assert q !in ReadyOf(s.photos, user) && r !in ReadyOf(s.photos, user);
    }
    forall q | q in t.uploads ensures UploadOk(t, q) {
      assert UploadOk(s, q);
    }
    forall q | q in t.events ensures EventOk(t, q) {
      assert EventOk(s, q);
    }
    forall q | q in t.answered ensures AnsweredOk(t, q) {
      assert AnsweredOk(s, q);
    }
    forall k | k in t.requests ensures RequestOk(t, k) {
      assert RequestOk(s, k);
    }
    forall j, k | j in t.requests && k in t.requests ensures OneRequest(t, j, k) {
      assert OneRequest(s, j, k);
    }
  }

  lemma ActivateKeepsInv(s: State, p: PhotoId, now: Instant)
    requires Inv(s) && p in s.uploads && s.uploads[p].Stored?
    ensures Inv(ActivatedAfter(s, p, now))
  {
    if !ActivationOf(s, p).Activated? {
      StageOverKeepsInv(s, p);
    } else {
      var user := s.photos[p].user;
      var shown := ReadyOf(s.photos, user);
      assert PhotoOk(s, p) && UploadOk(s, p);
      hide Inv;
      CondemnKeepsInv(s, shown, now);
      var a := Condemned(s, shown, now);
      EnqueueKeepsInv(a, shown);
      var b := a.(events := Enqueued(a.events, shown));
      StageOverKeepsInv(b, p);
      var c := b.(uploads := b.uploads[p := Over]);
      ShowKeepsInv(c, p, now);
      ActivationSteps(s, a, b, c, p, now);
    }
  }

  lemma ActivationSteps(s: State, a: State, b: State, c: State, p: PhotoId, now: Instant)
    requires p in s.uploads && ActivationOf(s, p).Activated?
    requires a == Condemned(s, ReadyOf(s.photos, s.photos[p].user), now)
    requires b == a.(events := Enqueued(a.events, ReadyOf(s.photos, s.photos[p].user)))
    requires c == b.(uploads := b.uploads[p := Over])
    ensures ActivatedAfter(s, p, now)
      == c.(photos := c.photos[p := c.photos[p].(status := Ready, updatedAt := now)],
            requests := (map k | k in c.requests ::
              if RunningRequest(c.requests, p, c.photos[p].user, k) then c.requests[k].(status := Completed) else c.requests[k]))
  {
    assert p !in ReadyOf(s.photos, s.photos[p].user);
    assert c.photos[p] == s.photos[p];
    assert forall k | k in c.requests :: RunningRequest(c.requests, p, c.photos[p].user, k) == RunningRequest(s.requests, p, s.photos[p].user, k);
  }

  lemma DiscardKeepsInv(s: State, p: PhotoId)
    requires Inv(s) && p in s.uploads
    ensures Inv(DiscardedAfter(s, p))
  {
    var t := DiscardedAfter(s, p);
    forall q | q in t.photos ensures PhotoOk(t, q) {
      assert PhotoOk(s, q);
    }
    forall q, r | q in t.photos && r in t.photos ensures SamePlace(t, q, r) {
      assert SamePlace(s, q, r);
    }
    forall q | q in t.uploads ensures UploadOk(t, q) {
      assert UploadOk(s, q);
    }
    forall q | q in t.events ensures EventOk(t, q) {
      assert EventOk(s, q);
    }
    forall q | q in t.answered ensures AnsweredOk(t, q) {
      assert AnsweredOk(s, q);
    }
    forall k | k in t.requests ensures RequestOk(t, k) {
      assert RequestOk(s, k);
    }
    forall j, k | j in t.requests && k in t.requests ensures OneRequest(t, j, k) {
      assert OneRequest(s, j, k);
    }
  }

  lemma BeginDeleteKeepsInv(s: State, user: User, now: Instant)
    requires Inv(s)
    ensures Inv(BeginDeleteAfter(s, user, now))
  {
    hide Inv;
    CondemnKeepsInv(s, ReadyOf(s.photos, user), now);
    EnqueueKeepsInv(Condemned(s, ReadyOf(s.photos, user), now), ReadyOf(s.photos, user));
  }

  /** A finished deletion takes the row, detaches its request, and lets the dispatcher answer. */
  lemma CompletionKeepsInv(s: State, p: PhotoId)
    requires Inv(s) && p in s.condemned
    ensures Inv(CompletedAfter(s, p)) && p !in CompletedAfter(s, p).photos
  {
    var t := CompletedAfter(s, p);
    assert p in s.photos ==> PhotoOk(s, p);
    forall q | q in t.photos ensures PhotoOk(t, q) {
      assert PhotoOk(s, q);
    }
    forall q, r | q in t.photos && r in t.photos ensures SamePlace(t, q, r) {
      assert SamePlace(s, q, r);
    }
    forall q | q in t.uploads ensures UploadOk(t, q) {
      assert UploadOk(s, q);
    }
    forall q | q in t.events ensures EventOk(t, q) {
      assert EventOk(s, q);
    }
    forall q | q in t.answered ensures AnsweredOk(t, q) {
      assert q in s.answered ==> AnsweredOk(s, q);
    }
    forall k | k in t.requests ensures RequestOk(t, k) {
      assert RequestOk(s, k);
    }
    forall j, k | j in t.requests && k in t.requests ensures OneRequest(t, j, k) {
      assert OneRequest(s, j, k);
    }
  }

  /** A photo with a deletion event that is not `deleting` is gone. */
  lemma NotFoundMeansGone(s: State, p: PhotoId)
    requires Inv(s) && p in s.events && !(p in s.photos && s.photos[p].status.Deleting?)
    ensures p !in s.photos && p in s.condemned
  {
    assert EventOk(s, p);
    assert p in s.photos ==> PhotoOk(s, p);
  }

  lemma SidesKeepInv(s: State, live: set<User>, answered: set<PhotoId>, requests: map<RequestKey, Request>)
    requires Inv(s) && forall p | p in answered :: AnsweredOk(s, p)
    requires forall k | k in requests :: k in s.requests && requests[k] == s.requests[k]
    ensures Inv(s.(live := live, answered := answered, requests := requests))
  {
    var t := s.(live := live, answered := answered, requests := requests);
    forall q | q in t.photos ensures PhotoOk(t, q) {
      assert PhotoOk(s, q);
    }
    forall q, r | q in t.photos && r in t.photos ensures SamePlace(t, q, r) {
      assert SamePlace(s, q, r);
    }
    forall q | q in t.uploads ensures UploadOk(t, q) {
      assert UploadOk(s, q);
    }
    forall q | q in t.events ensures EventOk(t, q) {
      assert EventOk(s, q);
    }
    forall q | q in t.answered ensures AnsweredOk(t, q) {
      assert AnsweredOk(s, q);
    }
    forall k | k in t.requests ensures RequestOk(t, k) {
      assert RequestOk(s, k);
    }
    forall j, k | j in t.requests && k in t.requests ensures OneRequest(t, j, k) {
      assert OneRequest(s, j, k);
    }
  }

  lemma SideStepKeepsInv(s: State, op: Op)
    requires Inv(s) && (op.FindNone? || op.PurgeRequests? || op.SetLive?) && Enabled(s, op)
    ensures Inv(Apply(s, op))
  {
    if op.FindNone? {
      NotFoundMeansGone(s, op.photo);
    }
    forall p | p in s.answered ensures AnsweredOk(s, p) {
    }
    hide Inv;
    var t := Apply(s, op);
    SidesKeepInv(s, t.live, t.answered, t.requests);
    assert t == s.(live := t.live, answered := t.answered, requests := t.requests);
  }

  predicate EventStep(op: Op) {
    op.ClaimEvent? || op.CompleteEvent? || op.FailEvent? || op.RetryEvent? || op.DiscardEvent? || op.PurgeEvent?
  }

  lemma EventStepKeepsInv(s: State, op: Op)
    requires Inv(s) && EventStep(op) && Enabled(s, op)
    ensures Inv(Apply(s, op))
  {
    assert EventOk(s, op.photo);
    assert op.CompleteEvent? ==> AnsweredOk(s, op.photo);
    forall q | q in s.events ensures EventOk(s, q) {
    }
    hide Inv;
    match op {
      case ClaimEvent(p) => EventKeepsInv(s, p, Claimed);
      case CompleteEvent(p) => EventKeepsInv(s, p, Done);
      case FailEvent(p, dead) => EventKeepsInv(s, p, if dead then DeadLetter else Queued);
      case RetryEvent(p) => EventKeepsInv(s, p, Queued);
      case DiscardEvent(p) => EventKeepsInv(s, p, EventStatus.Discarded);
      case PurgeEvent(p) =>
        var events := s.events - {p};
        forall q | q in events ensures EventOk(s.(events := events), q) {
          assert EventOk(s, q);
        }
        EventsKeepInv(s, events);
    }
  }

  lemma RequeueKeepsInv(s: State, p: PhotoId, now: Instant)
    requires Inv(s) && p in s.photos
    ensures Inv(Condemned(s, {p}, now).(events := s.events[p := Queued]))
    ensures s.photos[p].status.Deleting? ==> Inv(s.(events := s.events[p := Queued]))
  {
    assert PhotoOk(s, p);
    hide Inv;
    CondemnKeepsInv(s, {p}, now);
    EventKeepsInv(Condemned(s, {p}, now), p, Queued);
    if s.photos[p].status.Deleting? {
      EventKeepsInv(s, p, Queued);
    }
  }

  lemma StepKeepsInv(s: State, op: Op)
    requires Inv(s) && Enabled(s, op)
    ensures Inv(Apply(s, op))
  {
    hide Inv, CreatedAfter, RecordedAfter, ActivatedAfter, DiscardedAfter, BeginDeleteAfter, CompletedAfter, Condemned;
    match op {
      case Create(_, _, _, _, _, _) => CreateKeepsInv(s, op);
      case Record(p, now) => RecordKeepsInv(s, p, now);
      case Put(p) => PutKeepsInv(s, p);
      case Activate(p, now) => ActivateKeepsInv(s, p, now);
      case Discard(p) => DiscardKeepsInv(s, p);
      case BeginDelete(user, now) => BeginDeleteKeepsInv(s, user, now);
      case DeleteAll(_, chosen, now) => CondemnKeepsInv(s, chosen, now);
      case Cleanup(chosen, _, _, now) => CondemnKeepsInv(s, chosen, now);
      case Reconcile(p, _, now) => RequeueKeepsInv(s, p, now);
      case Reject(p, now) => RequeueKeepsInv(s, p, now);
      case DeleteObject(p) => DeleteObjectKeepsInv(s, p);
      case CompleteDeletion(p) => CompletionKeepsInv(s, p);
      case FindNone(_) => SideStepKeepsInv(s, op);
      case PurgeRequests(_, _) => SideStepKeepsInv(s, op);
      case SetLive(_, _) => SideStepKeepsInv(s, op);
      case _ => EventStepKeepsInv(s, op);
    }
  }

  // ---------------------------------------------------------------- whole runs

  const EMPTY := State({}, map[], map[], {}, map[], map[], {}, {})

  ghost predicate Run(states: seq<State>, ops: seq<Op>) {
    && |states| == |ops| + 1 && states[0] == EMPTY
    && forall k | 0 <= k < |ops| :: Step(states[k], ops[k], states[k + 1])
  }

  ghost predicate Step(s: State, op: Op, next: State) {
    Enabled(s, op) && next == Apply(s, op)
  }

  lemma {:induction false} RunKeepsInv(states: seq<State>, ops: seq<Op>, n: nat)
    requires Run(states, ops) && n < |states|
    ensures Inv(states[n])
  {
    hide Apply, Enabled;
    if n > 0 {
      RunKeepsInv(states, ops, n - 1);
      assert Step(states[n - 1], ops[n - 1], states[n]);
      StepKeepsInv(states[n - 1], ops[n - 1]);
    }
  }

  /** In every reachable state a user has at most one ready photo and at most one in flight. */
  lemma OnePhotoPerPlace(states: seq<State>, ops: seq<Op>, n: nat, p: PhotoId, q: PhotoId)
    requires Run(states, ops) && n < |states| && p in states[n].photos && q in states[n].photos
    requires states[n].photos[p].user == states[n].photos[q].user
    requires (states[n].photos[p].status.Ready? && states[n].photos[q].status.Ready?)
          || (states[n].photos[p].InFlight() && states[n].photos[q].InFlight())
    ensures p == q
  {
    RunKeepsInv(states, ops, n);
    assert SamePlace(states[n], p, q);
  }

  /** A photo that is shown has its object in the storage. */
  lemma ReadyPhotoIsStored(states: seq<State>, ops: seq<Op>, n: nat, p: PhotoId)
    requires Run(states, ops) && n < |states| && p in states[n].photos && states[n].photos[p].status.Ready?
    ensures p in states[n].objects && states[n].photos[p].recorded
  {
    RunKeepsInv(states, ops, n);
    assert PhotoOk(states[n], p);
  }

  /** A completed or discarded deletion event means that the row is gone. */
  lemma FinishedEventMeansGone(states: seq<State>, ops: seq<Op>, n: nat, p: PhotoId)
    requires Run(states, ops) && n < |states| && p in states[n].events
    requires states[n].events[p].Done? || states[n].events[p].Discarded?
    ensures p !in states[n].photos
  {
    RunKeepsInv(states, ops, n);
    assert EventOk(states[n], p);
  }

  lemma StepKeepsFate(s: State, op: Op, p: PhotoId)
    requires Enabled(s, op)
    ensures s.condemned <= Apply(s, op).condemned && s.uploads.Keys <= Apply(s, op).uploads.Keys
    ensures p in s.uploads && p !in s.photos ==> p !in Apply(s, op).photos
  {
  }

  /** `deleting` is left only by the removal of the row, and a removed photo never comes back. */
  lemma {:induction false} DeletingIsForGood(states: seq<State>, ops: seq<Op>, m: nat, n: nat, p: PhotoId)
    requires Run(states, ops) && m <= n < |states| && p in states[m].uploads
    ensures p in states[m].photos && states[m].photos[p].status.Deleting? && p in states[n].photos ==>
      states[n].photos[p].status.Deleting?
    ensures p !in states[m].photos ==> p !in states[n].photos
    ensures p in states[n].uploads && states[m].condemned <= states[n].condemned
    decreases n - m
  {
    hide Apply, Enabled;
    if m < n {
      DeletingIsForGood(states, ops, m, n - 1, p);
      assert Step(states[n - 1], ops[n - 1], states[n]);
      StepKeepsFate(states[n - 1], ops[n - 1], p);
    }
    RunKeepsInv(states, ops, m);
    RunKeepsInv(states, ops, n);
    assert p in states[m].photos ==> PhotoOk(states[m], p);
    assert p in states[n].photos ==> PhotoOk(states[n], p);
    hide Inv;
  }

  /**
   * What an idempotency key is worth while its record lasts: the key never starts a second upload, and a replay is
   * the ready photo of that very request.
   */
  lemma KeyIsIdempotent(s: State, op: Op)
    requires Inv(s) && op.Create? && Remembered(s, op)
    ensures CreatedAfter(s, op) == s && !CreationOf(s, op).Started?
    ensures CreationOf(s, op).Replay? ==> var p := CreationOf(s, op).photo;
      p in s.photos && s.photos[p].user == op.user && s.photos[p].status.Ready? && p in s.objects
      && s.requests[(op.user, op.key)].photo == Some(p) && s.requests[(op.user, op.key)].sha == op.sha
  {
    if CreationOf(s, op).Replay? {
      assert PhotoOk(s, CreationOf(s, op).photo);
    }
  }

  // ---------------------------------------------------------------- the repository, the service and the dispatcher

  datatype Upload = Shown(photo: PhotoId) | Repeated(photo: PhotoId) | Refused(why: Creation) | BadPhoto | StorageDown

  class PhotosRepository {
    var live: set<User>
    var photos: map<PhotoId, Photo>
    var requests: map<RequestKey, Request>
    var objects: set<PhotoId>
    var events: map<PhotoId, EventStatus>
    ghost var uploads: map<PhotoId, Stage>
    ghost var condemned: set<PhotoId>
    ghost var answered: set<PhotoId>

    constructor ()
      ensures Value() == EMPTY && Inv(Value())
    {
      live, photos, requests, objects, events := {}, map[], map[], {}, map[];
      uploads, condemned, answered := map[], {}, {};
    }

    ghost function Value(): State
      reads this
    {
      State(live, photos, requests, objects, events, uploads, condemned, answered)
    }

    method CreateProcessing(photo: PhotoId, user: User, key: nat, sha: nat, expiresAt: Instant, now: Instant)
      returns (r: Creation)
      requires Inv(Value()) && photo !in uploads
      modifies this`photos, this`requests, this`uploads
      ensures Value() == CreatedAfter(old(Value()), Create(photo, user, key, sha, expiresAt, now)) && Inv(Value())
      ensures r == CreationOf(old(Value()), Create(photo, user, key, sha, expiresAt, now))
      ensures r.Started? ==> photo in uploads && uploads[photo].Created? && user in live
      ensures r.Started? ==> photo in photos && photos[photo].status.Processing? && photos[photo].user == user
      ensures r.Started? ==> (user, key) in requests && RunningRequest(requests, photo, user, (user, key))
    {
      hide Inv, RepeatedKey;
      ghost var before := Value();
      CreateKeepsInv(before, Create(photo, user, key, sha, expiresAt, now));
      if user !in live {
        return NoProfile;
      }
      if (user, key) in requests && requests[(user, key)].expiresAt <= now {
        requests := requests - {(user, key)};
      }
      if (user, key) in requests {
        r := ExistingRequest(user, requests[(user, key)], sha);
        return;
      }
      assert requests == before.requests - {(user, key)};
      if UploadInFlight(photos, user) {
        return InProgress;
      }
      photos := photos[photo := Photo(user, Processing, false, now)];
      requests := requests[(user, key) := Request(sha, Running, Some(photo), expiresAt)];
      uploads := uploads[photo := Created];
      r := Started;
    }

    method ExistingRequest(user: User, request: Request, sha: nat) returns (r: Creation)
      ensures r == RepeatedKey(photos, user, request, sha) && !r.Started?
    {
      if request.sha != sha {
        return Conflict;
      }
      if request.status.Running? {
        return InProgress;
      }
      if request.status.Completed? && request.photo.Some? && request.photo.value in photos {
        var candidate := photos[request.photo.value];
        if candidate.user == user && candidate.status.Ready? {
          return Replay(request.photo.value);
        }
      }
      r := Used;
    }

    method RecordProcessed(photo: PhotoId, user: User, now: Instant) returns (recorded: bool)
      requires Inv(Value()) && photo in uploads && uploads[photo].Created?
      requires photo in photos ==> photos[photo].user == user
      modifies this`photos, this`uploads
      ensures Value() == RecordedAfter(old(Value()), photo, now) && Inv(Value())
      ensures recorded <==> uploads[photo].Recorded?
    {
      RecordKeepsInv(Value(), photo, now);
      hide Inv;
      recorded := photo in photos && photos[photo].status.Processing? && user in live;
      if recorded {
        photos := photos[photo := photos[photo].(recorded := true, updatedAt := now)];
        uploads := uploads[photo := Recorded];
      }
    }

    method PutObject(photo: PhotoId)
      requires Inv(Value()) && photo in uploads && uploads[photo].Recorded?
      modifies this`objects, this`uploads
      ensures Value() == Apply(old(Value()), Put(photo)) && Inv(Value())
    {
      PutKeepsInv(Value(), photo);
      hide Inv;
      objects := objects + {photo};
      uploads := uploads[photo := Stored];
    }

    /** The ready photo of the user goes and the new one is shown, or nothing changes. */
    method ActivatePhoto(photo: PhotoId, user: User, now: Instant) returns (r: Activation)
      requires Inv(Value()) && photo in uploads && uploads[photo].Stored?
      requires photo in photos ==> photos[photo].user == user
      modifies this`photos, this`requests, this`events, this`uploads, this`condemned
      ensures Value() == ActivatedAfter(old(Value()), photo, now) && Inv(Value())
      ensures r == ActivationOf(old(Value()), photo)
      ensures r.Activated? ==> photo in photos && photos[photo].status.Ready? && ReadyOf(photos, user) == {photo}
      ensures !r.Activated? ==> photos == old(photos) && requests == old(requests) && events == old(events)
    {
      hide Inv, Condemned;
      ghost var before := Value();
      ActivateKeepsInv(before, photo, now);
      OneIsShown(before, photo, now);
      uploads := uploads[photo := Over];
      if user !in live || photo !in photos || !photos[photo].status.Processing? || !photos[photo].recorded {
        return Unavailable;
      }
      var running := RunningRequestsOf(photo, user);
      if |running| != 1 {
        return RequestLost;
      }
      NotYetReady(Value(), photo, user, now);
      CondemnationOf(before, Value(), ReadyOf(photos, user), now);
      var previous := CondemnReady(user, now);
      events := Enqueued(events, previous);
      photos := photos[photo := photos[photo].(status := Ready, updatedAt := now)];
      CompleteRequests(running);
      r := Activated;
    }

    method CompleteRequests(running: set<RequestKey>)
      modifies this`requests
      ensures requests == map k | k in old(requests) ::
        if k in running then old(requests)[k].(status := Completed) else old(requests)[k]
    {
      requests := map k | k in requests :: if k in running then requests[k].(status := Completed) else requests[k];
    }

    /** Marks the user's ready photo as deleting, and names it. */
    method CondemnReady(user: User, now: Instant) returns (ready: set<PhotoId>)
      modifies this`photos, this`condemned
      ensures ready == ReadyOf(old(photos), user)
      ensures Value() == Condemned(old(Value()), ready, now)
    {
      ready := set p | p in photos && photos[p].user == user && photos[p].status.Ready?;
      photos := map p | p in photos ::
        if p in ready then photos[p].(status := Deleting, updatedAt := now) else photos[p];
      condemned := condemned + ready;
    }

    method RunningRequestsOf(photo: PhotoId, user: User) returns (running: set<RequestKey>)
      ensures running == RunningRequests(requests, photo, user)
    {
      running := set k | k in requests && k.0 == user && requests[k].photo == Some(photo) && requests[k].status.Running?;
    }

    method BeginDeletion(user: User, now: Instant) returns (found: bool)
      requires Inv(Value())
      modifies this`photos, this`events, this`condemned
      ensures Value() == BeginDeleteAfter(old(Value()), user, now) && Inv(Value())
      ensures found <==> user in live
      ensures found ==> ReadyOf(photos, user) == {}
    {
      BeginDeleteKeepsInv(Value(), user, now);
      hide Inv;
      found := user in live;
      if found {
        var ready := CondemnReady(user, now);
        events := Enqueued(events, ready);
      }
    }

    method Complete(photo: PhotoId)
      requires Inv(Value()) && photo in condemned
      modifies this`photos, this`requests, this`answered
      ensures Value() == CompletedAfter(old(Value()), photo) && Inv(Value())
      ensures photo !in photos && photo in answered
    {
      CompletionKeepsInv(Value(), photo);
      hide Inv;
      requests := map k | k in requests ::
        if requests[k].photo == Some(photo) then requests[k].(status := Consumed, photo := None) else requests[k];
      if photo in photos && photos[photo].status.Deleting? {
        photos := photos - {photo};
      }
      answered := answered + {photo};
    }

    /** The dispatcher's deletePhoto: `completed` is answered only when the row is gone; a storage failure throws. */
    method DeletePhoto(photo: PhotoId, storageUp: bool) returns (completed: bool)
      requires Inv(Value()) && photo in events
      modifies this`photos, this`requests, this`objects, this`answered
      ensures Inv(Value()) && events == old(events)
      ensures completed ==> photo !in photos && photo in answered
      ensures !completed ==> !storageUp && Value() == old(Value())
      ensures completed <==> storageUp || !(photo in old(photos) && old(photos)[photo].status.Deleting?)
      ensures photos == (if completed then old(photos) - {photo} else old(photos))
      ensures completed && photo in old(photos) ==> objects == old(objects) - {photo}
    {
      if !(photo in photos && photos[photo].status.Deleting?) {
        SideStepKeepsInv(Value(), FindNone(photo));
        NotFoundMeansGone(Value(), photo);
        answered := answered + {photo};
        return true;
      }
      if !storageUp {
        return false;
      }
      assert EventOk(Value(), photo);
      DeleteObjectKeepsInv(Value(), photo);
      objects := objects - {photo};
      Complete(photo);
      completed := true;
    }

    /**
     * One upload from start to end, with nothing else happening in between: the photo is shown exactly when it could
     * be processed and stored; a photo that cannot be processed leaves no row.
     */
    method UploadWhileActive(photo: PhotoId, user: User, key: nat, sha: nat, expiresAt: Instant, now: Instant,
        processable: bool, storageUp: bool)
      returns (r: Upload)
      requires Inv(Value()) && photo !in uploads
      modifies this
      ensures Inv(Value())
      ensures r.Refused? || r.Repeated? <==> !CreationOf(old(Value()), Create(photo, user, key, sha, expiresAt, now)).Started?
      ensures r.Shown? ==> r.photo == photo
      ensures var started := CreationOf(old(Value()), Create(photo, user, key, sha, expiresAt, now)).Started?;
        && (r.Shown? <==> started && processable && storageUp)
        && (r.BadPhoto? <==> started && !processable)
        && (r.StorageDown? <==> started && processable && !storageUp)
      ensures r.Refused? ==> r.why == CreationOf(old(Value()), Create(photo, user, key, sha, expiresAt, now))
      ensures r.Repeated? ==> CreationOf(old(Value()), Create(photo, user, key, sha, expiresAt, now)) == Replay(r.photo)
      ensures r.Shown? ==> photo in objects && ReadyOf(photos, user) == {photo}
      ensures r.BadPhoto? ==> !processable && photo !in photos
      ensures r.StorageDown? ==> processable && !storageUp && objects == old(objects)
    {
      NewPhoto(Value(), photo);
      var creation := CreateProcessing(photo, user, key, sha, expiresAt, now);
      hide Inv;
      if creation.Replay? {
        return Upload.Repeated(creation.photo);
      }
      if !creation.Started? {
        return Refused(creation);
      }
      if !processable {
        Discard(photo, user);
        return BadPhoto;
      }
      var recorded := RecordProcessed(photo, user, now);
      assert recorded;
      if !storageUp {
        return StorageDown;
      }
      PutObject(photo);
      OneRunning(Value(), photo, user, key);
      var activation := ActivatePhoto(photo, user, now);
      assert activation.Activated?;
      r := Shown(photo);
    }

    method Discard(photo: PhotoId, user: User)
      requires Inv(Value()) && photo in uploads && (photo in photos ==> photos[photo].user == user)
      modifies this`photos, this`requests, this`uploads
      ensures Value() == DiscardedAfter(old(Value()), photo) && Inv(Value())
    {
      DiscardKeepsInv(Value(), photo);
      hide Inv;
      var running := RunningRequestsOf(photo, user);
      if photo in photos {
        requests := requests - running;
        if photos[photo].InFlight() {
          photos := photos - {photo};
        }
      }
      uploads := uploads[photo := Over];
    }
  }

  lemma OneRunning(s: State, p: PhotoId, user: User, key: nat)
    requires Inv(s) && (user, key) in s.requests && RunningRequest(s.requests, p, user, (user, key))
    ensures |RunningRequests(s.requests, p, user)| == 1
  {
    forall k | k in RunningRequests(s.requests, p, user) ensures k == (user, key) {
      assert OneRequest(s, k, (user, key));
    }
    assert RunningRequests(s.requests, p, user) == {(user, key)};
  }

  lemma NewPhoto(s: State, p: PhotoId)
    requires Inv(s) && p !in s.uploads
    ensures p !in s.photos
  {
    assert p in s.photos ==> PhotoOk(s, p);
  }

  /** Condemning looks at nothing but the photos. */
  lemma CondemnationOf(s: State, t: State, chosen: set<PhotoId>, now: Instant)
    requires s.photos == t.photos && s.condemned == t.condemned
    ensures Condemned(s, chosen, now).photos == Condemned(t, chosen, now).photos
    ensures Condemned(s, chosen, now).condemned == Condemned(t, chosen, now).condemned
    ensures Condemned(s, chosen, now)
      == s.(photos := Condemned(s, chosen, now).photos, condemned := Condemned(s, chosen, now).condemned)
  {
  }

  lemma NotYetReady(s: State, p: PhotoId, user: User, now: Instant)
    requires IsProcessing(s, p)  ==> s.photos[p].user == user
    ensures IsProcessing(s, p) ==> p in Condemned(s, ReadyOf(s.photos, user), now).photos
    ensures IsProcessing(s, p) ==> Condemned(s, ReadyOf(s.photos, user), now).photos[p] == s.photos[p]
    ensures var t := Condemned(s, ReadyOf(s.photos, user), now);
      t == s.(photos := t.photos, condemned := t.condemned)
  {
  }

  lemma OneIsShown(s: State, p: PhotoId, now: Instant)
    requires Inv(s) && p in s.uploads && s.uploads[p].Stored?
    ensures ActivationOf(s, p).Activated? ==> ReadyOf(ActivatedAfter(s, p, now).photos, s.photos[p].user) == {p}
  {
    hide Inv;
  }
}
