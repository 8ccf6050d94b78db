// The discovery feed: candidates in (distance, id) order, read in batches and filtered by the viewer's swipes, one
// page at a time.

module Feed {
  import opened Options
  import Sql

  const MAX_FEED_BATCHES := 20
  const MAX_LIMIT := 100

  /** A candidate as the paging sees it; a cursor is the same pair, of a candidate seen or not. */
  datatype Candidate = Candidate(distance: real, id: nat)

  /** ORDER BY distance_km, user_id, and the row comparison of the cursor. */
  predicate Before(a: Candidate, b: Candidate) {
    a.distance < b.distance || (a.distance == b.distance && a.id < b.id)
  }

  predicate Beyond(c: Candidate, cursor: Option<Candidate>) {
    cursor.Some? ==> Before(cursor.value, c)
  }

  /** Nearest first, by id at the same distance; and a cursor leaves exactly what comes after it. */
  lemma OrderColumns(all: seq<Candidate>, cursor: Candidate)
    requires Ordered(all)
    ensures forall i, j | 0 <= i < j < |all| ::
      all[i].distance < all[j].distance || (all[i].distance == all[j].distance && all[i].id < all[j].id)
    ensures forall c | c in all ::
      c in Rest(all, Some(cursor)) <==>
        (cursor.distance < c.distance || (cursor.distance == c.distance && cursor.id < c.id))
    ensures Rest(all, None) == all
  {
    var n := FirstBeyond(all, Some(cursor), 0);
    forall c | c in all ensures c in Rest(all, Some(cursor)) <==> Before(cursor, c) {
      var i :| 0 <= i < |all| && all[i] == c;
      if n <= i {
        assert Rest(all, Some(cursor))[i - n] == c;
        assert n < i ==> Before(all[n], all[i]);
      }
    }
  }

  predicate Ordered(all: seq<Candidate>) {
    forall i, j | 0 <= i < j < |all| :: Before(all[i], all[j])
  }

  function BatchSize(limit: nat): nat {
    if 50 < (limit + 1) * 4 then (limit + 1) * 4 else 50
  }

  /** The first candidate from k on that is beyond the cursor. */
  function FirstBeyond(all: seq<Candidate>, cursor: Option<Candidate>, k: nat): (n: nat)
    requires k <= |all|
    ensures k <= n <= |all|
    ensures forall i | k <= i < n :: !Beyond(all[i], cursor)
    ensures n < |all| ==> Beyond(all[n], cursor)
    decreases |all| - k
  {
    if k == |all| || Beyond(all[k], cursor) then k else FirstBeyond(all, cursor, k + 1)
  }

  /** What a cursor leaves of an ordered list of candidates. */
  function Rest(all: seq<Candidate>, cursor: Option<Candidate>): seq<Candidate> {
    all[FirstBeyond(all, cursor, 0)..]
  }

  function Unswiped(some: seq<Candidate>, swiped: set<nat>): seq<Candidate> {
    if some == [] then []
    else (if some[0].id in swiped then [] else [some[0]]) + Unswiped(some[1..], swiped)
  }

  // ---------------------------------------------------------------- one request as a function

  /** How many of the remaining candidates the batches of one request read. */
  function Scanned(rest: seq<Candidate>, swiped: set<nat>, limit: nat, size: nat, batches: nat, seen: nat): (n: nat)
    ensures n <= |rest|
    decreases batches
  {
    if batches == 0 || seen >= limit + 1 then 0
    else if |rest| < size then |rest|
    else size + Scanned(rest[size..], swiped, limit, size, batches - 1, seen + |Unswiped(rest[..size], swiped)|)
  }

  /** Whether one of those batches found the end of the table. */
  predicate Exhausted(rest: seq<Candidate>, swiped: set<nat>, limit: nat, size: nat, batches: nat, seen: nat)
    decreases batches
  {
    batches > 0 && seen < limit + 1
    && (|rest| < size || Exhausted(rest[size..], swiped, limit, size, batches - 1, seen + |Unswiped(rest[..size], swiped)|))
  }

  datatype Page = Page(profiles: seq<Candidate>, next: Option<Candidate>)

  function Take(some: seq<Candidate>, limit: nat): seq<Candidate> {
    if |some| <= limit then some else some[..limit]
  }

  function PageOf(rest: seq<Candidate>, swiped: set<nat>, limit: nat, cursor: Option<Candidate>): Page
    requires limit > 0
  {
    var n := Scanned(rest, swiped, limit, BatchSize(limit), MAX_FEED_BATCHES, 0);
    var visible := Unswiped(rest[..n], swiped);
    var reached := if n > 0 then Some(rest[n - 1]) else cursor;
    Page(Take(visible, limit),
         if |visible| > limit then Some(visible[limit - 1])
         else if Exhausted(rest, swiped, limit, BatchSize(limit), MAX_FEED_BATCHES, 0) then None
         else reached)
  }

  // ---------------------------------------------------------------- facts about filtering and order

  lemma {:induction false} UnswipedConcat(a: seq<Candidate>, b: seq<Candidate>, swiped: set<nat>)
    ensures Unswiped(a + b, swiped) == Unswiped(a, swiped) + Unswiped(b, swiped)
  {
    if a == [] {
      assert a + b == b;
    } else {
      assert (a + b)[1..] == a[1..] + b;
      UnswipedConcat(a[1..], b, swiped);
    }
  }

  lemma {:induction false} UnswipedMembers(some: seq<Candidate>, swiped: set<nat>)
    ensures forall c :: c in Unswiped(some, swiped) <==> c in some && c.id !in swiped
  {
    if some != [] {
      UnswipedMembers(some[1..], swiped);
      assert some == [some[0]] + some[1..];
    }
  }

  /** Where the k-th visible candidate stands among all: everything visible before it is in front of it. */
  lemma {:induction false} Position(some: seq<Candidate>, swiped: set<nat>, k: nat) returns (p: nat)
    requires k < |Unswiped(some, swiped)|
    ensures p < |some| && some[p] == Unswiped(some, swiped)[k]
    ensures Unswiped(some[..p + 1], swiped) == Unswiped(some, swiped)[..k + 1]
  {
    var first := if some[0].id in swiped then [] else [some[0]];
    if first != [] && k == 0 {
      p := 0;
      assert some[..1] == [some[0]];
      assert some[..1][1..] == [];
    } else {
      p := Position(some[1..], swiped, k - |first|);
      p := p + 1;
      assert some[..p + 1][1..] == some[1..][..p];
    }
  }

  /** The rest after the candidate at p is what follows p. */
  lemma RestAfter(all: seq<Candidate>, p: nat)
    requires Ordered(all) && p < |all|
    ensures FirstBeyond(all, Some(all[p]), 0) == p + 1
  {
    var n := FirstBeyond(all, Some(all[p]), 0);
    assert n < p ==> Before(all[n], all[p]);
    assert p + 1 < |all| ==> Before(all[p], all[p + 1]);
  }

  lemma RestOfRest(all: seq<Candidate>, cursor: Option<Candidate>, p: nat)
    requires Ordered(all) && p < |Rest(all, cursor)|
    ensures Rest(all, Some(Rest(all, cursor)[p])) == Rest(all, cursor)[p + 1..]
  {
    var skipped := FirstBeyond(all, cursor, 0);
    RestAfter(all, skipped + p);
    DropTwice(all, skipped, p + 1);
  }

  lemma DropTwice(all: seq<Candidate>, a: nat, b: nat)
    requires a + b <= |all|
    ensures all[a..][b..] == all[a + b..]
  {
  }

  lemma {:induction false} ScanReads(rest: seq<Candidate>, swiped: set<nat>, limit: nat, size: nat, batches: nat, seen: nat)
    requires size > 0
    ensures var n := Scanned(rest, swiped, limit, size, batches, seen);
      && (Exhausted(rest, swiped, limit, size, batches, seen) ==> n == |rest|)
      && (!Exhausted(rest, swiped, limit, size, batches, seen) ==>
            seen + |Unswiped(rest[..n], swiped)| > limit || n == batches * size)
      && (batches > 0 && seen <= limit && !Exhausted(rest, swiped, limit, size, batches, seen) ==> n > 0)
    decreases batches
  {
    if batches > 0 && seen < limit + 1 && |rest| >= size {
      var first := Unswiped(rest[..size], swiped);
      ScanReads(rest[size..], swiped, limit, size, batches - 1, seen + |first|);
      var m := Scanned(rest[size..], swiped, limit, size, batches - 1, seen + |first|);
      assert rest[..size + m] == rest[..size] + rest[size..][..m];
      UnswipedConcat(rest[..size], rest[size..][..m], swiped);
      assert batches * size == (batches - 1) * size + size;
    }
  }

  // ---------------------------------------------------------------- pages

  /**
   * One page and its cursor split what was left without loss or repetition: the profiles come first, and what the
   * next cursor leaves is exactly the rest, of fewer candidates.
   */
  lemma PageSplits(all: seq<Candidate>, swiped: set<nat>, limit: nat, cursor: Option<Candidate>)
    requires Ordered(all) && limit > 0
    ensures var rest := Rest(all, cursor);
      var page := PageOf(rest, swiped, limit, cursor);
      && |page.profiles| <= limit
      && (page.next.None? ==> page.profiles == Unswiped(rest, swiped))
      && (page.next.Some? ==>
            Unswiped(rest, swiped) == page.profiles + Unswiped(Rest(all, page.next), swiped)
            && |Rest(all, page.next)| < |rest|)
  {
    hide Rest, Unswiped, Ordered, Scanned, Exhausted;
    var rest := Rest(all, cursor);
    var n := Scanned(rest, swiped, limit, BatchSize(limit), MAX_FEED_BATCHES, 0);
    var visible := Unswiped(rest[..n], swiped);
    ScanReads(rest, swiped, limit, BatchSize(limit), MAX_FEED_BATCHES, 0);
    if |visible| > limit {
      FullPage(all, swiped, cursor, n, limit);
    } else if Exhausted(rest, swiped, limit, BatchSize(limit), MAX_FEED_BATCHES, 0) {
      assert rest[..n] == rest;
    } else {
      SplitAt(all, swiped, cursor, n - 1);
    }
  }

  lemma FullPage(all: seq<Candidate>, swiped: set<nat>, cursor: Option<Candidate>, n: nat, limit: nat)
    requires Ordered(all) && n <= |Rest(all, cursor)| && 0 < limit < |Unswiped(Rest(all, cursor)[..n], swiped)|
    ensures var rest := Rest(all, cursor);
      var visible := Unswiped(rest[..n], swiped);
      && Unswiped(rest, swiped) == visible[..limit] + Unswiped(Rest(all, Some(visible[limit - 1])), swiped)
      && |Rest(all, Some(visible[limit - 1]))| < |rest|
  {
    hide Rest, Unswiped, Ordered;
    var rest := Rest(all, cursor);
    var p := Position(rest[..n], swiped, limit - 1);
    assert rest[..n][..p + 1] == rest[..p + 1];
    SplitAt(all, swiped, cursor, p);
  }

  lemma SplitAt(all: seq<Candidate>, swiped: set<nat>, cursor: Option<Candidate>, p: nat)
    requires Ordered(all) && p < |Rest(all, cursor)|
    ensures var rest := Rest(all, cursor);
      && Unswiped(rest, swiped) == Unswiped(rest[..p + 1], swiped) + Unswiped(Rest(all, Some(rest[p])), swiped)
      && |Rest(all, Some(rest[p]))| < |rest|
  {
    var rest := Rest(all, cursor);
    RestOfRest(all, cursor, p);
    assert rest == rest[..p + 1] + rest[p + 1..];
    UnswipedConcat(rest[..p + 1], rest[p + 1..], swiped);
  }

  /** A page shorter than asked for that still has a cursor has read all its batches in full. */
  lemma ShortPageReadAllBatches(all: seq<Candidate>, swiped: set<nat>, limit: nat, cursor: Option<Candidate>)
    requires limit > 0
    ensures var rest := Rest(all, cursor);
      var page := PageOf(rest, swiped, limit, cursor);
      |page.profiles| < limit && page.next.Some? ==>
        var read := 20 * (if limit < 12 then 50 else 4 * limit + 4);
        read <= |rest| && page.next == Some(rest[read - 1]) && page.profiles == Unswiped(rest[..read], swiped)
  {
    hide Scanned, Exhausted, Rest, Unswiped, Ordered;
    var rest := Rest(all, cursor);
    ScanReads(rest, swiped, limit, BatchSize(limit), MAX_FEED_BATCHES, 0);
    var size := BatchSize(limit);
    hide BatchSize;
    assert MAX_FEED_BATCHES * size == 20 * size;
  }

  /** Asking for page after page with the cursor of the last one. */
  ghost function Followed(all: seq<Candidate>, swiped: set<nat>, limit: nat, cursor: Option<Candidate>): seq<Candidate>
    requires Ordered(all) && limit > 0
    decreases |Rest(all, cursor)|
  {
    var page := PageOf(Rest(all, cursor), swiped, limit, cursor);
    PageSplits(all, swiped, limit, cursor);
    page.profiles + (if page.next.None? then [] else Followed(all, swiped, limit, page.next))
  }

  /** Following the cursor to its end shows every candidate that was not swiped, once, nearest first. */
  lemma {:induction false} FollowingShowsAll(all: seq<Candidate>, swiped: set<nat>, limit: nat, cursor: Option<Candidate>)
    requires Ordered(all) && limit > 0
    ensures Followed(all, swiped, limit, cursor) == Unswiped(Rest(all, cursor), swiped)
    decreases |Rest(all, cursor)|
  {
    PageSplits(all, swiped, limit, cursor);
    var page := PageOf(Rest(all, cursor), swiped, limit, cursor);
    if page.next.Some? {
      FollowingShowsAll(all, swiped, limit, page.next);
    }
    hide PageOf, Unswiped, Rest;
  }

  /** From the first page on: exactly the unswiped candidates, each once, in order. */
  lemma WholeFeed(all: seq<Candidate>, swiped: set<nat>, limit: nat)
    requires Ordered(all) && limit > 0
    ensures var shown := Followed(all, swiped, limit, None);
      && (forall c :: c in shown <==> c in all && c.id !in swiped)
      && Ordered(shown)
  {
    FollowingShowsAll(all, swiped, limit, None);
    UnswipedMembers(all, swiped);
    UnswipedOrdered(all, swiped);
  }

  lemma {:induction false} UnswipedOrdered(some: seq<Candidate>, swiped: set<nat>)
    requires Ordered(some)
    ensures Ordered(Unswiped(some, swiped))
  {
    if some != [] {
      UnswipedOrdered(some[1..], swiped);
      UnswipedMembers(some[1..], swiped);
      var tail := Unswiped(some[1..], swiped);
      forall i | 0 <= i < |tail| ensures Before(some[0], tail[i]) {
        var k :| 0 <= k < |some[1..]| && some[1..][k] == tail[i];
        assert some[k + 1] == tail[i];
      }
    }
  }

  // ---------------------------------------------------------------- the service

  lemma OrderIsStrict(rows: set<Candidate>)
    ensures Sql.StrictOrder(rows, Before)
  {
  }

  lemma RestIsListing(rows: set<Candidate>, all: seq<Candidate>, cursor: Option<Candidate>)
    requires Sql.Listing(rows, Before, all)
    ensures Sql.Listing(Sql.Beyond(rows, Before, cursor), Before, Rest(all, cursor))
  {
    var n := FirstBeyond(all, cursor, 0);
    forall i | n <= i < |all| ensures Beyond(all[i], cursor) {
      assert n < i ==> Before(all[n], all[i]);
    }
    var rest := Rest(all, cursor);
    forall r ensures r in Sql.Beyond(rows, Before, cursor) <==> r in rest {
      if r in rest {
        var i :| 0 <= i < |rest| && rest[i] == r;
        assert all[n + i] == r;
      }
      if r in rows && Beyond(r, cursor) {
        var i :| 0 <= i < |all| && all[i] == r;
        assert rest[i - n] == r;
      }
    }
  }

  datatype Answer = BadRequest | NotReady | Feed(page: Page)

  class DiscoveryService {
    var eligible: set<Candidate>
    var swiped: set<nat>
    var ready: bool

    constructor (eligible: set<Candidate>, swiped: set<nat>, ready: bool)
      ensures this.eligible == eligible && this.swiped == swiped && this.ready == ready
    {
      this.eligible, this.swiped, this.ready := eligible, swiped, ready;
    }

    /** The query of candidateBatch, over the eligible candidates that their list `all` shows in order. */
    method CandidateBatch(limit: nat, cursor: Option<Candidate>, ghost all: seq<Candidate>) returns (batch: seq<Candidate>)
      requires Sql.Listing(eligible, Before, all)
      ensures batch == Take(Rest(all, cursor), limit)
    {
      OrderIsStrict(eligible);
      batch := Sql.KeysetPage(eligible, Before, cursor, limit);
      var left := Sql.Beyond(eligible, Before, cursor);
      RestIsListing(eligible, all, cursor);
      OrderIsStrict(left);
      Sql.PrefixIsLimited(left, Before, Rest(all, cursor), limit);
      Sql.LimitedUnique(left, Before, limit, Sql.Elements(batch), Sql.Elements(Sql.Take(Rest(all, cursor), limit)));
      OrderIsStrict(Sql.Elements(batch));
      Sql.ListingUnique(Sql.Elements(batch), Before, batch, Sql.Take(Rest(all, cursor), limit));
    }

    /** The candidates of a batch that the viewer has not swiped. */
    method Visible(candidates: seq<Candidate>) returns (visible: seq<Candidate>)
      ensures visible == Unswiped(candidates, swiped)
    {
      visible := [];
      for i := 0 to |candidates|
        invariant visible == Unswiped(candidates[..i], swiped)
      {
        assert candidates[..i + 1] == candidates[..i] + [candidates[i]];
        UnswipedConcat(candidates[..i], [candidates[i]], swiped);
        if candidates[i].id !in swiped {
          visible := visible + [candidates[i]];
        }
      }
      assert candidates[..|candidates|] == candidates;
    }

    method Feed(limit: int, rawCursor: Option<Candidate>, ghost all: seq<Candidate>) returns (answer: Answer)
      requires Sql.Listing(eligible, Before, all)
      ensures answer.BadRequest? <==> limit < 1 || limit > 100
      ensures answer.NotReady? <==> 1 <= limit <= 100 && !ready
      ensures answer.Feed? ==> answer.page == PageOf(Rest(all, rawCursor), swiped, limit, rawCursor)
    {
      if limit < 1 || limit > MAX_LIMIT {
        return BadRequest;
      }
      if !ready {
        return NotReady;
      }
      var visible, cursor, databaseExhausted := Scan(limit, rawCursor, all);
      var hasMore := |visible| > limit || !databaseExhausted;
      var page := if |visible| > limit then visible[..limit] else visible;
      var next := if hasMore then (if |visible| > limit then Some(page[|page| - 1]) else cursor) else None;
      answer := Answer.Feed(Page(page, next));
    }

    /** One batch and what of it is visible, as the next run of the candidates that the request started from. */
    method ReadBatch(batchSize: nat, cursor: Option<Candidate>, ghost all: seq<Candidate>,
        ghost rawCursor: Option<Candidate>, ghost start: seq<Candidate>, ghost n: nat, ghost left: seq<Candidate>)
      returns (candidates: seq<Candidate>, shown: seq<Candidate>)
      requires Sql.Listing(eligible, Before, all) && start == Rest(all, rawCursor) && left == Rest(all, cursor)
      requires n <= |start| && left == start[n..]
      ensures |candidates| == (if batchSize < |left| then batchSize else |left|)
      ensures candidates == left[..|candidates|] && shown == Unswiped(candidates, swiped)
      ensures candidates != [] ==> Advanced(all, start, swiped, n, left, |candidates|)
      ensures candidates != [] ==> candidates[|candidates| - 1] == start[n + |candidates| - 1]
    {
      ListingIsOrdered(eligible, all);
      TakeIsPrefix(left, batchSize);
      hide Take, Rest, Unswiped, Ordered, Advanced, Sql.Listing;
      candidates := CandidateBatch(batchSize, cursor, all);
      shown := Visible(candidates);
      if |candidates| > 0 {
        OneBatch(all, start, swiped, rawCursor, n, left, |candidates|);
      }
    }

    /** The loop over batches, until enough is visible, the table ends or the batches run out. */
    method Scan(limit: nat, rawCursor: Option<Candidate>, ghost all: seq<Candidate>)
      returns (visible: seq<Candidate>, cursor: Option<Candidate>, databaseExhausted: bool)
      requires Sql.Listing(eligible, Before, all)
      ensures var start := Rest(all, rawCursor);
        var n := Scanned(start, swiped, limit, BatchSize(limit), MAX_FEED_BATCHES, 0);
        && visible == Unswiped(start[..n], swiped)
        && cursor == (if n > 0 then Some(start[n - 1]) else rawCursor)
      ensures databaseExhausted
        == Exhausted(Rest(all, rawCursor), swiped, limit, BatchSize(limit), MAX_FEED_BATCHES, 0)
    {
      hide Rest, Unswiped, Scanned, Exhausted, Ordered;
      cursor := rawCursor;
      visible := [];
      var batchSize := BatchSize(limit);
      databaseExhausted := false;
      ghost var start := Rest(all, rawCursor);
      ghost var left, n: nat := start, 0;
      NoneUnswiped(swiped);
      assert start[..0] == [] && start[0..] == start;
      var batch := 0;
      while batch < MAX_FEED_BATCHES && |visible| < limit + 1
        invariant batch <= MAX_FEED_BATCHES && !databaseExhausted
        invariant n <= |start| && left == start[n..] && Rest(all, cursor) == left
        invariant visible == Unswiped(start[..n], swiped)
        invariant cursor == (if n > 0 then Some(start[n - 1]) else rawCursor)
        invariant Scanned(start, swiped, limit, batchSize, MAX_FEED_BATCHES, 0)
               == n + Scanned(left, swiped, limit, batchSize, MAX_FEED_BATCHES - batch, |visible|)
        invariant Exhausted(start, swiped, limit, batchSize, MAX_FEED_BATCHES, 0)
               == Exhausted(left, swiped, limit, batchSize, MAX_FEED_BATCHES - batch, |visible|)
      {
        ScanStep(left, swiped, limit, batchSize, MAX_FEED_BATCHES - batch, |visible|);
        var candidates, shown := ReadBatch(batchSize, cursor, all, rawCursor, start, n, left);
        if |candidates| == 0 {
          databaseExhausted := true;
          break;
        }
        visible := visible + shown;
        n := n + |candidates|;
        left := left[|candidates|..];
        cursor := Some(candidates[|candidates| - 1]);
        if |candidates| < batchSize {
          assert n == |start|;
          databaseExhausted := true;
          break;
        }
        batch := batch + 1;
      }
      if !databaseExhausted {
        ScanStop(left, swiped, limit, batchSize, MAX_FEED_BATCHES - batch, |visible|);
      }
    }
  }

  lemma ScanStep(left: seq<Candidate>, swiped: set<nat>, limit: nat, size: nat, batches: nat, seen: nat)
    requires batches > 0 && seen <= limit
    ensures |left| < size ==>
      Scanned(left, swiped, limit, size, batches, seen) == |left| && Exhausted(left, swiped, limit, size, batches, seen)
    ensures |left| >= size ==>
      var more := seen + |Unswiped(left[..size], swiped)|;
      && Scanned(left, swiped, limit, size, batches, seen)
         == size + Scanned(left[size..], swiped, limit, size, batches - 1, more)
      && Exhausted(left, swiped, limit, size, batches, seen)
         == Exhausted(left[size..], swiped, limit, size, batches - 1, more)
  {
  }

  lemma ScanStop(left: seq<Candidate>, swiped: set<nat>, limit: nat, size: nat, batches: nat, seen: nat)
    requires batches == 0 || seen > limit
    ensures Scanned(left, swiped, limit, size, batches, seen) == 0 && !Exhausted(left, swiped, limit, size, batches, seen)
  {
  }

  lemma ListingIsOrdered(rows: set<Candidate>, all: seq<Candidate>)
    requires Sql.Listing(rows, Before, all)
    ensures Ordered(all)
  {
  }

  lemma TakeIsPrefix(some: seq<Candidate>, limit: nat)
    ensures |Take(some, limit)| == if limit < |some| then limit else |some|
    ensures Take(some, limit) == some[..|Take(some, limit)|]
  {
  }

  lemma NoneUnswiped(swiped: set<nat>)
    ensures Unswiped([], swiped) == []
  {
  }

  /** Reading k more candidates moves the scan on by k. */
  ghost predicate Advanced(all: seq<Candidate>, start: seq<Candidate>, swiped: set<nat>, n: nat, left: seq<Candidate>, k: nat)
    requires 0 < k && n + k <= |start| && k <= |left|
  {
    && Unswiped(start[..n + k], swiped) == Unswiped(start[..n], swiped) + Unswiped(left[..k], swiped)
    && Rest(all, Some(start[n + k - 1])) == left[k..] && left[k..] == start[n + k..]
  }

  lemma OneBatch(all: seq<Candidate>, start: seq<Candidate>, swiped: set<nat>, cursor: Option<Candidate>, n: nat,
      left: seq<Candidate>, k: nat)
    requires Ordered(all) && start == Rest(all, cursor) && 0 < k && n + k <= |start| && left == start[n..]
    ensures Advanced(all, start, swiped, n, left, k)
  {
    RestOfRest(all, cursor, n + k - 1);
    DropTwice(start, n, k);
    hide Rest, Unswiped, Ordered;
    assert start[..n + k] == start[..n] + left[..k];
    UnswipedConcat(start[..n], left[..k], swiped);
  }
}
