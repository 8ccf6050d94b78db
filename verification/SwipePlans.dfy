// The swipe plan of the development seed: inside each compatibility group, every user swipes on its ten neighbours on
// either side of the circle of seed numbers, one like and one pass for each pair.

module SwipePlans {
  import opened Options
  import Sql

  const USERS_PER_CITY := 50
  const SWIPES_PER_USER := 20
  const NEIGHBOURS_PER_SIDE := 10

  datatype Sex = Male | Female | Other

  datatype SeedUser = SeedUser(seedNumber: int, id: int, sex: Sex)

  datatype Decision = Like | Pass

  datatype SwipePlan = SwipePlan(actor: SeedUser, target: SeedUser, decision: Decision)

  datatype Key = Key(city: int, other: bool)

  function KeyOf(u: SeedUser): Key {
    Key((u.seedNumber - 1) / USERS_PER_CITY, u.sex.Other?)
  }

  ghost predicate DistinctUsers(users: seq<SeedUser>) {
    forall i, j | 0 <= i < j < |users| :: users[i].id != users[j].id && users[i].seedNumber != users[j].seedNumber
  }

  /** Of two users one is the liker, whichever of them acts. */
  function DecisionFor(actor: SeedUser, target: SeedUser): Decision {
    var first := if actor.seedNumber < target.seedNumber then actor.seedNumber else target.seedNumber;
    var second := if actor.seedNumber < target.seedNumber then target.seedNumber else actor.seedNumber;
    var designatedLiker := if (first * 31 + second * 17) % 2 == 0 then first else second;
    if actor.seedNumber == designatedLiker then Like else Pass
  }

  lemma OneLikes(a: SeedUser, b: SeedUser)
    requires a.seedNumber != b.seedNumber
    ensures DecisionFor(a, b) != DecisionFor(b, a)
  {
  }

  /** Who may meet whom: fifty consecutive users are a city, and in it the users of the third sex are by themselves. */
  lemma KeyColumns(u: SeedUser, v: SeedUser)
    requires u.seedNumber > 0 && v.seedNumber > 0
    ensures KeyOf(u) == KeyOf(v) <==>
      (u.seedNumber - 1) / 50 == (v.seedNumber - 1) / 50 && (u.sex == Other <==> v.sex == Other)
  {
  }

  /** The user with the smaller number likes the other if and only if the checksum of the two numbers is even. */
  lemma DecisionColumns(a: SeedUser, b: SeedUser)
    requires a.seedNumber < b.seedNumber
    ensures DecisionFor(a, b) == Like <==> (a.seedNumber * 31 + b.seedNumber * 17) % 2 == 0
    ensures DecisionFor(b, a) == Like <==> (a.seedNumber * 31 + b.seedNumber * 17) % 2 != 0
  {
  }

  // ---------------------------------------------------------------- the circle

  /** The o-th of the twenty swipes goes o / 2 + 1 places forward or back. */
  function Offset(n: nat, o: nat): nat
    requires n > SWIPES_PER_USER && o < SWIPES_PER_USER
  {
    if o % 2 == 0 then o / 2 + 1 else n - (o / 2 + 1)
  }

  function Around(n: nat, i: nat, off: nat): (t: nat)
    requires i < n && 0 < off < n
    ensures t < n && t != i
  {
    if i + off < n then i + off else i + off - n
  }

  function TargetIndex(n: nat, k: nat): (t: nat)
    requires n > SWIPES_PER_USER && k < SWIPES_PER_USER * n
    ensures t < n && t != k / SWIPES_PER_USER
  {
    Around(n, k / SWIPES_PER_USER, Offset(n, k % SWIPES_PER_USER))
  }

  /** The k-th plan of a group: twenty for each user in turn. */
  function PlanAt(group: seq<SeedUser>, k: nat): SwipePlan
    requires |group| > SWIPES_PER_USER && k < SWIPES_PER_USER * |group|
  {
    var actor, target := group[k / SWIPES_PER_USER], group[TargetIndex(|group|, k)];
    SwipePlan(actor, target, DecisionFor(actor, target))
  }

  ghost predicate Circulant(group: seq<SeedUser>, plans: seq<SwipePlan>)
    requires |group| > SWIPES_PER_USER
  {
    |plans| == SWIPES_PER_USER * |group| && forall k | 0 <= k < |plans| :: plans[k] == PlanAt(group, k)
  }

  /** The twenty swipes of one user reach twenty different users. */
  lemma TargetsDiffer(n: nat, j: nat, k: nat)
    requires n > SWIPES_PER_USER && j < k < SWIPES_PER_USER * n && j / SWIPES_PER_USER == k / SWIPES_PER_USER
    ensures TargetIndex(n, j) != TargetIndex(n, k)
  {
    assert j % SWIPES_PER_USER < k % SWIPES_PER_USER;
  }

  /** The index of the swipe that answers the k-th. */
  function MirrorIndex(n: nat, k: nat): nat
    requires n > SWIPES_PER_USER && k < SWIPES_PER_USER * n
  {
    var o := k % SWIPES_PER_USER;
    TargetIndex(n, k) * SWIPES_PER_USER + (if o % 2 == 0 then o + 1 else o - 1)
  }

  lemma MirrorSwipe(n: nat, k: nat)
    requires n > SWIPES_PER_USER && k < SWIPES_PER_USER * n
    ensures MirrorIndex(n, k) < SWIPES_PER_USER * n
    ensures MirrorIndex(n, k) / SWIPES_PER_USER == TargetIndex(n, k)
    ensures TargetIndex(n, MirrorIndex(n, k)) == k / SWIPES_PER_USER
  {
    var o := k % SWIPES_PER_USER;
    var m := if o % 2 == 0 then o + 1 else o - 1;
    assert m % 2 == 1 - o % 2 && m / 2 == o / 2;
    assert MirrorIndex(n, k) % SWIPES_PER_USER == m;
  }

  // ---------------------------------------------------------------- what a good plan is

  predicate Answers(a: SwipePlan, b: SwipePlan) {
    a.actor == b.target && a.target == b.actor && a.decision != b.decision
  }

  ghost predicate Answered(plans: seq<SwipePlan>, k: nat)
    requires k < |plans|
  {
    exists j | 0 <= j < |plans| :: Answers(plans[j], plans[k])
  }

  predicate SameSwipe(a: SwipePlan, b: SwipePlan) {
    a.actor == b.actor && a.target == b.target
  }

  /** Twenty plans for each user in turn, none to itself, none twice, each answered by its opposite. */
  ghost predicate Good(users: seq<SeedUser>, plans: seq<SwipePlan>) {
    && |plans| == SWIPES_PER_USER * |users|
    && (forall k | 0 <= k < |plans| :: plans[k].actor == users[k / SWIPES_PER_USER])
    && (forall k | 0 <= k < |plans| :: plans[k].target in users && plans[k].target != plans[k].actor)
    && (forall j, k | 0 <= j < k < |plans| :: !SameSwipe(plans[j], plans[k]))
    && (forall k | 0 <= k < |plans| :: Answered(plans, k))
  }

  lemma CirculantIsGood(group: seq<SeedUser>, plans: seq<SwipePlan>)
    requires |group| > SWIPES_PER_USER && DistinctUsers(group) && Circulant(group, plans)
    ensures Good(group, plans)
  {
    var n := |group|;
    forall k | 0 <= k < |plans|
      ensures plans[k].actor == group[k / SWIPES_PER_USER] && plans[k].target in group
      ensures plans[k].target != plans[k].actor && Answered(plans, k)
    {
      CirculantAnswers(group, plans, k);
    }
    forall j, k | 0 <= j < k < |plans| ensures !SameSwipe(plans[j], plans[k]) {
      CirculantDiffers(group, plans, j, k);
    }
  }

  lemma CirculantAnswers(group: seq<SeedUser>, plans: seq<SwipePlan>, k: nat)
    requires |group| > SWIPES_PER_USER && DistinctUsers(group) && Circulant(group, plans) && k < |plans|
    ensures plans[k].target != plans[k].actor && Answered(plans, k)
  {
    var n := |group|;
    MirrorSwipe(n, k);
    hide TargetIndex, MirrorIndex, DecisionFor;
    var j := MirrorIndex(n, k);
    assert plans[k] == PlanAt(group, k) && plans[j] == PlanAt(group, j);
    OneLikes(plans[k].actor, plans[k].target);
    assert Answers(plans[j], plans[k]);
  }

  lemma CirculantDiffers(group: seq<SeedUser>, plans: seq<SwipePlan>, j: nat, k: nat)
    requires |group| > SWIPES_PER_USER && DistinctUsers(group) && Circulant(group, plans) && j < k < |plans|
    ensures !SameSwipe(plans[j], plans[k])
  {
    assert plans[k] == PlanAt(group, k) && plans[j] == PlanAt(group, j);
    if j / SWIPES_PER_USER == k / SWIPES_PER_USER {
      TargetsDiffer(|group|, j, k);
    }
    hide TargetIndex, DecisionFor;
  }

  /** Plans of groups without common users can be put together. */
  lemma GoodConcat(u: seq<SeedUser>, p: seq<SwipePlan>, v: seq<SeedUser>, q: seq<SwipePlan>)
    requires Good(u, p) && Good(v, q) && DistinctUsers(u + v)
    ensures Good(u + v, p + q)
  {
    var users, plans := u + v, p + q;
    forall k | 0 <= k < |plans|
      ensures plans[k].actor == users[k / SWIPES_PER_USER] && plans[k].target in users
      ensures plans[k].target != plans[k].actor && Answered(plans, k)
    {
      if k < |p| {
        assert Answered(p, k);
        var j :| 0 <= j < |p| && Answers(p[j], p[k]);
        assert Answers(plans[j], plans[k]);
      } else {
        var m := k - |p|;
        assert Answered(q, m);
        var j :| 0 <= j < |q| && Answers(q[j], q[m]);
        assert Answers(plans[|p| + j], plans[k]);
        assert k / SWIPES_PER_USER == |u| + m / SWIPES_PER_USER;
      }
    }
    forall j, k | 0 <= j < k < |plans| ensures !SameSwipe(plans[j], plans[k]) {
      if j < |p| <= k {
        ActorsDiffer(u, p, v, q, j, k - |p|);
      } else if j >= |p| {
        assert !SameSwipe(q[j - |p|], q[k - |p|]);
      }
    }
  }

  lemma ActorsDiffer(u: seq<SeedUser>, p: seq<SwipePlan>, v: seq<SeedUser>, q: seq<SwipePlan>, j: nat, m: nat)
    requires Good(u, p) && Good(v, q) && DistinctUsers(u + v) && j < |p| && m < |q|
    ensures p[j].actor != q[m].actor
  {
    var a, b := j / SWIPES_PER_USER, |u| + m / SWIPES_PER_USER;
    assert (u + v)[a] == p[j].actor && (u + v)[b] == q[m].actor;
  }

  // ---------------------------------------------------------------- what the validation asks

  function TargetIds(plans: seq<SwipePlan>, id: int): set<int> {
    set k | 0 <= k < |plans| && plans[k].actor.id == id :: plans[k].target.id
  }

  predicate Between(plan: SwipePlan, pair: (int, int)) {
    pair == PairOf(plan)
  }

  function PairOf(plan: SwipePlan): (int, int) {
    if plan.actor.id < plan.target.id then (plan.actor.id, plan.target.id) else (plan.target.id, plan.actor.id)
  }

  function PairPlans(plans: seq<SwipePlan>, pair: (int, int)): seq<SwipePlan> {
    if plans == [] then []
    else
      var n := |plans| - 1;
      PairPlans(plans[..n], pair) + (if Between(plans[n], pair) then [plans[n]] else [])
  }

  function Likes(plans: seq<SwipePlan>): nat {
    if plans == [] then 0 else (if plans[0].decision.Like? then 1 else 0) + Likes(plans[1..])
  }

  predicate OneLikeOnePass(pair: seq<SwipePlan>) {
    |pair| == 2 && Likes(pair) == 1
  }

  datatype Complaint = WrongCount | WrongTargets | WrongPair

  /** What validateSwipePlans would throw, if anything. */
  ghost predicate Accepted(users: seq<SeedUser>, plans: seq<SwipePlan>) {
    && |plans| == |users| * SWIPES_PER_USER
    && (forall u | u in users :: |TargetIds(plans, u.id)| == SWIPES_PER_USER)
    && (forall k | 0 <= k < |plans| :: OneLikeOnePass(PairPlans(plans, PairOf(plans[k]))))
  }

  /** The targets of the i-th user, in the order of its plans. */
  ghost function TargetList(plans: seq<SwipePlan>, base: nat): seq<int>
    requires base + SWIPES_PER_USER <= |plans|
  {
    seq(SWIPES_PER_USER, o requires 0 <= o < SWIPES_PER_USER => plans[base + o].target.id)
  }

  lemma TargetListDistinct(users: seq<SeedUser>, plans: seq<SwipePlan>, i: nat)
    requires Good(users, plans) && DistinctUsers(users) && i < |users|
    ensures var ids := TargetList(plans, i * SWIPES_PER_USER);
      forall a, b | 0 <= a < b < SWIPES_PER_USER :: ids[a] != ids[b]
  {
    var base := i * SWIPES_PER_USER;
    var ids := TargetList(plans, base);
    forall a, b | 0 <= a < b < SWIPES_PER_USER ensures ids[a] != ids[b] {
      var x, y := plans[base + a], plans[base + b];
      assert x.actor == users[i] && y.actor == users[i] && !SameSwipe(x, y);
      SameIdSameUser(users, x.target, y.target);
    }
  }

  lemma TargetListIsAll(users: seq<SeedUser>, plans: seq<SwipePlan>, i: nat)
    requires Good(users, plans) && DistinctUsers(users) && i < |users|
    ensures Sql.Elements(TargetList(plans, i * SWIPES_PER_USER)) == TargetIds(plans, users[i].id)
  {
    var base := i * SWIPES_PER_USER;
    var ids := TargetList(plans, base);
    forall k | 0 <= k < |plans| && plans[k].actor.id == users[i].id ensures base <= k < base + SWIPES_PER_USER {
      SameIdSameUser(users, plans[k].actor, users[i]);
      SameIndex(users, k / SWIPES_PER_USER, i);
    }
    forall id | id in TargetIds(plans, users[i].id) ensures id in ids {
      var k :| 0 <= k < |plans| && plans[k].actor.id == users[i].id && plans[k].target.id == id;
      assert ids[k - base] == id;
    }
    forall o | 0 <= o < SWIPES_PER_USER ensures ids[o] in TargetIds(plans, users[i].id) {
      assert plans[base + o].actor == users[i];
    }
  }

  lemma TwentyTargets(users: seq<SeedUser>, plans: seq<SwipePlan>, i: nat)
    requires Good(users, plans) && DistinctUsers(users) && i < |users|
    ensures |TargetIds(plans, users[i].id)| == SWIPES_PER_USER
  {
    TargetListDistinct(users, plans, i);
    TargetListIsAll(users, plans, i);
    hide TargetIds;
    Sql.DistinctSize(TargetList(plans, i * SWIPES_PER_USER));
  }

  lemma SameIdSameUser(users: seq<SeedUser>, a: SeedUser, b: SeedUser)
    requires DistinctUsers(users) && a in users && b in users
    ensures a.id == b.id ==> a == b
  {
  }

  lemma SameIndex(users: seq<SeedUser>, i: nat, j: nat)
    requires DistinctUsers(users) && i < |users| && j < |users| && users[i] == users[j]
    ensures i == j
  {
  }

  /** Where no plan of a pair lies, the plans of the pair do not change. */
  lemma {:induction false} Stretch(plans: seq<SwipePlan>, pair: (int, int), a: nat, b: nat)
    requires a <= b <= |plans| && forall k | a <= k < b :: !Between(plans[k], pair)
    ensures PairPlans(plans[..b], pair) == PairPlans(plans[..a], pair)
    decreases b - a
  {
    if a < b {
      Stretch(plans, pair, a, b - 1);
      assert plans[..b][..b - 1] == plans[..b - 1];
    }
  }

  lemma OneMore(plans: seq<SwipePlan>, pair: (int, int), k: nat)
    requires k < |plans| && Between(plans[k], pair)
    ensures PairPlans(plans[..k + 1], pair) == PairPlans(plans[..k], pair) + [plans[k]]
  {
    assert plans[..k + 1][..k] == plans[..k];
  }

  lemma ExactlyTwo(plans: seq<SwipePlan>, pair: (int, int), j: nat, k: nat)
    requires j < k < |plans| && Between(plans[j], pair) && Between(plans[k], pair)
    requires forall m | 0 <= m < |plans| && m != j && m != k :: !Between(plans[m], pair)
    ensures PairPlans(plans, pair) == [plans[j], plans[k]]
  {
    hide Between;
    JustOne(plans, pair, j, k);
    hide PairPlans;
    OneMore(plans, pair, k);
    Stretch(plans, pair, k + 1, |plans|);
    assert plans[..|plans|] == plans;
  }

  lemma JustOne(plans: seq<SwipePlan>, pair: (int, int), j: nat, k: nat)
    requires j < k <= |plans| && Between(plans[j], pair) && forall m | 0 <= m < k && m != j :: !Between(plans[m], pair)
    ensures PairPlans(plans[..k], pair) == [plans[j]]
  {
    hide Between;
    assert plans[..0] == [] && PairPlans([], pair) == [];
    Stretch(plans, pair, 0, j);
    OneMore(plans, pair, j);
    Stretch(plans, pair, j + 1, k);
  }

  lemma PairIsTwo(users: seq<SeedUser>, plans: seq<SwipePlan>, k: nat)
    requires Good(users, plans) && DistinctUsers(users) && k < |plans|
    ensures OneLikeOnePass(PairPlans(plans, PairOf(plans[k])))
  {
    assert Answered(plans, k);
    var j :| 0 <= j < |plans| && Answers(plans[j], plans[k]);
    var pair := PairOf(plans[k]);
    forall m | 0 <= m < |plans| ensures Between(plans[m], pair) <==> m == j || m == k {
      OnlyTheseTwo(users, plans, j, k, m);
    }
    var first, second := if j < k then j else k, if j < k then k else j;
    ExactlyTwo(plans, pair, first, second);
    LikesOfTwo(plans[first], plans[second]);
  }

  lemma LikesOfTwo(a: SwipePlan, b: SwipePlan)
    requires a.decision != b.decision
    ensures OneLikeOnePass([a, b])
  {
    assert [a, b][1..] == [b] && [b][1..] == [];
    assert Likes([b]) == (if b.decision.Like? then 1 else 0) + Likes([]);
  }

  lemma NeverTwice(users: seq<SeedUser>, plans: seq<SwipePlan>, j: nat, k: nat)
    requires Good(users, plans) && j < |plans| && k < |plans|
    ensures SameSwipe(plans[j], plans[k]) ==> j == k
  {
  }

  lemma OnlyTheseTwo(users: seq<SeedUser>, plans: seq<SwipePlan>, j: nat, k: nat, m: nat)
    requires Good(users, plans) && DistinctUsers(users) && j < |plans| && k < |plans| && m < |plans|
    requires Answers(plans[j], plans[k])
    ensures Between(plans[m], PairOf(plans[k])) <==> m == j || m == k
    ensures j != k
  {
    assert plans[m].actor in users && plans[k].actor in users && plans[k].target in users;
    SameIdSameUser(users, plans[m].actor, plans[k].actor);
    SameIdSameUser(users, plans[m].actor, plans[k].target);
    SameIdSameUser(users, plans[m].target, plans[k].actor);
    SameIdSameUser(users, plans[m].target, plans[k].target);
    SameIdSameUser(users, plans[k].target, plans[k].actor);
    NeverTwice(users, plans, m, k);
    NeverTwice(users, plans, m, j);
  }

  /** A good plan over a reordering of the users is one that the validation accepts. */
  lemma GoodIsAccepted(users: seq<SeedUser>, ordered: seq<SeedUser>, plans: seq<SwipePlan>)
    requires Good(ordered, plans) && DistinctUsers(ordered) && |ordered| == |users|
    requires forall u :: u in users <==> u in ordered
    ensures Accepted(users, plans)
  {
    forall u | u in users ensures |TargetIds(plans, u.id)| == SWIPES_PER_USER {
      var i :| 0 <= i < |ordered| && ordered[i] == u;
      TwentyTargets(ordered, plans, i);
    }
    forall k | 0 <= k < |plans| ensures OneLikeOnePass(PairPlans(plans, PairOf(plans[k]))) {
      PairIsTwo(ordered, plans, k);
    }
  }

  // ---------------------------------------------------------------- generation

  function GroupOf(users: seq<SeedUser>, key: Key): seq<SeedUser> {
    if users == [] then []
    else
      var n := |users| - 1;
      GroupOf(users[..n], key) + (if KeyOf(users[n]) == key then [users[n]] else [])
  }

  /** The list that a map holds for a key, empty if there is none. */
  function Entry<K, V>(m: map<K, seq<V>>, k: K): seq<V> {
    if k in m then m[k] else []
  }

  lemma {:induction false} GroupMembers(users: seq<SeedUser>, key: Key)
    ensures forall u :: u in GroupOf(users, key) <==> u in users && KeyOf(u) == key
  {
    if users != [] {
      var n := |users| - 1;
      GroupMembers(users[..n], key);
      assert users == users[..n] + [users[n]];
    }
  }

  lemma {:induction false} GroupDistinct(users: seq<SeedUser>, key: Key)
    requires DistinctUsers(users)
    ensures DistinctUsers(GroupOf(users, key))
  {
    if users != [] {
      var n := |users| - 1;
      GroupDistinct(users[..n], key);
      GroupMembers(users[..n], key);
      var before := GroupOf(users[..n], key);
      forall i | 0 <= i < |before| ensures before[i].id != users[n].id && before[i].seedNumber != users[n].seedNumber {
        assert before[i] in users[..n];
        var k :| 0 <= k < n && users[..n][k] == before[i];
        assert users[k] == before[i];
      }
    }
  }

  ghost predicate Ascending(group: seq<SeedUser>) {
    forall i, j | 0 <= i < j < |group| :: group[i].seedNumber < group[j].seedNumber
  }

  ghost predicate SameUsers(a: seq<SeedUser>, b: seq<SeedUser>) {
    |a| == |b| && forall u :: u in a <==> u in b
  }

  /** A group in the order of its seed numbers. */
  method SortBySeed(group: seq<SeedUser>) returns (sorted: seq<SeedUser>)
    requires DistinctUsers(group)
    ensures Ascending(sorted) && SameUsers(sorted, group)
  {
    sorted := [];
    for i := 0 to |group|
      invariant Ascending(sorted) && SameUsers(sorted, group[..i])
    {
      NewSeed(group, i, sorted);
      assert group[..i + 1] == group[..i] + [group[i]];
      sorted := Insert(sorted, group[i]);
    }
    assert group[..|group|] == group;
  }

  lemma NewSeed(group: seq<SeedUser>, i: nat, sorted: seq<SeedUser>)
    requires DistinctUsers(group) && i < |group| && SameUsers(sorted, group[..i])
    ensures forall k | 0 <= k < |sorted| :: sorted[k].seedNumber != group[i].seedNumber
  {
    forall k | 0 <= k < |sorted| ensures sorted[k].seedNumber != group[i].seedNumber {
      assert sorted[k] in group[..i];
      var j :| 0 <= j < i && group[..i][j] == sorted[k];
      assert group[j] == sorted[k];
    }
  }

  method Insert(sorted: seq<SeedUser>, u: SeedUser) returns (next: seq<SeedUser>)
    requires Ascending(sorted) && forall k | 0 <= k < |sorted| :: sorted[k].seedNumber != u.seedNumber
    ensures Ascending(next) && |next| == |sorted| + 1 && forall v :: v in next <==> v in sorted || v == u
  {
    var p := 0;
    while p < |sorted| && sorted[p].seedNumber < u.seedNumber
      invariant p <= |sorted| && forall k | 0 <= k < p :: sorted[k].seedNumber < u.seedNumber
    {
      p := p + 1;
    }
    Inserted(sorted, p, u);
    next := sorted[..p] + [u] + sorted[p..];
  }

  lemma Inserted(sorted: seq<SeedUser>, p: nat, u: SeedUser)
    requires Ascending(sorted) && p <= |sorted|
    requires forall k | 0 <= k < p :: sorted[k].seedNumber < u.seedNumber
    requires p < |sorted| ==> u.seedNumber < sorted[p].seedNumber
    ensures Ascending(sorted[..p] + [u] + sorted[p..])
    ensures forall v :: v in sorted[..p] + [u] + sorted[p..] <==> v in sorted || v == u
  {
    InsertedMembers(sorted, p, u);
    var next := sorted[..p] + [u] + sorted[p..];
    assert forall k | 0 <= k < p :: next[k] == sorted[k];
    assert forall k | p < k < |next| :: next[k] == sorted[k - 1];
    forall i, j | 0 <= i < j < |next| ensures next[i].seedNumber < next[j].seedNumber {
      if i < p < j {
        assert sorted[i].seedNumber < u.seedNumber <= sorted[p].seedNumber <= sorted[j - 1].seedNumber;
      }
    }
  }

  lemma InsertedMembers(sorted: seq<SeedUser>, p: nat, u: SeedUser)
    requires p <= |sorted|
    ensures forall v :: v in sorted[..p] + [u] + sorted[p..] <==> v in sorted || v == u
  {
    assert sorted == sorted[..p] + sorted[p..];
  }

  lemma AscendingIsDistinct(group: seq<SeedUser>, users: seq<SeedUser>)
    requires Ascending(group) && DistinctUsers(users) && forall u | u in group :: u in users
    ensures DistinctUsers(group)
  {
    forall i, j | 0 <= i < j < |group| ensures group[i].id != group[j].id {
      assert group[i] in users && group[j] in users;
    }
  }

  predicate HasKey(users: seq<SeedUser>, key: Key) {
    exists u | u in users :: KeyOf(u) == key
  }

  ghost predicate GroupedUpTo(users: seq<SeedUser>, groups: map<Key, seq<SeedUser>>) {
    && (forall key :: key in groups <==> HasKey(users, key))
    && (forall key :: Entry(groups, key) == GroupOf(users, key))
  }

  lemma OneMoreUser(users: seq<SeedUser>, groups: map<Key, seq<SeedUser>>, u: SeedUser)
    requires GroupedUpTo(users, groups)
    ensures var key := KeyOf(u);
      GroupedUpTo(users + [u], groups[key := Entry(groups, key) + [u]])
  {
    forall k ensures HasKey(users + [u], k) <==> HasKey(users, k) || KeyOf(u) == k {
      OneMoreKey(users, u, k);
    }
    forall k ensures GroupOf(users + [u], k) == GroupOf(users, k) + (if KeyOf(u) == k then [u] else []) {
      assert (users + [u])[..|users|] == users;
    }
    hide KeyOf, HasKey, GroupOf;
  }

  lemma OneMoreKey(users: seq<SeedUser>, u: SeedUser, k: Key)
    ensures HasKey(users + [u], k) <==> HasKey(users, k) || KeyOf(u) == k
  {
    if HasKey(users, k) {
      var v :| v in users && KeyOf(v) == k;
      assert v in users + [u];
    }
    if KeyOf(u) == k {
      assert u in users + [u];
    }
  }

  lemma NoUsers()
    ensures GroupedUpTo([], map[])
  {
  }

  lemma GroupAtKey(users: seq<SeedUser>, groups: map<Key, seq<SeedUser>>, key: Key)
    requires GroupedUpTo(users, groups) && key in groups && DistinctUsers(users)
    ensures groups[key] == GroupOf(users, key) && HasKey(users, key) && DistinctUsers(groups[key])
    ensures forall u :: u in groups[key] <==> u in users && KeyOf(u) == key
  {
    GroupMembers(users, key);
    GroupDistinct(users, key);
  }

  /** The users by key, and the keys in the order of their first user. */
  method GroupUsers(users: seq<SeedUser>) returns (keys: seq<Key>, groups: map<Key, seq<SeedUser>>)
    ensures forall key :: key in keys <==> key in groups
    ensures forall i, j | 0 <= i < j < |keys| :: keys[i] != keys[j]
    ensures GroupedUpTo(users, groups)
  {
    hide GroupedUpTo;
    keys, groups := [], map[];
    NoUsers();
    assert users[..0] == [];
    for i := 0 to |users|
      invariant forall key :: key in keys <==> key in groups
      invariant forall j, k | 0 <= j < k < |keys| :: keys[j] != keys[k]
      invariant GroupedUpTo(users[..i], groups)
    {
      var key := KeyOf(users[i]);
      assert users[..i + 1] == users[..i] + [users[i]];
      OneMoreUser(users[..i], groups, users[i]);
      if key !in groups {
        keys := keys + [key];
      }
      groups := groups[key := Entry(groups, key) + [users[i]]];
    }
    assert users[..|users|] == users;
  }

  /** Everyone in a group, and everyone's ten neighbours on either side. */
  method PlanGroup(group: seq<SeedUser>) returns (plans: seq<SwipePlan>)
    requires |group| > SWIPES_PER_USER
    ensures Circulant(group, plans)
  {
    plans := [];
    var n := |group|;
    for actorIndex := 0 to n
      invariant |plans| == SWIPES_PER_USER * actorIndex
      invariant forall k | 0 <= k < |plans| :: plans[k] == PlanAt(group, k)
    {
      var actor := group[actorIndex];
      for distance := 1 to NEIGHBOURS_PER_SIDE + 1
        invariant |plans| == SWIPES_PER_USER * actorIndex + 2 * (distance - 1)
        invariant forall k | 0 <= k < |plans| :: plans[k] == PlanAt(group, k)
      {
        NeighbourIndices(n, actorIndex, distance);
        var next := group[(actorIndex + distance) % n];
        var previous := group[(actorIndex - distance + n) % n];
        plans := plans + [SwipePlan(actor, next, DecisionFor(actor, next))]
                       + [SwipePlan(actor, previous, DecisionFor(actor, previous))];
      }
    }
  }

  lemma Wrapped(n: nat, x: nat)
    requires 0 < n && x < 2 * n
    ensures x % n == if x < n then x else x - n
  {
    if x >= n {
      assert x == n + (x - n);
    }
  }

  lemma NeighbourIndices(n: nat, i: nat, d: nat)
    requires n > SWIPES_PER_USER && i < n && 1 <= d <= NEIGHBOURS_PER_SIDE
    ensures var k := SWIPES_PER_USER * i + 2 * (d - 1);
      && k + 1 < SWIPES_PER_USER * n && k / SWIPES_PER_USER == i && (k + 1) / SWIPES_PER_USER == i
      && TargetIndex(n, k) == (i + d) % n && TargetIndex(n, k + 1) == (i - d + n) % n
  {
    Wrapped(n, i + d);
    Wrapped(n, i - d + n);
  }

  ghost predicate ByActor(plans: seq<SwipePlan>, byActor: map<int, set<int>>) {
    forall id :: (if id in byActor then byActor[id] else {}) == TargetIds(plans, id)
  }

  ghost predicate ByPair(plans: seq<SwipePlan>, byPair: map<(int, int), seq<SwipePlan>>) {
    && (forall pair :: Entry(byPair, pair) == PairPlans(plans, pair))
    && (forall k | 0 <= k < |plans| :: PairOf(plans[k]) in byPair)
    && (forall pair | pair in byPair :: HasPair(plans, pair))
  }

  ghost predicate HasPair(plans: seq<SwipePlan>, pair: (int, int)) {
    exists k | 0 <= k < |plans| :: PairOf(plans[k]) == pair
  }

  lemma OneMoreTarget(plans: seq<SwipePlan>, plan: SwipePlan, id: int)
    ensures TargetIds(plans + [plan], id) == TargetIds(plans, id) + (if plan.actor.id == id then {plan.target.id} else {})
  {
    var more := plans + [plan];
    forall t | t in TargetIds(plans, id) ensures t in TargetIds(more, id) {
      var k :| 0 <= k < |plans| && plans[k].actor.id == id && plans[k].target.id == t;
      assert more[k] == plans[k];
    }
    if plan.actor.id == id {
      assert more[|plans|].target.id in TargetIds(more, id);
    }
  }

  lemma OneMorePlan(plans: seq<SwipePlan>, plan: SwipePlan, byActor: map<int, set<int>>)
    requires ByActor(plans, byActor)
    ensures var id := plan.actor.id;
      ByActor(plans + [plan], byActor[id := (if id in byActor then byActor[id] else {}) + {plan.target.id}])
  {
    forall id ensures TargetIds(plans + [plan], id)
      == TargetIds(plans, id) + (if plan.actor.id == id then {plan.target.id} else {})
    {
      OneMoreTarget(plans, plan, id);
    }
    hide TargetIds;
  }

  lemma OneMorePair(plans: seq<SwipePlan>, plan: SwipePlan, byPair: map<(int, int), seq<SwipePlan>>)
    requires ByPair(plans, byPair)
    ensures var pair := PairOf(plan);
      ByPair(plans + [plan], byPair[pair := Entry(byPair, pair) + [plan]])
  {
    var more, pair := plans + [plan], PairOf(plan);
    var next := byPair[pair := Entry(byPair, pair) + [plan]];
    forall p ensures Entry(next, p) == PairPlans(more, p) {
      assert more[..|plans|] == plans;
      assert Entry(byPair, p) == PairPlans(plans, p);
    }
    forall p | p in next ensures HasPair(more, p) {
      OneMorePairs(plans, plan, p);
    }
    hide PairPlans, HasPair;
    forall k | 0 <= k < |more| ensures PairOf(more[k]) in next {
      assert k < |plans| ==> more[k] == plans[k];
    }
  }

  lemma OneMorePairs(plans: seq<SwipePlan>, plan: SwipePlan, pair: (int, int))
    ensures HasPair(plans, pair) || PairOf(plan) == pair ==> HasPair(plans + [plan], pair)
  {
    var more := plans + [plan];
    if k :| 0 <= k < |plans| && PairOf(plans[k]) == pair {
      assert PairOf(more[k]) == pair;
    }
    assert PairOf(more[|plans|]) == PairOf(plan);
  }

  /** The checks of validateSwipePlans: by actor, then by pair. */
  method ValidateSwipePlans(users: seq<SeedUser>, plans: seq<SwipePlan>) returns (complaint: Option<Complaint>)
    ensures complaint.None? <==> Accepted(users, plans)
    ensures complaint == Some(WrongCount) <==> |plans| != 20 * |users|
    ensures complaint == Some(WrongTargets) <==>
      |plans| == 20 * |users| && exists u | u in users :: |TargetIds(plans, u.id)| != 20
    ensures complaint == Some(WrongPair) ==>
      exists k | 0 <= k < |plans| :: !OneLikeOnePass(PairPlans(plans, PairOf(plans[k])))
  {
    if |plans| != |users| * SWIPES_PER_USER {
      return Some(WrongCount);
    }
    var byActor, byPair := Tally(plans);
    if exists u | u in users :: u.id !in byActor || |byActor[u.id]| != SWIPES_PER_USER {
      return Some(WrongTargets);
    }
    if exists pair | pair in byPair :: !OneLikeOnePass(byPair[pair]) {
      ghost var pair :| pair in byPair && !OneLikeOnePass(byPair[pair]);
      assert HasPair(plans, pair);
      return Some(WrongPair);
    }
    complaint := None;
  }

  method Tally(plans: seq<SwipePlan>) returns (byActor: map<int, set<int>>, byPair: map<(int, int), seq<SwipePlan>>)
    ensures ByActor(plans, byActor) && ByPair(plans, byPair)
  {
    byActor, byPair := map[], map[];
    for i := 0 to |plans|
      invariant ByActor(plans[..i], byActor) && ByPair(plans[..i], byPair)
    {
      var plan := plans[i];
      assert plans[..i + 1] == plans[..i] + [plan];
      OneMorePlan(plans[..i], plan, byActor);
      OneMorePair(plans[..i], plan, byPair);
      hide ByActor, ByPair;
      var pair := PairOf(plan);
      byActor := byActor[plan.actor.id := (if plan.actor.id in byActor then byActor[plan.actor.id] else {}) + {plan.target.id}];
      byPair := byPair[pair := Entry(byPair, pair) + [plan]];
    }
    assert plans[..|plans|] == plans;
  }

  datatype Outcome = Plans(plans: seq<SwipePlan>) | TooSmall(key: Key) | Refused(complaint: Option<Complaint>)

  /** The users whose groups have been planned. */
  ghost predicate Collected(users: seq<SeedUser>, ordered: seq<SeedUser>, keys: seq<Key>) {
    DistinctUsers(ordered) && forall u :: u in ordered <==> u in users && KeyOf(u) in keys
  }

  ghost predicate WithinGroups(plans: seq<SwipePlan>) {
    forall k | 0 <= k < |plans| :: KeyOf(plans[k].target) == KeyOf(plans[k].actor)
  }

  /**
   * When every compatibility group has more than twenty users the generation plans exactly what the validation asks
   * for: twenty different targets for each user, one like and one pass for each pair. So the validation never throws.
   */
  method GenerateSwipePlans(users: seq<SeedUser>) returns (r: Outcome)
    requires DistinctUsers(users)
    ensures r.TooSmall? <==> exists u | u in users :: |GroupOf(users, KeyOf(u))| <= 20
    ensures r.TooSmall? ==> |GroupOf(users, r.key)| <= 20
    ensures !r.Refused?
    ensures r.Plans? ==> Accepted(users, r.plans) && WithinGroups(r.plans)
    ensures r.Plans? ==> |r.plans| == 20 * |users| && forall u | u in users :: |TargetIds(r.plans, u.id)| == 20
  {
    var keys, groups := GroupUsers(users);
    var plans: seq<SwipePlan> := [];
    ghost var ordered: seq<SeedUser> := [];
    assert keys[..0] == [];
    for g := 0 to |keys|
      invariant Collected(users, ordered, keys[..g]) && Good(ordered, plans) && WithinGroups(plans)
      invariant forall k | 0 <= k < g :: |GroupOf(users, keys[k])| > SWIPES_PER_USER
    {
      hide Collected, Good, WithinGroups, GroupOf, KeyOf, GroupedUpTo, HasKey;
      GroupAtKey(users, groups, keys[g]);
      if |groups[keys[g]]| <= SWIPES_PER_USER {
        SmallGroup(users, keys[g]);
        return TooSmall(keys[g]);
      }
      plans, ordered := AddGroup(users, groups[keys[g]], plans, ordered, keys, g);
    }
    assert keys[..|keys|] == keys;
    r := Checked(users, plans, ordered, keys, groups);
  }

  lemma SmallGroup(users: seq<SeedUser>, key: Key)
    requires HasKey(users, key) && |GroupOf(users, key)| <= SWIPES_PER_USER
    ensures exists u | u in users :: |GroupOf(users, KeyOf(u))| <= SWIPES_PER_USER
  {
  }

  /** Sorts one group and adds its circle of plans. */
  method AddGroup(users: seq<SeedUser>, members: seq<SeedUser>, plans: seq<SwipePlan>, ghost ordered: seq<SeedUser>,
      ghost keys: seq<Key>, ghost g: nat)
      returns (more: seq<SwipePlan>, ghost longer: seq<SeedUser>)
    requires DistinctUsers(users) && DistinctUsers(members) && |members| > SWIPES_PER_USER && g < |keys|
    requires forall u :: u in members <==> u in users && KeyOf(u) == keys[g]
    requires forall i, j | 0 <= i < j < |keys| :: keys[i] != keys[j]
    requires Collected(users, ordered, keys[..g]) && Good(ordered, plans) && WithinGroups(plans)
    ensures Collected(users, longer, keys[..g + 1]) && Good(longer, more) && WithinGroups(more)
  {
    hide Good;
    var group := SortBySeed(members);
    AscendingIsDistinct(group, users);
    var circle := PlanGroup(group);
    CirculantIsGood(group, circle);
    GroupTogether(users, ordered, group, keys, g);
    GoodConcat(ordered, plans, group, circle);
    SameKeys(group, circle, keys[g]);
    more, longer := plans + circle, ordered + group;
  }

  method Checked(users: seq<SeedUser>, plans: seq<SwipePlan>, ghost ordered: seq<SeedUser>, ghost keys: seq<Key>,
      ghost groups: map<Key, seq<SeedUser>>)
      returns (r: Outcome)
    requires DistinctUsers(users) && Collected(users, ordered, keys) && Good(ordered, plans) && WithinGroups(plans)
    requires GroupedUpTo(users, groups) && forall key :: key in keys <==> key in groups
    requires forall k | 0 <= k < |keys| :: |GroupOf(users, keys[k])| > SWIPES_PER_USER
    ensures r == Plans(plans) && Accepted(users, plans)
    ensures forall u | u in users :: |GroupOf(users, KeyOf(u))| > SWIPES_PER_USER
  {
    forall u | u in users ensures KeyOf(u) in keys {
      assert HasKey(users, KeyOf(u));
    }
    AllOrdered(users, ordered, keys);
    GoodIsAccepted(users, ordered, plans);
    var complaint := ValidateSwipePlans(users, plans);
    r := if complaint.Some? then Refused(complaint) else Plans(plans);
  }

  lemma SameKeys(group: seq<SeedUser>, plans: seq<SwipePlan>, key: Key)
    requires Good(group, plans) && forall u | u in group :: KeyOf(u) == key
    ensures forall k | 0 <= k < |plans| :: KeyOf(plans[k].target) == KeyOf(plans[k].actor)
  {
  }

  lemma GroupTogether(users: seq<SeedUser>, ordered: seq<SeedUser>, group: seq<SeedUser>, keys: seq<Key>, g: nat)
    requires DistinctUsers(users) && DistinctUsers(group) && g < |keys| && Collected(users, ordered, keys[..g])
    requires forall i, j | 0 <= i < j < |keys| :: keys[i] != keys[j]
    requires forall u :: u in group <==> u in users && KeyOf(u) == keys[g]
    ensures Collected(users, ordered + group, keys[..g + 1])
  {
    assert keys[..g + 1] == keys[..g] + [keys[g]];
    assert forall k | 0 <= k < g :: keys[..g][k] != keys[g];
    hide KeyOf;
    var all := ordered + group;
    forall i, j | 0 <= i < j < |all| ensures all[i].id != all[j].id && all[i].seedNumber != all[j].seedNumber {
      if i < |ordered| <= j {
        assert all[i] in ordered && all[j] in group;
        assert KeyOf(all[i]) != KeyOf(all[j]);
      }
    }
  }

  lemma AllOrdered(users: seq<SeedUser>, ordered: seq<SeedUser>, keys: seq<Key>)
    requires DistinctUsers(users) && Collected(users, ordered, keys) && forall u | u in users :: KeyOf(u) in keys
    ensures |ordered| == |users| && forall u :: u in users <==> u in ordered
  {
    Sql.DistinctSize(users);
    Sql.DistinctSize(ordered);
    assert Sql.Elements(users) == Sql.Elements(ordered);
  }
}
