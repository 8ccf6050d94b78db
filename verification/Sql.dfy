// The parts of SQL that the repository's queries lean on: ORDER BY ... LIMIT over a set of
// rows, and the "limit each branch, then merge" shape of its paginated and purging queries.

module Options {
  datatype Option<+T> = None | Some(value: T)
}

module Sql {
  import opened Options

  /** `before` is the strict total order that an ORDER BY clause ending in a unique key puts on `rows`. */
  ghost predicate StrictOrder<T(!new)>(rows: set<T>, before: (T, T) -> bool) {
    && (forall a | a in rows :: !before(a, a))
    && (forall a, b | a in rows && b in rows && a != b :: before(a, b) || before(b, a))
    && (forall a, b, c {:trigger before(a, b), before(b, c)} |
         a in rows && b in rows && c in rows && before(a, b) && before(b, c) :: before(a, c))
  }

  /** `chosen` is what ORDER BY before LIMIT k selects from `rows`. */
  ghost predicate Limited<T(!new)>(rows: set<T>, before: (T, T) -> bool, k: nat, chosen: set<T>) {
    && chosen <= rows
    && |chosen| == (if k < |rows| then k else |rows|)
    && (forall c, r | c in chosen && r in rows && r !in chosen :: before(c, r))
  }

  /** A row of `rows` that no other row precedes. */
  method First<T(==,!new)>(rows: set<T>, before: (T, T) -> bool) returns (first: T)
    requires rows != {} && StrictOrder(rows, before)
    ensures first in rows
    ensures forall r | r in rows && r != first :: before(first, r)
  {
    first :| first in rows;
    var rest := rows - {first};
    while rest != {}
      invariant rest <= rows && first in rows
      invariant forall r | r in rows && r !in rest && r != first :: before(first, r)
      decreases |rest|
    {
      var r :| r in rest;
      if before(r, first) {
        first := r;
      }
      rest := rest - {r};
    }
  }

  /** ORDER BY before LIMIT k, computed by repeatedly taking the first remaining row. */
  method Limit<T(==,!new)>(rows: set<T>, before: (T, T) -> bool, k: nat) returns (chosen: set<T>)
    requires StrictOrder(rows, before)
    ensures Limited(rows, before, k, chosen)
  {
    chosen := {};
    var rest := rows;
    while |chosen| < k && rest != {}
      invariant chosen !! rest && chosen + rest == rows
      invariant |chosen| <= k && |chosen| + |rest| == |rows|
      invariant forall c, r | c in chosen && r in rest :: before(c, r)
    {
      var first := First(rest, before);
      chosen := chosen + {first};
      rest := rest - {first};
    }
  }

  lemma SubsetOfSameSize<T>(a: set<T>, b: set<T>)
    requires a <= b && |a| == |b|
    ensures a == b
  {
    assert |b - a| == |b| - |a|;
  }

  lemma SubsetSize<T>(a: set<T>, b: set<T>)
    requires a <= b
    ensures |a| <= |b|
  {
    assert |b - a| == |b| - |a|;
  }

  lemma OneWay<T(!new)>(rows: set<T>, before: (T, T) -> bool, a: T, b: T)
    requires StrictOrder(rows, before) && a in rows && b in rows
    ensures !(before(a, b) && before(b, a))
  {
  }

  /** A LIMIT query has one answer: the order leaves the database no choice. */
  lemma LimitedUnique<T(!new)>(rows: set<T>, before: (T, T) -> bool, k: nat, x: set<T>, y: set<T>)
    requires StrictOrder(rows, before)
    requires Limited(rows, before, k, x) && Limited(rows, before, k, y)
    ensures x == y
  {
    if !(x <= y) {
      var a :| a in x && a !in y;
      if y <= x {
        SubsetOfSameSize(y, x);
      }
      var b :| b in y && b !in x;
      assert false by {
        OneWay(rows, before, a, b);
      }
    }
    SubsetOfSameSize(x, y);
  }

  /** Fewer rows than the limit means that the query returned every row. */
  lemma ShortMeansAll<T(!new)>(rows: set<T>, before: (T, T) -> bool, k: nat, chosen: set<T>)
    requires Limited(rows, before, k, chosen)
    ensures |chosen| < k ==> chosen == rows
  {
    if |chosen| < k {
      SubsetOfSameSize(chosen, rows);
    }
  }

  /** A row is selected exactly if fewer rows than the limit precede it. */
  lemma SelectedByRank<T(!new)>(rows: set<T>, before: (T, T) -> bool, k: nat, chosen: set<T>, row: T)
    requires StrictOrder(rows, before) && Limited(rows, before, k, chosen) && row in rows
    ensures row in chosen <==> |Preceding(rows, before, row)| < k
  {
    var preceding := Preceding(rows, before, row);
    if row in chosen {
      forall r | r in preceding ensures r in chosen - {row} {
        OneWay(rows, before, r, row);
      }
      SubsetSize(preceding, chosen - {row});
    } else {
      if |chosen| < k {
        ShortMeansAll(rows, before, k, chosen);
      }
      SubsetSize(chosen, preceding);
    }
  }

  function Preceding<T>(rows: set<T>, before: (T, T) -> bool, row: T): set<T> {
    set r | r in rows && before(r, row)
  }

  lemma {:induction false} LeastRow<T(!new)>(rows: set<T>, before: (T, T) -> bool) returns (first: T)
    requires rows != {} && StrictOrder(rows, before)
    ensures first in rows && forall r | r in rows && r != first :: before(first, r)
    decreases |rows|
  {
    var some :| some in rows;
    first := some;
    if rows != {some} {
      assert rows - {some} != {};
      var next := LeastRow(rows - {some}, before);
      first := if before(next, some) then next else some;
      forall r | r in rows && r != first ensures before(first, r) {
        assert r == some || r == next || (r in rows - {some} && before(next, r));
        assert before(some, next) || first == next;
      }
    }
  }

  /** Every LIMIT query has an answer. */
  lemma {:induction false} LimitedExists<T(!new)>(rows: set<T>, before: (T, T) -> bool, k: nat) returns (chosen: set<T>)
    requires StrictOrder(rows, before)
    ensures Limited(rows, before, k, chosen)
    decreases k
  {
    chosen := {};
    if k > 0 && rows != {} {
      var first := LeastRow(rows, before);
      var rest := LimitedExists(rows - {first}, before, k - 1);
      chosen := {first} + rest;
    }
  }

  /** Limiting each branch, merging and limiting again selects what one limit over the whole union selects. */
  lemma LimitThenMerge<T(!new)>(a: set<T>, b: set<T>, before: (T, T) -> bool, k: nat,
      a': set<T>, b': set<T>, chosen: set<T>)
    requires a !! b && StrictOrder(a + b, before)
    requires Limited(a, before, k, a') && Limited(b, before, k, b')
    requires Limited(a' + b', before, k, chosen)
    ensures Limited(a + b, before, k, chosen)
  {
    assert |a + b| == |a| + |b| && |a' + b'| == |a'| + |b'|;
    forall c, r | c in chosen && r in a + b && r !in chosen
      ensures before(c, r)
    {
      if r in a && r !in a' {
        CutRow(a, before, k, a', a' + b', chosen, c, r, a + b);
      } else if r in b && r !in b' {
        CutRow(b, before, k, b', a' + b', chosen, c, r, a + b);
      }
    }
  }

  /** A row cut from its branch comes after k rows of that branch, so the merged limit cannot select it either. */
  lemma CutRow<T(!new)>(branch: set<T>, before: (T, T) -> bool, k: nat, kept: set<T>, merged: set<T>,
      chosen: set<T>, c: T, r: T, all: set<T>)
    requires merged <= all && branch <= all && StrictOrder(all, before)
    requires Limited(branch, before, k, kept) && kept <= merged && Limited(merged, before, k, chosen)
    requires c in chosen && r in branch && r !in kept
    ensures before(c, r)
  {
    assert |kept| == k by {
      if |kept| < k {
        ShortMeansAll(branch, before, k, kept);
      }
    }
    if kept <= chosen {
      SubsetSize(kept, chosen);
      SubsetOfSameSize(kept, chosen);
    } else {
      var p :| p in kept && p !in chosen;
      assert before(c, p) && before(p, r);
    }
  }

  /** `s` lists `rows` in ORDER BY order. */
  ghost predicate Listing<T(!new)>(rows: set<T>, before: (T, T) -> bool, s: seq<T>) {
    && (forall r :: r in rows <==> r in s)
    && (forall i, j | 0 <= i < j < |s| :: before(s[i], s[j]))
  }

  ghost function Page<T>(s: seq<T>, limit: nat, offset: nat): seq<T> {
    Take(s, offset + limit)[|Take(s, offset)|..]
  }

  ghost function Take<T>(s: seq<T>, k: nat): (t: seq<T>)
    ensures t <= s
  {
    if k < |s| then s[..k] else s
  }

  ghost function Elements<T>(s: seq<T>): set<T> {
    set x | x in s
  }

  ghost predicate Distinct<T>(s: seq<T>) {
    forall i, j | 0 <= i < j < |s| :: s[i] != s[j]
  }

  lemma ListingSize<T(!new)>(rows: set<T>, before: (T, T) -> bool, s: seq<T>)
    requires StrictOrder(rows, before) && Listing(rows, before, s)
    ensures |s| == |rows| && Elements(s) == rows
  {
    assert Elements(s) == rows;
    DistinctSize(s) by {
      forall i, j | 0 <= i < j < |s| ensures s[i] != s[j] {
        assert before(s[i], s[j]) && s[i] in rows;
      }
    }
  }

  lemma {:induction false} DistinctSize<T>(s: seq<T>)
    requires Distinct(s)
    ensures |Elements(s)| == |s|
  {
    if s != [] {
      var n := |s| - 1;
      DistinctSize(s[..n]);
      assert Elements(s) == Elements(s[..n]) + {s[n]};
    }
  }

  /** The first k rows of a listing are what LIMIT k selects. */
  lemma PrefixIsLimited<T(!new)>(rows: set<T>, before: (T, T) -> bool, s: seq<T>, k: nat)
    requires StrictOrder(rows, before) && Listing(rows, before, s)
    ensures Limited(rows, before, k, Elements(Take(s, k)))
    ensures Listing(Elements(Take(s, k)), before, Take(s, k))
  {
    ListingSize(rows, before, s);
    var t := Take(s, k);
    assert forall i | 0 <= i < |t| :: t[i] == s[i];
    DistinctSize(t) by {
      forall i, j | 0 <= i < j < |t| ensures t[i] != t[j] {
        assert before(s[i], s[j]) && s[i] in rows;
      }
    }
    assert forall j | 0 <= j < |t| :: s[j] in Elements(t);
    forall c, r | c in Elements(t) && r in rows && r !in Elements(t)
      ensures before(c, r)
    {
      var i :| 0 <= i < |t| && t[i] == c;
      var j :| 0 <= j < |s| && s[j] == r;
    }
  }

  /** A set of rows has one listing. */
  lemma {:induction false} ListingUnique<T(!new)>(rows: set<T>, before: (T, T) -> bool, s: seq<T>, t: seq<T>)
    requires StrictOrder(rows, before) && Listing(rows, before, s) && Listing(rows, before, t)
    ensures s == t
    decreases |s|
  {
    ListingSize(rows, before, s);
    ListingSize(rows, before, t);
    forall k | 0 <= k <= |s| ensures s[..k] == t[..k] {
      PrefixesAgree(rows, before, s, t, k);
    }
    assert s == s[..|s|] && t == t[..|t|];
  }

  lemma {:induction false} PrefixesAgree<T(!new)>(rows: set<T>, before: (T, T) -> bool, s: seq<T>, t: seq<T>, k: nat)
    requires StrictOrder(rows, before) && Listing(rows, before, s) && Listing(rows, before, t)
    requires k <= |s| == |t|
    ensures s[..k] == t[..k]
  {
    if k > 0 {
      PrefixesAgree(rows, before, s, t, k - 1);
      NextRow(rows, before, s, t, k - 1);
      NextRow(rows, before, t, s, k - 1);
      assert s[k - 1] in rows && t[k - 1] in rows;
      OneWay(rows, before, s[k - 1], t[k - 1]);
      assert s[..k] == s[..k - 1] + [s[k - 1]] && t[..k] == t[..k - 1] + [t[k - 1]];
    }
  }

  lemma NextRow<T(!new)>(rows: set<T>, before: (T, T) -> bool, s: seq<T>, t: seq<T>, k: nat)
    requires StrictOrder(rows, before) && Listing(rows, before, s) && Listing(rows, before, t)
    requires k < |s| == |t| && s[..k] == t[..k]
    ensures s[k] == t[k] || before(t[k], s[k])
  {
    forall m | 0 <= m < k ensures t[m] != s[k] {
      assert t[m] == t[..k][m] == s[..k][m] == s[m];
      assert before(s[m], s[k]) && s[k] in rows;
    }
    assert s[k] in rows && s[k] in t;
    var i :| 0 <= i < |t| && t[i] == s[k];
  }

  lemma SamePage<T>(s: seq<T>, t: seq<T>, limit: nat, offset: nat)
    requires Take(s, limit + offset) == Take(t, limit + offset)
    ensures Page(s, limit, offset) == Page(t, limit, offset)
  {
    assert |Take(s, offset)| == |Take(t, offset)|;
  }

  lemma PrefixOfLimitedBranches<T(!new)>(a: set<T>, b: set<T>, before: (T, T) -> bool, k: nat,
      a': set<T>, b': set<T>, merged: seq<T>, full: seq<T>)
    requires a !! b && StrictOrder(a + b, before)
    requires Limited(a, before, k, a') && Limited(b, before, k, b')
    requires Listing(a' + b', before, merged) && Listing(a + b, before, full)
    ensures Take(merged, k) == Take(full, k)
  {
    var some := Elements(Take(merged, k));
    SubOrder(a + b, a' + b', before);
    PrefixIsLimited(a' + b', before, merged, k);
    PrefixIsLimited(a + b, before, full, k);
    LimitThenMerge(a, b, before, k, a', b', some);
    LimitedUnique(a + b, before, k, some, Elements(Take(full, k)));
    SubOrder(a + b, some, before);
    ListingUnique(some, before, Take(merged, k), Take(full, k));
  }

  lemma SubOrder<T(!new)>(rows: set<T>, some: set<T>, before: (T, T) -> bool)
    requires StrictOrder(rows, before) && some <= rows
    ensures StrictOrder(some, before)
  {
  }

  /**
   * Pagination over two limited branches: when each branch is cut to limit + offset rows, the page of the
   * merged branches is the page of the complete union.
   */
  lemma PageOfLimitedBranches<T(!new)>(a: set<T>, b: set<T>, before: (T, T) -> bool, limit: nat, offset: nat,
      a': set<T>, b': set<T>, merged: seq<T>, full: seq<T>)
    requires a !! b && StrictOrder(a + b, before)
    requires Limited(a, before, limit + offset, a') && Limited(b, before, limit + offset, b')
    requires Listing(a' + b', before, merged) && Listing(a + b, before, full)
    ensures Page(merged, limit, offset) == Page(full, limit, offset)
  {
    hide StrictOrder, Limited, Listing;
    PrefixOfLimitedBranches(a, b, before, limit + offset, a', b', merged, full);
    SamePage(merged, full, limit, offset);
  }

  // ---------------------------------------------------------------- keyset pages

  /** The rows that WHERE key > cursor leaves. */
  function Beyond<T(==,!new)>(rows: set<T>, before: (T, T) -> bool, cursor: Option<T>): set<T> {
    if cursor.None? then rows else set r | r in rows && before(cursor.value, r)
  }

  /** One page in order: ORDER BY key LIMIT pageSize over the rows beyond the cursor. */
  method KeysetPage<T(==,!new)>(rows: set<T>, before: (T, T) -> bool, cursor: Option<T>, pageSize: nat)
      returns (page: seq<T>)
    requires StrictOrder(rows, before)
    ensures Limited(Beyond(rows, before, cursor), before, pageSize, Elements(page))
    ensures Listing(Elements(page), before, page)
  {
    var rest := Beyond(rows, before, cursor);
    ghost var all := rest;
    SubOrder(rows, all, before);
    page := [];
    while |page| < pageSize && rest != {}
      invariant Elements(page) !! rest && Elements(page) + rest == all
      invariant |page| == |Elements(page)| <= pageSize && |page| + |rest| == |all|
      invariant forall c, r | c in page && r in rest :: before(c, r)
      invariant Listing(Elements(page), before, page)
    {
      SubOrder(all, rest, before);
      var first := First(rest, before);
      Extended(page, first, before);
      page := page + [first];
      rest := rest - {first};
    }
  }

  lemma Extended<T(!new)>(page: seq<T>, row: T, before: (T, T) -> bool)
    requires Listing(Elements(page), before, page)
    requires forall c | c in page :: before(c, row)
    ensures Elements(page + [row]) == Elements(page) + {row}
    ensures Listing(Elements(page + [row]), before, page + [row])
  {
  }
}
