/**
  Option and result types, and the two Python idioms used across the repository: `dict.fromkeys` and stable `sorted`.
 */
module Prelude {
  /** UUIDs are only ever compared for equality. */
  type Uuid = nat

  datatype Option<+T> = None | Some(value: T)

  datatype Result<+T, +E> = Ok(value: T) | Err(error: E)

  ghost predicate NoDup<T>(s: seq<T>) {
    forall i, j | 0 <= i < j < |s| :: s[i] != s[j]
  }

  /** `kept` are the elements at exactly these positions, in order. */
  ghost predicate Selects<T>(all: seq<T>, positions: seq<nat>, kept: seq<T>) {
    && |kept| == |positions|
    && (forall k | 0 <= k < |positions| :: positions[k] < |all| && kept[k] == all[positions[k]])
    && (forall j, k | 0 <= j < k < |positions| :: positions[j] < positions[k])
  }

  lemma SelectsMore<T>(all: seq<T>, positions: seq<nat>, kept: seq<T>, last: T)
    requires Selects(all, positions, kept)
    ensures Selects(all + [last], positions, kept)
    ensures Selects(all + [last], positions + [|all|], kept + [last])
  {
    forall k | 0 <= k < |positions| ensures (all + [last])[positions[k]] == all[positions[k]] {}
  }

  /** `tuple(dict.fromkeys(s))`: the elements of `s` in order of first occurrence. */
  function Unique<T(==,!new)>(s: seq<T>): (r: seq<T>)
    ensures NoDup(r)
    ensures forall x :: x in r <==> x in s
    ensures |r| <= |s|
  {
    if s == [] then []
    else
      var last := s[|s| - 1];
      var before := Unique(s[..|s| - 1]);
      assert s == s[..|s| - 1] + [last];
      if last in before then before else before + [last]
  }

  /** Increasing positions below `n` are determined by which they are. */
  ghost predicate Climbs(p: seq<nat>, n: nat) {
    (forall k | 0 <= k < |p| :: p[k] < n) && forall j, k | 0 <= j < k < |p| :: p[j] < p[k]
  }

  ghost predicate SameBelow(n: nat, p: seq<nat>, q: seq<nat>) {
    forall i | 0 <= i < n :: i in p <==> i in q
  }

  lemma {:induction false} SamePositions(n: nat, p: seq<nat>, q: seq<nat>)
    requires Climbs(p, n) && Climbs(q, n) && SameBelow(n, p, q)
    ensures p == q
  {
    if n > 0 {
      BelowIs(p, n - 1);
      BelowIs(q, n - 1);
      var p', q' := Below(p, n - 1), Below(q, n - 1);
      BelowSame(p, q, p', q', n - 1);
      SamePositions(n - 1, p', q');
    }
  }

  lemma BelowSame(p: seq<nat>, q: seq<nat>, p': seq<nat>, q': seq<nat>, n: nat)
    requires SameBelow(n + 1, p, q) && SameBelow(n, p', p) && SameBelow(n, q', q)
    ensures SameBelow(n, p', q') && (n in p <==> n in q)
  {}

  function Below(p: seq<nat>, n: nat): seq<nat> {
    if p != [] && p[|p| - 1] == n then p[..|p| - 1] else p
  }

  lemma BelowIs(p: seq<nat>, n: nat)
    requires Climbs(p, n + 1)
    ensures Climbs(Below(p, n), n) && SameBelow(n, Below(p, n), p)
    ensures n in p ==> p == Below(p, n) + [n]
    ensures n !in p ==> p == Below(p, n)
  {
    if p != [] && p[|p| - 1] == n {
      assert p == p[..|p| - 1] + [n];
      ClimbsInit(p[..|p| - 1], n);
    } else {
      forall k | 0 <= k < |p| ensures p[k] < n { assert p[k] <= p[|p| - 1]; }
    }
  }

  lemma ClimbsInit(p: seq<nat>, n: nat)
    requires Climbs(p + [n], n + 1)
    ensures Climbs(p, n) && SameBelow(n, p, p + [n])
  {
    var all := p + [n];
    forall k | 0 <= k < |p| ensures p[k] < n { assert all[k] < all[|p|]; }
    forall j, k | 0 <= j < k < |p| ensures p[j] < p[k] { assert all[j] < all[k]; }
  }

  /** `kept` holds the first occurrence of every element, in order. */
  ghost predicate FirstOccurrences<T(!new)>(all: seq<T>, kept: seq<T>) {
    exists positions :: Selects(all, positions, kept) && FirstsExactly(all, positions)
  }

  ghost predicate FirstsExactly<T(!new)>(all: seq<T>, positions: seq<nat>) {
    forall i | 0 <= i < |all| :: i in positions <==> forall j | 0 <= j < i :: all[j] != all[i]
  }

  lemma {:induction false} UniqueIs<T(!new)>(s: seq<T>) returns (positions: seq<nat>)
    ensures Selects(s, positions, Unique(s)) && FirstsExactly(s, positions)
  {
    if s == [] {
      positions := [];
    } else {
      var init, last := s[..|s| - 1], s[|s| - 1];
      positions := UniqueIs(init);
      assert s == init + [last];
      SelectsMore(init, positions, Unique(init), last);
      FirstsMore(init, positions, last);
      if last !in Unique(init) { positions := positions + [|init|]; }
    }
  }

  lemma FirstsMore<T(!new)>(init: seq<T>, positions: seq<nat>, last: T)
    requires FirstsExactly(init, positions) && forall k | 0 <= k < |positions| :: positions[k] < |init|
    ensures FirstsExactly(init + [last], if last in init then positions else positions + [|init|])
  {
    var s := init + [last];
    assert forall i | 0 <= i < |init| :: s[i] == init[i];
    forall i | 0 <= i < |s|
      ensures i in (if last in init then positions else positions + [|init|])
              <==> forall j | 0 <= j < i :: s[j] != s[i] {
      if i == |init| {
        assert i !in positions;
        assert last in init <==> exists j | 0 <= j < i :: init[j] == last;
      }
    }
  }

  lemma UniqueKeepsFirsts<T(!new)>(s: seq<T>)
    ensures FirstOccurrences(s, Unique(s))
  {
    var positions := UniqueIs(s);
  }

  lemma UniqueOfNoDup<T(!new)>(s: seq<T>)
    requires NoDup(s)
    ensures Unique(s) == s
  {
    if s != [] {
      UniqueOfNoDup(s[..|s| - 1]);
      assert s == s[..|s| - 1] + [s[|s| - 1]];
    }
  }

  lemma NoDupPrefix<T>(s: seq<T>, last: T)
    requires NoDup(s + [last])
    ensures NoDup(s) && last !in s
  {
    var whole := s + [last];
    forall i, j | 0 <= i < j < |s| ensures s[i] != s[j] { assert whole[i] != whole[j]; }
    forall i | 0 <= i < |s| ensures s[i] != last { assert whole[i] != whole[|s|]; }
  }

  /** What a comparison must satisfy for sorting by it to be meaningful. */
  ghost predicate TotalPreorder<T(!new)>(le: (T, T) -> bool) {
    && (forall x, y :: le(x, y) || le(y, x))
    && (forall x, y, z :: le(x, y) && le(y, z) ==> le(x, z))
  }

  ghost predicate SortedBy<T>(s: seq<T>, le: (T, T) -> bool) {
    forall i, j | 0 <= i < j < |s| :: le(s[i], s[j])
  }

  function Insert<T>(x: T, s: seq<T>, le: (T, T) -> bool): (r: seq<T>)
    ensures multiset(r) == multiset{x} + multiset(s)
    ensures |r| == |s| + 1
  {
    if s == [] || le(x, s[0]) then [x] + s
    else
      assert s == [s[0]] + s[1..];
      [s[0]] + Insert(x, s[1..], le)
  }

  /** Python's stable `sorted`: an element goes before the later ones it compares equal to. */
  function SortBy<T>(s: seq<T>, le: (T, T) -> bool): (r: seq<T>)
    ensures multiset(r) == multiset(s)
    ensures |r| == |s|
  {
    if s == [] then []
    else
      assert s == [s[0]] + s[1..];
      Insert(s[0], SortBy(s[1..], le), le)
  }

  lemma InsertMembers<T>(x: T, s: seq<T>, le: (T, T) -> bool)
    ensures forall y :: y in Insert(x, s, le) <==> y == x || y in s
  {
    forall y ensures y in Insert(x, s, le) <==> y == x || y in s {
      assert y in Insert(x, s, le) <==> y in multiset(Insert(x, s, le));
    }
  }

  lemma {:induction false} InsertSorted<T(!new)>(x: T, s: seq<T>, le: (T, T) -> bool)
    requires TotalPreorder(le) && SortedBy(s, le)
    ensures SortedBy(Insert(x, s, le), le)
  {
    if s != [] && !le(x, s[0]) {
      InsertSorted(x, s[1..], le);
      InsertMembers(x, s[1..], le);
      var tail := Insert(x, s[1..], le);
      forall j | 0 <= j < |tail| ensures le(s[0], tail[j]) {
        assert tail[j] in tail;
        if tail[j] != x {
          assert tail[j] in s[1..];
        }
      }
    } else {
      forall j | 0 <= j < |s| ensures le(x, s[j]) {
        assert le(x, s[0]);
      }
    }
  }

  lemma {:induction false} SortBySorted<T(!new)>(s: seq<T>, le: (T, T) -> bool)
    requires TotalPreorder(le)
    ensures SortedBy(SortBy(s, le), le)
  {
    if s != [] {
      SortBySorted(s[1..], le);
      InsertSorted(s[0], SortBy(s[1..], le), le);
    }
  }

  /** Sorted, with elements that compare equal in the order given; `earlier` is that order. */
  ghost predicate SortedStably<T(!new)>(s: seq<T>, le: (T, T) -> bool, earlier: (T, T) -> bool) {
    forall i, j | 0 <= i < j < |s| :: le(s[i], s[j]) && (le(s[j], s[i]) ==> earlier(s[i], s[j]))
  }

  lemma {:induction false} SortByStable<T(!new)>(s: seq<T>, le: (T, T) -> bool, earlier: (T, T) -> bool)
    requires TotalPreorder(le) && forall i, j | 0 <= i < j < |s| :: earlier(s[i], s[j])
    ensures SortedStably(SortBy(s, le), le, earlier)
  {
    if s != [] {
      var rest := s[1..];
      forall i, j | 0 <= i < j < |rest| ensures earlier(rest[i], rest[j]) {
        assert rest[i] == s[i + 1] && rest[j] == s[j + 1];
      }
      SortByStable(rest, le, earlier);
      SortByMembers(rest, le);
      forall y | y in SortBy(rest, le) ensures earlier(s[0], y) {
        var k :| 0 <= k < |rest| && rest[k] == y;
        assert s[k + 1] == y;
      }
      InsertStable(s[0], SortBy(rest, le), le, earlier);
    }
  }

  lemma {:induction false} InsertStable<T(!new)>(x: T, s: seq<T>, le: (T, T) -> bool, earlier: (T, T) -> bool)
    requires TotalPreorder(le) && SortedStably(s, le, earlier) && forall y | y in s :: earlier(x, y)
    ensures SortedStably(Insert(x, s, le), le, earlier)
  {
    if s == [] {
    } else if le(x, s[0]) {
      forall j | 0 <= j < |s| ensures le(x, s[j]) && earlier(x, s[j]) {
        assert le(s[0], s[j]) || j == 0;
      }
    } else {
      var rest := s[1..];
      assert forall j | 0 <= j < |rest| :: rest[j] == s[j + 1];
      InsertStable(x, rest, le, earlier);
      InsertMembers(x, rest, le);
      var tail := Insert(x, rest, le);
      forall j | 0 <= j < |tail| ensures le(s[0], tail[j]) && (le(tail[j], s[0]) ==> earlier(s[0], tail[j])) {
        assert tail[j] in tail;
        if tail[j] != x {
          var k :| 0 <= k < |rest| && rest[k] == tail[j];
          assert s[k + 1] == tail[j];
        }
      }
      StableCons(s[0], tail, le, earlier);
    }
  }

  lemma StableCons<T(!new)>(x: T, tail: seq<T>, le: (T, T) -> bool, earlier: (T, T) -> bool)
    requires SortedStably(tail, le, earlier)
    requires forall j | 0 <= j < |tail| :: le(x, tail[j]) && (le(tail[j], x) ==> earlier(x, tail[j]))
    ensures SortedStably([x] + tail, le, earlier)
  {
    var all := [x] + tail;
    forall i, j | 0 <= i < j < |all| ensures le(all[i], all[j]) && (le(all[j], all[i]) ==> earlier(all[i], all[j])) {
      assert all[j] == tail[j - 1];
      if i > 0 { assert all[i] == tail[i - 1]; }
    }
  }

  lemma SortByMembers<T>(s: seq<T>, le: (T, T) -> bool)
    ensures forall y :: y in SortBy(s, le) <==> y in s
  {
    forall y ensures y in SortBy(s, le) <==> y in s {
      assert y in SortBy(s, le) <==> y in multiset(SortBy(s, le));
      assert y in s <==> y in multiset(s);
    }
  }

  /** A sequence has no repeats exactly when every multiplicity is at most one. */
  lemma {:induction false} NoDupMultiset<T>(s: seq<T>)
    ensures NoDup(s) <==> forall x :: multiset(s)[x] <= 1
  {
    if s != [] {
      var init, last := s[..|s| - 1], s[|s| - 1];
      NoDupMultiset(init);
      assert s == init + [last];
      assert multiset(s) == multiset(init) + multiset{last};
      if NoDup(s) {
        assert last !in init;
      } else {
        var i, j :| 0 <= i < j < |s| && s[i] == s[j];
        if j == |s| - 1 {
          assert init[i] == last;
          assert last in multiset(init);
          assert multiset(s)[last] >= 2;
        } else {
          assert init[i] == init[j];
          var x :| multiset(init)[x] > 1;
          assert multiset(s)[x] > 1;
        }
      }
    }
  }

  lemma SortByNoDup<T>(s: seq<T>, le: (T, T) -> bool)
    requires NoDup(s)
    ensures NoDup(SortBy(s, le))
  {
    NoDupMultiset(s);
    NoDupMultiset(SortBy(s, le));
  }

  /** Python compares strings code point by code point. */
  predicate StringLe(a: string, b: string) {
    a == "" || (b != "" && (a[0] < b[0] || (a[0] == b[0] && StringLe(a[1..], b[1..]))))
  }

  lemma {:induction false} StringLeTotal(a: string, b: string)
    ensures StringLe(a, b) || StringLe(b, a)
    ensures StringLe(a, b) && StringLe(b, a) ==> a == b
  {
    if a != "" && b != "" && a[0] == b[0] {
      StringLeTotal(a[1..], b[1..]);
      assert a == [a[0]] + a[1..] && b == [b[0]] + b[1..];
    }
  }

  lemma {:induction false} StringLeTransitive(a: string, b: string, c: string)
    requires StringLe(a, b) && StringLe(b, c)
    ensures StringLe(a, c)
  {
    if a != "" && a[0] == b[0] == c[0] {
      StringLeTransitive(a[1..], b[1..], c[1..]);
    }
  }
}
