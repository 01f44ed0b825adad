/** Go's string order, and the contract of sort.Strings and sort.SliceStable as a stable insertion sort. */
module Sorting {
  /** a <= b in byte order, which for UTF-8 is the order of code points. */
  predicate AtMost(a: string, b: string) {
    a == "" || (b != "" && (a[0] < b[0] || (a[0] == b[0] && AtMost(a[1..], b[1..]))))
  }

  /** The order of a dictionary: a comes first when it is the beginning of b, or smaller where they first differ. */
  lemma {:induction false} AtMostWhen(a: string, b: string)
    ensures AtMost(a, b) <==>
              || a <= b
              || exists i :: 0 <= i < |a| && i < |b| && a[..i] == b[..i] && a[i] < b[i]
  {
    if a != "" && b != "" {
      var x, y := a[1..], b[1..];
      AtMostWhen(x, y);
      assert a == [a[0]] + x && b == [b[0]] + y;
      if a[0] < b[0] {
        assert a[..0] == b[..0];
      } else if i :| a[0] == b[0] && 0 <= i < |x| && i < |y| && x[..i] == y[..i] && x[i] < y[i] {
        DiffersLater(a[0], x, y, i);
      }
      if i :| 0 <= i < |a| && i < |b| && a[..i] == b[..i] && a[i] < b[i] && i > 0 {
        DiffersOneOn(a, b, i);
      }
    }
  }

  lemma DiffersLater(c: char, x: string, y: string, i: nat)
    requires i < |x| && i < |y| && x[..i] == y[..i] && x[i] < y[i]
    ensures var a, b := [c] + x, [c] + y; a[..i + 1] == b[..i + 1] && a[i + 1] < b[i + 1]
  {
    assert ([c] + x)[..i + 1] == [c] + x[..i];
    assert ([c] + y)[..i + 1] == [c] + y[..i];
  }

  lemma DiffersOneOn(a: string, b: string, i: nat)
    requires 0 < i < |a| && i < |b| && a[..i] == b[..i] && a[i] < b[i]
    ensures a[0] == b[0]
    ensures var x, y, j: nat := a[1..], b[1..], i - 1; x[..j] == y[..j] && x[j] < y[j]
  {
    assert a[0] == a[..i][0] && b[0] == b[..i][0];
    assert a[1..][..i - 1] == a[..i][1..];
    assert b[1..][..i - 1] == b[..i][1..];
  }

  lemma {:induction false} AtMostTotal(a: string, b: string)
    ensures AtMost(a, b) || AtMost(b, a)
    ensures AtMost(a, b) && AtMost(b, a) ==> a == b
  {
    if a != "" && b != "" && a[0] == b[0] {
      AtMostTotal(a[1..], b[1..]);
      assert a == [a[0]] + a[1..] && b == [b[0]] + b[1..];
    }
  }

  lemma {:induction false} AtMostTransitive(a: string, b: string, c: string)
    requires AtMost(a, b) && AtMost(b, c)
    ensures AtMost(a, c)
  {
    if a != "" && a[0] == b[0] == c[0] {
      AtMostTransitive(a[1..], b[1..], c[1..]);
    }
  }

  lemma StringOrder()
    ensures TotalPreorder(AtMost)
  {
    forall a, b ensures AtMost(a, b) || AtMost(b, a) { AtMostTotal(a, b); }
    forall a, b, c | AtMost(a, b) && AtMost(b, c) ensures AtMost(a, c) { AtMostTransitive(a, b, c); }
  }

  ghost predicate TotalPreorder<T(!new)>(le: (T, T) -> bool) {
    && (forall a, b :: le(a, b) || le(b, a))
    && (forall a, b, c :: le(a, b) && le(b, c) ==> le(a, c))
  }

  ghost predicate Sorted<T>(le: (T, T) -> bool, s: seq<T>) {
    forall i, j | 0 <= i < j < |s| :: le(s[i], s[j])
  }

  function Insert<T>(le: (T, T) -> bool, x: T, s: seq<T>): seq<T> {
    if s == [] || le(x, s[0]) then [x] + s else [s[0]] + Insert(le, x, s[1..])
  }

  /** x goes in front of its equals: elements that compare equal keep their order. */
  function Sort<T>(le: (T, T) -> bool, s: seq<T>): seq<T> {
    if s == [] then [] else Insert(le, s[0], Sort(le, s[1..]))
  }

  lemma {:induction false} InsertPermutes<T>(le: (T, T) -> bool, x: T, s: seq<T>)
    ensures multiset(Insert(le, x, s)) == multiset(s) + multiset{x}
  {
    if s != [] && !le(x, s[0]) {
      InsertPermutes(le, x, s[1..]);
      assert s == [s[0]] + s[1..];
    }
  }

  lemma {:induction false} SortPermutes<T>(le: (T, T) -> bool, s: seq<T>)
    ensures multiset(Sort(le, s)) == multiset(s) && |Sort(le, s)| == |s|
  {
    if s != [] {
      SortPermutes(le, s[1..]);
      InsertPermutes(le, s[0], Sort(le, s[1..]));
      assert s == [s[0]] + s[1..];
    }
    assert |multiset(Sort(le, s))| == |Sort(le, s)|;
  }

  lemma MemberOfPermutation<T>(a: seq<T>, b: seq<T>, x: T)
    requires multiset(a) == multiset(b)
    ensures x in a <==> x in b
  {
    assert x in a <==> x in multiset(a);
    assert x in b <==> x in multiset(b);
  }

  lemma {:induction false} InsertSorted<T(!new)>(le: (T, T) -> bool, x: T, s: seq<T>)
    requires TotalPreorder(le) && Sorted(le, s)
    ensures Sorted(le, Insert(le, x, s))
  {
    if s != [] && !le(x, s[0]) {
      InsertSorted(le, x, s[1..]);
      var rest := Insert(le, x, s[1..]);
      forall j | 0 <= j < |rest| ensures le(s[0], rest[j]) {
        InsertPermutes(le, x, s[1..]);
        assert rest[j] in multiset(rest);
        assert rest[j] == x || rest[j] in s[1..];
      }
    }
  }

  lemma {:induction false} SortSorts<T(!new)>(le: (T, T) -> bool, s: seq<T>)
    requires TotalPreorder(le)
    ensures Sorted(le, Sort(le, s))
  {
    if s != [] {
      SortSorts(le, s[1..]);
      InsertSorted(le, s[0], Sort(le, s[1..]));
    }
  }

  ghost predicate Distinct<T>(s: seq<T>) {
    forall i, j | 0 <= i < j < |s| :: s[i] != s[j]
  }

  lemma {:induction false} DistinctCounts<T>(s: seq<T>, x: T)
    requires Distinct(s)
    ensures multiset(s)[x] <= 1
  {
    if s != [] {
      DistinctCounts(s[1..], x);
      assert s == [s[0]] + s[1..];
      assert s[0] == x ==> x !in s[1..];
    }
  }

  lemma DistinctPermutation<T>(a: seq<T>, b: seq<T>)
    requires multiset(a) == multiset(b) && Distinct(a)
    ensures Distinct(b)
  {
    if i, j :| 0 <= i < j < |b| && b[i] == b[j] {
      assert b == b[..j] + [b[j]] + b[j + 1..];
      assert b[i] in b[..j];
      assert multiset(b)[b[j]] >= multiset(b[..j])[b[j]] + 1 >= 2;
      DistinctCounts(a, b[j]);
    }
  }

  ghost predicate NoTies<T(!new)>(le: (T, T) -> bool, s: seq<T>) {
    && (forall x, y | x in s && y in s && le(x, y) && le(y, x) :: x == y)
    && (forall x | x in s :: le(x, x))
  }

  lemma SameHead<T(!new)>(le: (T, T) -> bool, a: seq<T>, b: seq<T>)
    requires a != [] && b != [] && multiset(a) == multiset(b) && Sorted(le, a) && Sorted(le, b) && NoTies(le, a)
    ensures a[0] == b[0]
  {
    MemberOfPermutation(a, b, a[0]);
    MemberOfPermutation(a, b, b[0]);
  }

  lemma TailIs<T(!new)>(le: (T, T) -> bool, s: seq<T>)
    requires s != [] && Sorted(le, s)
    ensures s == [s[0]] + s[1..] && Sorted(le, s[1..]) && multiset(s[1..]) == multiset(s) - multiset{s[0]}
    ensures NoTies(le, s) ==> NoTies(le, s[1..])
  {
    assert s == [s[0]] + s[1..];
    assert forall x | x in s[1..] :: x in s;
  }

  lemma SameLength<T>(a: seq<T>, b: seq<T>)
    requires multiset(a) == multiset(b)
    ensures |a| == |b|
  {
    assert |a| == |multiset(a)| == |multiset(b)| == |b|;
  }

  /** Two sorted arrangements of the same elements, none of which tie, are the same sequence. */
  lemma {:induction false} SortedUnique<T(!new)>(le: (T, T) -> bool, a: seq<T>, b: seq<T>)
    requires multiset(a) == multiset(b) && Sorted(le, a) && Sorted(le, b) && NoTies(le, a)
    ensures a == b
  {
    hide NoTies;
    hide Sorted;
    SameLength(a, b);
    if a != [] {
      SameHead(le, a, b);
      TailIs(le, a);
      TailIs(le, b);
      SortedUnique(le, a[1..], b[1..]);
    }
  }

  /** These positions, each once and in order. */
  ghost predicate InOrder(ps: seq<nat>, chosen: set<nat>) {
    && (forall i, j | 0 <= i < j < |ps| :: ps[i] < ps[j])
    && (forall p :: p in ps <==> p in chosen)
  }

  lemma InOrderMore(ps: seq<nat>, chosen: set<nat>, n: nat)
    requires InOrder(ps, chosen) && forall p | p in chosen :: p < n
    ensures InOrder(ps + [n], chosen + {n})
  {
    forall i | 0 <= i < |ps| ensures ps[i] < n {
      assert ps[i] in ps;
    }
  }

  lemma {:induction false} InOrderCounts(ps: seq<nat>, chosen: set<nat>)
    requires InOrder(ps, chosen)
    ensures |ps| == |chosen|
  {
    if ps == [] {
      assert chosen == {};
    } else {
      var front, p := ps[..|ps| - 1], ps[|ps| - 1];
      assert ps == front + [p];
      assert p in ps && p !in front;
      InOrderCounts(front, chosen - {p});
    }
  }

  function Filter<T>(p: T -> bool, s: seq<T>): seq<T> {
    if s == [] then [] else (if p(s[0]) then [s[0]] else []) + Filter(p, s[1..])
  }

  ghost function Where<T>(p: T -> bool, s: seq<T>): (at: set<nat>)
    ensures forall i: nat :: i in at <==> i < |s| && p(s[i])
  {
    set i: nat | i < |s| && p(s[i])
  }

  lemma WhereOneMore<T>(p: T -> bool, s: seq<T>, x: T)
    ensures Where(p, s + [x]) == Where(p, s) + if p(x) then {|s|} else {}
  {
    var more := s + [x];
    forall i: nat | i < |s| ensures more[i] == s[i] {
    }
  }

  lemma {:induction false} FilterOneMore<T>(p: T -> bool, s: seq<T>, x: T)
    ensures Filter(p, s + [x]) == Filter(p, s) + if p(x) then [x] else []
  {
    if s == [] {
      assert s + [x] == [x];
      FilterFirst(p, x, []);
      assert [x] + [] == [x];
    } else {
      var rest := s[1..];
      assert s == [s[0]] + rest;
      FilterOneMore(p, rest, x);
      FilterFirst(p, s[0], rest);
      FilterFirst(p, s[0], rest + [x]);
      assert [s[0]] + (rest + [x]) == s + [x];
      hide Filter;
    }
  }

  /** Filter keeps the elements that satisfy p, in their order. */
  lemma {:induction false} FilterIs<T>(p: T -> bool, s: seq<T>) returns (ps: seq<nat>)
    ensures InOrder(ps, Where(p, s)) && |Filter(p, s)| == |ps|
    ensures forall k | 0 <= k < |ps| :: ps[k] < |s| && Filter(p, s)[k] == s[ps[k]]
  {
    ps := [];
    if s != [] {
      var front, x := s[..|s| - 1], s[|s| - 1];
      assert s == front + [x];
      ps := FilterIs(p, front);
      FilterOneMore(p, front, x);
      WhereOneMore(p, front, x);
      if p(x) {
        InOrderMore(ps, Where(p, front), |front|);
        ps := ps + [|front|];
      }
    }
  }

  lemma {:induction false} FilterTwice<T(!new)>(p: T -> bool, q: T -> bool, both: T -> bool, s: seq<T>)
    requires forall x :: both(x) <==> p(x) && q(x)
    ensures Filter(p, Filter(q, s)) == Filter(both, s)
  {
    if s != [] {
      FilterTwice(p, q, both, s[1..]);
      if q(s[0]) {
        FilterFirst(p, s[0], Filter(q, s[1..]));
      } else {
        assert [] + Filter(q, s[1..]) == Filter(q, s[1..]);
        assert [] + Filter(both, s[1..]) == Filter(both, s[1..]);
      }
    }
  }

  lemma FilterFirst<T>(p: T -> bool, x: T, s: seq<T>)
    ensures Filter(p, [x] + s) == (if p(x) then [x] else []) + Filter(p, s)
  {
  }

  lemma {:induction false} InsertIsStable<T(!new)>(le: (T, T) -> bool, p: T -> bool, x: T, s: seq<T>)
    requires forall a, b | p(a) && p(b) :: le(a, b)
    ensures Filter(p, Insert(le, x, s)) == (if p(x) then [x] else []) + Filter(p, s)
  {
    hide Filter;
    if s == [] || le(x, s[0]) {
      FilterFirst(p, x, s);
    } else {
      InsertIsStable(le, p, x, s[1..]);
      FilterFirst(p, s[0], Insert(le, x, s[1..]));
      FilterFirst(p, s[0], s[1..]);
      assert s == [s[0]] + s[1..];
      NotBoth(if p(s[0]) then [s[0]] else [], if p(x) then [x] else [], Filter(p, s[1..]));
    }
  }

  lemma NotBoth<T>(a: seq<T>, b: seq<T>, c: seq<T>)
    requires a == [] || b == []
    ensures a + (b + c) == b + (a + c)
  {
  }

  /** Elements that tie with each other come out in the order they went in. */
  lemma {:induction false} SortIsStable<T(!new)>(le: (T, T) -> bool, p: T -> bool, s: seq<T>)
    requires forall a, b | p(a) && p(b) :: le(a, b)
    ensures Filter(p, Sort(le, s)) == Filter(p, s)
  {
    if s != [] {
      SortIsStable(le, p, s[1..]);
      InsertIsStable(le, p, s[0], Sort(le, s[1..]));
    }
  }
}
