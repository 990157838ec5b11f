/**
 Vocabulary shared by every other module: optional values, list filters, the
 lexicographic order Python uses on strings and tuples, and a stable sort.
 */
module Basics {

  datatype Option<+T> = None | Some(value: T)

  /** The distinct elements of a list, Python's `set(xs)`. */
  function SetOf<T(==)>(s: seq<T>): set<T> {
    set x | x in s
  }

  ghost predicate Distinct<T>(s: seq<T>) {
    forall i, j :: 0 <= i < j < |s| ==> s[i] != s[j]
  }

  /** Filters and maps are built from the right end, the way a loop appends. */
  function Filter<T>(s: seq<T>, keep: T -> bool): seq<T> {
    if s == [] then []
    else
      var front := Filter(s[..|s| - 1], keep);
      if keep(s[|s| - 1]) then front + [s[|s| - 1]] else front
  }

  lemma {:induction false} FilterMembers<T>(s: seq<T>, keep: T -> bool)
    ensures forall x :: x in Filter(s, keep) <==> x in s && keep(x)
    ensures |Filter(s, keep)| <= |s|
  {
    if s != [] {
      FilterMembers(s[..|s| - 1], keep);
      assert s == s[..|s| - 1] + [s[|s| - 1]];
    }
  }

  lemma {:induction false} FilterAll<T>(s: seq<T>, keep: T -> bool)
    requires forall x :: x in s ==> keep(x)
    ensures Filter(s, keep) == s
  {
    if s != [] {
      var front, last := s[..|s| - 1], s[|s| - 1];
      assert s == front + [last];
      FilterAll(front, keep);
    }
  }

  lemma {:induction false} FilterDistinct<T>(s: seq<T>, keep: T -> bool)
    requires Distinct(s)
    ensures Distinct(Filter(s, keep))
  {
    if s != [] {
      var front, last := s[..|s| - 1], s[|s| - 1];
      assert s == front + [last];
      FilterDistinct(front, keep);
      FilterMembers(front, keep);
      assert last !in front;
    }
  }

  lemma {:induction false} SetOfSize<T>(s: seq<T>)
    ensures |SetOf(s)| <= |s|
    ensures |SetOf(s)| == |s| <==> Distinct(s)
  {
    if s != [] {
      var front, last := s[..|s| - 1], s[|s| - 1];
      assert s == front + [last];
      SetOfSize(front);
      if last in front {
        assert SetOf(s) == SetOf(front);
        var i :| 0 <= i < |front| && front[i] == last;
        assert s[i] == s[|s| - 1];
      } else {
        assert SetOf(s) == SetOf(front) + {last};
        if Distinct(front) {
          assert Distinct(s);
        } else {
          var i, j :| 0 <= i < j < |front| && front[i] == front[j];
          assert s[i] == s[j];
        }
      }
    }
  }

  /** The elements that occur more than once, as a `Counter` finds them. */
  function Repeated<T(==)>(s: seq<T>): set<T> {
    set x | x in s && multiset(s)[x] > 1
  }

  lemma {:induction false} RepeatedNone<T>(s: seq<T>)
    ensures Repeated(s) == {} <==> Distinct(s)
  {
    if s != [] {
      var front, last := s[..|s| - 1], s[|s| - 1];
      assert s == front + [last];
      RepeatedNone(front);
      assert multiset(s) == multiset(front) + multiset{last};
      if Distinct(s) {
        assert last !in front;
        assert forall x :: x in Repeated(s) ==> x in Repeated(front);
      } else if last in front {
        assert last in Repeated(s);
      } else {
        assert !Distinct(front);
        var x :| x in Repeated(front);
        assert x in Repeated(s);
      }
    }
  }

  /** `Counter(s)`. */
  ghost predicate Counts<T(!new)>(counter: map<T, nat>, s: seq<T>) {
    && (forall k :: k in counter <==> k in s)
    && (forall k :: k in counter ==> counter[k] == multiset(s)[k])
  }

  lemma CountsNext<T(!new)>(counter: map<T, nat>, s: seq<T>, x: T)
    requires Counts(counter, s)
    ensures Counts(counter[x := (if x in counter then counter[x] else 0) + 1], s + [x])
  {
    assert x !in s ==> multiset(s)[x] == 0;
  }

  lemma CountsRepeated<T(!new)>(counter: map<T, nat>, s: seq<T>)
    requires Counts(counter, s)
    ensures (set k | k in counter && counter[k] > 1) == Repeated(s)
  {
  }

  function MapAll<T, U>(f: T -> U, s: seq<T>): seq<U> {
    if s == [] then [] else MapAll(f, s[..|s| - 1]) + [f(s[|s| - 1])]
  }

  lemma {:induction false} MapAt<T, U>(f: T -> U, s: seq<T>)
    ensures |MapAll(f, s)| == |s| && forall i :: 0 <= i < |s| ==> MapAll(f, s)[i] == f(s[i])
  {
    if s != [] {
      MapAt(f, s[..|s| - 1]);
    }
  }

  lemma MapSnoc<T, U>(f: T -> U, s: seq<T>, x: T)
    ensures MapAll(f, s + [x]) == MapAll(f, s) + [f(x)]
  {
    assert (s + [x])[..|s|] == s;
  }

  /** The images of a list form the same multiset in whatever order the list is. */
  lemma {:induction false} InsertMapped<T, U>(le: (T, T) -> bool, f: T -> U, x: T, s: seq<T>)
    ensures multiset(MapAll(f, Insert(le, x, s))) == multiset(MapAll(f, s)) + multiset{f(x)}
  {
    if s == [] || le(x, s[0]) {
      MapCons(f, x, s);
    } else {
      InsertMapped(le, f, x, s[1..]);
      MapConsBoth(f, s[0], Insert(le, x, s[1..]), s[1..], x);
      HeadAndTail(s);
    }
  }

  lemma HeadAndTail<T>(s: seq<T>)
    requires s != []
    ensures [s[0]] + s[1..] == s
  {
  }

  lemma FrontAndLast<T>(s: seq<T>)
    requires s != []
    ensures s[..|s| - 1] + [s[|s| - 1]] == s
  {
  }

  lemma MapConsBoth<T, U>(f: T -> U, first: T, a: seq<T>, b: seq<T>, x: T)
    requires multiset(MapAll(f, a)) == multiset(MapAll(f, b)) + multiset{f(x)}
    ensures multiset(MapAll(f, [first] + a)) == multiset(MapAll(f, [first] + b)) + multiset{f(x)}
  {
    MapCons(f, first, a);
    MapCons(f, first, b);
  }

  lemma {:induction false} MapCons<T, U>(f: T -> U, x: T, s: seq<T>)
    ensures multiset(MapAll(f, [x] + s)) == multiset(MapAll(f, s)) + multiset{f(x)}
  {
    if s == [] {
      assert [x] + s == [] + [x];
      MapSnoc(f, [], x);
    } else {
      var front, last := s[..|s| - 1], s[|s| - 1];
      assert [x] + s == ([x] + front) + [last] && s == front + [last];
      MapSnoc(f, [x] + front, last);
      MapSnoc(f, front, last);
      MapCons(f, x, front);
    }
  }

  lemma {:induction false} SortMapped<T, U>(le: (T, T) -> bool, f: T -> U, s: seq<T>)
    ensures multiset(MapAll(f, Sort(le, s))) == multiset(MapAll(f, s))
  {
    if s != [] {
      SortMapped(le, f, s[1..]);
      InsertMapped(le, f, s[0], Sort(le, s[1..]));
      MapCons(f, s[0], s[1..]);
      assert s == [s[0]] + s[1..];
    }
  }

  lemma TimesNext(a: nat, b: nat)
    ensures a * b + a == a * (b + 1)
    ensures b * a + a == (b + 1) * a
  {
  }

  /** One turn of a loop that appends the elements of `s` to `front`. */
  lemma TakeSnoc<T>(front: seq<T>, s: seq<T>, i: nat)
    requires i < |s|
    ensures front + s[..i] + [s[i]] == front + s[..i + 1]
  {
  }

  lemma DistinctTail<T>(s: seq<T>)
    requires Distinct(s) && s != []
    ensures s[0] !in s[1..] && Distinct(s[1..])
    ensures SetOf(s) == {s[0]} + SetOf(s[1..])
  {
    assert s == [s[0]] + s[1..];
    assert forall k :: 0 <= k < |s[1..]| ==> s[1..][k] == s[k + 1];
  }

  lemma DistinctCons<T>(x: T, s: seq<T>)
    requires Distinct(s) && x !in s
    ensures Distinct([x] + s)
  {
  }

  lemma DistinctConcat<T>(a: seq<T>, b: seq<T>)
    requires Distinct(a) && Distinct(b)
    requires forall x :: x in a ==> x !in b
    ensures Distinct(a + b)
  {
    var c := a + b;
    forall i, j | 0 <= i < j < |c| ensures c[i] != c[j] {
      if i < |a| <= j {
        assert c[i] in a && c[j] == b[j - |a|];
      }
    }
  }

  lemma SetOfEmpty<T>(s: seq<T>)
    ensures SetOf(s) == {} <==> s == []
  {
    if s == [] {
      assert SetOf(s) == {};
    } else {
      assert s[0] in SetOf(s);
    }
  }

  lemma SubsetSize<T>(a: set<T>, b: set<T>)
    requires a <= b
    ensures |a| <= |b|
    ensures |a| == |b| ==> a == b
  {
    assert b == a + (b - a);
    if |a| == |b| {
      assert |b - a| == 0;
    }
  }

  // ---------------------------------------------------------------------
  // Quotients of reals

  lemma TimesQuotient(x: real, n: real)
    requires n != 0.0
    ensures n * (x / n) == x
  {
  }

  lemma DivideBounds(sum: real, n: real, low: real, high: real)
    requires n > 0.0 && n * low <= sum <= n * high
    ensures low <= sum / n <= high
  {
    var q := sum / n;
    assert q * n == sum;
    if q < low {
      Monotone(q, low, n);
    }
    if q > high {
      Monotone(high, q, n);
    }
  }

  lemma Monotone(a: real, b: real, n: real)
    requires a < b && n > 0.0
    ensures a * n < b * n
  {
    assert (b - a) * n > 0.0;
    assert (b - a) * n == b * n - a * n;
  }

  // ---------------------------------------------------------------------
  // Lexicographic order

  /** A strict total order: irreflexive, transitive, any two values comparable. */
  ghost predicate StrictTotal<T(!new)>(lt: (T, T) -> bool) {
    && (forall a :: !lt(a, a))
    && (forall a, b, c :: lt(a, b) && lt(b, c) ==> lt(a, c))
    && (forall a, b :: lt(a, b) || a == b || lt(b, a))
  }

  predicate Lex<T(==)>(lt: (T, T) -> bool, a: seq<T>, b: seq<T>) {
    b != [] && (a == [] || lt(a[0], b[0]) || (a[0] == b[0] && Lex(lt, a[1..], b[1..])))
  }

  lemma {:induction false} LexIrreflexive<T(!new)>(lt: (T, T) -> bool, a: seq<T>)
    requires StrictTotal(lt)
    ensures !Lex(lt, a, a)
  {
    if a != [] {
      LexIrreflexive(lt, a[1..]);
    }
  }

  lemma {:induction false} LexTransitive<T(!new)>(lt: (T, T) -> bool, a: seq<T>, b: seq<T>, c: seq<T>)
    requires StrictTotal(lt)
    requires Lex(lt, a, b) && Lex(lt, b, c)
    ensures Lex(lt, a, c)
  {
    if a != [] && a[0] == b[0] && b[0] == c[0] && Lex(lt, a[1..], b[1..]) && Lex(lt, b[1..], c[1..]) {
      LexTransitive(lt, a[1..], b[1..], c[1..]);
    }
  }

  lemma {:induction false} LexTrichotomy<T(!new)>(lt: (T, T) -> bool, a: seq<T>, b: seq<T>)
    requires StrictTotal(lt)
    ensures Lex(lt, a, b) || a == b || Lex(lt, b, a)
  {
    if a != [] && b != [] && a[0] == b[0] {
      LexTrichotomy(lt, a[1..], b[1..]);
      assert a == [a[0]] + a[1..] && b == [b[0]] + b[1..];
    }
  }

  predicate CharLt(a: char, b: char) {
    a < b
  }

  /** Python's `<` on strings. */
  predicate StringLt(a: string, b: string) {
    Lex(CharLt, a, b)
  }

  predicate StringLe(a: string, b: string) {
    !StringLt(b, a)
  }

  /** Python's `<` on tuples of strings. */
  predicate TupleLt(a: seq<string>, b: seq<string>) {
    Lex(StringLt, a, b)
  }

  // ---------------------------------------------------------------------
  // `sorted(set(xs))`

  function InsertNew(x: string, s: seq<string>): seq<string> {
    if s == [] || StringLt(x, s[0]) then [x] + s
    else if x == s[0] then s
    else [s[0]] + InsertNew(x, s[1..])
  }

  function SortedSet(xs: seq<string>): seq<string> {
    if xs == [] then [] else InsertNew(xs[0], SortedSet(xs[1..]))
  }

  ghost predicate Increasing(s: seq<string>) {
    forall i, j :: 0 <= i < j < |s| ==> StringLt(s[i], s[j])
  }

  lemma {:induction false} InsertNewMembers(x: string, s: seq<string>)
    ensures forall y :: y in InsertNew(x, s) <==> y == x || y in s
  {
    if s != [] && !StringLt(x, s[0]) && x != s[0] {
      InsertNewMembers(x, s[1..]);
      assert s == [s[0]] + s[1..];
    }
  }

  lemma {:induction false} InsertNewIncreasing(x: string, s: seq<string>)
    requires Increasing(s)
    ensures Increasing(InsertNew(x, s))
  {
    StringOrder();
    if s != [] && !StringLt(x, s[0]) && x != s[0] {
      InsertNewIncreasing(x, s[1..]);
      InsertNewMembers(x, s[1..]);
      var rest := InsertNew(x, s[1..]);
      forall j | 0 <= j < |rest| ensures StringLt(s[0], rest[j]) {
        assert rest[j] in rest;
      }
    } else if s != [] && StringLt(x, s[0]) {
      assert forall j :: 0 < j < |s| ==> StringLt(s[0], s[j]);
    }
  }

  lemma {:induction false} SortedSetMembers(xs: seq<string>)
    ensures forall y :: y in SortedSet(xs) <==> y in xs
    ensures Increasing(SortedSet(xs))
  {
    if xs != [] {
      SortedSetMembers(xs[1..]);
      InsertNewMembers(xs[0], SortedSet(xs[1..]));
      InsertNewIncreasing(xs[0], SortedSet(xs[1..]));
      assert xs == [xs[0]] + xs[1..];
    }
  }

  /** Strictly increasing, hence without repetition, and with the same elements. */
  lemma SortedSetFacts(xs: seq<string>)
    ensures Increasing(SortedSet(xs)) && Distinct(SortedSet(xs))
    ensures SetOf(SortedSet(xs)) == SetOf(xs)
  {
    StringOrder();
    SortedSetMembers(xs);
  }

  lemma StringOrder()
    ensures StrictTotal(StringLt)
  {
    forall a: string ensures !StringLt(a, a) { LexIrreflexive(CharLt, a); }
    forall a: string, b: string, c: string | StringLt(a, b) && StringLt(b, c) ensures StringLt(a, c) {
      LexTransitive(CharLt, a, b, c);
    }
    forall a: string, b: string ensures StringLt(a, b) || a == b || StringLt(b, a) { LexTrichotomy(CharLt, a, b); }
  }

  lemma TupleOrder()
    ensures StrictTotal(TupleLt)
  {
    StringOrder();
    forall a: seq<string> ensures !TupleLt(a, a) { LexIrreflexive(StringLt, a); }
    forall a: seq<string>, b: seq<string>, c: seq<string> | TupleLt(a, b) && TupleLt(b, c) ensures TupleLt(a, c) {
      LexTransitive(StringLt, a, b, c);
    }
    forall a: seq<string>, b: seq<string> ensures TupleLt(a, b) || a == b || TupleLt(b, a) {
      LexTrichotomy(StringLt, a, b);
    }
  }

  // ---------------------------------------------------------------------
  // Stable sorting

  /** A total preorder on keys, what `sorted(xs, key=...)` compares by. */
  ghost predicate Preorder<T(!new)>(le: (T, T) -> bool) {
    && (forall a, b :: le(a, b) || le(b, a))
    && (forall a, b, c :: le(a, b) && le(b, c) ==> le(a, c))
  }

  ghost predicate SortedBy<T>(le: (T, T) -> bool, s: seq<T>) {
    forall i, j :: 0 <= i < j < |s| ==> le(s[i], s[j])
  }

  function Insert<T>(le: (T, T) -> bool, x: T, s: seq<T>): seq<T> {
    if s == [] || le(x, s[0]) then [x] + s else [s[0]] + Insert(le, x, s[1..])
  }

  /** Python's `sorted`: a stable sort. */
  function Sort<T>(le: (T, T) -> bool, s: seq<T>): seq<T> {
    if s == [] then [] else Insert(le, s[0], Sort(le, s[1..]))
  }

  lemma {:induction false} InsertMembers<T>(le: (T, T) -> bool, x: T, s: seq<T>)
    ensures multiset(Insert(le, x, s)) == multiset(s) + multiset{x}
    ensures |Insert(le, x, s)| == |s| + 1
  {
    if s != [] && !le(x, s[0]) {
      InsertMembers(le, x, s[1..]);
      assert s == [s[0]] + s[1..];
    }
  }

  lemma {:induction false} InsertSorted<T(!new)>(le: (T, T) -> bool, x: T, s: seq<T>)
    requires Preorder(le) && SortedBy(le, s)
    ensures SortedBy(le, Insert(le, x, s))
  {
    if s != [] {
      if le(x, s[0]) {
        forall j | 0 < j < |s| + 1 ensures le(x, ([x] + s)[j]) {
          assert le(s[0], s[j - 1]) || j == 1;
        }
      } else {
        InsertSorted(le, x, s[1..]);
        InsertMembers(le, x, s[1..]);
        var rest := Insert(le, x, s[1..]);
        forall j | 0 <= j < |rest| ensures le(s[0], rest[j]) {
          assert rest[j] in multiset(rest);
          assert rest[j] == x || rest[j] in s[1..];
        }
      }
    }
  }

  lemma {:induction false} SortProperties<T(!new)>(le: (T, T) -> bool, s: seq<T>)
    requires Preorder(le)
    ensures SortedBy(le, Sort(le, s))
    ensures multiset(Sort(le, s)) == multiset(s)
    ensures |Sort(le, s)| == |s|
  {
    if s != [] {
      SortProperties(le, s[1..]);
      InsertSorted(le, s[0], Sort(le, s[1..]));
      InsertMembers(le, s[0], Sort(le, s[1..]));
      assert s == [s[0]] + s[1..];
    }
  }

  /** Sorting neither loses, adds nor repeats an element. */
  lemma SortMembers<T(!new)>(le: (T, T) -> bool, s: seq<T>)
    requires Preorder(le)
    ensures forall x :: x in Sort(le, s) <==> x in s
    ensures Distinct(Sort(le, s)) <==> Distinct(s)
  {
    SortProperties(le, s);
    var t := Sort(le, s);
    assert forall x :: x in t <==> x in multiset(t);
    assert forall x :: x in s <==> x in multiset(s);
    assert SetOf(s) == SetOf(t);
    SetOfSize(s);
    SetOfSize(t);
  }
}
