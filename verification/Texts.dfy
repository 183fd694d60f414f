/** Strings as the Python source compares, sorts and prints them: code-point
    order, stable sorting by a string key, sorted sets and decimal numerals. */
module Texts {

  datatype Option<+T> = None | Some(value: T)

  /** Python's `<=` on strings: code-point lexicographic order. */
  predicate AtMost(a: string, b: string)
    decreases |a|
  {
    a == "" || (b != "" && (a[0] < b[0] || (a[0] == b[0] && AtMost(a[1..], b[1..]))))
  }

  lemma {:induction false} AtMostRefl(a: string)
    ensures AtMost(a, a)
    decreases |a|
  {
    if a != "" {
      AtMostRefl(a[1..]);
    }
  }

  lemma {:induction false} AtMostTotal(a: string, b: string)
    ensures AtMost(a, b) || AtMost(b, a)
    decreases |a|
  {
    if a != "" && b != "" {
      AtMostTotal(a[1..], b[1..]);
    }
  }

  lemma {:induction false} AtMostAntisymmetric(a: string, b: string)
    requires AtMost(a, b) && AtMost(b, a)
    ensures a == b
    decreases |a|
  {
    if a != "" {
      AtMostAntisymmetric(a[1..], b[1..]);
      assert a == [a[0]] + a[1..] && b == [b[0]] + b[1..];
    }
  }

  lemma {:induction false} AtMostTransitive(a: string, b: string, c: string)
    requires AtMost(a, b) && AtMost(b, c)
    ensures AtMost(a, c)
    decreases |a|
  {
    if a != "" && a[0] == b[0] == c[0] {
      AtMostTransitive(a[1..], b[1..], c[1..]);
    }
  }

  // ---- Sorting by a string key ----

  ghost predicate SortedBy<T(!new)>(s: seq<T>, key: T -> string) {
    forall i, j :: 0 <= i < j < |s| ==> AtMost(key(s[i]), key(s[j]))
  }

  function InsertBy<T(!new)>(x: T, s: seq<T>, key: T -> string): (r: seq<T>)
    requires SortedBy(s, key)
    ensures SortedBy(r, key) && multiset(r) == multiset(s) + multiset{x}
  {
    if s == [] then [x]
    else if AtMost(key(x), key(s[0])) then
      InsertFrontIsSorted(x, s, key);
      [x] + s
    else
      assert s == [s[0]] + s[1..];
      var rest := InsertBy(x, s[1..], key);
      InsertRestIsSorted(x, s, rest, key);
      [s[0]] + rest
  }

  lemma {:induction false} InsertFrontIsSorted<T(!new)>(x: T, s: seq<T>, key: T -> string)
    requires SortedBy(s, key) && s != [] && AtMost(key(x), key(s[0]))
    ensures SortedBy([x] + s, key)
  {
    forall i | 0 <= i < |s| ensures AtMost(key(x), key(s[i])) {
      if i > 0 {
        AtMostTransitive(key(x), key(s[0]), key(s[i]));
      }
    }
  }

  lemma {:induction false} InsertRestIsSorted<T(!new)>(x: T, s: seq<T>, rest: seq<T>, key: T -> string)
    requires SortedBy(s, key) && s != [] && !AtMost(key(x), key(s[0]))
    requires SortedBy(rest, key) && multiset(rest) == multiset(s[1..]) + multiset{x}
    ensures SortedBy([s[0]] + rest, key)
  {
    forall i | 0 <= i < |rest| ensures AtMost(key(s[0]), key(rest[i])) {
      assert rest[i] in multiset(rest);
      AtMostTotal(key(x), key(s[0]));
      assert rest[i] == x || rest[i] in multiset(s[1..]);
      if rest[i] != x {
        var j :| 0 <= j < |s[1..]| && s[1..][j] == rest[i];
        assert s[j + 1] == rest[i];
      }
    }
  }

  /** Python's `sorted(s, key=key)`. */
  function SortBy<T(!new)>(s: seq<T>, key: T -> string): (r: seq<T>)
    ensures SortedBy(r, key) && multiset(r) == multiset(s) && |r| == |s|
  {
    if s == [] then []
    else
      assert s == [s[0]] + s[1..];
      InsertBy(s[0], SortBy(s[1..], key), key)
  }

  lemma {:induction false} SameMultisetSameMembers<T>(a: seq<T>, b: seq<T>, x: T)
    requires multiset(a) == multiset(b)
    ensures x in a <==> x in b
  {
    assert x in a <==> x in multiset(a);
    assert x in b <==> x in multiset(b);
  }

  lemma {:induction false} SortedHeadIsLeast<T(!new)>(a: seq<T>, x: T, key: T -> string)
    requires SortedBy(a, key) && x in a
    ensures AtMost(key(a[0]), key(x))
  {
    AtMostRefl(key(a[0]));
  }

  lemma {:induction false} MultisetOfTail<T>(a: seq<T>)
    requires a != []
    ensures multiset(a[1..]) == multiset(a) - multiset{a[0]}
  {
    assert a == [a[0]] + a[1..];
  }

  lemma {:induction false} SameLength<T>(a: seq<T>, b: seq<T>)
    requires multiset(a) == multiset(b)
    ensures |a| == |b|
  {
    assert |a| == |multiset(a)| == |multiset(b)| == |b|;
  }

  lemma {:induction false} SameTails<T>(a: seq<T>, b: seq<T>)
    requires multiset(a) == multiset(b) && a != [] && b != [] && a[0] == b[0]
    ensures multiset(a[1..]) == multiset(b[1..])
  {
    MultisetOfTail(a);
    MultisetOfTail(b);
  }

  lemma {:induction false} SortedTail<T(!new)>(a: seq<T>, key: T -> string)
    requires SortedBy(a, key) && a != []
    ensures SortedBy(a[1..], key) && forall x | x in a[1..] :: x in a
  {
    var rest := a[1..];
    forall i, j | 0 <= i < j < |rest| ensures AtMost(key(rest[i]), key(rest[j])) {
      assert rest[i] == a[i + 1] && rest[j] == a[j + 1];
    }
  }

  lemma {:induction false} SortedSameHead<T(!new)>(a: seq<T>, b: seq<T>, key: T -> string)
    requires SortedBy(a, key) && SortedBy(b, key) && multiset(a) == multiset(b) && a != [] && b != []
    requires forall x, y | x in a && y in a && key(x) == key(y) :: x == y
    ensures a[0] == b[0]
  {
    SameMultisetSameMembers(a, b, a[0]);
    SameMultisetSameMembers(a, b, b[0]);
    SortedHeadIsLeast(a, b[0], key);
    SortedHeadIsLeast(b, a[0], key);
    AtMostAntisymmetric(key(a[0]), key(b[0]));
  }

  /** A sorted sequence whose key tells its elements apart is determined by its multiset. */
  lemma {:induction false} SortedUnique<T(!new)>(a: seq<T>, b: seq<T>, key: T -> string)
    requires SortedBy(a, key) && SortedBy(b, key) && multiset(a) == multiset(b)
    requires forall x, y | x in a && y in a && key(x) == key(y) :: x == y
    ensures a == b
    decreases |a|
  {
    SameLength(a, b);
    if a != [] {
      SortedSameHead(a, b, key);
      SameTails(a, b);
      SortedTail(a, key);
      SortedTail(b, key);
      SortedUnique(a[1..], b[1..], key);
      assert a == [a[0]] + a[1..] && b == [b[0]] + b[1..];
    }
  }

  lemma {:induction false} SortOrigin<T(!new)>(s: seq<T>, key: T -> string, i: nat) returns (j: nat)
    requires i < |s|
    ensures j < |s| && s[j] == SortBy(s, key)[i]
  {
    var r := SortBy(s, key);
    SameMultisetSameMembers(s, r, r[i]);
    j :| 0 <= j < |s| && s[j] == r[i];
  }

  /** Sorting two sequences with the same keys moves their elements alike. */
  lemma {:induction false} InsertParallel<A(!new), B(!new)>(x: A, s: seq<A>, ka: A -> string, y: B, t: seq<B>, kb: B -> string, rel: (A, B) -> bool)
    requires |s| == |t| && SortedBy(s, ka) && SortedBy(t, kb) && ka(x) == kb(y) && rel(x, y)
    requires forall i | 0 <= i < |s| :: ka(s[i]) == kb(t[i]) && rel(s[i], t[i])
    ensures var u, v := InsertBy(x, s, ka), InsertBy(y, t, kb);
      |u| == |v| && forall i | 0 <= i < |u| :: ka(u[i]) == kb(v[i]) && rel(u[i], v[i])
  {
    if s != [] && !AtMost(ka(x), ka(s[0])) {
      InsertParallel(x, s[1..], ka, y, t[1..], kb, rel);
    }
  }

  lemma {:induction false} SortParallel<A(!new), B(!new)>(s: seq<A>, ka: A -> string, t: seq<B>, kb: B -> string, rel: (A, B) -> bool)
    requires |s| == |t| && forall i | 0 <= i < |s| :: ka(s[i]) == kb(t[i]) && rel(s[i], t[i])
    ensures var u, v := SortBy(s, ka), SortBy(t, kb);
      |u| == |v| && forall i | 0 <= i < |u| :: ka(u[i]) == kb(v[i]) && rel(u[i], v[i])
  {
    if s != [] {
      SortParallel(s[1..], ka, t[1..], kb, rel);
      InsertParallel(s[0], SortBy(s[1..], ka), ka, t[0], SortBy(t[1..], kb), kb, rel);
    }
  }

  ghost predicate KeysApart<T(!new)>(s: seq<T>, key: T -> string) {
    forall i, j :: 0 <= i < j < |s| ==> key(s[i]) != key(s[j])
  }

  lemma {:induction false} ApartOccursOnce<T(!new)>(s: seq<T>, key: T -> string, x: T)
    requires KeysApart(s, key)
    ensures multiset(s)[x] <= 1
  {
    if s != [] {
      ApartOccursOnce(s[1..], key, x);
      assert s == [s[0]] + s[1..];
      assert s[0] !in s[1..];
    }
  }

  lemma {:induction false} TwiceOccursTwice<T>(s: seq<T>, i: nat, j: nat)
    requires i < j < |s| && s[i] == s[j]
    ensures multiset(s)[s[i]] >= 2
  {
    assert s == s[..j] + s[j..];
    assert s[i] in s[..j] && s[j] in s[j..];
  }

  /** Rearranging a dictionary's entries keeps its keys distinct. */
  lemma {:induction false} PermutationKeepsKeysApart<T(!new)>(a: seq<T>, b: seq<T>, key: T -> string)
    requires multiset(a) == multiset(b) && KeysApart(a, key)
    ensures KeysApart(b, key)
  {
    forall i, j | 0 <= i < j < |b| ensures key(b[i]) != key(b[j]) {
      if key(b[i]) == key(b[j]) {
        SameMultisetSameMembers(a, b, b[i]);
        SameMultisetSameMembers(a, b, b[j]);
        assert b[i] == b[j];
        TwiceOccursTwice(b, i, j);
        ApartOccursOnce(a, key, b[i]);
      }
    }
  }

  /** Sorted dictionaries with the same entries are the same sequence. */
  lemma {:induction false} SortedApartUnique<T(!new)>(a: seq<T>, b: seq<T>, key: T -> string)
    requires SortedBy(a, key) && KeysApart(a, key) && SortedBy(b, key) && KeysApart(b, key)
    requires forall x :: x in a <==> x in b
    ensures a == b
  {
    SameApartMultisets(a, b, key);
    forall x, y | x in a && y in a && key(x) == key(y) ensures x == y {
      SameKeySame(a, key, x, y);
    }
    SortedUnique(a, b, key);
  }

  lemma {:induction false} SameApartMultisets<T(!new)>(a: seq<T>, b: seq<T>, key: T -> string)
    requires KeysApart(a, key) && KeysApart(b, key)
    requires forall x :: x in a <==> x in b
    ensures multiset(a) == multiset(b)
  {
    forall x ensures multiset(a)[x] == multiset(b)[x] {
      ApartOccursOnce(a, key, x);
      ApartOccursOnce(b, key, x);
      assert x in multiset(a) <==> x in a;
      assert x in multiset(b) <==> x in b;
    }
  }

  lemma {:induction false} SameKeySame<T(!new)>(s: seq<T>, key: T -> string, x: T, y: T)
    requires KeysApart(s, key) && x in s && y in s && key(x) == key(y)
    ensures x == y
  {
    var i :| 0 <= i < |s| && s[i] == x;
    var j :| 0 <= j < |s| && s[j] == y;
    assert i == j;
  }

  lemma {:induction false} SortOfSorted<T(!new)>(s: seq<T>, key: T -> string)
    requires SortedBy(s, key)
    ensures SortBy(s, key) == s
  {
    if s != [] {
      SortOfSorted(s[1..], key);
    }
  }

  // ---- Sorted sets of strings ----

  ghost predicate StrictlySorted(s: seq<string>) {
    forall i, j :: 0 <= i < j < |s| ==> AtMost(s[i], s[j]) && s[i] != s[j]
  }

  lemma {:induction false} LeastExists(s: set<string>)
    requires s != {}
    ensures exists x :: x in s && forall y | y in s :: AtMost(x, y)
  {
    var e :| e in s;
    AtMostRefl(e);
    if s != {e} {
      var rest := s - {e};
      LeastExists(rest);
      var m :| m in rest && forall y | y in rest :: AtMost(m, y);
      AtMostTotal(e, m);
      if AtMost(e, m) {
        forall y | y in s ensures AtMost(e, y) {
          if y != e { AtMostTransitive(e, m, y); }
        }
      } else {
        assert forall y | y in s :: AtMost(m, y);
      }
    } else {
      assert forall y | y in s :: AtMost(e, y);
    }
  }

  function Least(s: set<string>): (x: string)
    requires s != {}
    ensures x in s && forall y | y in s :: AtMost(x, y)
  {
    LeastExists(s);
    assert forall x, z | x in s && z in s && (forall y | y in s :: AtMost(x, y)) && (forall y | y in s :: AtMost(z, y)) :: x == z by {
      forall x, z | x in s && z in s && (forall y | y in s :: AtMost(x, y)) && (forall y | y in s :: AtMost(z, y)) ensures x == z {
        AtMostAntisymmetric(x, z);
      }
    }
    var x :| x in s && forall y | y in s :: AtMost(x, y);
    x
  }

  lemma {:induction false} LeastThenSorted(x: string, rest: seq<string>, s: set<string>)
    requires StrictlySorted(rest) && x in s && (set y | y in rest) == s - {x} && |rest| == |s - {x}|
    requires forall y | y in s :: AtMost(x, y)
    ensures StrictlySorted([x] + rest) && (set y | y in [x] + rest) == s && |[x] + rest| == |s|
  {
    forall y ensures y in rest <==> y in s - {x} { assert y in (set z | z in rest) <==> y in rest; }
    forall y ensures y in [x] + rest <==> y in s { assert y in [x] + rest <==> y == x || y in rest; }
    forall i | 0 <= i < |rest| ensures AtMost(x, rest[i]) && x != rest[i] { assert rest[i] in rest; }
  }

  /** Python's `sorted(s)` on a set of strings. */
  function SortedSet(s: set<string>): (r: seq<string>)
    ensures StrictlySorted(r) && (set x | x in r) == s && |r| == |s|
  {
    if s == {} then []
    else
      var x := Least(s);
      var rest := SortedSet(s - {x});
      LeastThenSorted(x, rest, s);
      [x] + rest
  }

  lemma {:induction false} StrictlySortedUnique(a: seq<string>, b: seq<string>)
    requires StrictlySorted(a) && StrictlySorted(b)
    requires forall x :: x in a <==> x in b
    ensures a == b
    decreases |a|
  {
    assert a == [] <==> b == [] by {
      assert a != [] ==> a[0] in b;
      assert b != [] ==> b[0] in a;
    }
    if a != [] {
      assert b[0] in a;
      var i :| 0 <= i < |b| && b[i] == a[0];
      var j :| 0 <= j < |a| && a[j] == b[0];
      if i > 0 && j > 0 { AtMostAntisymmetric(a[0], b[0]); }
      assert a[0] == b[0];
      forall x ensures x in a[1..] <==> x in b[1..] {
        assert x in a <==> x == a[0] || x in a[1..];
        assert x in b <==> x == b[0] || x in b[1..];
      }
      StrictlySortedUnique(a[1..], b[1..]);
    }
  }

  // ---- Decimal numerals ----

  predicate IsDigit(c: char) { '0' <= c <= '9' }

  function Digit(n: nat): (c: char)
    requires n < 10
    ensures IsDigit(c)
  {
    '0' + n as char
  }

  /** Python's `str(n)` for a non-negative integer. */
  function Decimal(n: nat): (s: string)
    ensures s != "" && forall i | 0 <= i < |s| :: IsDigit(s[i])
  {
    if n < 10 then [Digit(n)] else Decimal(n / 10) + [Digit(n % 10)]
  }

  lemma {:induction false} DecimalInjective(a: nat, b: nat)
    requires Decimal(a) == Decimal(b)
    ensures a == b
  {
    var s, t := Decimal(a), Decimal(b);
    assert s[|s| - 1] == t[|t| - 1];
    assert Digit(a % 10) == Digit(b % 10) && a % 10 == b % 10;
    if a >= 10 && b >= 10 {
      assert s[..|s| - 1] == Decimal(a / 10) && t[..|t| - 1] == Decimal(b / 10);
      DecimalInjective(a / 10, b / 10);
    }
  }

  // ---- Splitting at a separator ----

  predicate Free(s: string, stops: set<char>) {
    forall i | 0 <= i < |s| :: s[i] !in stops
  }

  /** A separator before a separator-free tail is found at one place only. */
  lemma {:induction false} SplitLast(a: string, c: char, x: string, b: string, y: string)
    requires Free(x, {c}) && Free(y, {c}) && a + [c] + x == b + [c] + y
    ensures a == b && x == y
  {
    var s, t := a + [c] + x, b + [c] + y;
    assert s[|a|] == c && t[|b|] == c;
    assert |a| == |b|;
    assert s[..|a|] == a && t[..|b|] == b;
    assert s[|a| + 1..] == x && t[|b| + 1..] == y;
  }
}
