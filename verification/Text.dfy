/** Byte strings, one char per byte, with Go's byte-wise string order. */
module Text {
  type Bytes = seq<char>

  const NEWLINE := '\n'

  // Go's < on strings.
  predicate Less(a: Bytes, b: Bytes) {
    b != [] && (a == [] || a[0] < b[0] || (a[0] == b[0] && Less(a[1..], b[1..])))
  }

  lemma {:induction false} LessIrreflexive(a: Bytes)
    ensures !Less(a, a)
  {
    if a != [] { LessIrreflexive(a[1..]); }
  }

  lemma {:induction false} LessConnected(a: Bytes, b: Bytes)
    requires a != b
    ensures Less(a, b) || Less(b, a)
  {
    if a != [] && b != [] && a[0] == b[0] {
      assert a == [a[0]] + a[1..] && b == [b[0]] + b[1..];
      LessConnected(a[1..], b[1..]);
    }
  }

  lemma {:induction false} LessTransitive(a: Bytes, b: Bytes, c: Bytes)
    requires Less(a, b) && Less(b, c)
    ensures Less(a, c)
  {
    if a != [] && a[0] == b[0] == c[0] { LessTransitive(a[1..], b[1..], c[1..]); }
  }

  // The strings agree up to i, and there a ends or has the smaller byte.
  predicate SmallerAt(a: Bytes, b: Bytes, i: nat) {
    i <= |a| && i < |b| && a[..i] == b[..i] && (i == |a| || a[i] < b[i])
  }

  lemma {:induction false} LessIsLexicographic(a: Bytes, b: Bytes)
    ensures Less(a, b) <==> exists i: nat :: SmallerAt(a, b, i)
  {
    if a == [] || b == [] || a[0] != b[0] {
      assert Less(a, b) ==> SmallerAt(a, b, 0);
      forall i: nat | SmallerAt(a, b, i) ensures Less(a, b) { if i > 0 { assert a[..i][0] == b[..i][0]; } }
    } else {
      LessIsLexicographic(a[1..], b[1..]);
      if Less(a, b) {
        var i: nat :| SmallerAt(a[1..], b[1..], i);
        assert a[..i + 1] == [a[0]] + a[1..][..i] && b[..i + 1] == [b[0]] + b[1..][..i];
        assert SmallerAt(a, b, i + 1);
      }
      forall i: nat | SmallerAt(a, b, i) ensures Less(a, b) {
        assert i > 0 && a[1..][..i - 1] == a[..i][1..] && b[1..][..i - 1] == b[..i][1..];
        assert SmallerAt(a[1..], b[1..], i - 1);
      }
    }
  }

  // Where `mark` first occurs, or the length when it does not occur.
  function IndexOf(s: Bytes, mark: char): (i: nat)
    ensures i <= |s|
    ensures mark !in s[..i]
    ensures i < |s| ==> s[i] == mark
  {
    if s == [] || s[0] == mark then 0
    else
      var rest := IndexOf(s[1..], mark);
      assert s[..1 + rest] == [s[0]] + s[1..][..rest];
      1 + rest
  }

  lemma {:induction false} IndexOfCut(a: Bytes, mark: char, x: Bytes)
    requires mark !in a
    ensures IndexOf(a + [mark] + x, mark) == |a|
  {
    var s := a + [mark] + x;
    if a != [] {
      assert s[0] == a[0] && a[0] in a;
      assert s[1..] == a[1..] + [mark] + x;
      IndexOfCut(a[1..], mark, x);
    }
  }

  // A string that ends in `mark` can be cut off the front in one way only.
  lemma CutAt(a: Bytes, b: Bytes, mark: char, x: Bytes, y: Bytes)
    requires mark !in a && mark !in b
    requires a + [mark] + x == b + [mark] + y
    ensures a == b && x == y
  {
    var l, r := a + [mark] + x, b + [mark] + y;
    IndexOfCut(a, mark, x);
    IndexOfCut(b, mark, y);
    assert a == l[..|a|] && b == r[..|b|];
    assert x == l[|a| + 1..] && y == r[|b| + 1..];
  }

  lemma Associative(a: Bytes, b: Bytes, c: Bytes)
    ensures a + b + c == a + (b + c)
  {
  }

  // A prefix of a + b that covers a is a and a prefix of b.
  lemma PrefixSplits(a: Bytes, b: Bytes, p: Bytes)
    requires p <= a + b && |a| <= |p|
    ensures a <= p && p[|a|..] <= b && p == a + p[|a|..]
  {
    assert p == (a + b)[..|p|];
    assert a == p[..|a|];
    assert p[|a|..] == b[..|p| - |a|];
  }

  // fmt's %d on a non-negative integer.
  function Decimal(n: nat): (s: Bytes)
    ensures |s| > 0 && forall ch | ch in s :: '0' <= ch <= '9'
  {
    var digit := [('0' as int + n % 10) as char];
    if n < 10 then digit else Decimal(n / 10) + digit
  }

  // The number a string of digits stands for.
  function NumberOf(s: Bytes): int {
    if s == [] then 0 else 10 * NumberOf(s[..|s| - 1]) + (s[|s| - 1] as int - '0' as int)
  }

  lemma {:induction false} DecimalReads(n: nat)
    ensures NumberOf(Decimal(n)) == n && (Decimal(n)[0] == '0' <==> n == 0)
  {
    var s := Decimal(n);
    if n >= 10 {
      DecimalReads(n / 10);
      assert s[..|s| - 1] == Decimal(n / 10) && s[0] == Decimal(n / 10)[0];
    } else {
      assert s[..|s| - 1] == [] && NumberOf([]) == 0;
    }
  }

  lemma {:induction false} DecimalInjective(m: nat, n: nat)
    requires Decimal(m) == Decimal(n)
    ensures m == n
  {
    var a, b := Decimal(m), Decimal(n);
    assert a[|a| - 1] == ('0' as int + m % 10) as char;
    assert b[|b| - 1] == ('0' as int + n % 10) as char;
    if m >= 10 && n >= 10 {
      assert a[..|a| - 1] == Decimal(m / 10) && b[..|b| - 1] == Decimal(n / 10);
      DecimalInjective(m / 10, n / 10);
    }
  }
}

/** Sorting by a strict order, standing for Go's sort.Strings and sort.Slice. */
module Sorting {
  // lt is irreflexive, connected and transitive on the elements of s.
  ghost predicate StrictOrder<T(!new)>(lt: (T, T) -> bool, s: set<T>) {
    && (forall x | x in s :: !lt(x, x))
    && (forall x, y | x in s && y in s && x != y :: lt(x, y) || lt(y, x))
    && (forall x, y, z | x in s && y in s && z in s && lt(x, y) && lt(y, z) :: lt(x, z))
  }

  ghost predicate Increasing<T(!new)>(lt: (T, T) -> bool, q: seq<T>) {
    forall i, j | 0 <= i < j < |q| :: lt(q[i], q[j])
  }

  function Elements<T>(q: seq<T>): set<T> {
    set x | x in q
  }

  // q lists the elements of s in increasing order, each of them once.
  ghost predicate Lists<T(!new)>(lt: (T, T) -> bool, q: seq<T>, s: set<T>) {
    Increasing(lt, q) && Elements(q) == s
  }

  function Insert<T>(lt: (T, T) -> bool, x: T, q: seq<T>): (r: seq<T>) {
    if q == [] || lt(x, q[0]) then [x] + q else [q[0]] + Insert(lt, x, q[1..])
  }

  function Sort<T>(lt: (T, T) -> bool, q: seq<T>): (r: seq<T>) {
    if q == [] then [] else Insert(lt, q[0], Sort(lt, q[1..]))
  }

  lemma {:induction false} InsertIncreasing<T(!new)>(lt: (T, T) -> bool, x: T, q: seq<T>, s: set<T>)
    requires StrictOrder(lt, s) && x in s && x !in q && (forall y | y in q :: y in s)
    requires Increasing(lt, q)
    ensures Increasing(lt, Insert(lt, x, q)) && |Insert(lt, x, q)| == |q| + 1
    ensures forall y :: y in Insert(lt, x, q) <==> y == x || y in q
  {
    if q == [] {
    } else if lt(x, q[0]) {
      assert forall j | 0 <= j < |q| :: q[j] in s && lt(x, q[j]);
    } else {
      var rest := q[1..];
      assert q == [q[0]] + rest && q[0] in s;
      InsertIncreasing(lt, x, rest, s);
      var r := Insert(lt, x, rest);
      assert lt(q[0], x);
      forall j | 0 <= j < |r| ensures lt(q[0], r[j]) {
        if r[j] != x {
          assert r[j] in r;
          assert r[j] in rest;
          var k :| 0 <= k < |rest| && rest[k] == r[j];
          assert lt(q[0], q[k + 1]);
        }
      }
    }
  }

  lemma {:induction false} SortLists<T(!new)>(lt: (T, T) -> bool, q: seq<T>, s: set<T>)
    requires StrictOrder(lt, s) && (forall y | y in q :: y in s)
    requires forall i, j | 0 <= i < j < |q| :: q[i] != q[j]
    ensures Increasing(lt, Sort(lt, q)) && |Sort(lt, q)| == |q|
    ensures forall y :: y in Sort(lt, q) <==> y in q
    ensures Elements(Sort(lt, q)) == Elements(q)
  {
    if q != [] {
      assert q == [q[0]] + q[1..];
      SortLists(lt, q[1..], s);
      InsertIncreasing(lt, q[0], Sort(lt, q[1..]), s);
    }
  }

  // There is only one increasing listing of a set.
  lemma {:induction false} ListsUnique<T(!new)>(lt: (T, T) -> bool, p: seq<T>, q: seq<T>, s: set<T>)
    requires StrictOrder(lt, s) && Lists(lt, p, s) && Lists(lt, q, s)
    ensures p == q
  {
    assert forall i | 0 <= i < |p| :: p[i] in s;
    assert forall i | 0 <= i < |q| :: q[i] in s;
    assert forall i | 0 < i < |p| :: lt(p[0], p[i]);
    assert forall i | 0 < i < |q| :: lt(q[0], q[i]);
    assert p == [] <==> s == {} by { assert p != [] ==> p[0] in s; }
    assert q == [] <==> s == {} by { assert q != [] ==> q[0] in s; }
    if p != [] {
      assert p[0] in Elements(q) && q[0] in Elements(p);
      var i :| 0 <= i < |q| && q[i] == p[0];
      var j :| 0 <= j < |p| && p[j] == q[0];
      assert p[0] == q[0];
      var head := p[0];
      assert p == [head] + p[1..] && q == [head] + q[1..];
      assert forall k | 0 <= k < |p[1..]| :: lt(head, p[1..][k]);
      assert forall k | 0 <= k < |q[1..]| :: lt(head, q[1..][k]);
      assert Elements(p[1..]) == s - {head} by {
        assert forall x :: x in p <==> x == head || x in p[1..];
      }
      assert Elements(q[1..]) == s - {head} by {
        assert forall x :: x in q <==> x == head || x in q[1..];
      }
      ListsUnique(lt, p[1..], q[1..], s - {head});
    }
  }

  // Some listing of a finite set, as ranging over a Go map yields one.
  ghost function AnyOrder<T(!new)>(s: set<T>): (q: seq<T>)
    ensures Elements(q) == s && |q| == |s|
    ensures forall i, j | 0 <= i < j < |q| :: q[i] != q[j]
  {
    if s == {} then [] else
      var x :| x in s;
      var rest := AnyOrder(s - {x});
      assert forall j | 0 <= j < |rest| :: rest[j] in Elements(rest);
      assert forall y :: y in Elements([x] + rest) <==> y == x || y in Elements(rest);
      [x] + rest
  }

  // The increasing listing of a set.
  ghost function Listing<T(!new)>(lt: (T, T) -> bool, s: set<T>): (q: seq<T>)
    requires StrictOrder(lt, s)
    ensures Lists(lt, q, s) && |q| == |s|
  {
    SortLists(lt, AnyOrder(s), s);
    Sort(lt, AnyOrder(s))
  }
}

/** Sorted listings of byte strings. */
module Names {
  import opened Text
  import opened Sorting

  lemma LessIsStrict(s: set<Bytes>)
    ensures StrictOrder(Less, s)
  {
    forall x | x in s ensures !Less(x, x) { LessIrreflexive(x); }
    forall x, y | x in s && y in s && x != y ensures Less(x, y) || Less(y, x) { LessConnected(x, y); }
    forall x, y, z | x in s && y in s && z in s && Less(x, y) && Less(y, z) ensures Less(x, z) {
      LessTransitive(x, y, z);
    }
  }

  // The names of a set in the order sort.Strings puts them.
  ghost function Sorted(s: set<Bytes>): (q: seq<Bytes>)
    ensures Lists(Less, q, s) && |q| == |s|
  {
    LessIsStrict(s);
    Listing(Less, s)
  }

  // Ranging over a map's keys in any order and then sorting gives that listing.
  lemma SortIsSorted(q: seq<Bytes>)
    requires forall i, j | 0 <= i < j < |q| :: q[i] != q[j]
    ensures Sort(Less, q) == Sorted(Elements(q))
  {
    LessIsStrict(Elements(q));
    SortLists(Less, q, Elements(q));
    ListsUnique(Less, Sort(Less, q), Sorted(Elements(q)), Elements(q));
  }
}
