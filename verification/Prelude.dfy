/** Machine integers, lexicographic order, sorted identity vectors and sums over finite maps. */
module Prelude {

  datatype Option<+T> = None | Some(value: T)

  const TWO_32: int := 0x1_0000_0000
  const TWO_63: int := 0x8000_0000_0000_0000
  const TWO_64: int := 0x1_0000_0000_0000_0000

  type U32 = x: int | 0 <= x < 0x1_0000_0000
  type U64 = x: int | 0 <= x < 0x1_0000_0000_0000_0000

  /** Unsigned arithmetic of the 32 and 64 bit machine types. */
  function Wrap32(x: int): U32 { x % TWO_32 }

  function Wrap64(x: int): U64 { x % TWO_64 }

  function Max(a: int, b: int): int { if a < b then b else a }

  lemma MulMonotone(a: int, b: int, c: int)
    requires 0 <= a && b <= c
    ensures a * b <= a * c
  {
    assert 0 <= a * (c - b);
    assert a * (c - b) == a * c - a * b;
  }

  /** Lexicographic order on numeric vectors, the order of `std::vector` and `std::string`. */
  predicate LexLess(a: seq<int>, b: seq<int>) {
    b != [] && (a == [] || a[0] < b[0] || (a[0] == b[0] && LexLess(a[1..], b[1..])))
  }

  lemma {:induction false} LexTransitive(a: seq<int>, b: seq<int>, c: seq<int>)
    requires LexLess(a, b) && LexLess(b, c)
    ensures LexLess(a, c)
  {
    if a != [] && a[0] == b[0] && b[0] == c[0] {
      LexTransitive(a[1..], b[1..], c[1..]);
    }
  }

  lemma {:induction false} LexIrreflexive(a: seq<int>)
    ensures !LexLess(a, a)
  {
    if a != [] {
      LexIrreflexive(a[1..]);
    }
  }

  lemma {:induction false} LexTotal(a: seq<int>, b: seq<int>)
    ensures LexLess(a, b) || LexLess(b, a) || a == b
  {
    if a != [] && b != [] && a[0] == b[0] {
      LexTotal(a[1..], b[1..]);
      assert a == [a[0]] + a[1..] && b == [b[0]] + b[1..];
    }
  }

  lemma LexUnfolds(a: seq<int>, b: seq<int>)
    requires a != [] && b != []
    ensures LexLess(a, b) <==> a[0] < b[0] || (a[0] == b[0] && LexLess(a[1..], b[1..]))
  {
  }

  /** A common prefix does not decide the order. */
  lemma {:induction false} LexPrefix(p: seq<int>, a: seq<int>, b: seq<int>)
    ensures LexLess(p + a, p + b) <==> LexLess(a, b)
  {
    if p == [] {
      assert p + a == a && p + b == b;
    } else {
      LexPrefix(p[1..], a, b);
      assert (p + a)[1..] == p[1..] + a && (p + b)[1..] == p[1..] + b;
    }
  }

  /** Equally long distinct heads decide the order before the tails are looked at. */
  lemma {:induction false} LexHeads(p: seq<int>, q: seq<int>, a: seq<int>, b: seq<int>)
    requires |p| == |q| && p != q
    ensures LexLess(p + a, q + b) <==> LexLess(p, q)
  {
    assert (p + a)[0] == p[0] && (q + b)[0] == q[0];
    if p[0] == q[0] {
      assert p == [p[0]] + p[1..] && q == [q[0]] + q[1..];
      LexHeads(p[1..], q[1..], a, b);
      assert (p + a)[1..] == p[1..] + a && (q + b)[1..] == q[1..] + b;
    }
  }

  ghost predicate Ascending(s: seq<int>) {
    forall i, j :: 0 <= i < j < |s| ==> s[i] < s[j]
  }

  ghost predicate Weakly(s: seq<int>) {
    forall i, j :: 0 <= i < j < |s| ==> s[i] <= s[j]
  }

  /** Insertion sort of an identity vector. */
  function Insert(x: int, s: seq<int>): seq<int> {
    if s == [] || x <= s[0] then [x] + s else [s[0]] + Insert(x, s[1..])
  }

  function Sort(s: seq<int>): seq<int> {
    if s == [] then [] else Insert(s[0], Sort(s[1..]))
  }

  lemma {:induction false} InsertContents(x: int, s: seq<int>)
    ensures multiset(Insert(x, s)) == multiset(s) + multiset{x}
    ensures |Insert(x, s)| == |s| + 1
  {
    if s != [] && s[0] < x {
      InsertContents(x, s[1..]);
      assert s == [s[0]] + s[1..];
    }
  }

  lemma {:induction false} SortContents(s: seq<int>)
    ensures multiset(Sort(s)) == multiset(s)
    ensures |Sort(s)| == |s|
  {
    if s != [] {
      SortContents(s[1..]);
      InsertContents(s[0], Sort(s[1..]));
      assert s == [s[0]] + s[1..];
    }
  }

  lemma {:induction false} InsertSorted(x: int, s: seq<int>)
    requires Weakly(s)
    ensures Weakly(Insert(x, s))
  {
    if s != [] && s[0] < x {
      InsertSorted(x, s[1..]);
      var t := Insert(x, s[1..]);
      InsertContents(x, s[1..]);
      forall k | 0 <= k < |t| ensures s[0] <= t[k] {
        assert t[k] in multiset(t);
        assert t[k] == x || t[k] in s[1..];
      }
    }
  }

  lemma {:induction false} SortSorted(s: seq<int>)
    ensures Weakly(Sort(s))
  {
    if s != [] {
      SortSorted(s[1..]);
      InsertSorted(s[0], Sort(s[1..]));
    }
  }

  lemma {:induction false} InsertCommutes(a: int, b: int, s: seq<int>)
    ensures Insert(a, Insert(b, s)) == Insert(b, Insert(a, s))
  {
    if a < b {
      InsertBelow(a, b, s);
    } else if b < a {
      InsertBelow(b, a, s);
    }
  }

  lemma {:induction false} InsertBelow(a: int, b: int, s: seq<int>)
    requires a < b
    ensures Insert(a, Insert(b, s)) == Insert(b, Insert(a, s))
  {
    if s == [] || a <= s[0] {
      assert Insert(a, s)[1..] == s;
    } else {
      var t := s[1..];
      InsertBelow(a, b, t);
      assert Insert(a, s)[1..] == Insert(a, t);
      assert Insert(b, s)[1..] == Insert(b, t);
    }
  }

  /** Any element may be taken out first and inserted last. */
  lemma {:induction false} SortPullOut(s: seq<int>, i: nat)
    requires i < |s|
    ensures Sort(s) == Insert(s[i], Sort(s[..i] + s[i + 1..]))
  {
    if i == 0 {
      assert s[..0] + s[1..] == s[1..];
    } else {
      var tail := s[1..];
      SortPullOut(tail, i - 1);
      var rest := s[..i] + s[i + 1..];
      var inner := tail[..i - 1] + tail[i..];
      assert rest == [s[0]] + inner;
      InsertCommutes(s[0], s[i], Sort(inner));
    }
  }

  /** A smaller identity that is not there yet makes the sorted vector smaller. */
  lemma {:induction false} InsertMonotone(x: int, y: int, s: seq<int>)
    requires y < x && y !in s
    ensures LexLess(Insert(y, s), Insert(x, s))
  {
    if s != [] && s[0] < y {
      InsertMonotone(x, y, s[1..]);
      assert Insert(y, s)[1..] == Insert(y, s[1..]);
      assert Insert(x, s)[1..] == Insert(x, s[1..]);
    }
  }

  /** Swapping one identity for a smaller unused one makes the sorted vector smaller. */
  lemma SortMonotone(s: seq<int>, i: nat, y: int)
    requires i < |s| && y < s[i] && y !in s
    ensures LexLess(Sort(s[i := y]), Sort(s))
  {
    var rest := s[..i] + s[i + 1..];
    var t := s[i := y];
    assert t[..i] + t[i + 1..] == rest;
    SortPullOut(s, i);
    SortPullOut(t, i);
    SortContents(rest);
    assert y !in multiset(rest);
    InsertMonotone(s[i], y, Sort(rest));
  }
}
