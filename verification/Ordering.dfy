/** Sets of integers and of strings in ascending order, and the arithmetic of dividing time into
    equal buckets. */
module Ordering {
  ghost function AnyOf<T>(s: set<T>): (x: T)
    requires s != {}
    ensures x in s
  {
    var x :| x in s; x
  }

  method Any<T>(s: set<T>) returns (x: T)
    requires s != {}
    ensures x in s
  {
    x :| x in s;
  }

  predicate IsLeast(m: int, s: set<int>) {
    m in s && forall x :: x in s ==> m <= x
  }

  lemma LeastOfMore(s: set<int>, y: int, z: int, m: int)
    requires y in s && z in s && z < y && IsLeast(m, s - {y})
    ensures IsLeast(m, s)
  {
    assert z in s - {y};
    forall x | x in s
      ensures m <= x
    {
      assert x == y || x in s - {y};
    }
  }

  lemma {:induction false} MinExists(s: set<int>, y: int)
    requires y in s
    ensures exists m :: IsLeast(m, s)
    decreases |s|
  {
    if z :| z in s && z < y {
      MinExists(s - {y}, z);
      var m :| IsLeast(m, s - {y});
      LeastOfMore(s, y, z, m);
    } else {
      assert IsLeast(y, s);
    }
  }

  ghost function MinOf(s: set<int>): (m: int)
    requires s != {}
    ensures IsLeast(m, s)
  {
    MinExists(s, AnyOf(s));
    var m :| IsLeast(m, s);
    m
  }

  ghost function Ascending(s: set<int>): (r: seq<int>)
    ensures forall x :: x in r <==> x in s
    ensures forall i, j :: 0 <= i < j < |r| ==> r[i] < r[j]
    ensures |r| == |s|
  {
    if s == {} then [] else [MinOf(s)] + Ascending(s - {MinOf(s)})
  }

  lemma AscendingStep(r: seq<int>, s: set<int>)
    requires s != {}
    ensures r + [MinOf(s)] + Ascending(s - {MinOf(s)}) == r + Ascending(s)
  {
    assert r + [MinOf(s)] + Ascending(s - {MinOf(s)}) == r + ([MinOf(s)] + Ascending(s - {MinOf(s)}));
  }

  method Least(s: set<int>) returns (least: int)
    requires s != {}
    ensures least == MinOf(s)
  {
    least := Any(s);
    var others := s - {least};
    while others != {}
      invariant least in s && others <= s
      invariant forall x :: x in s ==> x in others || least <= x
      decreases others
    {
      var x := Any(others);
      others := others - {x};
      least := if x < least then x else least;
    }
    assert MinOf(s) in s;
  }

  method Sorted(s: set<int>) returns (r: seq<int>)
    ensures r == Ascending(s)
  {
    r := [];
    var rest := s;
    while rest != {}
      invariant r + Ascending(rest) == Ascending(s)
      decreases rest
    {
      var least := Least(rest);
      AscendingStep(r, rest);
      r := r + [least];
      rest := rest - {least};
    }
    assert r + Ascending(rest) == r;
  }

  /** The beginning of the bucket; Python's `//` and this division agree for positive widths. */
  function BucketOf(ts: int, width: int): int
    requires width > 0
  {
    ts / width * width
  }

  lemma Scaled(d: int, width: int)
    requires width > 0
    ensures d >= 1 ==> d * width >= width
    ensures d <= -1 ==> d * width <= -width
  {
  }

  lemma BucketBounds(ts: int, width: int)
    requires width > 0
    ensures BucketOf(ts, width) <= ts < BucketOf(ts, width) + width
  {
  }

  lemma BucketIsMultiple(ts: int, width: int)
    requires width > 0
    ensures BucketOf(ts, width) % width == 0
  {
    var q := ts / width;
    var (m, r) := (q * width / width, q * width % width);
    assert q * width == m * width + r;
    assert (q - m) * width == r;
    Scaled(q - m, width);
  }

  lemma QuotientsGrow(a: int, b: int, width: int)
    requires width > 0 && BucketOf(a, width) < BucketOf(b, width)
    ensures a / width < b / width
  {
    var d := a / width - b / width;
    assert d * width == BucketOf(a, width) - BucketOf(b, width);
    Scaled(d, width);
  }

  lemma QuotientsFollow(a: int, b: int, width: int)
    requires width > 0 && a <= b
    ensures a / width <= b / width
  {
    BucketBounds(a, width);
    BucketBounds(b, width);
    var d := a / width - b / width;
    assert d * width == BucketOf(a, width) - BucketOf(b, width);
    Scaled(d, width);
  }

  lemma QuotientShift(a: int, n: int, width: int)
    requires width > 0
    ensures (a + n * width) / width == a / width + n
  {
    var b := a + n * width;
    BucketBounds(a, width);
    BucketBounds(b, width);
    var d := b / width - a / width - n;
    assert d * width == BucketOf(b, width) - BucketOf(a, width) - n * width;
    Scaled(d, width);
  }

  // ---- strings ---------------------------------------------------------------------------

  /** `a < b` for strings, character by character. */
  predicate Below(a: string, b: string) {
    b != "" && (a == "" || a[0] < b[0] || (a[0] == b[0] && Below(a[1..], b[1..])))
  }

  /** `a` comes first at position `i`: equal before it, and there `a` ends or has the smaller character. */
  predicate FirstAt(a: string, b: string, i: int) {
    && 0 <= i <= |a| && i < |b| && a[..i] == b[..i]
    && (i == |a| || a[i] < b[i])
  }

  lemma FirstAtTail(a: string, b: string, i: nat)
    requires a != "" && b != "" && a[0] == b[0]
    ensures FirstAt(a[1..], b[1..], i) <==> FirstAt(a, b, i + 1)
  {
    if i + 1 <= |a| && i + 1 <= |b| {
      assert a[..i + 1] == [a[0]] + a[1..][..i] && b[..i + 1] == [b[0]] + b[1..][..i];
      assert a[..i + 1][1..] == a[1..][..i] && b[..i + 1][1..] == b[1..][..i];
    }
  }

  /** The order of strings is that of their first difference. */
  lemma {:induction false} BelowExactly(a: string, b: string)
    ensures Below(a, b) <==> exists i :: FirstAt(a, b, i)
  {
    if b == "" {
    } else if a == "" || a[0] < b[0] {
      assert FirstAt(a, b, 0);
    } else if a[0] == b[0] {
      BelowExactly(a[1..], b[1..]);
      if i :| FirstAt(a[1..], b[1..], i) {
        FirstAtTail(a, b, i);
      }
      if i :| FirstAt(a, b, i) {
        FirstAtTail(a, b, i - 1);
      }
    } else {
      forall i
        ensures !FirstAt(a, b, i)
      {
        SameStart(a, b, i);
      }
    }
  }

  lemma SameStart(a: string, b: string, i: int)
    ensures FirstAt(a, b, i) && i > 0 ==> a[0] == b[0]
  {
    if FirstAt(a, b, i) && i > 0 {
      assert a[..i][0] == b[..i][0];
    }
  }

  lemma {:induction false} BelowTransitive(a: string, b: string, c: string)
    requires Below(a, b) && Below(b, c)
    ensures Below(a, c)
  {
    if a != "" && a[0] == b[0] == c[0] {
      BelowTransitive(a[1..], b[1..], c[1..]);
    }
  }

  lemma {:induction false} BelowTotal(a: string, b: string)
    ensures Below(a, b) || a == b || Below(b, a)
    ensures !(Below(a, b) && Below(b, a)) && !Below(a, a)
    decreases |a|
  {
    if a != "" {
      BelowTotal(a[1..], a[1..]);
      if b != "" && a[0] == b[0] {
        BelowTotal(a[1..], b[1..]);
        assert a == [a[0]] + a[1..] && b == [b[0]] + b[1..];
      }
    }
  }

  predicate InOrder(s: seq<string>) {
    forall i, j :: 0 <= i < j < |s| ==> Below(s[i], s[j])
  }

  /** `sorted(set(s) | {x})` for a list already in order. */
  function Inserted(s: seq<string>, x: string): seq<string> {
    if s == [] then [x]
    else if s[0] == x then s
    else if Below(x, s[0]) then [x] + s
    else [s[0]] + Inserted(s[1..], x)
  }

  lemma {:induction false} InsertedHas(s: seq<string>, x: string, y: string)
    ensures y in Inserted(s, x) <==> y in s || y == x
  {
    if s != [] && s[0] != x && !Below(x, s[0]) {
      InsertedHas(s[1..], x, y);
      assert s == [s[0]] + s[1..];
    }
  }

  lemma {:induction false} InsertedInOrder(s: seq<string>, x: string)
    requires InOrder(s)
    ensures InOrder(Inserted(s, x))
  {
    if s != [] && s[0] != x {
      BelowTotal(x, s[0]);
      if Below(x, s[0]) {
        forall j | 0 < j < |s|
          ensures Below(x, s[j])
        {
          BelowTransitive(x, s[0], s[j]);
        }
      } else {
        var rest := Inserted(s[1..], x);
        InsertedInOrder(s[1..], x);
        forall y | y in rest
          ensures Below(s[0], y)
        {
          InsertedHas(s[1..], x, y);
        }
      }
    }
  }

  /** The strings of a set in order, each once. */
  ghost predicate Lists(s: seq<string>, strings: set<string>) {
    InOrder(s) && forall x :: x in s <==> x in strings
  }

  lemma InsertedLists(s: seq<string>, strings: set<string>, x: string)
    requires Lists(s, strings)
    ensures Lists(Inserted(s, x), strings + {x})
  {
    InsertedInOrder(s, x);
    forall y
      ensures y in Inserted(s, x) <==> y in strings + {x}
    {
      InsertedHas(s, x, y);
    }
  }

  /** There is only one such list. */
  lemma {:induction false} ListIsUnique(a: seq<string>, b: seq<string>)
    requires InOrder(a) && InOrder(b) && forall x :: x in a <==> x in b
    ensures a == b
    decreases |a|
  {
    assert a != [] ==> a[0] in a;
    assert b != [] ==> b[0] in b;
    if a != [] && b != [] {
      BelowTotal(a[0], b[0]);
      FirstIsLeast(a, b[0]);
      FirstIsLeast(b, a[0]);
      forall x
        ensures x in a[1..] <==> x in b[1..]
      {
        TailHas(a, x);
        TailHas(b, x);
      }
      ListIsUnique(a[1..], b[1..]);
      assert a == [a[0]] + a[1..] && b == [b[0]] + b[1..];
    }
  }

  lemma FirstIsLeast(s: seq<string>, x: string)
    requires InOrder(s) && x in s
    ensures x == s[0] || Below(s[0], x)
  {
  }

  lemma TailHas(s: seq<string>, x: string)
    requires InOrder(s) && s != []
    ensures x in s[1..] <==> x in s && x != s[0]
  {
    BelowTotal(s[0], s[0]);
    assert s == [s[0]] + s[1..];
  }

  method SortedStrings(strings: set<string>) returns (s: seq<string>)
    ensures Lists(s, strings)
  {
    s := [];
    var rest := strings;
    while rest != {}
      invariant rest <= strings && Lists(s, strings - rest)
      decreases rest
    {
      var x :| x in rest;
      InsertedLists(s, strings - rest, x);
      assert strings - (rest - {x}) == strings - rest + {x};
      s, rest := Inserted(s, x), rest - {x};
    }
  }
}
