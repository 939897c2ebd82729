/** The order in which strings are compared and sorted. */
module StringOrder {

  /** Lexicographic order. */
  predicate LessEq(a: string, b: string) {
    a == "" || (b != "" && (a[0] < b[0] || (a[0] == b[0] && LessEq(a[1..], b[1..]))))
  }

  predicate Less(a: string, b: string) {
    a != b && LessEq(a, b)
  }

  lemma Reflexive(a: string)
    ensures LessEq(a, a)
  {
  }

  lemma {:induction false} Total(a: string, b: string)
    ensures LessEq(a, b) || LessEq(b, a)
  {
    if a != "" && b != "" {
      Total(a[1..], b[1..]);
    }
  }

  lemma {:induction false} Antisymmetric(a: string, b: string)
    requires LessEq(a, b) && LessEq(b, a)
    ensures a == b
  {
    if a != "" {
      Antisymmetric(a[1..], b[1..]);
      assert a == [a[0]] + a[1..] && b == [b[0]] + b[1..];
    }
  }

  lemma {:induction false} Transitive(a: string, b: string, c: string)
    requires LessEq(a, b) && LessEq(b, c)
    ensures LessEq(a, c)
  {
    if a != "" && a[0] == b[0] == c[0] {
      Transitive(a[1..], b[1..], c[1..]);
    }
  }

  /** Strings that start with equally long parts compare by those parts first. */
  lemma {:induction false} Concatenated(a: string, b: string, x: string, y: string)
    requires |a| == |b|
    ensures LessEq(a + x, b + y) <==> Less(a, b) || (a == b && LessEq(x, y))
  {
    if a == "" {
      assert a + x == x && b + y == y;
    } else {
      assert (a + x)[1..] == a[1..] + x && (b + y)[1..] == b[1..] + y;
      assert a == [a[0]] + a[1..] && b == [b[0]] + b[1..];
      Concatenated(a[1..], b[1..], x, y);
    }
  }

  predicate Sorted(s: seq<string>) {
    forall i, j | 0 <= i < j < |s| :: LessEq(s[i], s[j])
  }

  lemma FirstIsLeast(s: seq<string>, x: string)
    requires Sorted(s) && x in s
    ensures LessEq(s[0], x)
  {
    Reflexive(x);
  }

  lemma DropFirst(s: seq<string>)
    requires s != []
    ensures multiset(s[1..]) == multiset(s) - multiset{s[0]}
  {
    assert s == [s[0]] + s[1..];
  }

  /** A sorted arrangement is determined by what it arranges. */
  lemma {:induction false} SortedUnique(s: seq<string>, t: seq<string>)
    requires Sorted(s) && Sorted(t) && multiset(s) == multiset(t)
    ensures s == t
  {
    assert |s| == |multiset(s)| == |multiset(t)| == |t|;
    if s != [] {
      assert s[0] in multiset(t) && t[0] in multiset(s);
      FirstIsLeast(s, t[0]);
      FirstIsLeast(t, s[0]);
      Antisymmetric(s[0], t[0]);
      DropFirst(s);
      DropFirst(t);
      SortedUnique(s[1..], t[1..]);
      assert s == [s[0]] + s[1..] && t == [t[0]] + t[1..];
    }
  }

  function Insert(x: string, s: seq<string>): (r: seq<string>)
    requires Sorted(s)
    ensures Sorted(r) && multiset(r) == multiset(s) + multiset{x}
  {
    if s == [] then [x]
    else if LessEq(x, s[0]) then
      PutFirst(x, s);
      [x] + s
    else
      var r := Insert(x, s[1..]);
      PutBack(x, s, r);
      [s[0]] + r
  }

  lemma PutFirst(x: string, s: seq<string>)
    requires s != [] && Sorted(s) && LessEq(x, s[0])
    ensures Sorted([x] + s)
  {
    forall j | 0 <= j < |s| ensures LessEq(x, s[j]) {
      FirstIsLeast(s, s[j]);
      Transitive(x, s[0], s[j]);
    }
  }

  lemma PutBack(x: string, s: seq<string>, r: seq<string>)
    requires s != [] && Sorted(s) && !LessEq(x, s[0])
    requires Sorted(r) && multiset(r) == multiset(s[1..]) + multiset{x}
    ensures Sorted([s[0]] + r) && multiset([s[0]] + r) == multiset(s) + multiset{x}
  {
    Total(x, s[0]);
    DropFirst(s);
    forall j | 0 <= j < |r| ensures LessEq(s[0], r[j]) {
      assert r[j] in multiset(r);
      if r[j] != x {
        assert r[j] in multiset(s);
        FirstIsLeast(s, r[j]);
      }
    }
  }

  /** Sorting, as `sort.Strings` does. */
  function Sort(s: seq<string>): (r: seq<string>)
    ensures Sorted(r) && multiset(r) == multiset(s)
  {
    if s == [] then []
    else
      DropFirst(s);
      Insert(s[0], Sort(s[1..]))
  }

  predicate Strict(s: seq<string>) {
    forall i, j | 0 <= i < j < |s| :: Less(s[i], s[j])
  }

  lemma {:induction false} StrictCounts(s: seq<string>)
    requires Strict(s)
    ensures multiset(s) == multiset(set x | x in s)
  {
    if s != [] {
      var last := |s| - 1;
      StrictCounts(s[..last]);
      assert s == s[..last] + [s[last]];
      assert s[last] !in s[..last];
      assert (set x | x in s) == (set x | x in s[..last]) + {s[last]};
    }
  }

  lemma StrictUnique(s: seq<string>, t: seq<string>)
    requires Strict(s) && Strict(t) && forall x :: x in s <==> x in t
    ensures s == t
  {
    StrictCounts(s);
    StrictCounts(t);
    assert (set x | x in s) == (set x | x in t);
    SortedUnique(s, t);
  }
}
