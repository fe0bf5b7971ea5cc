/** Python's ordering of `str` values (code point by code point, a proper prefix first) and the
    `sorted(...)` results the core relies on. */
module Ordering {

  /** `a < b` for Python strings. */
  predicate Below(a: string, b: string)
    decreases |a|
  {
    if |a| == 0 then |b| > 0
    else |b| > 0 && (a[0] < b[0] || (a[0] == b[0] && Below(a[1..], b[1..])))
  }

  lemma {:induction false} BelowIrreflexive(a: string)
    ensures !Below(a, a)
    decreases |a|
  {
    if |a| > 0 {
      BelowIrreflexive(a[1..]);
    }
  }

  lemma {:induction false} BelowAsymmetric(a: string, b: string)
    requires Below(a, b)
    ensures !Below(b, a)
    decreases |a|
  {
    if |a| > 0 && |b| > 0 && a[0] == b[0] {
      BelowAsymmetric(a[1..], b[1..]);
    }
  }

  lemma {:induction false} BelowTransitive(a: string, b: string, c: string)
    requires Below(a, b) && Below(b, c)
    ensures Below(a, c)
    decreases |a|
  {
    if |a| > 0 && a[0] == b[0] && b[0] == c[0] {
      BelowTransitive(a[1..], b[1..], c[1..]);
    }
  }

  lemma {:induction false} BelowTotal(a: string, b: string)
    requires a != b
    ensures Below(a, b) || Below(b, a)
    decreases |a|
  {
    if |a| > 0 && |b| > 0 && a[0] == b[0] {
      assert a == [a[0]] + a[1..] && b == [b[0]] + b[1..];
      BelowTotal(a[1..], b[1..]);
    }
  }

  /** Every element is strictly below each later one: sorted with no duplicates. */
  predicate StrictlyAscending(s: seq<string>)
  {
    forall i, j :: 0 <= i < j < |s| ==> Below(s[i], s[j])
  }

  predicate StrictlyDescending(s: seq<string>)
  {
    forall i, j :: 0 <= i < j < |s| ==> Below(s[j], s[i])
  }

  /** No element is below an earlier one: what `sorted` promises when duplicates may occur. */
  predicate Ascending(s: seq<string>)
  {
    forall i, j :: 0 <= i < j < |s| ==> !Below(s[j], s[i])
  }

  function Elems(s: seq<string>): set<string>
  {
    set x | x in s
  }

  lemma ElemsAppend(a: seq<string>, b: seq<string>)
    ensures Elems(a + b) == Elems(a) + Elems(b)
  {
  }

  lemma ElemsNext(s: seq<string>, i: nat)
    requires i < |s|
    ensures Elems(s[..i + 1]) == Elems(s[..i]) + {s[i]}
  {
    assert s[..i + 1] == s[..i] + [s[i]];
    ElemsAppend(s[..i], [s[i]]);
  }

  function Reverse(s: seq<string>): (r: seq<string>)
    ensures |r| == |s|
    ensures forall i :: 0 <= i < |s| ==> r[i] == s[|s| - 1 - i]
  {
    if s == [] then [] else Reverse(s[1..]) + [s[0]]
  }

  lemma ReverseDescending(s: seq<string>)
    requires StrictlyAscending(s)
    ensures StrictlyDescending(Reverse(s)) && Elems(Reverse(s)) == Elems(s)
  {
    var r := Reverse(s);
    forall x | x in Elems(s) ensures x in Elems(r) {
      var i :| 0 <= i < |s| && s[i] == x;
      assert r[|s| - 1 - i] == x;
    }
  }

  /** Places `x` before the first element that is not below it. */
  function Insert(x: string, s: seq<string>): (r: seq<string>)
    ensures multiset(r) == multiset(s) + multiset{x}
    ensures |r| == |s| + 1
  {
    if s == [] then [x]
    else if !Below(s[0], x) then [x] + s
    else
      assert s == [s[0]] + s[1..];
      [s[0]] + Insert(x, s[1..])
  }

  /** Insertion sort: the `sorted(...)` of a list of strings. */
  function SortAsc(s: seq<string>): (r: seq<string>)
    ensures multiset(r) == multiset(s)
    ensures |r| == |s|
  {
    if s == [] then []
    else
      assert s == [s[0]] + s[1..];
      Insert(s[0], SortAsc(s[1..]))
  }

  lemma {:induction false} InsertAscending(x: string, s: seq<string>)
    requires Ascending(s)
    ensures Ascending(Insert(x, s))
    decreases |s|
  {
    if s != [] && Below(s[0], x) {
      InsertAscending(x, s[1..]);
      var r := Insert(x, s);
      assert r == [s[0]] + Insert(x, s[1..]);
      forall j | 0 < j < |r| ensures !Below(r[j], r[0]) {
        assert r[j] in multiset(Insert(x, s[1..]));
        assert r[j] in multiset(s[1..]) + multiset{x};
        if r[j] == x {
          BelowAsymmetric(s[0], x);
        } else {
          assert r[j] in s[1..];
        }
      }
    } else if s != [] {
      var r := [x] + s;
      forall j | 0 < j < |r| ensures !Below(r[j], r[0]) {
        if Below(r[j], x) {
          if j > 1 {
            assert !Below(s[j - 1], s[0]);
            if s[j - 1] != s[0] {
              BelowTotal(s[j - 1], s[0]);
              BelowTransitive(s[0], s[j - 1], x);
            }
          }
        }
      }
    }
  }

  /** `sorted` orders its result. */
  lemma {:induction false} SortAscAscending(s: seq<string>)
    ensures Ascending(SortAsc(s))
    decreases |s|
  {
    if s != [] {
      SortAscAscending(s[1..]);
      InsertAscending(s[0], SortAsc(s[1..]));
    }
  }

  predicate Distinct(s: seq<string>)
  {
    forall i, j :: 0 <= i < j < |s| ==> s[i] != s[j]
  }

  lemma DistinctMultiset(s: seq<string>, t: seq<string>)
    requires Distinct(s) && multiset(s) == multiset(t)
    ensures Distinct(t) && Elems(s) == Elems(t)
  {
    forall x ensures x in Elems(s) <==> x in Elems(t) {
      assert x in s <==> x in multiset(s);
      assert x in t <==> x in multiset(t);
    }
    forall i, j | 0 <= i < j < |t| ensures t[i] != t[j] {
      if t[i] == t[j] {
        MultiplicityTwo(t, i, j);
        CountAtMostOne(s, t[i]);
      }
    }
  }

  lemma MultiplicityTwo(t: seq<string>, i: int, j: int)
    requires 0 <= i < j < |t| && t[i] == t[j]
    ensures multiset(t)[t[i]] >= 2
  {
    assert t == t[..i] + [t[i]] + t[i + 1..j] + [t[j]] + t[j + 1..];
  }

  lemma {:induction false} CountAtMostOne(s: seq<string>, x: string)
    requires Distinct(s)
    ensures multiset(s)[x] <= 1
    decreases |s|
  {
    if s != [] {
      assert s == [s[0]] + s[1..];
      CountAtMostOne(s[1..], x);
      if s[0] == x {
        assert x !in s[1..];
        assert multiset(s[1..])[x] == 0;
      }
    }
  }

  /** Sorting distinct strings yields a strictly ascending list of the same strings. */
  lemma SortDistinct(s: seq<string>)
    requires Distinct(s)
    ensures StrictlyAscending(SortAsc(s)) && Elems(SortAsc(s)) == Elems(s)
  {
    var r := SortAsc(s);
    SortAscAscending(s);
    DistinctMultiset(s, r);
    forall i, j | 0 <= i < j < |r| ensures Below(r[i], r[j]) {
      BelowTotal(r[i], r[j]);
    }
  }

  lemma ElemsEmpty(s: seq<string>)
    ensures Elems(s) == {} <==> s == []
  {
    if s != [] {
      assert s[0] in Elems(s);
    }
  }

  /** A strictly ordered list is determined by its set of elements. */
  lemma {:induction false} StrictlyAscendingUnique(s: seq<string>, t: seq<string>)
    requires StrictlyAscending(s) && StrictlyAscending(t) && Elems(s) == Elems(t)
    ensures s == t
    decreases |s|
  {
    ElemsEmpty(s);
    ElemsEmpty(t);
    if s != [] {
      if s[0] != t[0] {
        assert t[0] in Elems(s);
        var i :| 0 <= i < |s| && s[i] == t[0];
        assert s[0] in Elems(t);
        var j :| 0 <= j < |t| && t[j] == s[0];
        assert i > 0 && j > 0;
        BelowAsymmetric(s[0], t[0]);
      }
      assert Elems(s[1..]) == Elems(s) - {s[0]} by {
        forall x | x in Elems(s[1..]) ensures x != s[0] {
          BelowIrreflexive(s[0]);
        }
      }
      assert Elems(t[1..]) == Elems(t) - {t[0]} by {
        forall x | x in Elems(t[1..]) ensures x != t[0] {
          BelowIrreflexive(t[0]);
        }
      }
      StrictlyAscendingUnique(s[1..], t[1..]);
    }
  }

  /** Every finite non-empty set of strings has a least element. */
  lemma {:induction false} LeastExists(s: set<string>) returns (m: string)
    requires s != {}
    ensures m in s && forall y :: y in s && y != m ==> Below(m, y)
    decreases |s|
  {
    var x :| x in s;
    if s == {x} {
      m := x;
    } else {
      var rest := LeastExists(s - {x});
      if Below(x, rest) {
        m := x;
        forall y | y in s && y != m ensures Below(m, y) {
          if y != rest {
            BelowTransitive(x, rest, y);
          }
        }
      } else {
        m := rest;
        BelowTotal(x, rest);
      }
    }
  }

  /** The members of a finite set in ascending order (the `sorted` of a set). */
  ghost function SortedSet(s: set<string>): (r: seq<string>)
    ensures StrictlyAscending(r) && Elems(r) == s && |r| == |s|
    decreases |s|
  {
    if s == {} then []
    else
      var m := LeastOf(s);
      var rest := SortedSet(s - {m});
      ConsAscending(m, rest);
      [m] + rest
  }

  /** A string below every member of a strictly ascending list can be put in front of it. */
  lemma ConsAscending(m: string, rest: seq<string>)
    requires StrictlyAscending(rest)
    requires forall y :: y in Elems(rest) ==> Below(m, y)
    ensures StrictlyAscending([m] + rest)
    ensures Elems([m] + rest) == {m} + Elems(rest)
  {
    assert forall i :: 0 <= i < |rest| ==> rest[i] in Elems(rest);
    var r := [m] + rest;
    assert forall i :: 0 < i < |r| ==> r[i] == rest[i - 1];
  }

  ghost predicate IsLeast(m: string, s: set<string>)
  {
    m in s && forall y :: y in s && y != m ==> Below(m, y)
  }

  lemma HasLeast(s: set<string>)
    requires s != {}
    ensures exists m :: IsLeast(m, s)
  {
    var m := LeastExists(s);
    assert IsLeast(m, s);
  }

  ghost function LeastOf(s: set<string>): (m: string)
    requires s != {}
    ensures m in s && forall y :: y in s && y != m ==> Below(m, y)
  {
    HasLeast(s);
    var m :| IsLeast(m, s);
    m
  }

  /** The members of a finite set in descending order (`sorted(..., reverse=True)`). */
  ghost function SortedSetDesc(s: set<string>): (r: seq<string>)
    ensures StrictlyDescending(r) && Elems(r) == s && |r| == |s|
  {
    ReverseDescending(SortedSet(s));
    Reverse(SortedSet(s))
  }

  /** Drains a set into a list, then sorts it: the ascending list of its members. */
  method SortSet(s: set<string>) returns (r: seq<string>)
    ensures r == SortedSet(s)
  {
    var rest := s;
    var found: seq<string> := [];
    while rest != {}
      invariant Distinct(found)
      invariant Elems(found) !! rest
      invariant Elems(found) + rest == s
      decreases |rest|
    {
      var k :| k in rest;
      found := found + [k];
      rest := rest - {k};
    }
    SortDistinct(found);
    r := SortAsc(found);
    SortedSetUnique(s, r);
  }

  /** The strictly ascending list with elements `s` is `SortedSet(s)`. */
  lemma SortedSetUnique(s: set<string>, r: seq<string>)
    requires StrictlyAscending(r) && Elems(r) == s
    ensures r == SortedSet(s)
  {
    StrictlyAscendingUnique(r, SortedSet(s));
  }

  lemma ReverseReverse(s: seq<string>)
    ensures Reverse(Reverse(s)) == s
  {
  }

  lemma ReverseOfDescending(r: seq<string>)
    requires StrictlyDescending(r)
    ensures StrictlyAscending(Reverse(r)) && Elems(Reverse(r)) == Elems(r)
  {
    var a := Reverse(r);
    forall i, j | 0 <= i < j < |a| ensures Below(a[i], a[j]) {
      assert a[i] == r[|r| - 1 - i] && a[j] == r[|r| - 1 - j];
    }
    forall x | x in Elems(r) ensures x in Elems(a) {
      var i :| 0 <= i < |r| && r[i] == x;
      assert a[|r| - 1 - i] == x;
    }
  }

  /** The strictly descending list with elements `s` is `SortedSetDesc(s)`. */
  lemma SortedSetDescUnique(s: set<string>, r: seq<string>)
    requires StrictlyDescending(r) && Elems(r) == s
    ensures r == SortedSetDesc(s)
  {
    ReverseOfDescending(r);
    SortedSetUnique(s, Reverse(r));
    ReverseReverse(r);
  }

  /** `sorted(xs, reverse=True)` of distinct strings is the descending list of their set. */
  lemma SortDescDistinct(xs: seq<string>)
    requires Distinct(xs)
    ensures Reverse(SortAsc(xs)) == SortedSetDesc(Elems(xs))
  {
    SortDistinct(xs);
    ReverseDescending(SortAsc(xs));
    SortedSetDescUnique(Elems(xs), Reverse(SortAsc(xs)));
  }

  /** A list without repetitions has as many elements as its set. */
  lemma {:induction false} DistinctCard(s: seq<string>)
    requires Distinct(s)
    ensures |Elems(s)| == |s|
    decreases |s|
  {
    if s != [] {
      var t := s[..|s| - 1];
      var x := s[|s| - 1];
      assert s == t + [x];
      ElemsAppend(t, [x]);
      assert Elems([x]) == {x};
      assert x !in Elems(t);
      DistinctCard(t);
      assert Elems(s) == Elems(t) + {x};
    }
  }

  lemma DescendingDistinct(s: seq<string>)
    requires StrictlyDescending(s)
    ensures Distinct(s)
  {
    forall i, j | 0 <= i < j < |s| ensures s[i] != s[j] {
      BelowIrreflexive(s[i]);
    }
  }

  /** Splitting a strictly descending list after `n` elements: the head and the tail partition
      its elements, the head has `n` of them and each is above every element of the tail. */
  lemma SplitDescending(s: seq<string>, n: nat)
    requires StrictlyDescending(s) && n <= |s|
    ensures Elems(s) - Elems(s[n..]) == Elems(s[..n])
    ensures |Elems(s[..n])| == n
    ensures forall a, b :: a in Elems(s[..n]) && b in Elems(s[n..]) ==> Below(b, a)
  {
    DescendingDistinct(s);
    assert s == s[..n] + s[n..];
    ElemsAppend(s[..n], s[n..]);
    forall a, b | a in Elems(s[..n]) && b in Elems(s[n..]) ensures Below(b, a) {
      var i :| 0 <= i < n && s[i] == a;
      var j :| n <= j < |s| && s[j] == b;
    }
    DistinctCard(s[..n]);
  }
}
