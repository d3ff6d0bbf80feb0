/** Go's ordering of strings (`<` on `string`: byte-wise lexicographic, a proper
    prefix first) and `sort.Strings`, which the console writer uses to emit the
    extra fields of a record in a deterministic order. */
module StringOrder {

  /** `a <= b` on Go strings. */
  predicate LessEq(a: string, b: string)
  {
    |a| == 0 || (|b| > 0 && (a[0] < b[0] || (a[0] == b[0] && LessEq(a[1..], b[1..]))))
  }

  /** `a < b` on Go strings. */
  predicate Less(a: string, b: string)
  {
    LessEq(a, b) && a != b
  }

  lemma {:induction false} LessEqReflexive(a: string)
    ensures LessEq(a, a)
  {
    if |a| > 0 {
      LessEqReflexive(a[1..]);
    }
  }

  lemma {:induction false} LessEqAntisymmetric(a: string, b: string)
    requires LessEq(a, b) && LessEq(b, a)
    ensures a == b
  {
    if |a| > 0 && |b| > 0 {
      LessEqAntisymmetric(a[1..], b[1..]);
      assert a == [a[0]] + a[1..];
      assert b == [b[0]] + b[1..];
    }
  }

  lemma {:induction false} LessEqTransitive(a: string, b: string, c: string)
    requires LessEq(a, b) && LessEq(b, c)
    ensures LessEq(a, c)
  {
    if |a| > 0 && |b| > 0 && |c| > 0 && a[0] == b[0] == c[0] {
      LessEqTransitive(a[1..], b[1..], c[1..]);
    }
  }

  lemma {:induction false} LessEqTotal(a: string, b: string)
    ensures LessEq(a, b) || LessEq(b, a)
  {
    if |a| > 0 && |b| > 0 && a[0] == b[0] {
      LessEqTotal(a[1..], b[1..]);
    }
  }

  /** Every pair of positions is in order (duplicates allowed). */
  ghost predicate Sorted(xs: seq<string>)
  {
    forall i, j :: 0 <= i < j < |xs| ==> LessEq(xs[i], xs[j])
  }

  /** Every pair of positions is strictly in order, so no string repeats. */
  ghost predicate StrictlySorted(xs: seq<string>)
  {
    forall i, j :: 0 <= i < j < |xs| ==> Less(xs[i], xs[j])
  }

  ghost predicate IsLeast(m: string, s: set<string>)
  {
    m in s && forall x :: x in s ==> LessEq(m, x)
  }

  lemma {:induction false} LeastExists(s: set<string>)
    requires s != {}
    ensures exists m :: IsLeast(m, s)
    decreases |s|
  {
    var x :| x in s;
    if s == {x} {
      LessEqReflexive(x);
      assert IsLeast(x, s);
    } else {
      LeastExists(s - {x});
      var m :| IsLeast(m, s - {x});
      LessEqTotal(m, x);
      if LessEq(m, x) {
        assert IsLeast(m, s);
      } else {
        forall y | y in s
          ensures LessEq(x, y)
        {
          if y == x {
            LessEqReflexive(x);
          } else {
            LessEqTransitive(x, m, y);
          }
        }
        assert IsLeast(x, s);
      }
    }
  }

  /** The elements of `s` in ascending order: the order in which the writer
      emits the extra fields of a record. */
  ghost function SortedKeys(s: set<string>): (xs: seq<string>)
    ensures StrictlySorted(xs)
    ensures |xs| == |s|
    ensures forall x :: x in xs <==> x in s
    decreases |s|
  {
    if s == {} then []
    else
      LeastExists(s);
      var m :| IsLeast(m, s);
      var rest := SortedKeys(s - {m});
      LeastFirst(m, rest, s);
      [m] + rest
  }

  lemma LeastFirst(m: string, rest: seq<string>, s: set<string>)
    requires IsLeast(m, s) && StrictlySorted(rest)
    requires forall x :: x in rest <==> x in s - {m}
    ensures StrictlySorted([m] + rest)
  {
    var xs := [m] + rest;
    forall i, j | 0 <= i < j < |xs|
      ensures Less(xs[i], xs[j])
    {
      if i > 0 {
        assert xs[i] == rest[i - 1] && xs[j] == rest[j - 1];
      } else {
        assert xs[j] == rest[j - 1];
        assert rest[j - 1] in rest;
      }
    }
  }

  /** A strictly sorted sequence is determined by its elements. */
  lemma {:induction false} StrictlySortedUnique(xs: seq<string>, ys: seq<string>)
    requires StrictlySorted(xs) && StrictlySorted(ys)
    requires forall x :: x in xs <==> x in ys
    ensures xs == ys
    decreases |xs|
  {
    assert xs == [] <==> ys == [] by {
      if xs != [] {
        assert xs[0] in ys;
      }
      if ys != [] {
        assert ys[0] in xs;
      }
    }
    if xs != [] {
      if xs[0] != ys[0] {
        assert xs[0] in ys;
        assert ys[0] in xs;
        var i :| 0 <= i < |xs| && xs[i] == ys[0];
        var j :| 0 <= j < |ys| && ys[j] == xs[0];
        assert Less(xs[0], xs[i]);
        assert Less(ys[0], ys[j]);
        LessEqAntisymmetric(xs[0], ys[0]);
      }
      forall x
        ensures x in xs[1..] <==> x in ys[1..]
      {
        if x in xs[1..] {
          var i :| 1 <= i < |xs| && xs[i] == x;
          assert Less(xs[0], xs[i]);
        }
        if x in ys[1..] {
          var j :| 1 <= j < |ys| && ys[j] == x;
          assert Less(ys[0], ys[j]);
        }
        assert x in xs <==> x in xs[..1] || x in xs[1..] by {
          assert xs == xs[..1] + xs[1..];
        }
        assert x in ys <==> x in ys[..1] || x in ys[1..] by {
          assert ys == ys[..1] + ys[1..];
        }
      }
      StrictlySortedUnique(xs[1..], ys[1..]);
      assert xs == [xs[0]] + xs[1..];
      assert ys == [ys[0]] + ys[1..];
    }
  }

  /** A sorted sequence holding each element of `s` exactly once is the
      ascending enumeration of `s`: whatever order the elements were collected
      in, sorting them yields `SortedKeys(s)`. */
  lemma SortedEnumeration(xs: seq<string>, s: set<string>)
    requires Sorted(xs)
    requires multiset(xs) == multiset(s)
    ensures xs == SortedKeys(s)
  {
    forall i, j | 0 <= i < j < |xs|
      ensures Less(xs[i], xs[j])
    {
      var x := xs[i];
      assert xs == xs[..j] + xs[j..];
      assert x in xs[..j];
      assert xs[j] in xs[j..];
      assert multiset(xs)[x] == multiset(xs[..j])[x] + multiset(xs[j..])[x];
      assert multiset(s)[x] <= 1;
    }
    forall x
      ensures x in xs <==> x in s
    {
      assert x in xs <==> x in multiset(xs);
    }
    StrictlySortedUnique(xs, SortedKeys(s));
  }

  /** The first `k` elements of `xs` are in order and none is greater than
      an element after them: the part of the array a selection sort has done. */
  ghost predicate SortedPrefix(xs: seq<string>, k: nat)
  {
    (forall p, q :: 0 <= p < q < k && q < |xs| ==> LessEq(xs[p], xs[q])) &&
    (forall p, q :: 0 <= p < k <= q < |xs| ==> LessEq(xs[p], xs[q]))
  }

  /** Swapping the least remaining element to position `i` extends the done part. */
  lemma SelectStep(xs: seq<string>, i: nat, m: nat)
    requires i <= m < |xs|
    requires SortedPrefix(xs, i)
    requires forall q :: i <= q < |xs| ==> LessEq(xs[m], xs[q])
    ensures SortedPrefix(xs[i := xs[m]][m := xs[i]], i + 1)
    ensures multiset(xs[i := xs[m]][m := xs[i]]) == multiset(xs)
  {
    var ys := xs[i := xs[m]][m := xs[i]];
    forall p, q | 0 <= p < q < i + 1 && q < |ys|
      ensures LessEq(ys[p], ys[q])
    {
      assert ys[p] == xs[p];
      if q == i {
        assert ys[q] == xs[m];
      } else {
        assert ys[q] == xs[q];
      }
    }
    forall p, q | 0 <= p < i + 1 <= q < |ys|
      ensures LessEq(ys[p], ys[q])
    {
      var q' := if q == m then i else q;
      assert ys[q] == xs[q'] && i <= q';
      if p == i {
        assert ys[p] == xs[m];
      } else {
        assert ys[p] == xs[p];
      }
    }
  }

  /** The position of a least element of `a[from..]`. */
  method IndexOfLeast(a: array<string>, from: nat) returns (m: nat)
    requires from < a.Length
    ensures from <= m < a.Length
    ensures forall q :: from <= q < a.Length ==> LessEq(a[m], a[q])
  {
    m := from;
    var j := from + 1;
    LessEqReflexive(a[from]);
    while j < a.Length
      invariant from <= m < j <= a.Length
      invariant forall q :: from <= q < j ==> LessEq(a[m], a[q])
    {
      if Less(a[j], a[m]) {
        forall q | from <= q < j
          ensures LessEq(a[j], a[q])
        {
          LessEqTransitive(a[j], a[m], a[q]);
        }
        LessEqReflexive(a[j]);
        m := j;
      } else {
        LessEqTotal(a[j], a[m]);
        LessEqReflexive(a[j]);
      }
      j := j + 1;
    }
  }

  /** `sort.Strings`: sorts the array in place, in increasing order
      (here by selection of the least remaining element). */
  method SortStrings(a: array<string>)
    modifies a
    ensures Sorted(a[..])
    ensures multiset(a[..]) == multiset(old(a[..]))
  {
    var i := 0;
    while i < a.Length
      invariant 0 <= i <= a.Length
      invariant SortedPrefix(a[..], i)
      invariant multiset(a[..]) == multiset(old(a[..]))
    {
      var m := IndexOfLeast(a, i);
      SelectStep(a[..], i, m);
      a[i], a[m] := a[m], a[i];
      i := i + 1;
    }
  }
}
