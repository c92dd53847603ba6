/** Order-preserving subsequences. */
module Subsequences {

  /** a can be got from b by leaving elements out. */
  predicate Sub<T(==)>(a: seq<T>, b: seq<T>) {
    if a == [] then true
    else if b == [] then false
    else if a[|a| - 1] == b[|b| - 1] && Sub(a[..|a| - 1], b[..|b| - 1]) then true
    else Sub(a, b[..|b| - 1])
  }

  lemma SubAppend<T>(a: seq<T>, b: seq<T>, x: T)
    requires Sub(a, b)
    ensures Sub(a + [x], b + [x]) && Sub(a, b + [x])
  {
    assert (a + [x])[..|a|] == a && (b + [x])[..|b|] == b;
  }

  lemma {:induction false} SubSelf<T>(a: seq<T>)
    ensures Sub(a, a)
  {
    if a != [] {
      SubSelf(a[..|a| - 1]);
    }
  }

  lemma {:induction false} SubInit<T>(a: seq<T>, b: seq<T>)
    requires a != [] && Sub(a, b)
    ensures Sub(a[..|a| - 1], b)
  {
    var n, m := |a| - 1, |b| - 1;
    if a[n] == b[m] && Sub(a[..n], b[..m]) {
      SubAppend(a[..n], b[..m], b[m]);
      assert b == b[..m] + [b[m]];
    } else {
      SubInit(a, b[..m]);
      SubAppend(a[..n], b[..m], b[m]);
      assert b == b[..m] + [b[m]];
    }
  }

  /** Leaving out one more element. */
  lemma {:induction false} SubDrop<T>(a: seq<T>, b: seq<T>, i: nat)
    requires i < |a| && Sub(a, b)
    ensures Sub(a[..i] + a[i + 1..], b)
    decreases |b|
  {
    var n, m := |a| - 1, |b| - 1;
    if i == n {
      SubInit(a, b);
      assert a[..i] + a[i + 1..] == a[..n];
    } else {
      var dropped := a[..i] + a[i + 1..];
      assert b == b[..m] + [b[m]];
      if a[n] == b[m] && Sub(a[..n], b[..m]) {
        SubDrop(a[..n], b[..m], i);
        assert dropped == (a[..n][..i] + a[..n][i + 1..]) + [a[n]];
        SubAppend(a[..n][..i] + a[..n][i + 1..], b[..m], a[n]);
      } else {
        SubDrop(a, b[..m], i);
        SubAppend(dropped, b[..m], b[m]);
      }
    }
  }

  lemma {:induction false} SubPrefix<T>(a: seq<T>, b: seq<T>, n: nat)
    requires n <= |a| && Sub(a, b)
    ensures Sub(a[..n], b)
    decreases |a|
  {
    if n < |a| {
      SubInit(a, b);
      assert a[..|a| - 1][..n] == a[..n];
      SubPrefix(a[..|a| - 1], b, n);
    } else {
      assert a[..n] == a;
    }
  }

  lemma {:induction false} SubTransitive<T>(a: seq<T>, b: seq<T>, c: seq<T>)
    requires Sub(a, b) && Sub(b, c)
    ensures Sub(a, c)
    decreases |b| + |c|
  {
    if a != [] {
      var k, n, m := |a| - 1, |b| - 1, |c| - 1;
      assert c == c[..m] + [c[m]];
      if b[n] == c[m] && Sub(b[..n], c[..m]) {
        if a[k] == b[n] && Sub(a[..k], b[..n]) {
          SubTransitive(a[..k], b[..n], c[..m]);
        } else {
          SubTransitive(a, b[..n], c[..m]);
          SubAppend(a, c[..m], c[m]);
        }
      } else {
        SubTransitive(a, b, c[..m]);
        SubAppend(a, c[..m], c[m]);
      }
    }
  }

  function Select<T>(a: seq<T>, p: T -> bool): seq<T> {
    if a == [] then []
    else Select(a[..|a| - 1], p) + if p(a[|a| - 1]) then [a[|a| - 1]] else []
  }

  lemma SelectAppend<T>(a: seq<T>, x: T, p: T -> bool)
    ensures Select(a + [x], p) == Select(a, p) + if p(x) then [x] else []
  {
    assert (a + [x])[..|a|] == a;
  }

  /** Selecting keeps the subsequence relation. */
  lemma {:induction false} SubSelect<T>(a: seq<T>, b: seq<T>, p: T -> bool)
    requires Sub(a, b)
    ensures Sub(Select(a, p), Select(b, p))
    decreases |b|
  {
    if a != [] {
      var n, m := |a| - 1, |b| - 1;
      var kept := Select(b[..m], p);
      if a[n] == b[m] && Sub(a[..n], b[..m]) {
        SubSelect(a[..n], b[..m], p);
        SubAppend(Select(a[..n], p), kept, a[n]);
        assert Select(a, p) == Select(a[..n], p) + if p(a[n]) then [a[n]] else [];
        assert Select(b, p) == kept + if p(a[n]) then [a[n]] else [];
        assert !p(a[n]) ==> Select(a, p) == Select(a[..n], p) && Select(b, p) == kept;
      } else {
        SubSelect(a, b[..m], p);
        SubAppend(Select(a, p), kept, b[m]);
        assert !p(b[m]) ==> Select(b, p) == kept;
      }
    }
  }

  lemma {:induction false} SubLength<T>(a: seq<T>, b: seq<T>)
    requires Sub(a, b)
    ensures |a| <= |b|
    ensures forall x :: x in a ==> x in b
  {
    if a != [] {
      var n, m := |a| - 1, |b| - 1;
      if a[n] == b[m] && Sub(a[..n], b[..m]) {
        SubLength(a[..n], b[..m]);
        assert a == a[..n] + [a[n]];
      } else {
        SubLength(a, b[..m]);
      }
    }
  }
}
