/** Small datatypes and collection facts shared by the other modules. */
module Prelude {
  datatype Option<+T> = None | Some(value: T)

  datatype Result<+T, +E> = Ok(value: T) | Err(error: E)

  const U64_MAX: nat := 0xFFFF_FFFF_FFFF_FFFF
  const U128_MAX: nat := 0xFFFF_FFFF_FFFF_FFFF_FFFF_FFFF_FFFF_FFFF

  /** `u64::saturating_add`. */
  function SaturatingAdd(a: nat, b: nat): (r: nat) {
    if a + b > U64_MAX then U64_MAX else a + b
  }

  /** The elements of a sequence as a set. */
  function Elems<T>(s: seq<T>): (r: set<T>) {
    set x | x in s
  }

  /** A sequence without repeats. */
  ghost predicate Distinct<T>(s: seq<T>) {
    forall i, j :: 0 <= i < j < |s| ==> s[i] != s[j]
  }

  /** A subset of a finite set that is as large as the set is the whole set. */
  lemma FullSubset<T>(small: set<T>, big: set<T>)
    requires small <= big && |small| >= |big|
    ensures small == big
  {
    if small != big {
      var x :| x in big && x !in small;
      SubsetSize(small, big - {x});
    }
  }

  lemma {:induction false} SubsetSize<T>(small: set<T>, big: set<T>)
    requires small <= big
    ensures |small| <= |big|
  {
    if small != {} {
      var x :| x in small;
      SubsetSize(small - {x}, big - {x});
    }
  }

  /** A sequence without repeats has as many elements as positions. */
  lemma {:induction false} DistinctSize<T>(s: seq<T>)
    requires Distinct(s)
    ensures |Elems(s)| == |s|
  {
    if s != [] {
      var init, last := s[..|s| - 1], s[|s| - 1];
      DistinctSize(init);
      assert s == init + [last];
      assert Elems(s) == Elems(init) + {last};
    }
  }

  lemma DistinctConcat<T>(a: seq<T>, b: seq<T>)
    requires Distinct(a) && Distinct(b) && forall x <- b :: x !in a
    ensures Distinct(a + b)
  {
    forall i, j | 0 <= i < j < |a + b| ensures (a + b)[i] != (a + b)[j] {
      if i < |a| <= j {
        assert a[i] in a && b[j - |a|] in b;
      }
    }
  }

  // ----- least elements -----

  predicate IsMin(s: set<nat>, m: nat) {
    m in s && forall x <- s :: m <= x
  }

  lemma {:induction false} MinExists(s: set<nat>)
    requires s != {}
    ensures exists m :: IsMin(s, m)
  {
    var x :| x in s;
    var rest := s - {x};
    assert s == rest + {x};
    if rest == {} {
      assert IsMin(s, x);
    } else {
      MinExists(rest);
      var m :| IsMin(rest, m);
      assert IsMin(s, if m < x then m else x);
    }
  }

  function MinKey(s: set<nat>): (m: nat)
    requires s != {}
    ensures IsMin(s, m)
  {
    MinExists(s);
    var m :| IsMin(s, m);
    m
  }

  ghost predicate Increasing(s: seq<nat>) {
    forall i, j :: 0 <= i < j < |s| ==> s[i] < s[j]
  }

  lemma ConsIncreasing(m: nat, s: set<nat>, rest: seq<nat>)
    requires Increasing(rest) && Elems(rest) == s && m !in s && forall x <- s :: m <= x
    ensures Increasing([m] + rest) && Elems([m] + rest) == s + {m}
  {
    assert forall x :: x in [m] + rest <==> x == m || x in rest;
    forall i, j | 0 <= i < j < |[m] + rest| ensures ([m] + rest)[i] < ([m] + rest)[j] {
      assert rest[j - 1] in Elems(rest);
    }
  }

  /** The elements of a set in increasing order, as an ordered map iterates. */
  function SortedKeys(s: set<nat>): (r: seq<nat>)
    ensures Elems(r) == s && |r| == |s| && Increasing(r)
  {
    if s == {} then []
    else
      var m := MinKey(s);
      ConsIncreasing(m, s - {m}, SortedKeys(s - {m}));
      [m] + SortedKeys(s - {m})
  }

  /** A number above all of a finite set. */
  lemma {:induction false} Unused(used: set<nat>) returns (s: nat)
    ensures s !in used
    ensures forall t <- used :: t < s
  {
    if used == {} {
      s := 0;
    } else {
      var t :| t in used;
      var rest := Unused(used - {t});
      s := if rest > t then rest else t + 1;
      forall r | r in used ensures r < s {
        assert r == t || r in used - {t};
      }
    }
  }

  // ----- products -----

  lemma MulLe(a: nat, b: nat, c: nat)
    requires a <= b
    ensures a * c <= b * c
  {
  }

  lemma MulLtContra(a: nat, b: nat, c: nat)
    ensures b <= a ==> b * c <= a * c
  {
    if b <= a {
      MulLe(b, a, c);
    }
  }

  lemma DivBounds(a: nat, b: nat)
    requires b > 0
    ensures (a / b) * b <= a < (a / b) * b + b
  {
  }

  lemma MulLt(a: nat, b: nat, c: nat)
    requires a * c < b * c
    ensures a < b
  {
    MulLtContra(a, b, c);
  }
}
