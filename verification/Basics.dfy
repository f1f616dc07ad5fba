/** Options, and the equalities between sequences that proofs elsewhere call by name: a few facts
    about putting parts together and taking parts out, each of which the verifier knows when it
    is asked for, and overlooks in the middle of a longer argument. Nothing here belongs to any
    one part of the program; every other module builds on it, most of them only for the type of
    optional values, which stands for None and for exceptions alike. */
module Basics {
  datatype Option<+T> = None | Some(value: T)

  // ----- sequences: equalities worth a name -----

  lemma Assoc<T>(a: seq<T>, b: seq<T>, c: seq<T>)
    ensures a + (b + c) == a + b + c
  {
  }

  lemma Rest<T>(x: T, rest: seq<T>)
    ensures ([x] + rest)[0] == x && ([x] + rest)[1..] == rest
  {
  }

  lemma MoveFirst<T>(before: seq<T>, ss: seq<T>)
    requires ss != []
    ensures before + [ss[0]] + ss[1..] == before + ss
  {
  }

  lemma InitLast<T>(s: seq<T>)
    requires s != []
    ensures s == s[..|s| - 1] + [s[|s| - 1]]
  {
  }

  lemma SliceTwice<T>(s: seq<T>, a: nat, b: nat, c: nat, d: nat)
    requires a <= b <= |s| && c <= d <= b - a
    ensures s[a..b][c..d] == s[a + c..a + d]
  {
    var u, v := s[a..b][c..d], s[a + c..a + d];
    forall k | 0 <= k < |u| ensures u[k] == v[k] { assert s[a..b][c + k] == s[a + c + k]; }
  }

  // ----- sets -----

  lemma {:induction false} SubsetSize<T>(a: set<T>, b: set<T>)
    requires a <= b
    ensures |a| <= |b| && (|a| == |b| ==> a == b)
  {
    if a != {} {
      var x :| x in a;
      SubsetSize(a - {x}, b - {x});
    }
  }

  predicate NoRepeats<T(==)>(s: seq<T>) {
    forall i, j :: 0 <= i < j < |s| ==> s[i] != s[j]
  }

  function Elements<T(==)>(s: seq<T>): set<T> {
    set x | x in s
  }

  lemma {:induction false} ElementsCount<T>(s: seq<T>)
    requires NoRepeats(s)
    ensures |Elements(s)| == |s|
  {
    if s != [] {
      var before, last := s[..|s| - 1], s[|s| - 1];
      ElementsCount(before);
      assert Elements(s) == Elements(before) + {last};
    }
  }
}
