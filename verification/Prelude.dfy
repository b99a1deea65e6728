/** Small vocabulary shared by every module: optional values, facts about the
    size of sets, and the chain position that orders on-chain operations. */
module Prelude {

  datatype Option<+T> = None | Some(value: T)

  function Last<T>(s: seq<T>): T
    requires |s| > 0
  {
    s[|s| - 1]
  }

  predicate NoDuplicates<T(==)>(s: seq<T>)
  {
    forall i, j :: 0 <= i < j < |s| ==> s[i] != s[j]
  }

  lemma SubsetSize<T>(a: set<T>, b: set<T>)
    requires a <= b
    ensures |a| <= |b|
  {
    assert b == a + (b - a);
  }

  // A sequence without repetition drawn from a finite set is no longer than it.
  lemma {:induction false} NoDuplicatesFit<T>(s: seq<T>, domain: set<T>)
    requires NoDuplicates(s)
    requires forall i :: 0 <= i < |s| ==> s[i] in domain
    ensures |s| <= |domain|
  {
    if |s| > 0 {
      NoDuplicatesFit(s[1..], domain - {s[0]});
    }
  }

  // A set whose elements a function sends injectively into another is no larger.
  lemma {:induction false} InjectionFits<A, B>(domain: set<A>, codomain: set<B>, f: A --> B)
    requires forall a :: a in domain ==> f.requires(a) && f(a) in codomain
    requires forall a, b :: a in domain && b in domain && f(a) == f(b) ==> a == b
    ensures |domain| <= |codomain|
  {
    if domain != {} {
      var a :| a in domain;
      InjectionFits(domain - {a}, codomain - {f(a)}, f);
    }
  }

  /** Where an operation sits on the chain: its block and its HAF operation id.
      Every latest-wins query orders on this pair, block first. */
  datatype Pos = Pos(block: nat, id: nat)

  predicate Before(a: Pos, b: Pos)
  {
    a.block < b.block || (a.block == b.block && a.id < b.id)
  }

  function Min(a: real, b: real): real { if a < b then a else b }

  function Max(a: real, b: real): real { if a < b then b else a }

  // Named, so that a proof about what is multiplied can keep it folded.
  function Product(x: real, y: real): real { x * y }

  // A sum over a finite set, in whatever order the elements come.
  ghost function SumOver<T>(s: set<T>, f: T -> real): real
  {
    if s == {} then 0.0
    else
      var x :| x in s;
      f(x) + SumOver(s - {x}, f)
  }

  lemma {:induction false} SumAgrees<T>(s: set<T>, f: T -> real, g: T -> real)
    requires forall x :: x in s ==> f(x) == g(x)
    ensures SumOver(s, f) == SumOver(s, g)
  {
    if s != {} {
      var x :| x in s && SumOver(s, f) == f(x) + SumOver(s - {x}, f);
      SumAgrees(s - {x}, f, g);
      SumTakesOut(s, g, x);
    }
  }

  // The order in which the elements are added does not matter.
  lemma {:induction false} SumTakesOut<T>(s: set<T>, f: T -> real, x: T)
    requires x in s
    ensures SumOver(s, f) == f(x) + SumOver(s - {x}, f)
  {
    var y :| y in s && SumOver(s, f) == f(y) + SumOver(s - {y}, f);
    if y != x {
      SumTakesOut(s - {y}, f, x);
      SumTakesOut(s - {x}, f, y);
      assert s - {y} - {x} == s - {x} - {y};
    }
  }
}
