/** Small facts about sets, maps and ordered sequences that several modules share. */
module Basics {

  type byte = x: int | 0 <= x < 256

  datatype Option<+T> = None | Some(value: T)

  datatype Result<+T> = Ok(value: T) | Err(code: nat)

  const MAX_U64: nat := 0xffff_ffff_ffff_ffff

  /** The smallest whole number not below a real: `Math.ceil`. */
  function Ceil(x: real): int {
    -((-x).Floor)
  }

  function Last<T>(q: seq<T>): T
    requires q != []
  {
    q[|q| - 1]
  }

  lemma SubsetSize<T>(a: set<T>, b: set<T>)
    requires a <= b
    ensures |a| <= |b|
  {
    assert b == a + (b - a);
  }

  /** A strictly increasing sequence: the shape of every route queue. */
  ghost predicate Increasing(q: seq<nat>) {
    forall i, j :: 0 <= i < j < |q| ==> q[i] < q[j]
  }

  ghost function Elements(q: seq<nat>): (s: set<nat>)
    ensures forall x :: x in s <==> x in q
  {
    set x | x in q
  }

  ghost predicate Distinct(q: seq<nat>) {
    forall i, j :: 0 <= i < j < |q| ==> q[i] != q[j]
  }

  lemma {:induction false} DistinctSize(q: seq<nat>)
    requires Distinct(q)
    ensures |Elements(q)| == |q|
  {
    if q == [] {
      assert Elements(q) == {};
    } else {
      var rest := q[..|q| - 1];
      DistinctSize(rest);
      assert q == rest + [q[|q| - 1]];
      assert Elements(q) == Elements(rest) + {q[|q| - 1]};
    }
  }

  lemma IncreasingDistinct(q: seq<nat>)
    requires Increasing(q)
    ensures Distinct(q) && |Elements(q)| == |q|
  {
    DistinctSize(q);
  }

  /** `VecDeque::retain` with one element dropped. */
  function Without(q: seq<nat>, x: nat): (r: seq<nat>)
    ensures forall y :: y in r <==> y in q && y != x
    ensures |r| <= |q|
  {
    if q == [] then []
    else if q[0] == x then Without(q[1..], x)
    else [q[0]] + Without(q[1..], x)
  }

  lemma {:induction false} WithoutKeepsOrder(q: seq<nat>, x: nat)
    requires Increasing(q)
    ensures Increasing(Without(q, x))
  {
    if q != [] {
      WithoutKeepsOrder(q[1..], x);
      var r := Without(q[1..], x);
      forall i | 0 <= i < |r| ensures q[0] < r[i] {
        assert r[i] in q[1..];
      }
    }
  }

  lemma {:induction false} WithoutKeepsDistinct(q: seq<nat>, x: nat)
    requires Distinct(q)
    ensures Distinct(Without(q, x))
  {
    if q != [] {
      WithoutKeepsDistinct(q[1..], x);
      var r := Without(q[1..], x);
      forall i | 0 <= i < |r| ensures q[0] != r[i] {
        assert r[i] in q[1..];
      }
    }
  }

  ghost predicate IsLeast(m: nat, s: set<nat>) {
    m in s && forall x :: x in s ==> m <= x
  }

  lemma LeastOfMore(m: nat, rest: set<nat>, y: nat)
    requires IsLeast(m, rest)
    ensures IsLeast(if m <= y then m else y, rest + {y})
  {
  }

  lemma {:induction false} HasLeast(s: set<nat>)
    requires s != {}
    ensures exists m: nat :: IsLeast(m, s)
  {
    var y :| y in s;
    var rest := s - {y};
    assert s == rest + {y};
    if rest == {} {
      assert IsLeast(y, s);
    } else {
      HasLeast(rest);
      var m: nat :| IsLeast(m, rest);
      LeastOfMore(m, rest, y);
    }
  }

  ghost function Least(s: set<nat>): (m: nat)
    requires s != {}
    ensures m in s && forall x :: x in s ==> m <= x
  {
    HasLeast(s);
    var m: nat :| IsLeast(m, s);
    m
  }
}
