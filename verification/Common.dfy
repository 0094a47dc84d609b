/** Small datatypes and finite-set facts shared by every part of the model. */
module Common {
  datatype Option<+T> = None | Some(value: T)

  datatype Result<+T, +E> = Ok(value: T) | Err(error: E)

  type byte = x: int | 0 <= x < 256

  type Bytes = seq<byte>

  function Max(a: int, b: int): int {
    if a >= b then a else b
  }

  function Zeros(n: nat): (z: Bytes)
    ensures |z| == n && forall i :: 0 <= i < n ==> z[i] == 0
  {
    if n == 0 then [] else Zeros(n - 1) + [0]
  }

  lemma {:induction false} SubsetSize<T>(a: set<T>, b: set<T>)
    requires a <= b
    ensures |a| <= |b|
  {
    if a != {} {
      var x :| x in a;
      SubsetSize(a - {x}, b - {x});
    }
  }

  /** The set of the first n natural numbers. */
  function Range(n: nat): (r: set<nat>)
    ensures forall i: nat :: i in r <==> i < n
    ensures |r| == n
  {
    if n == 0 then {} else Range(n - 1) + {n - 1}
  }

  /** Two sets of nodes that are each larger than half of the system share a node. */
  lemma {:induction false} MajoritiesMeet(a: set<nat>, b: set<nat>, n: nat)
    requires a <= Range(n) && b <= Range(n)
    requires |a| + |b| > n
    ensures a * b != {}
  {
    SubsetSize(a + b, Range(n));
  }

  lemma {:induction false} InjectiveImageSize<S, T>(s: set<S>, f: S -> T, image: set<T>)
    requires forall x, y :: x in s && y in s && f(x) == f(y) ==> x == y
    requires image == set x | x in s :: f(x)
    ensures |image| == |s|
  {
    if s == {} {
      assert image == {};
    } else {
      var x :| x in s;
      var rest := set y | y in s - {x} :: f(y);
      assert image == rest + {f(x)};
      InjectiveImageSize(s - {x}, f, rest);
    }
  }
}
