/** Option and result types, and the few sequence operations shared by every component. */
module Sequences {

  datatype Option<+T> = None | Some(value: T)

  /** The source's (value, error) returns; the error text itself is not modelled. */
  datatype Result<+T> = Ok(value: T) | Err

  /** The elements of `s` satisfying `keep`, in order. */
  function Filter<T>(keep: T -> bool, s: seq<T>): (r: seq<T>)
    ensures |r| <= |s|
    ensures forall x | x in r :: x in s && keep(x)
    ensures forall x | x in s :: keep(x) ==> x in r
  {
    if s == [] then []
    else
      var rest := Filter(keep, s[..|s| - 1]);
      if keep(s[|s| - 1]) then rest + [s[|s| - 1]] else rest
  }

  function Map<T, U>(f: T -> U, s: seq<T>): (r: seq<U>)
    ensures |r| == |s|
    ensures forall i | 0 <= i < |s| :: r[i] == f(s[i])
  {
    seq(|s|, i requires 0 <= i < |s| => f(s[i]))
  }

  lemma MapSnoc<T, U>(f: T -> U, s: seq<T>, x: T)
    ensures Map(f, s + [x]) == Map(f, s) + [f(x)]
  {}

  lemma SliceInit<T>(s: seq<T>, a: nat, b: nat)
    requires a <= b < |s|
    ensures s[..|s| - 1][a..b] == s[a..b]
  {}

  lemma SliceLast<T>(s: seq<T>, a: nat)
    requires a < |s|
    ensures s[a..] == s[..|s| - 1][a..] + [s[|s| - 1]]
  {}

  lemma Assoc<T>(a: seq<T>, b: seq<T>, c: seq<T>)
    ensures a + (b + c) == (a + b) + c
  {}

  lemma SnocInit<T>(s: seq<T>, x: T)
    ensures (s + [x])[..|s|] == s && (s + [x])[|s|] == x
  {}

  lemma Unsnoc<T>(s: seq<T>)
    requires s != []
    ensures s == s[..|s| - 1] + [s[|s| - 1]]
  {}

  lemma ConcatInit<T>(a: seq<T>, b: seq<T>)
    requires b != []
    ensures (a + b)[..|a + b| - 1] == a + b[..|b| - 1] && (a + b)[|a + b| - 1] == b[|b| - 1]
  {}

  predicate NoDuplicates<T(==)>(s: seq<T>) {
    forall i, j | 0 <= i < j < |s| :: s[i] != s[j]
  }

  lemma {:induction false} FilterAppend<T>(keep: T -> bool, a: seq<T>, b: seq<T>)
    ensures Filter(keep, a + b) == Filter(keep, a) + Filter(keep, b)
  {
    if b == [] {
      assert a + b == a;
    } else {
      FilterAppend(keep, a, b[..|b| - 1]);
      assert (a + b)[..|a + b| - 1] == a + b[..|b| - 1];
    }
  }

  lemma {:induction false} FilterAll<T>(keep: T -> bool, s: seq<T>)
    requires forall x | x in s :: keep(x)
    ensures Filter(keep, s) == s
  {
    if s != [] {
      FilterAll(keep, s[..|s| - 1]);
      assert s == s[..|s| - 1] + [s[|s| - 1]];
    }
  }

  lemma {:induction false} NoneKept<T>(keep: T -> bool, s: seq<T>)
    requires forall x | x in s :: !keep(x)
    ensures Filter(keep, s) == []
  {
    if s != [] {
      NoneKept(keep, s[..|s| - 1]);
    }
  }

  lemma {:induction false} FilterSame<T>(p: T -> bool, q: T -> bool, s: seq<T>)
    requires forall x | x in s :: p(x) == q(x)
    ensures Filter(p, s) == Filter(q, s)
  {
    if s != [] {
      FilterSame(p, q, s[..|s| - 1]);
    }
  }

  lemma FilterTwice<T>(keep: T -> bool, s: seq<T>)
    ensures Filter(keep, Filter(keep, s)) == Filter(keep, s)
  {
    FilterAll(keep, Filter(keep, s));
  }

  /** The rows one after another. */
  function Flat<T>(rows: seq<seq<T>>): seq<T> {
    if rows == [] then [] else Flat(rows[..|rows| - 1]) + rows[|rows| - 1]
  }

  lemma FlatStep<T>(rows: seq<seq<T>>, i: nat)
    requires i < |rows|
    ensures Flat(rows[..i + 1]) == Flat(rows[..i]) + rows[i]
  {
    PrefixStep(rows, i);
  }

  lemma {:induction false} FlatGrows<T>(rows: seq<seq<T>>, i: nat, n: nat)
    requires i <= n <= |rows|
    ensures Flat(rows[..i]) <= Flat(rows[..n])
  {
    if i < n {
      FlatGrows(rows, i, n - 1);
      FlatStep(rows, n - 1);
    }
  }

  /** The first element of row `i` stands right after the rows before it. */
  lemma FlatAt<T>(rows: seq<seq<T>>, i: nat)
    requires i < |rows| && rows[i] != []
    ensures |Flat(rows[..i])| < |Flat(rows)| && Flat(rows)[|Flat(rows[..i])|] == rows[i][0]
  {
    FlatStep(rows, i);
    FlatGrows(rows, i + 1, |rows|);
    assert rows[..|rows|] == rows;
  }

  /** What the elements give, joined. */
  lemma FlatMapSnoc<T, U>(f: T -> seq<U>, s: seq<T>, x: T)
    ensures Flat(Map(f, s + [x])) == Flat(Map(f, s)) + f(x)
  {
    MapSnoc(f, s, x);
    SnocInit(Map(f, s), f(x));
  }

  /** `x` is the last of the strings that is not empty, or empty when all are. */
  ghost predicate IsLast(x: string, s: seq<string>) {
    if x == "" then forall i | 0 <= i < |s| :: s[i] == ""
    else exists i | 0 <= i < |s| :: s[i] == x && forall j | i < j < |s| :: s[j] == ""
  }

  lemma IsLastSnoc(x: string, s: seq<string>, y: string)
    requires IsLast(x, s)
    ensures IsLast(if y != "" then y else x, s + [y])
  {
    var t := s + [y];
    assert t[|s|] == y;
    if y == "" && x != "" {
      var i :| 0 <= i < |s| && s[i] == x && forall j | i < j < |s| :: s[j] == "";
      assert t[i] == x && forall j | i < j < |t| :: t[j] == "";
    }
  }

  /** The prefix up to and including position `i`, one element at a time. */
  lemma PrefixStep<T>(s: seq<T>, i: nat)
    requires i < |s|
    ensures s[..i + 1] == s[..i] + [s[i]]
    ensures s[..i + 1][..|s[..i + 1]| - 1] == s[..i]
  {}

  function Reversed<T>(s: seq<T>): seq<T> {
    if s == [] then [] else [s[|s| - 1]] + Reversed(s[..|s| - 1])
  }

  lemma ReversedSnoc<T>(s: seq<T>, x: T)
    ensures Reversed(s + [x]) == [x] + Reversed(s)
  {
    assert (s + [x])[..|s|] == s;
  }

  method Reverse<T>(s: seq<T>) returns (out: seq<T>)
    ensures out == Reversed(s)
  {
    out := [];
    for i := 0 to |s|
      invariant out == Reversed(s[..i])
    {
      PrefixStep(s, i);
      out := [s[i]] + out;
    }
    assert s[..|s|] == s;
  }
}
