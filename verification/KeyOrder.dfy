/** The order of Go strings, and sorting by a string key. */
module KeyOrder {
  predicate Below(a: string, b: string) {
    b != "" && (a == "" || a[0] < b[0] || (a[0] == b[0] && Below(a[1..], b[1..])))
  }

  lemma {:induction false} BelowTotal(a: string, b: string)
    ensures a == b || Below(a, b) || Below(b, a)
  {
    if a != "" && b != "" && a[0] == b[0] {
      BelowTotal(a[1..], b[1..]);
      assert a == [a[0]] + a[1..] && b == [b[0]] + b[1..];
    }
  }

  lemma {:induction false} BelowTransitive(a: string, b: string, c: string)
    requires Below(a, b) && Below(b, c)
    ensures Below(a, c)
  {
    if a != "" && a[0] == b[0] == c[0] { BelowTransitive(a[1..], b[1..], c[1..]); }
  }

  lemma {:induction false} BelowIrreflexive(a: string)
    ensures !Below(a, a)
  {
    if a != "" { BelowIrreflexive(a[1..]); }
  }

  /** Strictly ascending. */
  predicate Ascending(keys: seq<string>) {
    forall i, j | 0 <= i < j < |keys| :: Below(keys[i], keys[j])
  }

  function Insert(k: string, keys: seq<string>): (r: seq<string>)
    ensures forall x :: x in r <==> x == k || x in keys
  {
    if keys == [] || Below(k, keys[0]) then [k] + keys else [keys[0]] + Insert(k, keys[1..])
  }

  lemma {:induction false} InsertAscending(k: string, keys: seq<string>)
    requires Ascending(keys) && k !in keys
    ensures Ascending(Insert(k, keys))
  {
    if keys == [] {
    } else if Below(k, keys[0]) {
      forall j | 0 <= j < |keys| ensures Below(k, keys[j]) {
        if j != 0 { BelowTransitive(k, keys[0], keys[j]); }
      }
    } else {
      InsertAscending(k, keys[1..]);
      BelowTotal(k, keys[0]);
      var rest := Insert(k, keys[1..]);
      forall j | 0 <= j < |rest| ensures Below(keys[0], rest[j]) {
        assert rest[j] in rest;
        if rest[j] != k {
          var i :| 0 <= i < |keys[1..]| && keys[1..][i] == rest[j];
          assert keys[i + 1] == rest[j];
        }
      }
    }
  }

  lemma AscendingHead(keys: seq<string>, x: string)
    requires Ascending(keys) && x in keys
    ensures x == keys[0] || Below(keys[0], x)
  {
    var i :| 0 <= i < |keys| && keys[i] == x;
  }

  lemma AscendingTail(keys: seq<string>)
    requires Ascending(keys) && keys != []
    ensures Ascending(keys[1..]) && forall x :: x in keys[1..] <==> x in keys && x != keys[0]
  {
    assert forall i | 0 <= i < |keys| - 1 :: keys[1..][i] == keys[i + 1];
    BelowIrreflexive(keys[0]);
    forall x | x in keys && x != keys[0] ensures x in keys[1..] {
      var i :| 0 <= i < |keys| && keys[i] == x;
      assert keys[1..][i - 1] == x;
    }
  }

  /** An ascending list is determined by its elements. */
  lemma {:induction false} AscendingUnique(a: seq<string>, b: seq<string>)
    requires Ascending(a) && Ascending(b) && forall x :: x in a <==> x in b
    ensures a == b
  {
    assert (a != [] ==> a[0] in a) && (b != [] ==> b[0] in b);
    if a != [] {
      AscendingHead(a, b[0]);
      AscendingHead(b, a[0]);
      if a[0] != b[0] {
        BelowTransitive(a[0], b[0], a[0]);
        BelowIrreflexive(a[0]);
      }
      AscendingTail(a);
      AscendingTail(b);
      AscendingUnique(a[1..], b[1..]);
      assert a == [a[0]] + a[1..] && b == [b[0]] + b[1..];
    }
  }

  /** The elements of a set in order. */
  ghost function Sorted(keys: set<string>): (r: seq<string>)
    ensures Ascending(r) && forall x :: x in r <==> x in keys
  {
    if keys == {} then []
    else
      var k :| k in keys;
      InsertAscending(k, Sorted(keys - {k}));
      Insert(k, Sorted(keys - {k}))
  }

  /** Sorts the elements of a set; the order they come in does not matter. */
  method SortKeys(keys: set<string>) returns (r: seq<string>)
    ensures r == Sorted(keys)
  {
    r := [];
    var rest := keys;
    while rest != {}
      invariant rest <= keys && Ascending(r) && forall x :: x in r <==> x in keys && x !in rest
    {
      var k :| k in rest;
      InsertAscending(k, r);
      r := Insert(k, r);
      rest := rest - {k};
    }
    AscendingUnique(r, Sorted(keys));
  }
}
