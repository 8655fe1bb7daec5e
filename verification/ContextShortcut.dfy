/** When skipping a provider on an unchanged fingerprint is as good as rendering it. */
module ContextShortcut {
  import opened Sequences
  import opened KeyOrder
  import opened ContextRecords
  import opened ContextReplay

  /** The fingerprint a rendering gives to `k`. */
  function PrintIn(hash: string -> string, shown: Fragments, k: FragmentKey): Option<string> {
    if k in shown then Some(FragmentPrint(hash, shown[k])) else None
  }

  ghost predicate ShowsSame(hash: string -> string, record: Record, shown: Fragments) {
    forall k :: PrintIn(hash, shown, k) == LiveIn(record.fragments, k)
  }

  predicate NothingChanged(diff: Diff) {
    diff.added == [] && diff.updated == [] && diff.removed == []
  }

  lemma NothingOf(hash: string -> string, before: RenderedMap, shown: Fragments, change: Change)
    requires forall k | k in shown :: shown[k].key == k
    ensures Changed(hash, before, InOrder(shown), change) == [] <==>
            forall k | k in shown :: ChangeOf(hash, before, shown[k]) != change
  {
    var found := Changed(hash, before, InOrder(shown), change);
    if found != [] {
      ChangedHas(hash, before, InOrder(shown), change, found[0]);
      var f :| f in InOrder(shown) && ChangeOf(hash, before, f) == change;
      InOrderHas(shown, f);
    }
    forall k | k in shown && ChangeOf(hash, before, shown[k]) == change ensures found != [] {
      InOrderHas(shown, shown[k]);
      ChangedHas(hash, before, InOrder(shown), change, Stamp(hash, shown[k]));
    }
  }

  lemma NothingRemoved(before: RenderedMap, shown: Fragments, removed: seq<RemovedFragment>)
    requires RemovedFrom(before, shown, removed)
    ensures removed == [] <==> forall k | k in before && before[k].Active? :: k in shown
  {
    if removed != [] { assert removed[0] in removed; }
    forall k | k in before && before[k].Active? && k !in shown ensures removed != [] {
      assert RemovedFragment(k, before[k].Fingerprint()) in removed;
    }
  }

  lemma SameShowsNoChange(hash: string -> string, record: Record, shown: Fragments)
    requires ShowsSame(hash, record, shown) && forall k | k in shown :: shown[k].key == k
    ensures forall k | k in shown :: ChangeOf(hash, record.fragments, shown[k]) == Unchanged
    ensures forall k | k in record.fragments && record.fragments[k].Active? :: k in shown
  {
    forall k | k in shown ensures ChangeOf(hash, record.fragments, shown[k]) == Unchanged {
      assert PrintIn(hash, shown, k) == LiveIn(record.fragments, k);
    }
    forall k | k in record.fragments && record.fragments[k].Active? ensures k in shown {
      assert PrintIn(hash, shown, k) == LiveIn(record.fragments, k);
    }
  }

  lemma NoChangeShowsSame(hash: string -> string, record: Record, shown: Fragments, k: FragmentKey)
    requires forall x | x in shown :: shown[x].key == x
    requires k in shown ==> ChangeOf(hash, record.fragments, shown[k]) == Unchanged
    requires k in record.fragments && record.fragments[k].Active? ==> k in shown
    ensures PrintIn(hash, shown, k) == LiveIn(record.fragments, k)
  {}

  /** Rendering in full would have reported no change exactly when it would show the recorded fingerprints. */
  lemma SkipExactlyWhen(hash: string -> string, record: Record, rendering: Rendering, diff: Diff)
    requires IsDiff(hash, record.fragments, ByKey(rendering.fragments), diff)
    ensures NothingChanged(diff) <==> ShowsSame(hash, record, ByKey(rendering.fragments))
  {
    var before, shown := record.fragments, ByKey(rendering.fragments);
    NothingOf(hash, before, shown, Added);
    NothingOf(hash, before, shown, Updated);
    NothingRemoved(before, shown, diff.removed);
    if ShowsSame(hash, record, shown) {
      SameShowsNoChange(hash, record, shown);
    }
    if NothingChanged(diff) {
      forall k ensures PrintIn(hash, shown, k) == LiveIn(before, k) { NoChangeShowsSame(hash, record, shown, k); }
    }
  }

  /** What the full rendering would then record shows the same as what is kept. */
  lemma SkipShowsSame(hash: string -> string, record: Record, rendering: Rendering, diff: Diff, k: FragmentKey)
    requires IsDiff(hash, record.fragments, ByKey(rendering.fragments), diff) && NothingChanged(diff)
    ensures LiveIn(NextRecord(hash, record.fragments, rendering).fragments, k) == LiveIn(record.fragments, k)
  {
    SkipExactlyWhen(hash, record, rendering, diff);
    RecordShows(hash, record.fragments, rendering, k);
    assert PrintIn(hash, ByKey(rendering.fragments), k) == LiveIn(record.fragments, k);
  }

  // ---------------------------------------------------------------- fingerprints of honest providers

  predicate NoNul(s: string) {
    forall i | 0 <= i < |s| :: s[i] != 0 as char
  }

  predicate Plain(hash: string -> string, fs: seq<Fragment>) {
    forall i | 0 <= i < |fs| :: NoNul(fs[i].key) && NoNul(FragmentPrint(hash, fs[i]))
  }

  /** What follows the last NUL. */
  function Tail(s: string): string {
    if s == "" || s[|s| - 1] == 0 as char then "" else Tail(s[..|s| - 1]) + [s[|s| - 1]]
  }

  lemma {:induction false} TailAfter(a: string, u: string)
    requires NoNul(u) && (a == "" || a[|a| - 1] == 0 as char)
    ensures Tail(a + u) == u
  {
    if u == "" {
      assert a + u == a;
    } else {
      TailAfter(a, u[..|u| - 1]);
      assert (a + u)[..|a + u| - 1] == a + u[..|u| - 1];
    }
  }

  /** Where a NUL-free string begins after a text that ends with NUL can be read off the whole. */
  lemma Splits(a: string, u: string, b: string, v: string)
    requires NoNul(u) && NoNul(v) && a + u == b + v
    requires (a == "" || a[|a| - 1] == 0 as char) && (b == "" || b[|b| - 1] == 0 as char)
    ensures a == b && u == v
  {
    TailAfter(a, u);
    TailAfter(b, v);
    assert a == (a + u)[..|a|] && b == (b + v)[..|b|];
  }

  lemma EntrySplits(la: string, ka: string, pa: string, lb: string, kb: string, pb: string)
    requires NoNul(ka) && NoNul(kb) && NoNul(pa) && NoNul(pb)
    requires (la == "" || la[|la| - 1] == 0 as char) && (lb == "" || lb[|lb| - 1] == 0 as char)
    requires la + ka + Nul + pa + Nul == lb + kb + Nul + pb + Nul
    ensures la == lb && ka == kb && pa == pb
  {
    var x, y := la + ka + Nul, lb + kb + Nul;
    DropNul(x + pa, y + pb);
    Splits(x, pa, y, pb);
    DropNul(la + ka, lb + kb);
    Splits(la, ka, lb, kb);
  }

  lemma DropNul(a: string, b: string)
    requires a + Nul == b + Nul
    ensures a == b
  {
    assert a == (a + Nul)[..|a|] && b == (b + Nul)[..|b|];
  }

  lemma ListingEnds(hash: string -> string, fs: seq<Fragment>)
    ensures fs != [] ==> Listing(hash, fs) != "" && Listing(hash, fs)[|Listing(hash, fs)| - 1] == 0 as char
  {}

  predicate SamePrints(hash: string -> string, a: seq<Fragment>, b: seq<Fragment>) {
    |a| == |b| && forall i | 0 <= i < |a| ::
      a[i].key == b[i].key && FragmentPrint(hash, a[i]) == FragmentPrint(hash, b[i])
  }

  lemma LastEntry(hash: string -> string, a: seq<Fragment>, f: Fragment, b: seq<Fragment>, g: Fragment)
    requires NoNul(f.key) && NoNul(FragmentPrint(hash, f)) && NoNul(g.key) && NoNul(FragmentPrint(hash, g))
    requires Listing(hash, a + [f]) == Listing(hash, b + [g])
    ensures Listing(hash, a) == Listing(hash, b) && f.key == g.key && FragmentPrint(hash, f) == FragmentPrint(hash, g)
  {
    assert (a + [f])[..|a|] == a && (b + [g])[..|b|] == b;
    ListingEnds(hash, a);
    ListingEnds(hash, b);
    EntrySplits(Listing(hash, a), f.key, FragmentPrint(hash, f), Listing(hash, b), g.key, FragmentPrint(hash, g));
  }

  lemma SamePrintsSnoc(hash: string -> string, a: seq<Fragment>, f: Fragment, b: seq<Fragment>, g: Fragment)
    requires SamePrints(hash, a, b) && f.key == g.key && FragmentPrint(hash, f) == FragmentPrint(hash, g)
    ensures SamePrints(hash, a + [f], b + [g])
  {}

  /** A provider's fingerprint lists its fragments unambiguously. */
  lemma {:induction false} ListingInjective(hash: string -> string, a: seq<Fragment>, b: seq<Fragment>)
    requires Plain(hash, a) && Plain(hash, b) && Listing(hash, a) == Listing(hash, b)
    ensures SamePrints(hash, a, b)
  {
    ListingEnds(hash, a);
    ListingEnds(hash, b);
    if a != [] {
      var x, f, y, g := a[..|a| - 1], a[|a| - 1], b[..|b| - 1], b[|b| - 1];
      Unsnoc(a);
      Unsnoc(b);
      LastEntry(hash, x, f, y, g);
      ListingInjective(hash, x, y);
      SamePrintsSnoc(hash, x, f, y, g);
    }
  }

  lemma KeyAt(m: Fragments, i: nat)
    requires (forall x | x in m :: m[x].key == x) && i < |InOrder(m)|
    ensures |InOrder(m)| == |Sorted(m.Keys)| && Sorted(m.Keys)[i] in m
    ensures InOrder(m)[i] == m[Sorted(m.Keys)[i]] && InOrder(m)[i].key == Sorted(m.Keys)[i]
  {
    assert Sorted(m.Keys)[i] in Sorted(m.Keys);
  }

  lemma SameOrder(hash: string -> string, m: Fragments, other: Fragments)
    requires (forall x | x in m :: m[x].key == x) && (forall x | x in other :: other[x].key == x)
    requires SamePrints(hash, InOrder(m), InOrder(other))
    ensures Sorted(m.Keys) == Sorted(other.Keys)
  {
    forall i | 0 <= i < |InOrder(m)| ensures Sorted(m.Keys)[i] == Sorted(other.Keys)[i] {
      KeyAt(m, i);
      KeyAt(other, i);
    }
  }

  lemma SamePrintsShowSame(hash: string -> string, m: Fragments, other: Fragments, k: FragmentKey)
    requires (forall x | x in m :: m[x].key == x) && (forall x | x in other :: other[x].key == x)
    requires SamePrints(hash, InOrder(m), InOrder(other))
    ensures PrintIn(hash, m, k) == PrintIn(hash, other, k)
  {
    SameOrder(hash, m, other);
    var keys := Sorted(m.Keys);
    assert (k in m <==> k in keys) && (k in other <==> k in keys);
    if k in keys {
      var i :| 0 <= i < |keys| && keys[i] == k;
      KeyAt(m, i);
      KeyAt(other, i);
    }
  }

  lemma SameSum(hash: string -> string, x: string, y: string)
    requires "sha256:" + hash(x) == "sha256:" + hash(y)
    ensures hash(x) == hash(y)
  {
    assert hash(x) == ("sha256:" + hash(x))[7..] && hash(y) == ("sha256:" + hash(y))[7..];
  }

  /** A record shows what was last rendered. */
  lemma RecordShows(hash: string -> string, earlier: RenderedMap, last: Rendering, k: FragmentKey)
    ensures LiveIn(NextRecord(hash, earlier, last).fragments, k) == PrintIn(hash, ByKey(last.fragments), k)
  {}

  lemma SameListing(hash: string -> string, a: seq<Fragment>, b: seq<Fragment>)
    requires Plain(hash, a) && Plain(hash, b) && ProviderPrint(hash, a) == ProviderPrint(hash, b)
    requires hash(Listing(hash, a)) == hash(Listing(hash, b)) ==> Listing(hash, a) == Listing(hash, b)
    ensures SamePrints(hash, a, b)
  {
    SameSum(hash, Listing(hash, a), Listing(hash, b));
    ListingInjective(hash, a, b);
  }

  /**
   What a state fingerprint must tell for the provider's last rendering and the one it would give now. A fingerprint of
   its own must not repeat for other fragments; otherwise it is the fingerprint of what it would render, with no NUL
   in keys or prints and no collision of the two listings.
   */
  ghost predicate StateTells(hash: string -> string, last: Rendering, now: Rendering, state: string) {
    var a, b := InOrder(ByKey(now.fragments)), InOrder(ByKey(last.fragments));
    if last.fingerprint != "" then state == last.fingerprint ==> SamePrints(hash, a, b)
    else
      && state == ProviderPrint(hash, a) && Plain(hash, a) && Plain(hash, b)
      && (hash(Listing(hash, a)) == hash(Listing(hash, b)) ==> Listing(hash, a) == Listing(hash, b))
  }

  /**
   The shortcut is sound for such a provider: if its state is the recorded one, rendering in full reports no change.
   */
  lemma SkipIsSound(hash: string -> string, earlier: RenderedMap, last: Rendering, now: Rendering, state: string,
                    diff: Diff)
    requires StateTells(hash, last, now, state) && state == NextRecord(hash, earlier, last).fingerprint
    requires IsDiff(hash, NextRecord(hash, earlier, last).fragments, ByKey(now.fragments), diff)
    ensures ShowsSame(hash, NextRecord(hash, earlier, last), ByKey(now.fragments)) && NothingChanged(diff)
  {
    var shown, before := ByKey(now.fragments), ByKey(last.fragments);
    if last.fingerprint == "" { SameListing(hash, InOrder(shown), InOrder(before)); }
    var record := NextRecord(hash, earlier, last);
    forall k ensures PrintIn(hash, shown, k) == LiveIn(record.fragments, k) {
      SamePrintsShowSame(hash, shown, before, k);
      RecordShows(hash, earlier, last, k);
    }
    SkipExactlyWhen(hash, record, now, diff);
  }
}
