/** Key-sorted record lists: what a B-tree denotes, and what each operation does to it. */
module SortedList {
  import opened Bytes

  datatype Entry = Entry(key: Key, value: Bytes)

  /** `lo <= k < hi`, where a missing bound is infinite. */
  predicate InRange(k: Key, lo: Option<Key>, hi: Option<Key>) {
    && (lo.Some? ==> Le(lo.value, k))
    && (hi.Some? ==> Less(k, hi.value))
  }

  ghost predicate AllBelow(l: seq<Entry>, k: Key) {
    forall i :: 0 <= i < |l| ==> Less(l[i].key, k)
  }

  ghost predicate AllAbove(l: seq<Entry>, k: Key) {
    forall i :: 0 <= i < |l| ==> Less(k, l[i].key)
  }

  ghost predicate StrictlySorted(l: seq<Entry>) {
    forall i, j :: 0 <= i < j < |l| ==> Less(l[i].key, l[j].key)
  }

  ghost predicate SortedIn(l: seq<Entry>, lo: Option<Key>, hi: Option<Key>) {
    StrictlySorted(l) && forall i :: 0 <= i < |l| ==> InRange(l[i].key, lo, hi)
  }

  /** Insert or overwrite the record of `k`. */
  function Upsert(l: seq<Entry>, k: Key, v: Bytes): seq<Entry> {
    if l == [] then [Entry(k, v)]
    else if Less(l[0].key, k) then [l[0]] + Upsert(l[1..], k, v)
    else if l[0].key == k then [Entry(k, v)] + l[1..]
    else [Entry(k, v)] + l
  }

  /** Drop the record of `k`, if any. */
  function Remove(l: seq<Entry>, k: Key): seq<Entry> {
    if l == [] then []
    else if l[0].key == k then l[1..]
    else [l[0]] + Remove(l[1..], k)
  }

  function Lookup(l: seq<Entry>, k: Key): Option<Bytes> {
    if l == [] then None
    else if l[0].key == k then Some(l[0].value)
    else Lookup(l[1..], k)
  }

  /** The records with `lo <= key < hi`, in order. */
  function Filter(l: seq<Entry>, lo: Option<Key>, hi: Option<Key>): seq<Entry> {
    if l == [] then []
    else (if InRange(l[0].key, lo, hi) then [l[0]] else []) + Filter(l[1..], lo, hi)
  }

  // ----- the map a list stands for -----

  function ToMap(l: seq<Entry>): map<Key, Bytes> {
    if l == [] then map[] else ToMap(l[1..])[l[0].key := l[0].value]
  }

  lemma {:induction false} ToMapDomain(l: seq<Entry>, k: Key)
    ensures k in ToMap(l) <==> exists i :: 0 <= i < |l| && l[i].key == k
  {
    if l != [] {
      ToMapDomain(l[1..], k);
      if i :| 0 <= i < |l| && l[i].key == k && i != 0 {
        assert l[1..][i - 1].key == k;
      }
      if k in ToMap(l[1..]) {
        var i :| 0 <= i < |l[1..]| && l[1..][i].key == k;
        assert l[i + 1].key == k;
      }
    }
  }

  lemma {:induction false} LookupIsMapRead(l: seq<Entry>, k: Key)
    ensures Lookup(l, k) == if k in ToMap(l) then Some(ToMap(l)[k]) else None
  {
    if l != [] {
      LookupIsMapRead(l[1..], k);
    }
  }

  lemma SortedTail(l: seq<Entry>)
    requires StrictlySorted(l) && l != []
    ensures StrictlySorted(l[1..]) && AllAbove(l[1..], l[0].key)
  {
  }

  lemma {:induction false} UpsertIsMapUpdate(l: seq<Entry>, k: Key, v: Bytes)
    requires StrictlySorted(l)
    ensures ToMap(Upsert(l, k, v)) == ToMap(l)[k := v]
  {
    if l != [] {
      SortedTail(l);
      if Less(l[0].key, k) {
        LessIrreflexive(k);
        UpsertIsMapUpdate(l[1..], k, v);
        assert Upsert(l, k, v)[1..] == Upsert(l[1..], k, v);
      } else if l[0].key == k {
        assert Upsert(l, k, v)[1..] == l[1..];
      } else {
        assert Upsert(l, k, v)[1..] == l;
      }
    }
  }

  lemma {:induction false} RemoveIsMapRemove(l: seq<Entry>, k: Key)
    requires StrictlySorted(l)
    ensures ToMap(Remove(l, k)) == ToMap(l) - {k}
  {
    if l != [] {
      SortedTail(l);
      if l[0].key == k {
        ToMapDomain(l[1..], k);
        LessIrreflexive(k);
      } else {
        RemoveIsMapRemove(l[1..], k);
        assert Remove(l, k)[1..] == Remove(l[1..], k);
      }
    }
  }

  /** A lookup answers the one record with its key. */
  lemma {:induction false} LookupMember(l: seq<Entry>, k: Key, v: Bytes)
    requires StrictlySorted(l)
    ensures Entry(k, v) in l <==> Lookup(l, k) == Some(v)
  {
    if l != [] {
      SortedTail(l);
      LookupMember(l[1..], k, v);
      assert l == [l[0]] + l[1..];
      LessIrreflexive(k);
      assert l[0].key == k ==> forall i :: 0 < i < |l| ==> l[i].key != k;
    }
  }

  /** `Filter` keeps exactly the records in range, and keeps them sorted. */
  lemma {:induction false} FilterMembers(l: seq<Entry>, lo: Option<Key>, hi: Option<Key>)
    requires StrictlySorted(l)
    ensures SortedIn(Filter(l, lo, hi), lo, hi)
    ensures forall e :: e in Filter(l, lo, hi) <==>
              e in l && (lo.Some? ==> Le(lo.value, e.key)) && (hi.Some? ==> Less(e.key, hi.value))
  {
    if l != [] {
      SortedTail(l);
      var rest := Filter(l[1..], lo, hi);
      FilterMembers(l[1..], lo, hi);
      forall i | 0 <= i < |rest| ensures Less(l[0].key, rest[i].key) {
        assert rest[i] in l[1..];
      }
      assert l == [l[0]] + l[1..];
    }
  }

  // ----- working in the middle of a list -----

  lemma SortedConcat(a: seq<Entry>, b: seq<Entry>, lo: Option<Key>, m: Key, hi: Option<Key>)
    requires SortedIn(a, lo, Some(m)) && SortedIn(b, Some(m), hi)
    requires lo.Some? ==> Le(lo.value, m)
    requires hi.Some? ==> Le(m, hi.value)
    ensures SortedIn(a + b, lo, hi)
  {
    OrderFacts();
  }

  lemma BelowTail(a: seq<Entry>, k: Key)
    requires AllBelow(a, k) && a != []
    ensures Less(a[0].key, k) && AllBelow(a[1..], k)
  {
  }

  lemma AboveFirst(b: seq<Entry>, k: Key)
    requires AllAbove(b, k) && b != []
    ensures Less(k, b[0].key)
  {
  }

  lemma {:induction false} UpsertAfterPrefix(a: seq<Entry>, r: seq<Entry>, k: Key, v: Bytes)
    requires AllBelow(a, k)
    ensures Upsert(a + r, k, v) == a + Upsert(r, k, v)
  {
    hide Less, AllBelow;
    if a == [] {
      assert a + r == r && a + Upsert(r, k, v) == Upsert(r, k, v);
    } else {
      BelowTail(a, k);
      UpsertAfterPrefix(a[1..], r, k, v);
      assert (a + r)[0] == a[0] && (a + r)[1..] == a[1..] + r;
      assert a == [a[0]] + a[1..];
    }
  }

  lemma {:induction false} UpsertBeforeSuffix(l: seq<Entry>, b: seq<Entry>, k: Key, v: Bytes)
    requires AllAbove(b, k)
    ensures Upsert(l + b, k, v) == Upsert(l, k, v) + b
  {
    hide Less, AllAbove;
    if l == [] {
      assert l + b == b;
      if b != [] {
        AboveFirst(b, k);
        LessNotEqual(k, b[0].key);
      }
    } else {
      assert (l + b)[0] == l[0] && (l + b)[1..] == l[1..] + b;
      if Less(l[0].key, k) {
        UpsertBeforeSuffix(l[1..], b, k, v);
      }
    }
  }

  lemma UpsertMiddle(a: seq<Entry>, l: seq<Entry>, b: seq<Entry>, k: Key, v: Bytes)
    requires AllBelow(a, k) && AllAbove(b, k)
    ensures Upsert(a + l + b, k, v) == a + Upsert(l, k, v) + b
  {
    hide *;
    UpsertAfterPrefix(a, l + b, k, v);
    UpsertBeforeSuffix(l, b, k, v);
    assert a + l + b == a + (l + b);
    assert a + Upsert(l, k, v) + b == a + (Upsert(l, k, v) + b);
  }

  lemma {:induction false} UpsertSorted(l: seq<Entry>, k: Key, v: Bytes, lo: Option<Key>, hi: Option<Key>)
    requires SortedIn(l, lo, hi) && InRange(k, lo, hi)
    ensures SortedIn(Upsert(l, k, v), lo, hi)
    ensures forall e :: e in Upsert(l, k, v) ==> e == Entry(k, v) || e in l
  {
    OrderFacts();
    if l != [] {
      SortedTail(l);
      UpsertSorted(l[1..], k, v, lo, hi);
      var u := Upsert(l[1..], k, v);
      if Less(l[0].key, k) {
        forall i | 0 <= i < |u| ensures Less(l[0].key, u[i].key) {
          assert u[i] in u;
        }
      }
    }
  }

  lemma {:induction false} RemoveSorted(l: seq<Entry>, k: Key, lo: Option<Key>, hi: Option<Key>)
    requires SortedIn(l, lo, hi)
    ensures SortedIn(Remove(l, k), lo, hi)
    ensures forall e :: e in Remove(l, k) ==> e in l
  {
    if l != [] {
      SortedTail(l);
      RemoveSorted(l[1..], k, lo, hi);
      var u := Remove(l[1..], k);
      forall i | 0 <= i < |u| ensures Less(l[0].key, u[i].key) {
        assert u[i] in l[1..];
      }
    }
  }

  lemma LessNotEqual(a: Key, b: Key)
    requires Less(a, b)
    ensures a != b && !Less(b, a)
  {
    OrderFacts();
  }

  lemma {:induction false} RemoveMiddle(a: seq<Entry>, l: seq<Entry>, b: seq<Entry>, k: Key)
    requires AllBelow(a, k) && AllAbove(b, k)
    ensures Remove(a + l + b, k) == a + Remove(l, k) + b
    decreases |a| + |l| + |b|
  {
    hide Less;
    var all := a + l + b;
    if a != [] {
      LessNotEqual(a[0].key, k);
      RemoveMiddle(a[1..], l, b, k);
      assert all[1..] == a[1..] + l + b;
    } else if l != [] {
      if l[0].key != k {
        RemoveMiddle(a, l[1..], b, k);
      }
      assert all[1..] == a + l[1..] + b;
    } else if b != [] {
      LessNotEqual(k, b[0].key);
      RemoveMiddle(a, l, b[1..], k);
      assert all[1..] == a + l + b[1..];
    }
  }

  lemma {:induction false} LookupMiddle(a: seq<Entry>, l: seq<Entry>, b: seq<Entry>, k: Key)
    requires AllBelow(a, k) && AllAbove(b, k)
    ensures Lookup(a + l + b, k) == Lookup(l, k)
    decreases |a| + |l| + |b|
  {
    var all := a + l + b;
    if a != [] {
      LessNotEqual(a[0].key, k);
      LookupMiddle(a[1..], l, b, k);
      assert all[1..] == a[1..] + l + b;
    } else if l != [] {
      if l[0].key != k {
        LookupMiddle(a, l[1..], b, k);
        assert all[1..] == a + l[1..] + b;
      }
    } else if b != [] {
      LessNotEqual(k, b[0].key);
      LookupMiddle(a, l, b[1..], k);
      assert all[1..] == a + l + b[1..];
    }
  }

  lemma {:induction false} FilterConcat(a: seq<Entry>, b: seq<Entry>, lo: Option<Key>, hi: Option<Key>)
    ensures Filter(a + b, lo, hi) == Filter(a, lo, hi) + Filter(b, lo, hi)
  {
    hide InRange;
    if a == [] {
      assert a + b == b;
    } else {
      FilterConcat(a[1..], b, lo, hi);
      assert (a + b)[1..] == a[1..] + b;
    }
  }

  /** A strictly sorted list is determined by its map, so map equalities say everything. */
  lemma {:induction false} SortedListIsItsMap(a: seq<Entry>, b: seq<Entry>)
    requires StrictlySorted(a) && StrictlySorted(b) && ToMap(a) == ToMap(b)
    ensures a == b
  {
    OrderFacts();
    assert a != [] ==> a[0].key in ToMap(a);
    assert b != [] ==> b[0].key in ToMap(b);
    if a != [] && b != [] {
      ToMapDomain(a, b[0].key);
      ToMapDomain(b, a[0].key);
      SortedTail(a);
      SortedTail(b);
      assert a[0].key == b[0].key;
      RemoveIsMapRemove(a, a[0].key);
      RemoveIsMapRemove(b, a[0].key);
      SortedListIsItsMap(a[1..], b[1..]);
      assert a == [a[0]] + a[1..] && b == [b[0]] + b[1..];
    }
  }
}
