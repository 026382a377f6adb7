/**
 * File Control (src/runtime/file_control.rs): every file is the stretch of the one record list whose keys
 * carry the file's four-byte prefix.
 */
module FileControl {
  import opened Bytes
  import opened SortedList
  import BTree
  import opened BTreePut
  import BTreeDelete
  import opened Pages
  import opened Txn
  import opened TreePut
  import opened Codec
  import opened PageFit
  import opened Capacity

  /** The longest record key with which no page can overflow: the storage key has four bytes more, and 113 at most. */
  const MAX_RECORD_KEY: nat := FiledKeys.Most() - 4

  type FileId = x: nat | x < 0x1_0000_0000

  datatype CicsError =
    | FileNotFound(name: string)
    | RecordNotFound(key: Key, file: string)
    | DuplicateKey(key: Key, file: string)
    | ProgramNotFound(program: string)
    | LinkStackOverflow(program: string)
    | InvalidRequest(message: string)

  datatype Result<+T> = Ok(value: T) | Err(error: CicsError)

  class FileControlTable {
    var files: map<string, FileId>
    var nextId: FileId

    /** Distinct names have distinct ids, all of them handed out already. */
    ghost predicate Valid()
      reads this
    {
      && (forall n :: n in files ==> files[n] < nextId)
      && (forall m, n :: m in files && n in files && m != n ==> files[m] != files[n])
    }

    constructor ()
      ensures Valid() && files == map[] && nextId == 0
    {
      files, nextId := map[], 0;
    }

    /** Defining a name again gives it a new id; the counter is a u32 and wraps. */
    method Define(name: string) returns (id: FileId)
      modifies this
      ensures id == old(nextId) && files == old(files)[name := id] && nextId == (old(nextId) + 1) % U32
      ensures old(Valid()) && old(nextId) < U32 - 1 ==> Valid()
    {
      id := nextId;
      nextId := (nextId + 1) % U32;
      files := files[name := id];
    }

    function Resolve(name: string): Result<FileId>
      reads this
    {
      if name in files then Ok(files[name]) else Err(FileNotFound(name))
    }
  }

  // ----- keys -----

  /** The low `k` bytes of `n`, most significant first. */
  function BigEndian(n: nat, k: nat): (b: Bytes)
    ensures |b| == k
  {
    if k == 0 then [] else BigEndian(n / 256, k - 1) + [(n % 256) as byte]
  }

  /** `to_be_bytes`. */
  function BE(id: FileId): (b: Bytes)
    ensures |b| == 4
  {
    BigEndian(id, 4)
  }

  function StorageKey(file: FileId, key: Key): Key {
    BE(file) + key
  }

  lemma StorageKeyLength(file: FileId, key: Key)
    ensures |StorageKey(file, key)| == 4 + |key|
  {
  }

  lemma {:induction false} BigEndianLess(m: nat, n: nat, k: nat)
    requires m < n < Pow256(k)
    ensures Less(BigEndian(m, k), BigEndian(n, k))
  {
    if m / 256 < n / 256 {
      BigEndianLess(m / 256, n / 256, k - 1);
      PrefixLess(BigEndian(m / 256, k - 1), BigEndian(n / 256, k - 1), [(m % 256) as byte], [(n % 256) as byte]);
    } else {
      LessPrefix(BigEndian(m / 256, k - 1), [(m % 256) as byte], [(n % 256) as byte]);
    }
  }

  lemma BELess(m: FileId, n: FileId)
    requires m < n
    ensures Less(BE(m), BE(n)) && BE(m) != BE(n)
  {
    Powers();
    BigEndianLess(m, n, 4);
    LessIrreflexive(BE(m));
  }

  lemma {:induction false} BigEndianOnto(b: Bytes) returns (n: nat)
    ensures n < Pow256(|b|) && BigEndian(n, |b|) == b
  {
    if b == [] {
      n := 0;
    } else {
      var k := |b| - 1;
      var m := BigEndianOnto(b[..k]);
      n := 256 * m + b[k] as nat;
      assert n / 256 == m && n % 256 == b[k] as nat;
      assert b == b[..k] + [b[k]];
    }
  }

  /** Every four bytes are some file's prefix. */
  lemma BEOnto(b: Bytes) returns (id: FileId)
    requires |b| == 4
    ensures BE(id) == b
  {
    Powers();
    var n := BigEndianOnto(b);
    id := n;
  }

  lemma {:induction false} PrefixLess(p: Bytes, q: Bytes, r: Bytes, s: Bytes)
    requires |p| == |q| && Less(p, q)
    ensures Less(p + r, q + s)
  {
    if p[0] == q[0] {
      PrefixLess(p[1..], q[1..], r, s);
      assert (p + r)[1..] == p[1..] + r && (q + s)[1..] == q[1..] + s;
    }
  }

  /** Key order is file order first, then record order within a file. */
  lemma StorageOrder(m: FileId, a: Key, n: FileId, b: Key)
    ensures Less(StorageKey(m, a), StorageKey(n, b)) <==> m < n || (m == n && Less(a, b))
  {
    if m == n {
      LessPrefix(BE(m), a, b);
    } else if m < n {
      BELess(m, n);
      PrefixLess(BE(m), BE(n), a, b);
    } else {
      BELess(n, m);
      PrefixLess(BE(n), BE(m), b, a);
      LessNotEqual(StorageKey(n, b), StorageKey(m, a));
    }
  }

  /** A key of at least four bytes belongs to exactly one file. */
  lemma FileOf(k: Key) returns (id: FileId)
    requires |k| >= 4
    ensures k == StorageKey(id, k[4..])
    ensures forall f: FileId :: k[..4] == BE(f) <==> f == id
  {
    id := BEOnto(k[..4]);
    assert k == k[..4] + k[4..];
    forall f: FileId | f != id ensures k[..4] != BE(f) {
      if f < id { BELess(f, id); } else { BELess(id, f); }
    }
  }

  // ----- one file's records -----

  /** File Control only ever stores prefixed keys. */
  ghost predicate AllFiled(l: seq<Entry>) {
    forall i :: 0 <= i < |l| ==> |l[i].key| >= 4
  }

  /** The records of one file, prefix stripped. */
  ghost function FileRecords(l: seq<Entry>, id: FileId): seq<Entry>
    requires AllFiled(l)
  {
    if l == [] then [] else Stripped(l[0], id) + FileRecords(l[1..], id)
  }

  /** A record as its file sees it, or nothing. */
  function Stripped(e: Entry, id: FileId): seq<Entry>
    requires |e.key| >= 4
  {
    if e.key[..4] == BE(id) then [Entry(e.key[4..], e.value)] else []
  }

  lemma FileRecordsCons(e: Entry, l: seq<Entry>, id: FileId)
    requires |e.key| >= 4 && AllFiled(l)
    ensures AllFiled([e] + l) && FileRecords([e] + l, id) == Stripped(e, id) + FileRecords(l, id)
  {
    assert ([e] + l)[1..] == l;
  }

  lemma {:induction false} FileAbove(l: seq<Entry>, id: FileId, k: Key)
    requires AllFiled(l) && AllAbove(l, StorageKey(id, k))
    ensures AllAbove(FileRecords(l, id), k)
  {
    hide Less;
    if l != [] {
      FileAbove(l[1..], id, k);
      if l[0].key[..4] == BE(id) {
        assert l[0].key == StorageKey(id, l[0].key[4..]);
        StorageOrder(id, k, id, l[0].key[4..]);
      }
    }
  }

  lemma UpsertFront(l: seq<Entry>, k: Key, v: Bytes)
    requires AllAbove(l, k)
    ensures Upsert(l, k, v) == [Entry(k, v)] + l
  {
    UpsertMiddle([], [], l, k, v);
    assert [] + [] + l == l;
    assert Upsert([], k, v) == [Entry(k, v)];
  }

  lemma OtherFile(id: FileId, other: FileId)
    requires id != other
    ensures BE(id) != BE(other)
  {
    if id < other { BELess(id, other); } else { BELess(other, id); }
  }

  /** A write to one file is an update of that file and of no other. */
  lemma {:induction false} WriteIsLocal(l: seq<Entry>, id: FileId, k: Key, v: Bytes, other: FileId)
    requires AllFiled(l) && StrictlySorted(l)
    ensures var l' := Upsert(l, StorageKey(id, k), v);
      && AllFiled(l')
      && FileRecords(l', other) == if other == id then Upsert(FileRecords(l, id), k, v) else FileRecords(l, other)
  {
    hide Less, AllAbove, BE, FileRecords;
    var sk, record := StorageKey(id, k), Entry(StorageKey(id, k), v);
    StrippedOwn(id, k, v, other);
    NoRecords(other);
    if l == [] {
      FileRecordsCons(record, [], other);
      assert [record] + [] == [record];
    } else {
      var e, rest := l[0], l[1..];
      assert l == [e] + rest;
      SortedTail(l);
      assert AllFiled(rest);
      FileRecordsCons(e, rest, other);
      if Less(e.key, sk) {
        WriteIsLocal(rest, id, k, v, other);
        FileRecordsCons(e, Upsert(rest, sk, v), other);
        UpsertAfter(e, id, k, v, FileRecords(rest, id));
      } else if e.key == sk {
        FileRecordsCons(record, rest, other);
        UpsertAt(e, id, k, v, FileRecords(rest, id));
      } else {
        FileRecordsCons(record, l, other);
        LessConnected(e.key, sk);
        AboveHead(l, sk);
        FileAbove(l, id, k);
        UpsertFront(FileRecords(l, id), k, v);
      }
    }
  }

  lemma NoRecords(id: FileId)
    ensures FileRecords([], id) == []
  {
  }

  lemma StrippedOwn(id: FileId, k: Key, v: Bytes, other: FileId)
    ensures Stripped(Entry(StorageKey(id, k), v), other) == if other == id then [Entry(k, v)] else []
  {
    hide BE;
    var sk := StorageKey(id, k);
    assert sk[..4] == BE(id) && sk[4..] == k;
    if other != id { OtherFile(id, other); }
  }

  lemma UpsertAfter(e: Entry, id: FileId, k: Key, v: Bytes, r: seq<Entry>)
    requires |e.key| >= 4 && Less(e.key, StorageKey(id, k))
    ensures Upsert(Stripped(e, id) + r, k, v) == Stripped(e, id) + Upsert(r, k, v)
  {
    hide Less, BE;
    if e.key[..4] == BE(id) {
      assert e.key == StorageKey(id, e.key[4..]);
      StorageOrder(id, e.key[4..], id, k);
      assert (Stripped(e, id) + r)[1..] == r;
    } else {
      assert [] + r == r && [] + Upsert(r, k, v) == Upsert(r, k, v);
    }
  }

  lemma UpsertAt(e: Entry, id: FileId, k: Key, v: Bytes, r: seq<Entry>)
    requires e.key == StorageKey(id, k)
    ensures Upsert(Stripped(e, id) + r, k, v) == [Entry(k, v)] + r
    ensures forall other: FileId :: other != id ==> Stripped(e, other) == []
  {
    hide BE, Less;
    forall other: FileId ensures Stripped(e, other) == if other == id then [Entry(k, e.value)] else [] {
      StrippedOwn(id, k, e.value, other);
    }
    LessIrreflexive(k);
    assert (Stripped(e, id) + r)[1..] == r;
  }

  lemma AboveHead(l: seq<Entry>, k: Key)
    requires l != [] && StrictlySorted(l) && Less(k, l[0].key)
    ensures AllAbove(l, k)
  {
    OrderFacts();
  }

  lemma {:induction false} DeleteIsLocal(l: seq<Entry>, id: FileId, k: Key, other: FileId)
    requires AllFiled(l)
    ensures var l' := Remove(l, StorageKey(id, k));
      && AllFiled(l')
      && FileRecords(l', other) == if other == id then Remove(FileRecords(l, id), k) else FileRecords(l, other)
  {
    hide BE, FileRecords;
    var sk := StorageKey(id, k);
    NoRecords(other);
    if l != [] {
      var e, rest := l[0], l[1..];
      assert l == [e] + rest && AllFiled(rest);
      FileRecordsCons(e, rest, other);
      StrippedOwn(id, k, e.value, other);
      if e.key == sk {
        assert ([Entry(k, e.value)] + FileRecords(rest, other))[1..] == FileRecords(rest, other);
      } else {
        DeleteIsLocal(rest, id, k, other);
        FileRecordsCons(e, Remove(rest, sk), other);
        OtherKey(e, id, k, FileRecords(rest, id));
      }
    }
  }

  lemma OtherKey(e: Entry, id: FileId, k: Key, r: seq<Entry>)
    requires |e.key| >= 4 && e.key != StorageKey(id, k)
    ensures Remove(Stripped(e, id) + r, k) == Stripped(e, id) + Remove(r, k)
    ensures Lookup(Stripped(e, id) + r, k) == Lookup(r, k)
  {
    hide BE;
    if e.key[..4] == BE(id) {
      assert e.key == StorageKey(id, e.key[4..]);
      assert (Stripped(e, id) + r)[1..] == r;
    } else {
      assert [] + r == r && [] + Remove(r, k) == Remove(r, k);
    }
  }

  lemma {:induction false} ReadIsLocal(l: seq<Entry>, id: FileId, k: Key)
    requires AllFiled(l)
    ensures Lookup(l, StorageKey(id, k)) == Lookup(FileRecords(l, id), k)
  {
    hide BE, FileRecords;
    var sk := StorageKey(id, k);
    NoRecords(id);
    if l != [] {
      var e, rest := l[0], l[1..];
      assert l == [e] + rest && AllFiled(rest);
      FileRecordsCons(e, rest, id);
      StrippedOwn(id, k, e.value, id);
      if e.key != sk {
        ReadIsLocal(rest, id, k);
        OtherKey(e, id, k, FileRecords(rest, id));
      }
    }
  }

  // ----- browse -----

  lemma KeyInFile(id: FileId, start: Key, k: Key)
    requires id < U32 - 1 && |k| >= 4
    ensures InRange(k, Some(StorageKey(id, start)), Some(StorageKey(id + 1, []))) <==> k[..4] == BE(id) && InRange(k[4..], Some(start), None)
  {
    var f := FileOf(k);
    StorageOrder(f, k[4..], id, start);
    StorageOrder(f, k[4..], id + 1, []);
  }

  /** The range from a start key to the next file's prefix is the file's own records from that key on. */
  lemma {:induction false} RangeIsFile(l: seq<Entry>, id: FileId, start: Key)
    requires AllFiled(l) && id < U32 - 1
    ensures var rows := Filter(l, Some(StorageKey(id, start)), Some(StorageKey(id + 1, [])));
      && AllFiled(rows) && Strip(rows) == Filter(FileRecords(l, id), Some(start), None)
  {
    hide BE, FileRecords, InRange, StorageKey;
    NoRecords(id);
    if l != [] {
      var e, rest := l[0], l[1..];
      assert l == [e] + rest && AllFiled(rest);
      FileRecordsCons(e, rest, id);
      KeyInFile(id, start, e.key);
      RangeIsFile(rest, id, start);
      FilterConcat(Stripped(e, id), FileRecords(rest, id), Some(start), None);
      FilterOne(Entry(e.key[4..], e.value), start);
      StripConcat([e], Filter(rest, Some(StorageKey(id, start)), Some(StorageKey(id + 1, []))));
    }
  }

  lemma FilterOne(e: Entry, start: Key)
    ensures Filter([e], Some(start), None) == if InRange(e.key, Some(start), None) then [e] else []
    ensures Filter([], Some(start), None) == []
  {
    assert [e][1..] == [];
  }

  /** Drop the prefix of every key. */
  function Strip(rows: seq<Entry>): seq<Entry>
    requires AllFiled(rows)
  {
    seq(|rows|, i requires 0 <= i < |rows| => Entry(rows[i].key[4..], rows[i].value))
  }

  lemma StripConcat(a: seq<Entry>, b: seq<Entry>)
    requires AllFiled(a) && AllFiled(b)
    ensures AllFiled(a + b) && Strip(a + b) == Strip(a) + Strip(b)
  {
  }

  /** `truncate`. */
  function Take<T>(s: seq<T>, n: nat): (r: seq<T>)
    ensures r <= s && |r| == Min(|s|, n)
  {
    if |s| <= n then s else s[..n]
  }

  function Min(a: nat, b: nat): nat {
    if a < b then a else b
  }

  /** For the last possible file id the upper bound wraps to file 0's prefix, and the range is empty. */
  lemma {:induction false} LastFileRangeIsEmpty(l: seq<Entry>, start: Key)
    ensures Filter(l, Some(StorageKey(U32 - 1, start)), Some(StorageKey(0, []))) == []
  {
    hide BE, StorageKey, Less;
    if l != [] {
      LastFileRangeIsEmpty(l[1..], start);
      var k, lo, hi := l[0].key, StorageKey(U32 - 1, start), StorageKey(0, []);
      StorageOrder(0, [], U32 - 1, start);
      if Le(lo, k) && Less(k, hi) {
        OrderFacts();
        assert false;
      }
    }
  }

  /** What a browse should return: the first `limit` records of the file from `start` on. */
  ghost function Page(l: seq<Entry>, id: FileId, start: Key, limit: nat): seq<Entry>
    requires AllFiled(l)
  {
    Take(Filter(FileRecords(l, id), Some(start), None), limit)
  }

  /** What the code's range scan yields, with its wrapping successor. */
  function Scan(l: seq<Entry>, id: FileId, start: Key, limit: nat): seq<Entry> {
    Take(Filter(l, Some(StorageKey(id, start)), Some(StorageKey((id + 1) % U32, []))), limit)
  }

  lemma {:induction false} FilterFiled(l: seq<Entry>, lo: Option<Key>, hi: Option<Key>)
    requires AllFiled(l)
    ensures AllFiled(Filter(l, lo, hi))
  {
    if l != [] {
      FilterFiled(l[1..], lo, hi);
    }
  }

  lemma StripTake(rows: seq<Entry>, limit: nat)
    requires AllFiled(rows)
    ensures AllFiled(Take(rows, limit)) && Strip(Take(rows, limit)) == Take(Strip(rows), limit)
    ensures rows == [] ==> Strip(Take(rows, limit)) == []
  {
  }

  /** The first records of the file from `start` on, as many as there are and no more than `limit`. */
  ghost predicate FirstRecords(rows: seq<Entry>, l: seq<Entry>, id: FileId, start: Key, limit: nat)
    requires AllFiled(l)
  {
    var all := Filter(FileRecords(l, id), Some(start), None);
    rows <= all && |rows| == Min(|all|, limit)
  }

  /** A browse is right exactly when its file is not the last possible one, or there was nothing to return. */
  lemma BrowseIsRightIff(l: seq<Entry>, id: FileId, start: Key, limit: nat)
    requires AllFiled(l)
    ensures AllFiled(Scan(l, id, start, limit))
    ensures FirstRecords(Page(l, id, start, limit), l, id, start, limit)
    ensures Strip(Scan(l, id, start, limit)) == Page(l, id, start, limit) <==> id < U32 - 1 || Page(l, id, start, limit) == []
    ensures id == U32 - 1 ==> Scan(l, id, start, limit) == []
  {
    hide StorageKey, BE, Filter, FileRecords, Strip, AllFiled, Take;
    var rows := Filter(l, Some(StorageKey(id, start)), Some(StorageKey((id + 1) % U32, [])));
    FilterFiled(l, Some(StorageKey(id, start)), Some(StorageKey((id + 1) % U32, [])));
    StripTake(rows, limit);
    if id < U32 - 1 {
      RangeIsFile(l, id, start);
    } else {
      LastFileRangeIsEmpty(l, start);
    }
  }

  /** The wrapping case does go wrong: one record in file 2^32 - 1 is not found by its own browse. */
  lemma LastFileBrowseFails()
    ensures var l := [Entry(StorageKey(U32 - 1, []), [])];
      AllFiled(l) && Page(l, U32 - 1, [], 1) == [Entry([], [])] && Scan(l, U32 - 1, [], 1) == []
  {
    hide BE;
    var sk: Key := StorageKey(U32 - 1, []);
    var l := [Entry(sk, [])];
    assert sk[..4] == BE(U32 - 1) && sk[4..] == [];
    FileRecordsCons(Entry(sk, []), [], U32 - 1);
    NoRecords(U32 - 1);
    assert l == [Entry(sk, [])] + [];
    assert FileRecords(l, U32 - 1) == [Entry([], [])];
    FilterOne(Entry([], []), []);
    LastFileRangeIsEmpty(l, []);
  }

  // ----- the commands -----

  /** A transaction's records as File Control leaves them. */
  ghost predicate Filed(w: WriteTxn)
    reads w, w.env, w.env.pager, w.ctx, w.ctx.pager
  {
    w.Valid() && w.tree.Sound() && AllFiled(w.Records())
  }

  lemma RecordsSorted(t: LocatedRoot)
    requires t.Sound()
    ensures StrictlySorted(RootEntries(t.Abstract()))
  {
    if t.Planted? {
      BTree.EntriesSorted(Erase(t.d), t.height, None, None);
    }
  }

  method ExecRead(w: WriteTxn, fct: FileControlTable, file: string, key: Key) returns (r: Result<Bytes>)
    requires Filed(w)
    ensures fct.Resolve(file).Err? ==> r == Err(FileNotFound(file))
    ensures fct.Resolve(file).Ok? ==>
      var found := Lookup(FileRecords(w.Records(), fct.Resolve(file).value), key);
      r == if found.Some? then Ok(found.value) else Err(RecordNotFound(key, file))
  {
    match fct.Resolve(file)
    case Err(e) => r := Err(e);
    case Ok(id) =>
      var v := w.Get(StorageKey(id, key));
      ReadIsLocal(w.Records(), id, key);
      r := if v.Some? then Ok(v.value) else Err(RecordNotFound(key, file));
  }

  /** `new` is `old` with one file changed to `records`. */
  ghost predicate OneFile(was: seq<Entry>, now: seq<Entry>, id: FileId, records: seq<Entry>) {
    && AllFiled(was) && AllFiled(now)
    && forall f: FileId :: FileRecords(now, f) == if f == id then records else FileRecords(was, f)
  }

  /** Insert only: an existing record is a duplicate key. */
  method ExecWrite(w: WriteTxn, fct: FileControlTable, file: string, key: Key, data: Bytes) returns (r: Result<()>)
    requires Filed(w)
    modifies w, w.ctx, w.env`trace, w.env.pager`pages, w.env.pager`unsynced
    ensures Filed(w) && w.OnlyMine() && w.env.Now().now == old(w.env.Now().now) && fct.Resolve(file) == old(fct.Resolve(file))
    ensures fct.Resolve(file).Err? ==> r == Err(FileNotFound(file))
    ensures fct.Resolve(file).Ok? ==>
      var id, was := fct.Resolve(file).value, old(w.Records());
      (if Lookup(FileRecords(was, id), key).Some? then r == Err(DuplicateKey(key, file))
       else r == Ok(()) && OneFile(was, w.Records(), id, Upsert(FileRecords(was, id), key, data)))
    ensures r.Ok? ==> fct.Resolve(file).Ok? && w.Records() == Upsert(old(w.Records()), StorageKey(fct.Resolve(file).value, key), data)
    ensures r.Ok? ==> w.tree.Abstract() == BTreePut.Put(old(w.tree.Abstract()), StorageKey(fct.Resolve(file).value, key), data)
    ensures r.Err? ==> w.tree == old(w.tree)
    ensures old(w.env.Roomy(FiledKeys)) && |key| <= MAX_RECORD_KEY ==> w.env.Roomy(FiledKeys)
    ensures r.Err? ==> w.Records() == old(w.Records())
  {
    hide Upsert, Lookup, FileRecords, BE, StorageKey;
    match fct.Resolve(file)
    case Err(e) => return Err(e);
    case Ok(id) =>
      ghost var was := w.Records();
      var v := w.Get(StorageKey(id, key));
      ReadIsLocal(was, id, key);
      if v.Some? {
        return Err(DuplicateKey(key, file));
      }
      PutFile(w, id, key, data);
      return Ok(());
  }

  method PutFile(w: WriteTxn, id: FileId, key: Key, data: Bytes)
    requires Filed(w)
    modifies w, w.ctx, w.env`trace, w.env.pager`pages, w.env.pager`unsynced
    ensures Filed(w) && w.OnlyMine()
    ensures OneFile(old(w.Records()), w.Records(), id, Upsert(FileRecords(old(w.Records()), id), key, data))
    ensures w.Records() == Upsert(old(w.Records()), StorageKey(id, key), data)
    ensures w.tree.Abstract() == BTreePut.Put(old(w.tree.Abstract()), StorageKey(id, key), data)
    ensures old(w.env.Roomy(FiledKeys)) && |key| <= MAX_RECORD_KEY ==> w.env.Roomy(FiledKeys)
  {
    hide Upsert, FileRecords, BE, StorageKey;
    ghost var was := w.Records();
    StorageKeyLength(id, key);
    RecordsSorted(w.tree);
    w.Put(StorageKey(id, key), data);
    forall f: FileId ensures AllFiled(w.Records()) &&
        FileRecords(w.Records(), f) == if f == id then Upsert(FileRecords(was, id), key, data) else FileRecords(was, f)
    {
      WriteIsLocal(was, id, key, data, f);
    }
    WriteIsLocal(was, id, key, data, id);
  }

  /** A key already stored in a store within the byte bound is short. */
  lemma StoredKeyShort(w: WriteTxn, id: FileId, key: Key)
    requires Filed(w) && Lookup(w.Records(), StorageKey(id, key)).Some?
    ensures w.env.Roomy(FiledKeys) ==> |key| <= MAX_RECORD_KEY
  {
    var sk, l := StorageKey(id, key), w.Records();
    RecordsSorted(w.tree);
    LookupMember(l, sk, Lookup(l, sk).value);
    if w.env.Roomy(FiledKeys) {
      assert RoomyTree(w.tree, FiledKeys);
      RoomyKeys(Erase(w.tree.d), w.tree.height, Entry(sk, Lookup(l, sk).value), FiledKeys);
    }
  }

  /** Update only: a missing record is not found. */
  method ExecRewrite(w: WriteTxn, fct: FileControlTable, file: string, key: Key, data: Bytes) returns (r: Result<()>)
    requires Filed(w)
    modifies w, w.ctx, w.env`trace, w.env.pager`pages, w.env.pager`unsynced
    ensures Filed(w) && w.OnlyMine() && w.env.Now().now == old(w.env.Now().now) && fct.Resolve(file) == old(fct.Resolve(file))
    ensures fct.Resolve(file).Err? ==> r == Err(FileNotFound(file))
    ensures fct.Resolve(file).Ok? ==>
      var id, was := fct.Resolve(file).value, old(w.Records());
      (if Lookup(FileRecords(was, id), key).None? then r == Err(RecordNotFound(key, file))
       else r == Ok(()) && OneFile(was, w.Records(), id, Upsert(FileRecords(was, id), key, data)))
    ensures r.Ok? ==> fct.Resolve(file).Ok? && w.Records() == Upsert(old(w.Records()), StorageKey(fct.Resolve(file).value, key), data)
    ensures r.Ok? ==> w.tree.Abstract() == BTreePut.Put(old(w.tree.Abstract()), StorageKey(fct.Resolve(file).value, key), data)
    ensures r.Err? ==> w.tree == old(w.tree)
    ensures old(w.env.Roomy(FiledKeys)) ==> w.env.Roomy(FiledKeys)
    ensures r.Err? ==> w.Records() == old(w.Records())
  {
    hide Upsert, Lookup, FileRecords, BE, StorageKey;
    match fct.Resolve(file)
    case Err(e) => return Err(e);
    case Ok(id) =>
      ghost var was := w.Records();
      var v := w.Get(StorageKey(id, key));
      ReadIsLocal(was, id, key);
      if v.None? {
        return Err(RecordNotFound(key, file));
      }
      StoredKeyShort(w, id, key);
      PutFile(w, id, key, data);
      return Ok(());
  }

  method ExecDelete(w: WriteTxn, fct: FileControlTable, file: string, key: Key) returns (r: Result<()>)
    requires Filed(w)
    modifies w, w.ctx, w.env`trace
    ensures Filed(w) && w.OnlyMine() && w.env.Now().now == old(w.env.Now().now) && fct.Resolve(file) == old(fct.Resolve(file))
    ensures fct.Resolve(file).Err? ==> r == Err(FileNotFound(file))
    ensures fct.Resolve(file).Ok? ==>
      var id, was := fct.Resolve(file).value, old(w.Records());
      (if Lookup(FileRecords(was, id), key).None? then r == Err(RecordNotFound(key, file))
       else r == Ok(()) && OneFile(was, w.Records(), id, Remove(FileRecords(was, id), key)))
    ensures r.Ok? ==> fct.Resolve(file).Ok? && w.Records() == Remove(old(w.Records()), StorageKey(fct.Resolve(file).value, key))
    ensures if fct.Resolve(file).Ok? then w.tree.Abstract() == BTreeDelete.Delete(old(w.tree.Abstract()), StorageKey(fct.Resolve(file).value, key)).0
            else w.tree == old(w.tree)
    ensures old(w.env.Roomy(FiledKeys)) ==> w.env.Roomy(FiledKeys)
    ensures r.Err? ==> w.Records() == old(w.Records())
  {
    hide Remove, Lookup, FileRecords, BE, StorageKey;
    match fct.Resolve(file)
    case Err(e) => return Err(e);
    case Ok(id) =>
      ghost var was := w.Records();
      ReadIsLocal(was, id, key);
      var existed := w.Delete(StorageKey(id, key));
      forall f: FileId ensures AllFiled(w.Records()) &&
          FileRecords(w.Records(), f) == if f == id then Remove(FileRecords(was, id), key) else FileRecords(was, f)
      {
        DeleteIsLocal(was, id, key, f);
      }
      DeleteIsLocal(was, id, key, id);
      if !existed {
        RemoveMissing(was, StorageKey(id, key));
        return Err(RecordNotFound(key, file));
      }
      return Ok(());
  }

  lemma RemoveMissing(l: seq<Entry>, k: Key)
    requires Lookup(l, k) == None
    ensures Remove(l, k) == l
  {
    BTreeDelete.RemoveAbsent(l, k);
  }

  /** One page of a file's records from `startKey` on; the upper bound is the next id's prefix, which wraps. */
  method ExecBrowse(w: WriteTxn, fct: FileControlTable, file: string, startKey: Option<Key>, limit: nat) returns (r: Result<seq<Entry>>)
    requires Filed(w)
    ensures fct.Resolve(file).Err? ==> r == Err(FileNotFound(file))
    ensures fct.Resolve(file).Ok? ==>
      var id, start := fct.Resolve(file).value, if startKey.Some? then startKey.value else [];
      AllFiled(Scan(w.Records(), id, start, limit)) && r == Ok(Strip(Scan(w.Records(), id, start, limit)))
      && (r.value == Page(w.Records(), id, start, limit) <==> id < U32 - 1 || Page(w.Records(), id, start, limit) == [])
      && (if id < U32 - 1 then FirstRecords(r.value, w.Records(), id, start, limit) else r.value == [])
  {
    hide Filter, FileRecords, BE, StorageKey, Page;
    match fct.Resolve(file)
    case Err(e) => return Err(e);
    case Ok(id) =>
      var start := if startKey.Some? then startKey.value else [];
      var rows := w.Range(Some(StorageKey(id, start)), Some(StorageKey((id + 1) % U32, [])));
      BrowseIsRightIff(w.Records(), id, start, limit);
      rows := Take(rows, limit);
      return Ok(Strip(rows));
  }
}
