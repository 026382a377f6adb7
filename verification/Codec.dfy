/**
 * Checksummed pages (src/storage/codec.rs) over the fixed-width little-endian layout of every page type:
 * `[u32 checksum][body][zero padding]`, with u64 lengths, u32 variant tags and one-byte option tags.
 */
module Codec {
  import opened Bytes
  import opened BTree
  import opened Pages
  import opened PagerFile
  import opened TreePut
  import opened FreeList

  const U64: nat := 0x1_0000_0000_0000_0000
  const U32: nat := 0x1_0000_0000

  type Checksum = x: nat | x < 0x1_0000_0000

  /** A parse that stopped before `rest`, or failed. */
  datatype Parsed<+T> = Bad | Good(value: T, rest: Bytes)

  // ----- integers -----

  /** The low `k` bytes of `n`, least significant first. */
  function LE(n: nat, k: nat): (b: Bytes)
    ensures |b| == k
    decreases k
  {
    if k == 0 then [] else [(n % 256) as byte] + LE(n / 256, k - 1)
  }

  function FromLE(b: Bytes): nat {
    if b == [] then 0 else b[0] as nat + 256 * FromLE(b[1..])
  }

  function Pow256(k: nat): nat {
    if k == 0 then 1 else 256 * Pow256(k - 1)
  }

  lemma {:induction false} IntRoundTrip(n: nat, k: nat)
    requires n < Pow256(k)
    ensures FromLE(LE(n, k)) == n
  {
    if k > 0 {
      assert n / 256 < Pow256(k - 1);
      IntRoundTrip(n / 256, k - 1);
      assert LE(n, k)[1..] == LE(n / 256, k - 1);
    }
  }

  function GetInt(b: Bytes, k: nat): Parsed<nat> {
    if |b| < k then Bad else Good(FromLE(b[..k]), b[k..])
  }

  lemma Powers()
    ensures Pow256(4) == U32 && Pow256(8) == U64
  {
    assert Pow256(2) == 65536;
    assert Pow256(3) == 256 * Pow256(2);
    assert Pow256(5) == 256 * Pow256(4);
    assert Pow256(6) == 256 * Pow256(5);
    assert Pow256(7) == 256 * Pow256(6);
  }

  lemma GetIntPut(n: nat, k: nat, rest: Bytes)
    requires (k == 4 && n < U32) || (k == 8 && n < U64)
    ensures GetInt(LE(n, k) + rest, k) == Good(n, rest)
  {
    hide FromLE, LE, Pow256;
    Powers();
    IntRoundTrip(n, k);
    var b := LE(n, k) + rest;
    assert b[..k] == LE(n, k) && b[k..] == rest;
  }

  // ----- options, byte vectors, vectors -----

  function PutOption(o: Option<nat>): Bytes {
    match o
    case None => [0]
    case Some(n) => [1] + LE(n, 8)
  }

  function GetOption(b: Bytes): Parsed<Option<nat>> {
    if |b| == 0 then Bad
    else if b[0] == 0 then Good(None, b[1..])
    else if b[0] == 1 then
      match GetInt(b[1..], 8)
      case Bad => Bad
      case Good(n, rest) => Good(Some(n), rest)
    else Bad
  }

  lemma OptionRoundTrip(o: Option<nat>, rest: Bytes)
    requires o.Some? ==> o.value < U64
    ensures GetOption(PutOption(o) + rest) == Good(o, rest)
  {
    hide GetInt, LE;
    match o
    case None => assert ([0] + rest)[1..] == rest;
    case Some(n) =>
      GetIntPut(n, 8, rest);
      assert ([1] + LE(n, 8) + rest)[1..] == LE(n, 8) + rest;
  }

  function PutBytes(v: Bytes): Bytes {
    LE(|v|, 8) + v
  }

  function GetBytes(b: Bytes): Parsed<Bytes> {
    match GetInt(b, 8)
    case Bad => Bad
    case Good(n, rest) => if |rest| < n then Bad else Good(rest[..n], rest[n..])
  }

  lemma BytesRoundTrip(v: Bytes, rest: Bytes)
    requires |v| < U64
    ensures GetBytes(PutBytes(v) + rest) == Good(v, rest)
  {
    hide GetInt, LE;
    GetIntPut(|v|, 8, v + rest);
    assert PutBytes(v) + rest == LE(|v|, 8) + (v + rest);
  }

  function PutAll<T>(xs: seq<T>, put: T -> Bytes): Bytes {
    if xs == [] then [] else put(xs[0]) + PutAll(xs[1..], put)
  }

  function GetAll<T>(n: nat, b: Bytes, get: Bytes -> Parsed<T>): Parsed<seq<T>>
    decreases n
  {
    if n == 0 then Good([], b)
    else
      match get(b)
      case Bad => Bad
      case Good(x, rest) =>
        match GetAll(n - 1, rest, get)
        case Bad => Bad
        case Good(xs, rest') => Good([x] + xs, rest')
  }

  function PutVec<T>(xs: seq<T>, put: T -> Bytes): Bytes {
    LE(|xs|, 8) + PutAll(xs, put)
  }

  function GetVec<T>(b: Bytes, get: Bytes -> Parsed<T>): Parsed<seq<T>> {
    match GetInt(b, 8)
    case Bad => Bad
    case Good(n, rest) => GetAll(n, rest, get)
  }

  /** `get` undoes `put` on `x`, whatever follows. */
  ghost predicate Inverts<T>(put: T -> Bytes, get: Bytes -> Parsed<T>, x: T) {
    forall rest: Bytes :: get(put(x) + rest) == Good(x, rest)
  }

  lemma InvertsHere<T>(put: T -> Bytes, get: Bytes -> Parsed<T>, x: T, rest: Bytes)
    requires Inverts(put, get, x)
    ensures get(put(x) + rest) == Good(x, rest)
  {
  }

  lemma {:induction false} AllRoundTrip<T>(xs: seq<T>, put: T -> Bytes, get: Bytes -> Parsed<T>, rest: Bytes)
    requires forall i :: 0 <= i < |xs| ==> Inverts(put, get, xs[i])
    ensures GetAll(|xs|, PutAll(xs, put) + rest, get) == Good(xs, rest)
  {
    hide Inverts;
    if xs == [] {
      assert PutAll(xs, put) + rest == rest;
    } else {
      var tail := PutAll(xs[1..], put) + rest;
      AllRoundTrip(xs[1..], put, get, rest);
      InvertsHere(put, get, xs[0], tail);
      assert PutAll(xs, put) + rest == put(xs[0]) + tail;
      assert xs == [xs[0]] + xs[1..];
    }
  }

  lemma VecRoundTrip<T>(xs: seq<T>, put: T -> Bytes, get: Bytes -> Parsed<T>, rest: Bytes)
    requires |xs| < U64 && forall i :: 0 <= i < |xs| ==> Inverts(put, get, xs[i])
    ensures GetVec(PutVec(xs, put) + rest, get) == Good(xs, rest)
  {
    hide GetInt, LE;
    var body := PutAll(xs, put) + rest;
    GetIntPut(|xs|, 8, body);
    assert PutVec(xs, put) + rest == LE(|xs|, 8) + body;
    AllRoundTrip(xs, put, get, rest);
  }

  // ----- the page types -----

  function PutStored(v: StoredValue): Bytes {
    match v
    case Inline(bytes) => LE(0, 4) + PutBytes(bytes)
    case Overflow(head, len) => LE(1, 4) + LE(head, 8) + LE(len, 8)
  }

  function GetStored(b: Bytes): Parsed<StoredValue> {
    match GetInt(b, 4)
    case Bad => Bad
    case Good(tag, rest) =>
      if tag == 0 then
        match GetBytes(rest)
        case Bad => Bad
        case Good(bytes, rest') => Good(Inline(bytes), rest')
      else if tag == 1 then
        match GetTwo(rest)
        case Bad => Bad
        case Good((head, len), rest') => Good(Overflow(head, len), rest')
      else Bad
  }

  /** A pair of u64s. */
  function GetTwo(b: Bytes): Parsed<(nat, nat)> {
    match GetInt(b, 8)
    case Bad => Bad
    case Good(x, rest) =>
      match GetInt(rest, 8)
      case Bad => Bad
      case Good(y, rest') => Good((x, y), rest')
  }

  lemma TwoRoundTrip(x: nat, y: nat, rest: Bytes)
    requires x < U64 && y < U64
    ensures GetTwo(LE(x, 8) + LE(y, 8) + rest) == Good((x, y), rest)
  {
    hide GetInt, LE;
    GetIntPut(x, 8, LE(y, 8) + rest);
    GetIntPut(y, 8, rest);
    assert LE(x, 8) + LE(y, 8) + rest == LE(x, 8) + (LE(y, 8) + rest);
  }

  predicate StoredOk(v: StoredValue) {
    match v
    case Inline(bytes) => |bytes| < U64
    case Overflow(head, len) => head < U64 && len < U64
  }

  lemma StoredRoundTrip(v: StoredValue)
    requires StoredOk(v)
    ensures Inverts(PutStored, GetStored, v)
  {
    hide GetInt, LE, GetBytes, PutBytes, GetTwo;
    forall rest: Bytes ensures GetStored(PutStored(v) + rest) == Good(v, rest) {
      match v
      case Inline(bytes) =>
        GetIntPut(0, 4, PutBytes(bytes) + rest);
        assert PutStored(v) + rest == LE(0, 4) + (PutBytes(bytes) + rest);
        BytesRoundTrip(bytes, rest);
      case Overflow(head, len) =>
        GetIntPut(1, 4, LE(head, 8) + LE(len, 8) + rest);
        assert PutStored(v) + rest == LE(1, 4) + (LE(head, 8) + LE(len, 8) + rest);
        TwoRoundTrip(head, len, rest);
    }
  }

  function PutId(id: PageId): Bytes {
    LE(id, 8)
  }

  function GetId(b: Bytes): Parsed<PageId> {
    GetInt(b, 8)
  }

  function PutEntry(e: FreeEntry): Bytes {
    LE(e.freedAt, 8) + LE(e.page, 8)
  }

  function GetEntry(b: Bytes): Parsed<FreeEntry> {
    match GetTwo(b)
    case Bad => Bad
    case Good((freedAt, page), rest) => Good(FreeEntry(freedAt, page), rest)
  }

  function PutNode(n: TreeNode): Bytes {
    match n
    case LeafNode(keys, values) => LE(0, 4) + PutVec(keys, PutBytes) + PutVec(values, PutStored)
    case InternalNode(keys, children) => LE(1, 4) + PutVec(keys, PutBytes) + PutVec(children, PutId)
  }

  function GetNode(b: Bytes): Parsed<TreeNode> {
    match GetInt(b, 4)
    case Bad => Bad
    case Good(tag, rest) =>
      if tag >= 2 then Bad
      else
        match GetVec(rest, GetBytes)
        case Bad => Bad
        case Good(keys, rest') =>
          if tag == 0 then
            match GetVec(rest', GetStored)
            case Bad => Bad
            case Good(values, rest'') => Good(LeafNode(keys, values), rest'')
          else
            match GetVec(rest', GetId)
            case Bad => Bad
            case Good(children, rest'') => Good(InternalNode(keys, children), rest'')
  }

  /** Page ids and value lengths are u64s, as the type says in the original. */
  predicate NodeOk(n: TreeNode) {
    match n
    case LeafNode(_, values) => forall i :: 0 <= i < |values| ==> values[i].Overflow? ==> values[i].head < U64 && values[i].len < U64
    case InternalNode(_, children) => forall i :: 0 <= i < |children| ==> children[i] < U64
  }

  lemma {:induction false} AllLonger<T>(xs: seq<T>, put: T -> Bytes, i: nat)
    requires forall j :: 0 <= j < |xs| ==> |put(xs[j])| >= 8
    ensures 8 * |xs| <= |PutAll(xs, put)|
    ensures i < |xs| ==> |put(xs[i])| <= |PutAll(xs, put)|
  {
    if xs != [] {
      AllLonger(xs[1..], put, if i > 0 then i - 1 else 0);
    }
  }

  /** Any vector that came out of an encoder this short has u64 lengths throughout. */
  lemma KeysFit(keys: seq<Key>)
    requires |PutVec(keys, PutBytes)| <= PAGE_SIZE
    ensures |keys| < U64 && forall i :: 0 <= i < |keys| ==> Inverts(PutBytes, GetBytes, keys[i])
  {
    AllLonger(keys, PutBytes, 0);
    forall i | 0 <= i < |keys| ensures Inverts(PutBytes, GetBytes, keys[i]) {
      AllLonger(keys, PutBytes, i);
      hide LE, GetBytes;
      forall rest: Bytes ensures GetBytes(PutBytes(keys[i]) + rest) == Good(keys[i], rest) {
        BytesRoundTrip(keys[i], rest);
      }
    }
  }

  lemma ValuesFit(values: seq<StoredValue>)
    requires |PutVec(values, PutStored)| <= PAGE_SIZE
    requires forall i :: 0 <= i < |values| ==> values[i].Overflow? ==> values[i].head < U64 && values[i].len < U64
    ensures |values| < U64 && forall i :: 0 <= i < |values| ==> Inverts(PutStored, GetStored, values[i])
  {
    AllLonger(values, PutStored, 0);
    forall i | 0 <= i < |values| ensures Inverts(PutStored, GetStored, values[i]) {
      AllLonger(values, PutStored, i);
      assert StoredOk(values[i]);
      StoredRoundTrip(values[i]);
    }
  }

  lemma IdsFit(ids: seq<PageId>)
    requires |PutVec(ids, PutId)| <= PAGE_SIZE && forall i :: 0 <= i < |ids| ==> ids[i] < U64
    ensures |ids| < U64 && forall i :: 0 <= i < |ids| ==> Inverts(PutId, GetId, ids[i])
  {
    AllLonger(ids, PutId, 0);
    forall i | 0 <= i < |ids| ensures Inverts(PutId, GetId, ids[i]) {
      hide LE, GetInt;
      forall rest: Bytes ensures GetId(PutId(ids[i]) + rest) == Good(ids[i], rest) {
        GetIntPut(ids[i], 8, rest);
      }
    }
  }

  lemma EntriesFit(entries: seq<FreeEntry>)
    requires |PutVec(entries, PutEntry)| <= PAGE_SIZE
    requires forall i :: 0 <= i < |entries| ==> entries[i].freedAt < U64 && entries[i].page < U64
    ensures |entries| < U64 && forall i :: 0 <= i < |entries| ==> Inverts(PutEntry, GetEntry, entries[i])
  {
    AllLonger(entries, PutEntry, 0);
    forall i | 0 <= i < |entries| ensures Inverts(PutEntry, GetEntry, entries[i]) {
      hide LE, GetTwo;
      forall rest: Bytes ensures GetEntry(PutEntry(entries[i]) + rest) == Good(entries[i], rest) {
        TwoRoundTrip(entries[i].freedAt, entries[i].page, rest);
      }
    }
  }

  lemma NodeRoundTrip(n: TreeNode, rest: Bytes)
    requires NodeOk(n) && |PutNode(n)| <= PAGE_SIZE
    ensures GetNode(PutNode(n) + rest) == Good(n, rest)
  {
    hide GetInt, LE, PutVec, GetVec, Inverts;
    var keyBytes := PutVec(n.keys, PutBytes);
    KeysFit(n.keys);
    match n
    case LeafNode(keys, values) =>
      var tail := PutVec(values, PutStored) + rest;
      ValuesFit(values);
      assert PutNode(n) + rest == LE(0, 4) + (keyBytes + tail);
      GetIntPut(0, 4, keyBytes + tail);
      VecRoundTrip(keys, PutBytes, GetBytes, tail);
      VecRoundTrip(values, PutStored, GetStored, rest);
    case InternalNode(keys, children) =>
      var tail := PutVec(children, PutId) + rest;
      IdsFit(children);
      assert PutNode(n) + rest == LE(1, 4) + (keyBytes + tail);
      GetIntPut(1, 4, keyBytes + tail);
      VecRoundTrip(keys, PutBytes, GetBytes, tail);
      VecRoundTrip(children, PutId, GetId, rest);
  }

  function PutMeta(m: Meta): Bytes {
    LE(m.magic, 4) + LE(m.txnId, 8) + PutOption(m.root) + LE(m.nextPage, 8) + PutOption(m.freeListHead)
  }

  function GetMeta(b: Bytes): Parsed<Meta> {
    match GetInt(b, 4)
    case Bad => Bad
    case Good(magic, b1) =>
      match GetInt(b1, 8)
      case Bad => Bad
      case Good(txnId, b2) =>
        match GetOption(b2)
        case Bad => Bad
        case Good(root, b3) =>
          match GetInt(b3, 8)
          case Bad => Bad
          case Good(nextPage, b4) =>
            match GetOption(b4)
            case Bad => Bad
            case Good(head, rest) => Good(Meta(magic, txnId, root, nextPage, head), rest)
  }

  predicate MetaOk(m: Meta) {
    && m.magic < U32 && m.txnId < U64 && m.nextPage < U64
    && (m.root.Some? ==> m.root.value < U64) && (m.freeListHead.Some? ==> m.freeListHead.value < U64)
  }

  lemma MetaRoundTrip(m: Meta, rest: Bytes)
    requires MetaOk(m)
    ensures GetMeta(PutMeta(m) + rest) == Good(m, rest)
  {
    hide GetInt, LE, PutOption, GetOption;
    var b4 := PutOption(m.freeListHead) + rest;
    var b3 := LE(m.nextPage, 8) + b4;
    var b2 := PutOption(m.root) + b3;
    var b1 := LE(m.txnId, 8) + b2;
    assert PutMeta(m) + rest == LE(m.magic, 4) + b1;
    GetIntPut(m.magic, 4, b1);
    GetIntPut(m.txnId, 8, b2);
    OptionRoundTrip(m.root, b3);
    GetIntPut(m.nextPage, 8, b4);
    OptionRoundTrip(m.freeListHead, rest);
  }

  /** An overflow page: the next page of the chain, and one chunk. */
  function PutOverflow(page: (Option<PageId>, Bytes)): Bytes {
    PutOption(page.0) + PutBytes(page.1)
  }

  function GetOverflow(b: Bytes): Parsed<(Option<PageId>, Bytes)> {
    match GetOption(b)
    case Bad => Bad
    case Good(next, rest) =>
      match GetBytes(rest)
      case Bad => Bad
      case Good(data, rest') => Good((next, data), rest')
  }

  /** A free-list page: the next page of the chain, and one batch. */
  function PutFreeList(page: (Option<PageId>, seq<FreeEntry>)): Bytes {
    PutOption(page.0) + PutVec(page.1, PutEntry)
  }

  function GetFreeList(b: Bytes): Parsed<(Option<PageId>, seq<FreeEntry>)> {
    match GetOption(b)
    case Bad => Bad
    case Good(next, rest) =>
      match GetVec(rest, GetEntry)
      case Bad => Bad
      case Good(entries, rest') => Good((next, entries), rest')
  }

  lemma OverflowRoundTrip(next: Option<PageId>, data: Bytes)
    requires (next.Some? ==> next.value < U64) && |data| < U64
    ensures Inverts(PutOverflow, GetOverflow, (next, data))
  {
    hide PutOption, GetOption, PutBytes, GetBytes;
    forall rest: Bytes ensures GetOverflow(PutOverflow((next, data)) + rest) == Good((next, data), rest) {
      OptionRoundTrip(next, PutBytes(data) + rest);
      BytesRoundTrip(data, rest);
      assert PutOverflow((next, data)) + rest == PutOption(next) + (PutBytes(data) + rest);
    }
  }

  lemma {:induction false} EntriesLength(entries: seq<FreeEntry>)
    ensures |PutAll(entries, PutEntry)| == 16 * |entries|
  {
    if entries != [] {
      EntriesLength(entries[1..]);
    }
  }

  lemma FreeListRoundTrip(next: Option<PageId>, entries: seq<FreeEntry>)
    requires (next.Some? ==> next.value < U64) && |PutVec(entries, PutEntry)| <= PAGE_SIZE
    requires forall i :: 0 <= i < |entries| ==> entries[i].freedAt < U64 && entries[i].page < U64
    ensures Inverts(PutFreeList, GetFreeList, (next, entries))
  {
    EntriesFit(entries);
    hide PutOption, GetOption, PutVec, GetVec;
    forall rest: Bytes ensures GetFreeList(PutFreeList((next, entries)) + rest) == Good((next, entries), rest) {
      OptionRoundTrip(next, PutVec(entries, PutEntry) + rest);
      VecRoundTrip(entries, PutEntry, GetEntry, rest);
      assert PutFreeList((next, entries)) + rest == PutOption(next) + (PutVec(entries, PutEntry) + rest);
    }
  }

  // ----- checksummed pages -----

  /** A page image: checksum, body, zeroes. */
  function PageImage(body: Bytes, crc: Bytes -> Checksum): (page: Bytes)
    requires |body| + 4 <= PAGE_SIZE
    ensures |page| == 4096
  {
    LE(crc(body), 4) + body + seq(PAGE_SIZE - 4 - |body|, _ => 0)
  }

  /** Fill a page buffer; the assertion of the original is the precondition. */
  method EncodePage(body: Bytes, crc: Bytes -> Checksum) returns (buf: array<byte>)
    requires |body| + 4 <= PAGE_SIZE
    ensures fresh(buf) && buf[..] == PageImage(body, crc)
  {
    buf := new byte[PAGE_SIZE](_ => 0);
    var checksum := LE(crc(body), 4);
    forall i | 0 <= i < 4 {
      buf[i] := checksum[i];
    }
    forall i | 0 <= i < |body| {
      buf[4 + i] := body[i];
    }
    assert buf[..] == PageImage(body, crc);
  }

  /** Parse, re-serialize, and compare the checksum of what was parsed with the stored one. */
  function DecodePage<T>(buf: Bytes, put: T -> Bytes, get: Bytes -> Parsed<T>, crc: Bytes -> Checksum): Option<T>
    requires |buf| == PAGE_SIZE
  {
    match get(buf[4..])
    case Bad => None
    case Good(value, _) =>
      var body := put(value);
      if |body| > |buf| - 4 || crc(body) != FromLE(buf[..4]) then None else Some(value)
  }

  /**
   * What is accepted is what was parsed, fits the page, and has the stored checksum; so a page whose checksum does not
   * match what it holds is refused.
   */
  lemma DecodeChecks<T>(buf: Bytes, put: T -> Bytes, get: Bytes -> Parsed<T>, crc: Bytes -> Checksum)
    requires |buf| == PAGE_SIZE
    ensures forall v :: DecodePage(buf, put, get, crc) == Some(v) ==>
              && get(buf[4..]).Good? && get(buf[4..]).value == v && |put(v)| + 4 <= PAGE_SIZE && crc(put(v)) == FromLE(buf[..4])
    ensures DecodePage(buf, put, get, crc) == None ==>
              var g := get(buf[4..]);
              g.Bad? || |put(g.value)| + 4 > PAGE_SIZE || crc(put(g.value)) != FromLE(buf[..4])
  {
  }

  // ----- the layout, byte by byte -----

  /** Small numbers in words of eight and four bytes. */
  lemma Words(n: nat)
    requires n < 256
    ensures LE(n, 8) == [n as byte, 0, 0, 0, 0, 0, 0, 0] && LE(n, 4) == [n as byte, 0, 0, 0]
  {
    assert LE(0, 3) == [0, 0, 0] by { assert LE(0, 1) == [0]; assert LE(0, 2) == [0, 0]; }
    assert LE(0, 7) == [0, 0, 0, 0, 0, 0, 0] by {
      assert LE(0, 4) == [0] + LE(0, 3);
      assert LE(0, 5) == [0] + LE(0, 4);
      assert LE(0, 6) == [0] + LE(0, 5);
    }
  }

  /** One byte off the front. */
  lemma FirstByte(n: nat, k: nat)
    ensures LE(n, k + 1) == [(n % 256) as byte] + LE(n / 256, k)
  {
  }

  /** The magic number and a transaction id of two bytes: least significant byte first. */
  lemma ByteOrder()
    ensures LE(MAGIC, 4) == [0x0B, 0x7B, 0xC5, 0xC1] && LE(0x0201, 8) == [1, 2, 0, 0, 0, 0, 0, 0]
  {
    hide LE;
    Words(0);
    FirstByte(0, 7);
    FirstByte(0, 6);
    assert LE(0, 6) == LE(0, 8)[2..];
    FirstByte(0x0201, 7);
    FirstByte(2, 6);
    FirstByte(MAGIC, 3);
    FirstByte(0xC1C57B, 2);
    FirstByte(0xC1C5, 1);
    FirstByte(0xC1, 0);
  }

  lemma One<T>(x: T, put: T -> Bytes)
    ensures PutAll([x], put) == put(x) && PutVec([x], put) == LE(1, 8) + put(x)
  {
    assert PutAll([x][1..], put) == [];
  }

  lemma Two<T>(x: T, y: T, put: T -> Bytes)
    ensures PutVec([x, y], put) == LE(2, 8) + put(x) + put(y)
  {
    assert [x, y][1..] == [y];
    One(y, put);
  }

  /** Variant words, lengths and fields of every page type stand where the serializer puts them. */
  lemma LeafLayout()
    ensures PutNode(LeafNode([[7]], [Inline([8])])) ==
              [0, 0, 0, 0] + [1, 0, 0, 0, 0, 0, 0, 0] + [1, 0, 0, 0, 0, 0, 0, 0] + [7]
              + [1, 0, 0, 0, 0, 0, 0, 0] + [0, 0, 0, 0] + [1, 0, 0, 0, 0, 0, 0, 0] + [8]
  {
    hide LE, PutVec;
    Words(0);
    Words(1);
    One([7], PutBytes);
    One(Inline([8]), PutStored);
  }

  lemma OverflowLayout()
    ensures PutNode(LeafNode([[]], [Overflow(5, 9)])) ==
              [0, 0, 0, 0] + [1, 0, 0, 0, 0, 0, 0, 0] + [0, 0, 0, 0, 0, 0, 0, 0]
              + [1, 0, 0, 0, 0, 0, 0, 0] + [1, 0, 0, 0] + [5, 0, 0, 0, 0, 0, 0, 0] + [9, 0, 0, 0, 0, 0, 0, 0]
  {
    hide LE, PutVec;
    Words(0);
    Words(1);
    Words(5);
    Words(9);
    One([], PutBytes);
    One(Overflow(5, 9), PutStored);
  }

  lemma InternalLayout()
    ensures PutNode(InternalNode([[7]], [2, 3])) ==
              [1, 0, 0, 0] + [1, 0, 0, 0, 0, 0, 0, 0] + [1, 0, 0, 0, 0, 0, 0, 0] + [7]
              + [2, 0, 0, 0, 0, 0, 0, 0] + [2, 0, 0, 0, 0, 0, 0, 0] + [3, 0, 0, 0, 0, 0, 0, 0]
  {
    hide LE, PutVec;
    Words(1);
    Words(2);
    Words(3);
    One([7], PutBytes);
    Two<PageId>(2, 3, PutId);
  }

  lemma OtherLayouts()
    ensures PutMeta(Meta(MAGIC, 1, Some(2), 3, None)) ==
              [0x0B, 0x7B, 0xC5, 0xC1] + [1, 0, 0, 0, 0, 0, 0, 0] + [1] + [2, 0, 0, 0, 0, 0, 0, 0] + [3, 0, 0, 0, 0, 0, 0, 0] + [0]
    ensures PutOverflow((Some(2), [7])) == [1] + [2, 0, 0, 0, 0, 0, 0, 0] + [1, 0, 0, 0, 0, 0, 0, 0] + [7]
    ensures PutFreeList((None, [FreeEntry(1, 2)])) ==
              [0] + [1, 0, 0, 0, 0, 0, 0, 0] + [1, 0, 0, 0, 0, 0, 0, 0] + [2, 0, 0, 0, 0, 0, 0, 0]
  {
    hide LE;
    ByteOrder();
    Words(1);
    Words(2);
    Words(3);
    One(FreeEntry(1, 2), PutEntry);
  }

  /** Round trip through a page, whatever padding follows the body. */
  lemma PageRoundTrip<T>(value: T, put: T -> Bytes, get: Bytes -> Parsed<T>, crc: Bytes -> Checksum)
    requires |put(value)| + 4 <= PAGE_SIZE
    requires Inverts(put, get, value)
    ensures DecodePage(PageImage(put(value), crc), put, get, crc) == Some(value)
  {
    hide LE, FromLE;
    var body := put(value);
    var padding := seq(PAGE_SIZE - 4 - |body|, _ => 0 as byte);
    var page := PageImage(body, crc);
    Powers();
    IntRoundTrip(crc(body), 4);
    assert page[..4] == LE(crc(body), 4) && page[4..] == body + padding;
    assert get(body + padding) == Good(value, padding);
  }

  /** Every node page that fits is read back as it was written. */
  lemma NodePageRoundTrip(n: TreeNode, crc: Bytes -> Checksum)
    requires NodeOk(n) && EncodedLen(n) <= PAGE_SIZE
    ensures |PutNode(n)| + 4 == EncodedLen(n)
    ensures DecodePage(PageImage(PutNode(n), crc), PutNode, GetNode, crc) == Some(n)
  {
    EncodedLenIsExact(n);
    hide PutNode, GetNode, EncodedLen, DecodePage;
    forall rest: Bytes ensures GetNode(PutNode(n) + rest) == Good(n, rest) {
      NodeRoundTrip(n, rest);
    }
    PageRoundTrip(n, PutNode, GetNode, crc);
  }

  /** `encoded_len` is the body length plus the checksum. */
  lemma EncodedLenIsExact(n: TreeNode)
    ensures |PutNode(n)| + 4 == EncodedLen(n)
  {
    hide LE;
    KeysLength(n.keys);
    match n
    case LeafNode(keys, values) => ValuesLength(values);
    case InternalNode(keys, children) => ChildrenLength(children);
  }

  lemma {:induction false} KeysLength(keys: seq<Key>)
    ensures |PutAll(keys, PutBytes)| == KeysSize(keys)
  {
    if keys != [] {
      KeysLength(keys[1..]);
    }
  }

  lemma {:induction false} ValuesLength(values: seq<StoredValue>)
    ensures |PutAll(values, PutStored)| == StoredValuesSize(values)
  {
    if values != [] {
      ValuesLength(values[1..]);
    }
  }

  lemma {:induction false} ChildrenLength(ids: seq<PageId>)
    ensures |PutAll(ids, PutId)| == 8 * |ids|
  {
    if ids != [] {
      ChildrenLength(ids[1..]);
    }
  }

  /** A meta page always fits and is read back as it was written. */
  lemma MetaPageRoundTrip(m: Meta, crc: Bytes -> Checksum)
    requires MetaOk(m)
    ensures |PutMeta(m)| + 4 <= PAGE_SIZE
    ensures DecodePage(PageImage(PutMeta(m), crc), PutMeta, GetMeta, crc) == Some(m)
  {
    hide GetMeta, DecodePage;
    forall rest: Bytes ensures GetMeta(PutMeta(m) + rest) == Good(m, rest) {
      MetaRoundTrip(m, rest);
    }
    PageRoundTrip(m, PutMeta, GetMeta, crc);
  }

  /** Every chunk `store_value` cuts fits its page and is read back as it was written. */
  lemma OverflowPageRoundTrip(next: Option<PageId>, value: Bytes, i: nat, crc: Bytes -> Checksum)
    requires i < |Chunks(value)| && (next.Some? ==> next.value < U64)
    ensures var page := (next, Chunks(value)[i]);
      && |PutOverflow(page)| + 4 <= PAGE_SIZE
      && DecodePage(PageImage(PutOverflow(page), crc), PutOverflow, GetOverflow, crc) == Some(page)
  {
    JoinChunks(value);
    var page := (next, Chunks(value)[i]);
    OverflowLength(next, Chunks(value)[i]);
    hide PutOverflow, GetOverflow, Inverts, DecodePage, PageImage;
    OverflowRoundTrip(next, Chunks(value)[i]);
    PageRoundTrip(page, PutOverflow, GetOverflow, crc);
  }

  lemma OverflowLength(next: Option<PageId>, data: Bytes)
    requires |data| <= CHUNK
    ensures |PutOverflow((next, data))| + 4 <= PAGE_SIZE
  {
    hide LE;
  }

  /** Every batch `freelist::store` cuts fits its page and is read back as it was written. */
  lemma FreeListPageRoundTrip(next: Option<PageId>, all: seq<FreeEntry>, i: nat, crc: Bytes -> Checksum)
    requires i < |Batches(all)| && (next.Some? ==> next.value < U64)
    requires var entries := Batches(all)[i]; forall j :: 0 <= j < |entries| ==> entries[j].freedAt < U64 && entries[j].page < U64
    ensures var page := (next, Batches(all)[i]);
      && |PutFreeList(page)| + 4 <= PAGE_SIZE
      && DecodePage(PageImage(PutFreeList(page), crc), PutFreeList, GetFreeList, crc) == Some(page)
  {
    BatchesCount(all);
    var page := (next, Batches(all)[i]);
    FreeListLength(next, Batches(all)[i]);
    hide PutFreeList, GetFreeList, Inverts, DecodePage, PageImage;
    FreeListRoundTrip(next, Batches(all)[i]);
    PageRoundTrip(page, PutFreeList, GetFreeList, crc);
  }

  lemma FreeListLength(next: Option<PageId>, entries: seq<FreeEntry>)
    requires |entries| <= BATCH
    ensures |PutFreeList((next, entries))| + 4 <= PAGE_SIZE && |PutVec(entries, PutEntry)| <= PAGE_SIZE
  {
    hide LE;
    EntriesLength(entries);
  }
}
