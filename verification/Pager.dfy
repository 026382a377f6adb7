/** The page file of src/storage/pager.rs: pages, two meta slots, and what is known to be durable. */
module PagerFile {
  import opened Bytes
  import opened Pages

  const MAGIC: nat := 0xC1C5_7B0B
  const META_PAGE_COUNT: nat := 2

  datatype Meta = Meta(magic: nat, txnId: nat, root: Option<PageId>, nextPage: PageId, freeListHead: Option<PageId>) {
    function Advance(root: Option<PageId>, nextPage: PageId, freeListHead: Option<PageId>): Meta {
      Meta(magic, txnId + 1, root, nextPage, freeListHead)
    }
  }

  /**
   * The file as the operating system shows it, and what a crash may make of it: a page in `unsynced` may
   * come back with any content, and a slot whose durable content differs may come back either way or torn.
   * A slot that does not decode, or decodes to the wrong magic, is `None`.
   */
  datatype File = File(pages: Disk, unsynced: set<PageId>, slots: seq<Option<Meta>>, durable: seq<Option<Meta>>)

  /** `Pager::open`: the decodable slot with the larger transaction id, slot 0 on a tie. */
  function Recover(slots: seq<Option<Meta>>): Option<(nat, Meta)>
    requires |slots| == 2
  {
    match (slots[0], slots[1])
    case (Some(a), Some(b)) => if a.txnId >= b.txnId then Some((0, a)) else Some((1, b))
    case (Some(a), None) => Some((0, a))
    case (None, Some(b)) => Some((1, b))
    case (None, None) => None
  }

  class Pager {
    var pages: Disk
    ghost var unsynced: set<PageId>
    var slots: seq<Option<Meta>>
    ghost var durable: seq<Option<Meta>>
    var activeMetaSlot: nat

    /** The pages the running transaction may write; no write of a page, at any moment, goes elsewhere. */
    ghost var mayWrite: iset<PageId>

    ghost predicate Valid()
      reads this
    {
      |slots| == 2 && |durable| == 2 && activeMetaSlot < 2
    }

    ghost function Now(): File
      reads this
    {
      File(pages, unsynced, slots, durable)
    }

    /** A new store: both slots hold transaction 0. */
    constructor Create()
      ensures Valid()
      ensures var m := Some(Meta(MAGIC, 0, None, META_PAGE_COUNT, None));
        Now() == File(map[], {}, [m, m], [m, m]) && activeMetaSlot == 0
    {
      var m := Some(Meta(MAGIC, 0, None, META_PAGE_COUNT, None));
      pages, unsynced := map[], {};
      slots, durable := [m, m], [m, m];
      activeMetaSlot := 0;
      mayWrite := iset{};
    }

    constructor (pages: Disk, slots: seq<Option<Meta>>, activeMetaSlot: nat)
      requires |slots| == 2 && activeMetaSlot < 2
      ensures Valid() && Now() == File(pages, {}, slots, slots) && this.activeMetaSlot == activeMetaSlot
    {
      this.pages, unsynced := pages, {};
      this.slots, durable := slots, slots;
      this.activeMetaSlot := activeMetaSlot;
      mayWrite := iset{};
    }

    /** Reopening an existing file: the newer decodable meta page, or an error when neither slot decodes. */
    static method Open(pages: Disk, slots: seq<Option<Meta>>) returns (r: Option<(Pager, Meta)>)
      requires |slots| == 2
      ensures r == None <==> slots == [None, None]
      ensures r.Some? ==>
        var p, m := r.value.0, r.value.1;
        && fresh(p) && p.Valid() && p.Now() == File(pages, {}, slots, slots)
        && slots[p.activeMetaSlot] == Some(m) && Recover(slots) == Some((p.activeMetaSlot, m))
        && (forall i, n :: 0 <= i < 2 && slots[i] == Some(n) ==> n.txnId <= m.txnId)
        && (p.activeMetaSlot == 1 ==> forall n :: slots[0] == Some(n) ==> n.txnId < m.txnId)
    {
      var slot, meta;
      match (slots[0], slots[1]) {
        case (Some(a), Some(b)) =>
          if a.txnId >= b.txnId {
            slot, meta := 0, a;
          } else {
            slot, meta := 1, b;
          }
        case (Some(a), None) => slot, meta := 0, a;
        case (None, Some(b)) => slot, meta := 1, b;
        case (None, None) =>
          assert slots == [None, None];
          return None;
      }
      var p := new Pager(pages, slots, slot);
      r := Some((p, meta));
    }

    method ReadPage(id: PageId) returns (page: Page)
      requires id in pages
      ensures page == pages[id]
    {
      page := pages[id];
    }

    method WritePage(id: PageId, page: Page)
      requires id in mayWrite
      modifies `pages, `unsynced
      ensures pages == old(pages)[id := page] && unsynced == old(unsynced) + {id}
    {
      pages := pages[id := page];
      unsynced := unsynced + {id};
    }

    method SyncData()
      modifies `unsynced, `durable
      ensures unsynced == {} && durable == slots
    {
      unsynced := {};
      durable := slots;
    }

    /** The write; the sync that follows it is a step of its own, since a crash may come in between. */
    method WriteMetaSlot(slot: nat, meta: Meta)
      requires Valid() && slot < 2
      modifies `slots
      ensures Valid() && slots == old(slots)[slot := Some(meta)]
    {
      slots := slots[slot := Some(meta)];
    }
  }
}
