/**
 Storage backends as the engine sees them: allocate a handle, store, load and free
 a page, report capacity and health.

 The memory and compression backends are local and never fail except when full.
 The TCP backend talks to a remote server: any call may fail, before or after the
 server acted on it. All three hand out handles that are not in use.
 */
module Backends {
  import opened Pages

  datatype Tier = Local | Compressed | Cxl | Rdma | Gpu

  datatype Kind = Memory | Compress | Tcp

  /** What a backend holds. `next` bounds the handles ever issued. */
  datatype BState = BState(
    kind: Kind, tier: Tier, total: nat, healthy: bool, used: nat, next: nat, pages: map<nat, Page>)
  {
    predicate IsLocal() { !kind.Tcp? }

    predicate HasRoom() { healthy && used < total }

    /** Handles in use were issued; a local backend is healthy and counts its own pages. */
    predicate Valid() {
      && (forall h | h in pages :: h < next)
      && (IsLocal() ==> healthy && used == |pages|)
    }
  }

  // ------------------------------------------------------------ what each call may do

  predicate SameConfig(b: BState, b': BState) {
    b'.kind == b.kind && b'.tier == b.tier && b'.total == b.total
  }

  /** `fetch_sub(1)` on a 64-bit counter. */
  function Decrement(x: nat): nat {
    if x == 0 then 0xffff_ffff_ffff_ffff else x - 1
  }

  /** A local backend after storing `data` at `h`, and after freeing `h`. */
  function Filled(b: BState, h: nat, data: Page): BState {
    b.(pages := b.pages[h := data], used := |b.pages[h := data]|)
  }

  function Without(b: BState, h: nat): BState {
    b.(pages := b.pages - {h}, used := |b.pages - {h}|)
  }

  /**
   A handle granted is new; nothing stored changes. A local backend refuses exactly when
   full, and a TCP backend only then or when its connection fails.
   */
  predicate AllocRel(b: BState, b': BState, r: Result<nat>) {
    && SameConfig(b, b') && b'.pages == b.pages && b'.next >= b.next
    && (r.Ok? ==> b.next <= r.value < b'.next)
    && (b.IsLocal() ==>
          && (r.Ok? <==> |b.pages| < b.total)
          && b'.healthy == b.healthy && b'.used == b.used
          && (r.Ok? ==> r.value == b.next && b'.next == b.next + 1)
          && (r.Err? ==> b' == b))
    && (b.kind.Tcp? ==>
          && b'.used == b.used + (if r.Ok? then 1 else 0)
          && (r.Ok? ==> b.used < b.total && b'.healthy)
          && (r.Err? ==> !b'.healthy || (b.used >= b.total && b' == b)))
  }

  /** Only the page at `h` may change; on success it is `data`. A local store succeeds. */
  predicate StoreRel(b: BState, h: nat, data: Page, b': BState, ok: bool) {
    && SameConfig(b, b') && b'.next == b.next
    && (b'.pages == b.pages[h := data] || (!ok && b'.pages == b.pages))
    && (b.IsLocal() ==> ok && b' == Filled(b, h, data))
    && (b.kind.Tcp? ==> b'.used == b.used && b'.healthy == ok)
  }

  /** Only the page at `h` may go; on success it is gone. A local free succeeds. */
  predicate FreeRel(b: BState, h: nat, b': BState, ok: bool) {
    && SameConfig(b, b') && b'.next == b.next
    && (b'.pages == b.pages - {h} || (!ok && b'.pages == b.pages))
    && (b.IsLocal() ==> ok && b' == Without(b, h))
    && (b.kind.Tcp? ==> b'.used == (if ok then Decrement(b.used) else b.used) && b'.healthy == ok)
  }

  /** A page returned is the page stored. A local load fails only for a missing page. */
  predicate LoadRel(b: BState, h: nat, b': BState, r: Result<Page>) {
    && SameConfig(b, b') && b'.next == b.next && b'.pages == b.pages
    && (r.Ok? ==> h in b.pages && r.value == b.pages[h])
    && (b.IsLocal() ==> b' == b && (r.Ok? <==> h in b.pages))
    && (b.kind.Tcp? ==> b'.used == b.used && b'.healthy == r.Ok?)
  }

  // ------------------------------------------------------------ byte accounting

  /** Sum of the packed sizes of all stored pages. */
  ghost function PackedSum(pages: map<nat, Page>, size: Page -> nat): nat
    decreases |pages|
  {
    if pages == map[] then 0
    else
      var h :| h in pages;
      size(pages[h]) + PackedSum(pages - {h}, size)
  }

  /** The sum does not depend on the order in which it is taken. */
  lemma {:induction false} PackedSumRemove(pages: map<nat, Page>, size: Page -> nat, h: nat)
    requires h in pages
    ensures PackedSum(pages, size) == size(pages[h]) + PackedSum(pages - {h}, size)
    decreases |pages|
  {
    var g :| g in pages && PackedSum(pages, size) == size(pages[g]) + PackedSum(pages - {g}, size);
    if g != h {
      PackedSumRemove(pages - {g}, size, h);
      PackedSumRemove(pages - {h}, size, g);
      assert pages - {g} - {h} == pages - {h} - {g};
    }
  }

  lemma PackedSumInsert(pages: map<nat, Page>, size: Page -> nat, h: nat, data: Page)
    requires h !in pages
    ensures PackedSum(pages[h := data], size) == PackedSum(pages, size) + size(data)
  {
    PackedSumRemove(pages[h := data], size, h);
    assert pages[h := data] - {h} == pages;
  }

  /** A compression backend's pages and its two byte counters. */
  datatype Books = Books(pages: map<nat, Page>, rawBytes: int, packedBytes: int)

  /** The counters say what is stored. */
  ghost predicate Balanced(k: Books, size: Page -> nat) {
    k.rawBytes == PAGE_SIZE * |k.pages| && k.packedBytes == PackedSum(k.pages, size)
  }

  /** `store_page`: both counters grow, whatever was stored at the handle before. */
  function BookStore(k: Books, h: nat, data: Page, size: Page -> nat): Books {
    Books(k.pages[h := data], k.rawBytes + PAGE_SIZE, k.packedBytes + size(data))
  }

  /** `free_page`: both counters shrink by what was stored, if anything was. */
  function BookFree(k: Books, h: nat, size: Page -> nat): Books {
    if h in k.pages then Books(k.pages - {h}, k.rawBytes - PAGE_SIZE, k.packedBytes - size(k.pages[h]))
    else k
  }

  /** The books stay balanced over a store exactly when the handle was not already in use. */
  lemma StoreBalancedIff(k: Books, h: nat, data: Page, size: Page -> nat)
    requires Balanced(k, size)
    ensures Balanced(BookStore(k, h, data, size), size) <==> h !in k.pages
  {
    if h !in k.pages {
      PackedSumInsert(k.pages, size, h, data);
    } else {
      assert k.pages[h := data].Keys == k.pages.Keys;
      assert |k.pages[h := data]| == |k.pages|;
    }
  }

  /** A free keeps them balanced, and neither counter drops below zero. */
  lemma FreeBalanced(k: Books, h: nat, size: Page -> nat)
    requires Balanced(k, size)
    ensures Balanced(BookFree(k, h, size), size)
    ensures BookFree(k, h, size).rawBytes >= 0 && BookFree(k, h, size).packedBytes >= 0
  {
    if h in k.pages {
      PackedSumRemove(k.pages, size, h);
      assert k.pages.Keys == (k.pages - {h}).Keys + {h};
    }
  }

  // ------------------------------------------------------------ the backends themselves

  class Backend {
    const id: nat
    const kind: Kind
    const tier: Tier
    const maxPages: nat
    const size: Page -> nat    // length of the packed form of a page
    var pages: map<nat, Page>  // for TCP: what the server holds for this client
    var nextOffset: nat
    var pagesUsed: nat         // the TCP backend's own count
    var connected: bool        // the TCP backend's stream is present
    var rawBytes: int
    var packedBytes: int

    function View(): BState
      reads this
    {
      BState(kind, tier, maxPages, if kind.Tcp? then connected else true,
             if kind.Tcp? then pagesUsed else |pages|, nextOffset, pages)
    }

    ghost predicate Valid()
      reads this
    {
      View().Valid() && (kind.Compress? ==> Balanced(Books(pages, rawBytes, packedBytes), size))
    }

    /** An initialised backend: empty, and for TCP connected. */
    constructor (id: nat, kind: Kind, tier: Tier, maxPages: nat, size: Page -> nat)
      ensures this.id == id && this.kind == kind && this.tier == tier && this.maxPages == maxPages && this.size == size
      ensures Valid() && View() == BState(kind, tier, maxPages, true, 0, 0, map[])
    {
      this.id, this.kind, this.tier, this.maxPages, this.size := id, kind, tier, maxPages, size;
      pages, nextOffset, pagesUsed, connected, rawBytes, packedBytes := map[], 0, 0, true, 0, 0;
    }

    method AllocPage() returns (r: Result<nat>)
      requires Valid()
      modifies this
      ensures Valid() && AllocRel(old(View()), View(), r)
    {
      if kind.Tcp? {
        if pagesUsed >= maxPages {
          return Err;
        }
        pagesUsed := pagesUsed + 1;
        var granted: nat :| granted >= nextOffset;
        if * {
          // The exchange failed; the server may have granted a handle nobody will hear of.
          nextOffset, connected := granted, false;
          pagesUsed := pagesUsed - 1;
          return Err;
        }
        nextOffset, connected := granted + 1, true;
        return Ok(granted);
      }
      if |pages| >= maxPages {
        return Err;
      }
      r := Ok(nextOffset);
      nextOffset := nextOffset + 1;
    }

    method StorePage(h: nat, data: Page) returns (ok: bool)
      requires Valid() && h < nextOffset
      modifies this
      ensures View().Valid() && StoreRel(old(View()), h, data, View(), ok)
      ensures h !in old(pages) ==> Valid()
    {
      hide Balanced;
      ghost var books := Books(pages, rawBytes, packedBytes);
      if kind.Tcp? {
        if * {
          // The reply was lost; the page may have been stored all the same.
          if * { pages := pages[h := data]; }
          connected := false;
          return false;
        }
        pages, connected := pages[h := data], true;
        return true;
      }
      pages := pages[h := data];
      if kind.Compress? {
        rawBytes, packedBytes := rawBytes + PAGE_SIZE, packedBytes + size(data);
        StoreBalancedIff(books, h, data, size);
      }
      ok := true;
    }

    method FreePage(h: nat) returns (ok: bool)
      requires Valid()
      modifies this
      ensures Valid() && FreeRel(old(View()), h, View(), ok)
    {
      if kind.Tcp? {
        ok := FreeRemote(h);
      } else {
        FreeLocal(h);
        ok := true;
      }
    }

    /** The connection may fail before or after the server has freed the page. */
    method FreeRemote(h: nat) returns (ok: bool)
      requires Valid() && kind.Tcp?
      modifies this
      ensures Valid() && FreeRel(old(View()), h, View(), ok)
    {
      if * {
        if * { pages := pages - {h}; }
        connected := false;
        return false;
      }
      pages, connected, pagesUsed := pages - {h}, true, Decrement(pagesUsed);
      ok := true;
    }

    method FreeLocal(h: nat)
      requires Valid() && !kind.Tcp?
      modifies this
      ensures Valid() && FreeRel(old(View()), h, View(), true)
    {
      hide Balanced;
      ghost var books := Books(pages, rawBytes, packedBytes);
      if kind.Compress? && h in pages {
        rawBytes, packedBytes := rawBytes - PAGE_SIZE, packedBytes - size(pages[h]);
      }
      pages := pages - {h};
      if kind.Compress? {
        FreeBalanced(books, h, size);
        assert h in books.pages || books.pages - {h} == books.pages;
        assert Books(pages, rawBytes, packedBytes) == BookFree(books, h, size);
      }
    }

    method LoadPage(h: nat) returns (r: Result<Page>)
      requires Valid()
      modifies this
      ensures Valid() && LoadRel(old(View()), h, View(), r)
    {
      if kind.Tcp? {
        connected := *;
        if !connected || h !in pages {
          connected := false;
          return Err;
        }
        return Ok(pages[h]);
      }
      if h !in pages {
        return Err;
      }
      return Ok(pages[h]);
    }
  }
}
