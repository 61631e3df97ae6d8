/**
 The policy engine: per-page metadata and the two placement questions, which tier
 to store to and which page to evict.
 */
module Policy {
  import opened Pages
  import opened Backends

  const PINNED: bv8 := 2
  const MAX_COUNT: nat := 0xffff_ffff

  datatype Meta = Meta(handle: nat, backend: nat, tier: Tier, accessCount: nat, lastAccess: nat, flags: bv8)

  function Contains(flags: bv8, flag: bv8): bool {
    flags & flag == flag
  }

  /** May be evicted from backend `b`. */
  predicate Evictable(m: Meta, b: nat) {
    m.backend == b && !Contains(m.flags, PINNED)
  }

  /** `(last_access, access_count)`, in that order. */
  predicate AtMost(m: Meta, n: Meta) {
    m.lastAccess < n.lastAccess || (m.lastAccess == n.lastAccess && m.accessCount <= n.accessCount)
  }

  /** An evictable page of backend `b` that no other evictable page of `b` precedes. */
  predicate IsVictim(pages: map<nat, Meta>, b: nat, o: nat) {
    o in pages && Evictable(pages[o], b) &&
    forall p | p in pages && Evictable(pages[p], b) :: AtMost(pages[o], pages[p])
  }

  predicate NoVictim(pages: map<nat, Meta>, b: nat) {
    forall p | p in pages :: !Evictable(pages[p], b)
  }

  function Touched(m: Meta, now: nat): Meta {
    m.(accessCount := if m.accessCount < MAX_COUNT then m.accessCount + 1 else m.accessCount, lastAccess := now)
  }

  class PolicyEngine {
    var pages: map<nat, Meta>

    constructor ()
      ensures pages == map[]
    {
      pages := map[];
    }

    method RecordStore(offset: nat, handle: nat, backend: nat, tier: Tier, now: nat)
      modifies this
      ensures pages == old(pages)[offset := Meta(handle, backend, tier, 0, now, 0)]
    {
      pages := pages[offset := Meta(handle, backend, tier, 0, now, 0)];
    }

    /** The stamp and the count of one offset change, and nothing else. */
    method RecordLoad(offset: nat, now: nat)
      modifies this
      ensures offset in old(pages) ==> pages == old(pages)[offset := Touched(old(pages)[offset], now)]
      ensures offset in old(pages) ==>
                && pages == old(pages)[offset := pages[offset]] && pages[offset].lastAccess == now
                && pages[offset].handle == old(pages)[offset].handle && pages[offset].backend == old(pages)[offset].backend
                && pages[offset].tier == old(pages)[offset].tier && pages[offset].flags == old(pages)[offset].flags
                && pages[offset].accessCount ==
                     old(pages)[offset].accessCount + if old(pages)[offset].accessCount < 0xffff_ffff then 1 else 0
      ensures offset !in old(pages) ==> pages == old(pages)
    {
      if offset in pages {
        pages := pages[offset := Touched(pages[offset], now)];
      }
    }

    method Remove(offset: nat) returns (m: Option<Meta>)
      modifies this
      ensures pages == old(pages) - {offset}
      ensures m == if offset in old(pages) then Some(old(pages)[offset]) else None
    {
      m := if offset in pages then Some(pages[offset]) else None;
      pages := pages - {offset};
    }

    /** Least recently used among the unpinned pages of one backend, if there is one; of several, the least used. */
    method FindEvictionCandidate(b: nat) returns (r: Option<nat>)
      ensures r.None? ==> NoVictim(pages, b) && forall p | p in pages && pages[p].backend == b :: pages[p].flags & 2 == 2
      ensures r.Some? ==> IsVictim(pages, b, r.value)
      ensures r.Some? ==>
                && pages[r.value].backend == b && pages[r.value].flags & 2 == 0
                && forall p | p in pages && pages[p].backend == b && pages[p].flags & 2 == 0 ::
                     pages[r.value].lastAccess <= pages[p].lastAccess &&
                     (pages[r.value].lastAccess == pages[p].lastAccess ==> pages[r.value].accessCount <= pages[p].accessCount)
    {
      hide Contains;
      r := None;
      var todo := pages.Keys;
      while todo != {}
        invariant todo <= pages.Keys
        invariant r.None? ==> forall p | p in pages && p !in todo :: !Evictable(pages[p], b)
        invariant r.Some? ==> r.value in pages && Evictable(pages[r.value], b)
        invariant r.Some? ==>
                    forall p | p in pages && p !in todo && Evictable(pages[p], b) :: AtMost(pages[r.value], pages[p])
        decreases todo
      {
        var p :| p in todo;
        todo := todo - {p};
        if Evictable(pages[p], b) && (r.None? || !AtMost(pages[r.value], pages[p])) {
          r := Some(p);
        }
      }
      forall p | p in pages ensures Contains(pages[p].flags, PINNED) <==> pages[p].flags & 2 != 0 {
        PinnedBit(pages[p].flags);
      }
    }

    method SetFlag(offset: nat, flag: bv8)
      modifies this
      ensures offset in old(pages) ==>
                var m := old(pages)[offset];
                pages == old(pages)[offset := m.(flags := m.flags | flag)]
      ensures offset !in old(pages) ==> pages == old(pages)
      ensures offset in pages ==> Contains(pages[offset].flags, flag)
    {
      hide Contains;
      if offset in pages {
        var m := pages[offset];
        FlagBits(m.flags, flag);
        pages := pages[offset := m.(flags := m.flags | flag)];
      }
    }

    method ClearFlag(offset: nat, flag: bv8)
      modifies this
      ensures offset in old(pages) ==>
                var m := old(pages)[offset];
                pages == old(pages)[offset := m.(flags := m.flags & !flag)]
      ensures offset !in old(pages) ==> pages == old(pages)
      ensures offset in pages && flag != 0 ==> !Contains(pages[offset].flags, flag)
    {
      hide Contains;
      if offset in pages {
        var m := pages[offset];
        FlagBits(m.flags, flag);
        pages := pages[offset := m.(flags := m.flags & !flag)];
      }
    }
  }

  /** A page is pinned when bit 1 of its flags is set. */
  lemma PinnedBit(flags: bv8)
    ensures Contains(flags, PINNED) <==> flags & 2 == 2
    ensures flags & 2 == 2 <==> flags & 2 != 0
  {
  }

  /** Setting a flag makes it contained; clearing a non-empty one makes it not. */
  lemma FlagBits(flags: bv8, flag: bv8)
    ensures Contains(flags | flag, flag)
    ensures flag != 0 ==> !Contains(flags & !flag, flag)
  {
  }
}
