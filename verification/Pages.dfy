/**
 Pages, results, and the meaning of the page store the daemon offers:
 a map from device offsets to pages that may forget a page, never alter one.
 */
module Pages {

  newtype byte = b: int | 0 <= b < 256

  type Page = seq<byte>

  const PAGE_SIZE: nat := 4096

  datatype Option<+T> = None | Some(value: T)

  datatype Result<+T> = Ok(value: T) | Err

  /** `m'` holds nothing that `m` does not hold. */
  predicate Forgets(m: map<nat, Page>, m': map<nat, Page>) {
    forall o :: o in m' ==> o in m && m'[o] == m[o]
  }

  /**
   One store into a lossy page map. On success the offset holds exactly the new
   page; on failure it holds nothing, in particular not the page it held before.
   Any other offset keeps its page or loses it.
   */
  predicate LossyStore(m: map<nat, Page>, offset: nat, data: Page, ok: bool, m': map<nat, Page>) {
    && (ok <==> offset in m')
    && (ok ==> m'[offset] == data)
    && Forgets(m, m' - {offset})
  }

  /** One load: a success returns the page held. */
  predicate LossyLoad(m: map<nat, Page>, offset: nat, r: Result<Page>) {
    r.Ok? ==> offset in m && r.value == m[offset]
  }
}
