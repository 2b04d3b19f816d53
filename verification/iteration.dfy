/** The log iterator of iter.go as a value: its cursor, its current page, and
    what Next and one poll of Wait do with a page. */
module Iteration {
  import opened States
  import opened RevLog

  datatype Iter = Iter(q: seq<Dict>, limit: int, sinceRev: int, res: Option<Page>, resIdx: int, failed: bool)

  function NewIter(q: seq<Dict>, limit: int, sinceRev: int): Iter {
    Iter(q, limit, sinceRev, None, 0, false)
  }

  // The states of the current page that Next has not delivered yet.
  function Rest(it: Iter): seq<State> {
    if it.res.Some? && 0 <= it.resIdx + 1 < |it.res.value.states| then it.res.value.states[it.resIdx + 1..] else []
  }

  /** Next must query for another page. */
  predicate NeedsPage(it: Iter) {
    && !it.failed
    && (it.res.Some? ==>
          && it.res.value.states != []
          && |it.res.value.states| <= it.resIdx + 1
          && it.res.value.more)
  }

  /** Next without a query; delivers exactly when the page has a rest. */
  function NextLocal(it: Iter): Iter
    requires -1 <= it.resIdx
  {
    if it.failed || it.res.None? || it.res.value.states == [] then it
    else if it.resIdx + 1 < |it.res.value.states| then
      it.(resIdx := it.resIdx + 1, sinceRev := it.res.value.states[it.resIdx + 1].rev)
    else it.(resIdx := it.resIdx + 1)
  }

  /** `more`: the page replaces the old one and its first state is delivered. */
  function TakePage(it: Iter, p: Page): Iter {
    it.(res := Some(p), resIdx := 0, sinceRev := if p.states == [] then it.sinceRev else p.states[0].rev)
  }

  /** A poll that the cache answered: an empty answer moves the cursor to maxRev. */
  function PollHit(it: Iter, p: Page, maxRev: int): Iter {
    if p.states != [] then it.(res := Some(p), resIdx := -1) else it.(sinceRev := maxRev)
  }

  /** A poll that the driver answered: an empty answer moves the cursor up to the
      minRev the cache showed before the query. */
  function PollScan(it: Iter, p: Page, minRev: int): Iter {
    if p.states != [] then it.(res := Some(p), resIdx := -1)
    else if it.sinceRev < minRev then it.(sinceRev := minRev)
    else it
  }
}
