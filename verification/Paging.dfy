/** Cutting a list into pages, and walking the pages from the first to the last. */
module Paging {
  import opened Text

  const HARD_LIMIT: nat := 1000

  datatype Page<T> = Page(items: seq<T>, next: Option<nat>)

  /** `_paginate`: a slice past the end is empty. */
  function Paginate<T>(items: seq<T>, offset: nat, limit: nat): Page<T> {
    var end := offset + limit;
    var from := if offset < |items| then offset else |items|;
    var to := if end < |items| then end else |items|;
    Page(items[from..to], if end < |items| then Some(end) else None)
  }

  /** `_normalize_pagination`: no offset is negative, a limit that is not positive is the default, and none asked for
      is above the ceiling. */
  function Normalized(offset: int, limit: int, fallback: nat): (r: (nat, nat))
    ensures offset >= 0 ==> r.0 == offset
    ensures offset < 0 ==> r.0 == 0
    ensures limit <= 0 ==> r.1 == fallback
    ensures 0 < limit <= 1000 ==> r.1 == limit
    ensures limit > 1000 ==> r.1 == 1000
  {
    (if offset > 0 then offset else 0,
     if limit <= 0 then fallback else if limit < HARD_LIMIT then limit else HARD_LIMIT)
  }

  /** The pages seen by asking for one after the other until there is no next one. */
  function Walk<T>(items: seq<T>, offset: nat, limit: nat): seq<seq<T>>
    requires limit > 0
    decreases |items| - offset
  {
    var page := Paginate(items, offset, limit);
    [page.items] + (if page.next.Some? then Walk(items, page.next.value, limit) else [])
  }

  function Flat<T>(pages: seq<seq<T>>): seq<T> {
    if pages == [] then [] else pages[0] + Flat(pages[1..])
  }

  // From any offset on, the pages are the rest of the list.
  lemma {:induction false} WalkIsRest<T>(items: seq<T>, offset: nat, limit: nat)
    requires limit > 0 && (offset < |items| || offset == 0)
    ensures Flat(Walk(items, offset, limit)) == items[offset..]
    ensures var n := |Walk(items, offset, limit)|;
            n >= 1 && (n - 1) * limit <= |items| - offset <= n * limit && (n > 1 ==> (n - 1) * limit < |items| - offset)
    decreases |items| - offset
  {
    var end := offset + limit;
    if end < |items| {
      WalkIsRest(items, end, limit);
      var later := Walk(items, end, limit);
      assert Walk(items, offset, limit) == [items[offset..end]] + later;
      assert items[offset..] == items[offset..end] + items[end..];
      NextCount(|later|, limit);
    } else {
      assert Flat([items[offset..]]) == items[offset..];
    }
  }

  lemma NextCount(n: nat, limit: nat)
    ensures (n + 1) * limit == n * limit + limit && (n + 1 - 1) * limit == n * limit
    ensures n >= 1 ==> (n - 1) * limit + limit == n * limit
  {
  }

  /** Walking from the start gives back the list, whatever the page size, in the fewest pages that hold it, and in one
      page if it is empty. */
  lemma PagesGiveWhole<T>(items: seq<T>, limit: nat)
    requires limit > 0
    ensures Flat(Walk(items, 0, limit)) == items
    ensures var n := |Walk(items, 0, limit)|;
            n >= 1 && |items| <= n * limit && (n > 1 ==> (n - 1) * limit < |items|)
  {
    WalkIsRest(items, 0, limit);
  }
}
