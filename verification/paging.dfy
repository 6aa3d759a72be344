/**
 * The pagination rule shared by the photo gallery listing and the photographer listing:
 * skip `offset` items of the sorted result, fetch `limit + 1`, report `has_more` when more
 * than `limit` came back and then keep only the first `limit`.
 */
module Paging {

  datatype Page<T> = Page(items: seq<T>, hasMore: bool)

  function Min(a: int, b: int): int { if a <= b then a else b }

  /** `.skip(offset).limit(limit + 1)` over an already sorted result. */
  function Fetch<T>(sorted: seq<T>, offset: nat, limit: nat): (fetched: seq<T>)
    ensures |fetched| <= limit + 1
  {
    if offset >= |sorted| then [] else sorted[offset..Min(offset + limit + 1, |sorted|)]
  }

  /** The page handed back to the client: at most `limit` items from `offset`, and whether more remain. */
  function Paginate<T>(sorted: seq<T>, offset: nat, limit: nat): (p: Page<T>)
    ensures p.items == sorted[Min(offset, |sorted|)..Min(offset + limit, |sorted|)]
    ensures p.hasMore <==> offset + limit < |sorted|
    ensures |p.items| <= limit
  {
    var fetched := Fetch(sorted, offset, limit);
    var hasMore := |fetched| > limit;
    Page(if hasMore then fetched[..limit] else fetched, hasMore)
  }

  /** Every item a client collects by following `has_more` from `offset`, one page after another. */
  function FollowPages<T>(sorted: seq<T>, offset: nat, limit: nat): seq<T>
    requires limit >= 1
    decreases |sorted| - offset
  {
    var p := Paginate(sorted, offset, limit);
    if p.hasMore then p.items + FollowPages(sorted, offset + limit, limit) else p.items
  }

  /** A suffix is the slice up to any later point followed by the rest. */
  lemma SplitAt<T>(s: seq<T>, i: nat, j: nat)
    requires i <= j <= |s|
    ensures s[i..] == s[i..j] + s[j..]
  {
  }

  /** Following `has_more` visits every item from `offset` on exactly once and in order. */
  lemma {:induction false} FollowPagesEnumerates<T>(sorted: seq<T>, offset: nat, limit: nat)
    requires limit >= 1
    ensures FollowPages(sorted, offset, limit) == sorted[Min(offset, |sorted|)..]
    decreases |sorted| - offset
  {
    var p := Paginate(sorted, offset, limit);
    if p.hasMore {
      assert Min(offset, |sorted|) == offset && Min(offset + limit, |sorted|) == offset + limit;
      FollowPagesEnumerates(sorted, offset + limit, limit);
      SplitAt(sorted, offset, offset + limit);
    }
  }
}
