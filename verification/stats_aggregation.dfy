/**
 * The photo-of-the-day service's statistics, as values: the per-kind count map and the
 * record one photo's reactions summarise to, with the two ways the service arrives at a
 * record (a full resync from the reaction log and an incremental patch) and how they relate.
 * Timestamps are integers.
 */
module StatsAggregation {
  import opened Common
  import opened ReactionModels

  /** Per-kind counts, the `reaction_breakdown` field. */
  type Breakdown = map<string, nat>

  /** A `photo_stats` record (without its key). */
  datatype PhotoStats = PhotoStats(breakdown: Breakdown, total: int, firstDate: int, lastDate: int)

  /** `breakdown[k] = breakdown.get(k, 0) + 1`, the step both paths use. */
  function Bump(b: Breakdown, k: string): (r: Breakdown)
    ensures r.Keys == b.Keys + {k}
    ensures r[k] == (if k in b then b[k] else 0) + 1
    ensures forall j :: j in b && j != k ==> r[j] == b[j]
  {
    b[k := (if k in b then b[k] else 0) + 1]
  }

  /** The sum of the values of a count map, in no particular key order. */
  ghost function Sum(b: Breakdown): nat
    decreases b.Keys
  {
    if b == map[] then 0 else var k :| k in b; b[k] + Sum(b - {k})
  }

  /** Any key may be taken out first: the sum does not depend on the order. */
  lemma {:induction false} SumRemove(b: Breakdown, k: string)
    requires k in b
    ensures Sum(b) == b[k] + Sum(b - {k})
    decreases b.Keys
  {
    var j :| j in b && Sum(b) == b[j] + Sum(b - {j});
    if j != k {
      var bj, bk := b - {j}, b - {k};
      assert bj.Keys < b.Keys && bk.Keys < b.Keys;
      SumRemove(bj, k);
      SumRemove(bk, j);
      assert bj - {k} == bk - {j};
    }
  }

  /** Bumping one kind raises the sum by exactly one. */
  lemma SumBump(b: Breakdown, k: string)
    ensures Sum(Bump(b, k)) == Sum(b) + 1
  {
    var r := Bump(b, k);
    SumRemove(r, k);
    if k in b {
      SumRemove(b, k);
      assert r - {k} == b - {k};
    } else {
      assert r - {k} == b;
    }
  }

  /** The kinds of a group of reactions, in order. */
  function Kinds(g: seq<Reaction>): (ks: seq<string>)
    ensures |ks| == |g| && forall i :: 0 <= i < |g| ==> ks[i] == g[i].reaction
  {
    if g == [] then [] else Kinds(g[..|g| - 1]) + [g[|g| - 1].reaction]
  }

  /** The number of reactions of kind `k` in `g`. */
  function Count(g: seq<Reaction>, k: string): nat
  {
    multiset(Kinds(g))[k]
  }

  /** The count map the resync loop builds for one group (lines 51-55). */
  function BreakdownOf(g: seq<Reaction>): Breakdown
  {
    if g == [] then map[] else Bump(BreakdownOf(g[..|g| - 1]), g[|g| - 1].reaction)
  }

  /** A kind appears in the breakdown iff it occurs in the group, and then maps to its count. */
  lemma {:induction false} BreakdownCounts(g: seq<Reaction>)
    ensures forall k :: k in BreakdownOf(g) <==> Count(g, k) > 0
    ensures forall k :: k in BreakdownOf(g) ==> BreakdownOf(g)[k] == Count(g, k)
  {
    if g != [] {
      var init := g[..|g| - 1];
      BreakdownCounts(init);
      assert Kinds(g) == Kinds(init) + [g[|g| - 1].reaction];
    }
  }

  /** The breakdown of a group sums to the group's size. */
  lemma {:induction false} BreakdownTotal(g: seq<Reaction>)
    ensures Sum(BreakdownOf(g)) == |g|
  {
    if g != [] {
      BreakdownTotal(g[..|g| - 1]);
      SumBump(BreakdownOf(g[..|g| - 1]), g[|g| - 1].reaction);
    }
  }

  /** The `created_at` dates of a group, in order (line 56). */
  function CreatedDates(g: seq<Reaction>): (ds: seq<int>)
    ensures |ds| == |g| && forall i :: 0 <= i < |g| ==> ds[i] == g[i].createdAt
  {
    if g == [] then [] else CreatedDates(g[..|g| - 1]) + [g[|g| - 1].createdAt]
  }

  function Min(a: int, b: int): int { if a <= b then a else b }
  function Max(a: int, b: int): int { if a >= b then a else b }

  /** `min(dates)`. */
  function SeqMin(s: seq<int>): (m: int)
    requires |s| > 0
    ensures m in s && forall x :: x in s ==> m <= x
  {
    if |s| == 1 then s[0] else
      var rest := SeqMin(s[..|s| - 1]);
      assert s == s[..|s| - 1] + [s[|s| - 1]];
      Min(rest, s[|s| - 1])
  }

  /** `max(dates)`. */
  function SeqMax(s: seq<int>): (m: int)
    requires |s| > 0
    ensures m in s && forall x :: x in s ==> x <= m
  {
    if |s| == 1 then s[0] else
      var rest := SeqMax(s[..|s| - 1]);
      assert s == s[..|s| - 1] + [s[|s| - 1]];
      Max(rest, s[|s| - 1])
  }

  /** The record a resync writes for one non-empty group (lines 58-72). */
  function Aggregate(g: seq<Reaction>): PhotoStats
    requires |g| > 0
  {
    var dates := CreatedDates(g);
    PhotoStats(BreakdownOf(g), |g|, SeqMin(dates), SeqMax(dates))
  }

  /**
   * A resynced record counts each kind that occurs and no other, its total is the sum of the
   * breakdown and the group size, and its first date is the earliest and its last the latest
   * `created_at` of the group.
   */
  lemma AggregateSummarizes(g: seq<Reaction>)
    requires |g| > 0
    ensures var s := Aggregate(g);
      && (forall k :: k in s.breakdown <==> Count(g, k) > 0)
      && (forall k :: k in s.breakdown ==> s.breakdown[k] == Count(g, k))
      && s.total == Sum(s.breakdown) == |g|
      && s.firstDate <= s.lastDate
      && (forall r :: r in g ==> s.firstDate <= r.createdAt <= s.lastDate)
      && (exists r :: r in g && r.createdAt == s.firstDate)
      && (exists r :: r in g && r.createdAt == s.lastDate)
  {
    BreakdownCounts(g);
    BreakdownTotal(g);
    var dates := CreatedDates(g);
    forall r | r in g
      ensures SeqMin(dates) <= r.createdAt <= SeqMax(dates)
    {
      var i :| 0 <= i < |g| && g[i] == r;
      assert dates[i] in dates;
    }
    var i :| 0 <= i < |dates| && dates[i] == SeqMin(dates);
    assert g[i] in g;
    var j :| 0 <= j < |dates| && dates[j] == SeqMax(dates);
    assert g[j] in g;
  }

  /**
   * The record `IncrementReaction` upserts (lines 89-112): one more of kind `k` on the stored
   * breakdown, or on an empty one when no record exists; the total recomputed from the new
   * breakdown; the last date stamped `now`, and the first date `now` only on insert.
   */
  ghost function Incremented(existing: Option<PhotoStats>, k: string, now: int): (s: PhotoStats)
    ensures var before := if existing.Some? then existing.value.breakdown else map[];
      && s.breakdown.Keys == before.Keys + {k}
      && s.breakdown[k] == (if k in before then before[k] else 0) + 1
      && (forall j :: j in before && j != k ==> s.breakdown[j] == before[j])
      && s.total == Sum(before) + 1
      && s.lastDate == now
      && s.firstDate == (if existing.Some? then existing.value.firstDate else now)
  {
    var before := if existing.Some? then existing.value.breakdown else map[];
    var b := Bump(before, k);
    SumBump(before, k);
    PhotoStats(b, Sum(b), if existing.Some? then existing.value.firstDate else now, now)
  }

  /**
   * Agreement of the two paths. Patching the resynced record of `g` (or no record, when `g`
   * is empty) with `r`'s kind gives the same breakdown and total as resyncing `g + [r]`.
   * The dates differ in general: the patch stamps `now` where the resync takes the
   * extremes of `created_at`.
   */
  lemma IncrementAgreesWithResync(g: seq<Reaction>, r: Reaction, now: int)
    ensures var patched := Incremented(if g == [] then None else Some(Aggregate(g)), r.reaction, now);
      var resynced := Aggregate(g + [r]);
      && patched.breakdown == resynced.breakdown
      && patched.total == resynced.total
      && patched.lastDate == now
      && resynced.lastDate == (if g == [] then r.createdAt else Max(Aggregate(g).lastDate, r.createdAt))
      && patched.firstDate == (if g == [] then now else Aggregate(g).firstDate)
      && resynced.firstDate == (if g == [] then r.createdAt else Min(Aggregate(g).firstDate, r.createdAt))
  {
    var h := g + [r];
    assert h[..|h| - 1] == g;
    if g != [] {
      BreakdownTotal(g);
      var ds := CreatedDates(h);
      assert ds[..|ds| - 1] == CreatedDates(g);
    } else {
      assert Sum(map[]) == 0;
    }
  }

  /**
   * When the new reaction is the latest and was stamped at the patch time, the patched
   * record equals the resynced one in full.
   */
  lemma IncrementAgreesWhenNewest(g: seq<Reaction>, r: Reaction, now: int)
    requires |g| > 0
    requires r.createdAt == now
    requires forall x :: x in g ==> x.createdAt <= now
    ensures Incremented(Some(Aggregate(g)), r.reaction, now) == Aggregate(g + [r])
  {
    IncrementAgreesWithResync(g, r, now);
    AggregateSummarizes(g);
  }

  /** A reaction stamped before the patch runs: the two paths disagree on both dates. */
  lemma IncrementDatesCanDiffer()
    ensures var r := Reaction("alice", 0, "bob", "love", 5, 5);
      && Incremented(None, r.reaction, 7).firstDate == 7
      && Aggregate([r]).firstDate == 5
      && Incremented(None, r.reaction, 7).lastDate != Aggregate([r]).lastDate
  {
    var r := Reaction("alice", 0, "bob", "love", 5, 5);
    assert CreatedDates([r]) == [5];
  }
}
