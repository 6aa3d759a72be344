/**
 * The photo-of-the-day gRPC servicer: the `photo_stats` store derived from the reaction log,
 * with its full resync, its incremental patch and its keyed lookup.
 */
module PhotoOfDayServer {
  import opened Common
  import opened ReactionModels
  import opened StatsAggregation

  /** The photos that have at least one reaction in the log. */
  function Photos(all: seq<Reaction>): set<PhotoKey>
  {
    set r | r in all :: r.Photo()
  }

  /** The reactions to photo `p`, in log order. */
  function GroupOf(all: seq<Reaction>, p: PhotoKey): seq<Reaction>
  {
    if all == [] then []
    else
      var last := all[|all| - 1];
      GroupOf(all[..|all| - 1], p) + (if last.Photo() == p then [last] else [])
  }

  /** A photo's group holds exactly the log's reactions to that photo. */
  lemma {:induction false} GroupMembers(all: seq<Reaction>, p: PhotoKey)
    ensures forall r :: r in GroupOf(all, p) <==> r in all && r.Photo() == p
  {
    if all != [] {
      var init := all[..|all| - 1];
      GroupMembers(init, p);
      assert all == init + [all[|all| - 1]];
    }
  }

  /** Exactly the photos that have reactions have a non-empty group. */
  lemma GroupNonEmpty(all: seq<Reaction>, p: PhotoKey)
    ensures |GroupOf(all, p)| > 0 <==> p in Photos(all)
  {
    GroupMembers(all, p);
    var g := GroupOf(all, p);
    if |g| > 0 {
      assert g[0] in g;
    } else {
      assert forall r :: r in all ==> r.Photo() != p;
    }
  }

  /** Appending one reaction adds its photo and extends that photo's group only. */
  lemma GroupsAfterAppend(s: seq<Reaction>, r: Reaction, p: PhotoKey)
    ensures Photos(s + [r]) == Photos(s) + {r.Photo()}
    ensures GroupOf(s + [r], p) == GroupOf(s, p) + (if r.Photo() == p then [r] else [])
  {
    assert (s + [r])[..|s + [r]| - 1] == s;
  }

  /** A photo without reactions has an empty group. */
  lemma GroupOfAbsent(s: seq<Reaction>, p: PhotoKey)
    requires p !in Photos(s)
    ensures GroupOf(s, p) == []
  {
    GroupNonEmpty(s, p);
  }

  /** What a resync writes: one record per photo that has reactions. */
  function Resynced(all: seq<Reaction>): (m: map<PhotoKey, PhotoStats>)
    ensures m.Keys == Photos(all)
  {
    map p | p in Photos(all) ::
      var g := GroupOf(all, p);
      assert |g| > 0 by { GroupNonEmpty(all, p); }
      Aggregate(g)
  }

  /**
   * The store after a resync: every photo with reactions gets exactly the record of its
   * group, wholesale; records of photos without reactions are kept as they were.
   */
  function Resync(records: map<PhotoKey, PhotoStats>, all: seq<Reaction>): (m: map<PhotoKey, PhotoStats>)
    ensures m.Keys == records.Keys + Photos(all)
    ensures forall p :: p in Photos(all) ==> |GroupOf(all, p)| > 0 && m[p] == Aggregate(GroupOf(all, p))
    ensures forall p :: p in records && p !in Photos(all) ==> m[p] == records[p]
  {
    records + Resynced(all)
  }

  /** Running the resync twice on the same log leaves the store as one run left it. */
  lemma ResyncIdempotent(records: map<PhotoKey, PhotoStats>, all: seq<Reaction>)
    ensures Resync(Resync(records, all), all) == Resync(records, all)
  {
    var synced := Resynced(all);
    assert (records + synced) + synced == records + synced;
  }

  /**
   * The incremental path against a resync. Resyncing the log `all` and then patching the
   * record of `r`'s photo with `r`'s kind, as `IncrementReaction` does, gives the store a resync
   * of `all + [r]` gives: the same photos, the same records for the other photos, and the same
   * breakdown and total for `r`'s photo. Only the dates may differ. It needs that a record
   * for `r`'s photo, if there is one, comes from the log: a stale record is patched, not replaced.
   */
  lemma SyncThenIncrementAgrees(records: map<PhotoKey, PhotoStats>, all: seq<Reaction>, r: Reaction, now: int)
    requires r.Photo() in records ==> r.Photo() in Photos(all)
    ensures var synced := Resync(records, all);
      var p := r.Photo();
      var patched := synced[p := Incremented(if p in synced then Some(synced[p]) else None, r.reaction, now)];
      var resynced := Resync(records, all + [r]);
      && patched.Keys == resynced.Keys
      && (forall q :: q in patched && q != p ==> patched[q] == resynced[q])
      && patched[p].breakdown == resynced[p].breakdown
      && patched[p].total == resynced[p].total
  {
    var p := r.Photo();
    var synced := Resync(records, all);
    var resynced := Resync(records, all + [r]);
    var existing := if p in synced then Some(synced[p]) else None;
    var patch := Incremented(existing, r.reaction, now);
    var patched := synced[p := patch];
    ResyncOthersAfterAppend(records, all, r, patch);
    var g := if p in Photos(all) then GroupOf(all, p) else [];
    assert existing == (if g == [] then None else Some(Aggregate(g))) && resynced[p] == Aggregate(g + [r]) by {
      ResyncAtAppended(records, all, r);
    }
    IncrementAgreesWithResync(g, r, now);
    assert patched[p] == patch;
  }

  /**
   * A resync after appending `r` has the photos of a resync before it plus `r`'s photo, and
   * the same records for every other photo, whatever record `r`'s photo is given.
   */
  lemma ResyncOthersAfterAppend(records: map<PhotoKey, PhotoStats>, all: seq<Reaction>, r: Reaction, v: PhotoStats)
    ensures var patched := Resync(records, all)[r.Photo() := v];
      var resynced := Resync(records, all + [r]);
      && patched.Keys == resynced.Keys
      && forall q :: q in patched && q != r.Photo() ==> patched[q] == resynced[q]
  {
    ResyncKeysAfterAppend(records, all, r);
    ResyncOthersAgree(records, all, r);
    PatchAgrees(Resync(records, all), Resync(records, all + [r]), r.Photo(), v);
  }

  /** Appending `r` changes no record a resync gives a photo other than `r`'s. */
  lemma ResyncOthersAgree(records: map<PhotoKey, PhotoStats>, all: seq<Reaction>, r: Reaction)
    ensures forall q :: q in Resync(records, all) && q != r.Photo() ==>
              q in Resync(records, all + [r]) && Resync(records, all + [r])[q] == Resync(records, all)[q]
  {
    forall q | q in Resync(records, all) && q != r.Photo()
      ensures q in Resync(records, all + [r]) && Resync(records, all + [r])[q] == Resync(records, all)[q]
    {
      ResyncAtOther(records, all, r, q);
    }
  }

  /** A map that gains `k` and keeps its other values agrees with the old one patched at `k`. */
  lemma PatchAgrees(before: map<PhotoKey, PhotoStats>, after: map<PhotoKey, PhotoStats>, k: PhotoKey, v: PhotoStats)
    requires after.Keys == before.Keys + {k}
    requires forall q :: q in before && q != k ==> q in after && after[q] == before[q]
    ensures before[k := v].Keys == after.Keys
    ensures forall q :: q in before[k := v] && q != k ==> before[k := v][q] == after[q]
  {
  }

  /** Appending `r` adds `r`'s photo to the photos a resync keeps a record for. */
  lemma ResyncKeysAfterAppend(records: map<PhotoKey, PhotoStats>, all: seq<Reaction>, r: Reaction)
    ensures Resync(records, all + [r]).Keys == Resync(records, all).Keys + {r.Photo()}
  {
    GroupsAfterAppend(all, r, r.Photo());
  }

  /** Appending `r` does not change the record a resync gives a photo other than `r`'s. */
  lemma ResyncAtOther(records: map<PhotoKey, PhotoStats>, all: seq<Reaction>, r: Reaction, q: PhotoKey)
    requires q in Resync(records, all) && q != r.Photo()
    ensures q in Resync(records, all + [r]) && Resync(records, all + [r])[q] == Resync(records, all)[q]
  {
    var before := Resync(records, all);
    var after := Resync(records, all + [r]);
    GroupsAfterAppend(all, r, q);
    if q in Photos(all) {
      var g := GroupOf(all, q);
      assert GroupOf(all + [r], q) == g;
      assert after[q] == Aggregate(g) == before[q];
    } else {
      assert q !in Photos(all + [r]);
      assert after[q] == records[q] == before[q];
    }
  }

  /**
   * The record a resync gives `r`'s photo before and after appending `r`: the group's record
   * (none when the photo has no reactions and no record) and the record of the group with `r`.
   */
  lemma ResyncAtAppended(records: map<PhotoKey, PhotoStats>, all: seq<Reaction>, r: Reaction)
    requires r.Photo() in records ==> r.Photo() in Photos(all)
    ensures var p := r.Photo();
      var g := if p in Photos(all) then GroupOf(all, p) else [];
      && (p in Resync(records, all) <==> g != [])
      && (g != [] ==> Resync(records, all)[p] == Aggregate(g))
      && Resync(records, all + [r])[p] == Aggregate(g + [r])
  {
    var p := r.Photo();
    GroupsAfterAppend(all, r, p);
    if p in Photos(all) {
      GroupNonEmpty(all, p);
    } else {
      GroupOfAbsent(all, p);
    }
  }

  /** The answer to `IncrementReaction`. */
  datatype IncrementResponse = IncrementResponse(success: bool, message: string, totalReactions: int)

  /** The answer to `GetPhotoStats`. */
  datatype StatsResponse =
    | NotFound
    | Found(displayName: string, photoId: nat, totalReactions: int, breakdown: Breakdown,
            firstDate: int, lastDate: int)

  /** The groups of a log prefix are exactly what `GroupOf` says for that prefix. */
  ghost predicate GroupsOf(groups: map<PhotoKey, seq<Reaction>>, seen: seq<Reaction>)
  {
    && groups.Keys == Photos(seen)
    && forall p :: p in groups ==> groups[p] == GroupOf(seen, p)
  }

  /** One step of the grouping loop: the groups of a prefix, with the next reaction added, are the groups of the longer prefix. */
  lemma GroupsStep(groups: map<PhotoKey, seq<Reaction>>, all: seq<Reaction>, i: nat)
    requires i < |all| && GroupsOf(groups, all[..i])
    ensures var r := all[i];
      GroupsOf(groups[r.Photo() := (if r.Photo() in groups then groups[r.Photo()] else []) + [r]], all[..i + 1])
  {
    assert all[..i + 1] == all[..i] + [all[i]];
    GroupsAppend(groups, all[..i], all[i]);
  }

  /** Appending a reaction to its photo's group keeps the groups in step with the longer log. */
  lemma GroupsAppend(groups: map<PhotoKey, seq<Reaction>>, seen: seq<Reaction>, r: Reaction)
    requires GroupsOf(groups, seen)
    ensures GroupsOf(groups[r.Photo() := (if r.Photo() in groups then groups[r.Photo()] else []) + [r]], seen + [r])
  {
    var key := r.Photo();
    if key !in groups {
      GroupOfAbsent(seen, key);
    }
    var next := groups[key := (if key in groups then groups[key] else []) + [r]];
    GroupsAfterAppend(seen, r, key);
    forall p | p in next
      ensures next[p] == GroupOf(seen + [r], p)
    {
      GroupsAfterAppend(seen, r, p);
    }
  }

  /** Groups the log by photo, keeping log order in each group (lines 44-48). */
  method GroupByPhoto(all: seq<Reaction>) returns (groups: map<PhotoKey, seq<Reaction>>)
    ensures groups.Keys == Photos(all)
    ensures forall p :: p in groups ==> groups[p] == GroupOf(all, p) && |groups[p]| > 0
  {
    groups := map[];
    var i := 0;
    while i < |all|
      invariant 0 <= i <= |all|
      invariant GroupsOf(groups, all[..i])
    {
      var r := all[i];
      var key := r.Photo();
      var group := if key in groups then groups[key] else [];
      GroupsStep(groups, all, i);
      groups := groups[key := group + [r]];
      i := i + 1;
    }
    GroupsComplete(groups, all);
  }

  /** Groups in step with the whole log are its groups, none of them empty. */
  lemma GroupsComplete(groups: map<PhotoKey, seq<Reaction>>, all: seq<Reaction>)
    requires GroupsOf(groups, all[..|all|])
    ensures groups.Keys == Photos(all)
    ensures forall p :: p in groups ==> groups[p] == GroupOf(all, p) && |groups[p]| > 0
  {
    assert all[..|all|] == all;
    forall p | p in groups
      ensures |groups[p]| > 0
    {
      GroupNonEmpty(all, p);
    }
  }

  /** `sum(breakdown.values())`. */
  method SumValues(b: Breakdown) returns (total: nat)
    ensures total == Sum(b)
  {
    total := 0;
    var rest := b;
    while rest != map[]
      invariant total + Sum(rest) == Sum(b)
      decreases rest.Keys
    {
      var k :| k in rest;
      SumRemove(rest, k);
      total := total + rest[k];
      rest := rest - {k};
    }
  }

  /** The counts and dates of one group (lines 51-56) and the record written for it (lines 64-69). */
  method Summarize(g: seq<Reaction>) returns (stats: PhotoStats)
    requires |g| > 0
    ensures stats == Aggregate(g)
  {
    var breakdown: Breakdown := map[];
    var dates: seq<int> := [];
    var i := 0;
    while i < |g|
      invariant 0 <= i <= |g|
      invariant breakdown == BreakdownOf(g[..i])
      invariant |dates| == i && forall j :: 0 <= j < i ==> dates[j] == g[j].createdAt
    {
      assert g[..i + 1][..i] == g[..i];
      breakdown := Bump(breakdown, g[i].reaction);
      dates := dates + [g[i].createdAt];
      i := i + 1;
    }
    assert g[..i] == g;
    assert dates == CreatedDates(g);
    var total := SumValues(breakdown);
    BreakdownTotal(g);
    stats := PhotoStats(breakdown, total, SeqMin(dates), SeqMax(dates));
  }

  /** The record a resync writes for a photo of the log is the aggregate of its group. */
  lemma ResyncedAt(all: seq<Reaction>, p: PhotoKey)
    requires p in Photos(all)
    ensures |GroupOf(all, p)| > 0 && p in Resynced(all) && Resynced(all)[p] == Aggregate(GroupOf(all, p))
  {
    GroupNonEmpty(all, p);
  }

  /** Every record's total is the sum of its breakdown. */
  ghost predicate TotalsAgree(m: map<PhotoKey, PhotoStats>)
  {
    forall p :: p in m ==> m[p].total == Sum(m[p].breakdown)
  }

  /** The records a resync writes agree with their breakdowns. */
  lemma ResyncedTotals(all: seq<Reaction>)
    ensures TotalsAgree(Resynced(all))
  {
    forall p | p in Resynced(all)
      ensures Resynced(all)[p].total == Sum(Resynced(all)[p].breakdown)
    {
      GroupNonEmpty(all, p);
      BreakdownTotal(GroupOf(all, p));
    }
  }

  /** Laying one consistent store over another keeps it consistent. */
  lemma TotalsOverlay(base: map<PhotoKey, PhotoStats>, top: map<PhotoKey, PhotoStats>)
    requires TotalsAgree(base) && TotalsAgree(top)
    ensures TotalsAgree(base + top)
  {
  }

  /**
   * Once every group is written over `before`, the store is the resync of `before`, and it
   * stays consistent.
   */
  lemma SyncDone(records: map<PhotoKey, PhotoStats>, before: map<PhotoKey, PhotoStats>,
                 all: seq<Reaction>, groups: map<PhotoKey, seq<Reaction>>)
    requires groups.Keys == Photos(all)
    requires forall p :: p in groups ==> groups[p] == GroupOf(all, p) && |groups[p]| > 0
    requires records.Keys == before.Keys + groups.Keys
    requires forall p :: p in groups ==> records[p] == Aggregate(groups[p])
    requires forall p :: p in before && p !in groups ==> records[p] == before[p]
    ensures records == Resync(before, all)
    ensures TotalsAgree(before) ==> TotalsAgree(records)
  {
    var synced := Resynced(all);
    forall p | p in synced
      ensures synced[p] == records[p]
    {
      ResyncedAt(all, p);
    }
    var m := before + synced;
    assert records.Keys == m.Keys;
    forall p | p in records
      ensures records[p] == m[p]
    {
      if p in synced { }
    }
    ResyncedTotals(all);
    if TotalsAgree(before) {
      TotalsOverlay(before, synced);
    }
  }

  class StatsStore {
    /** The `photo_stats` collection, keyed by (display_name, photo_id). */
    var records: map<PhotoKey, PhotoStats>

    /** Every record's total is the sum of its breakdown. */
    ghost predicate Valid()
      reads this
    {
      TotalsAgree(records)
    }

    constructor ()
      ensures Valid() && records == map[]
    {
      records := map[];
    }

    /** `sync_existing_reactions`: one `$set` upsert per photo of the log (lines 34-79). */
    method Sync(all: seq<Reaction>)
      requires Valid()
      modifies this
      ensures Valid()
      ensures records == Resync(old(records), all)
    {
      var groups := GroupByPhoto(all);
      var pending := groups.Keys;
      ghost var done: set<PhotoKey> := {};
      while pending != {}
        invariant pending + done == groups.Keys && pending !! done
        invariant records.Keys == old(records).Keys + done
        invariant forall q :: q in done ==> records[q] == Aggregate(groups[q])
        invariant forall q :: q in old(records) && q !in done ==> records[q] == old(records)[q]
        decreases pending
      {
        var p :| p in pending;
        var stats := Summarize(groups[p]);
        records := records[p := stats];
        done := done + {p};
        pending := pending - {p};
      }
      SyncDone(records, old(records), all, groups);
    }

    /**
     * `IncrementReaction` (lines 82-129). `failure` is the exception the store raises, if
     * any; it leaves the store as it was and answers `success=False` with total 0.
     */
    method Increment(displayName: string, photoId: nat, kind: string, now: int, failure: Option<string>)
      returns (resp: IncrementResponse)
      requires Valid()
      modifies this
      ensures Valid()
      ensures failure.Some? ==> resp == IncrementResponse(false, failure.value, 0) && records == old(records)
      ensures failure.None? ==>
        var key := (displayName, photoId);
        var existing := if key in old(records) then Some(old(records)[key]) else None;
        && records == old(records)[key := Incremented(existing, kind, now)]
        && resp == IncrementResponse(true, "Reaction incremented", records[key].total)
        && resp.totalReactions == (if key in old(records) then old(records)[key].total else 0) + 1
    {
      if failure.Some? {
        return IncrementResponse(false, failure.value, 0);
      }
      var key := (displayName, photoId);
      var breakdown: Breakdown := if key in records then records[key].breakdown else map[];
      var first := if key in records then records[key].firstDate else now;
      SumBump(breakdown, kind);
      breakdown := Bump(breakdown, kind);
      var total := SumValues(breakdown);
      records := records[key := PhotoStats(breakdown, total, first, now)];
      resp := IncrementResponse(true, "Reaction incremented", total);
    }

    /** `GetPhotoStats` (lines 132-149): `found=False` for an absent key, else the stored fields. */
    function GetPhotoStats(displayName: string, photoId: nat): (resp: StatsResponse)
      reads this
      ensures resp.NotFound? <==> (displayName, photoId) !in records
      ensures resp.Found? ==>
        var s := records[(displayName, photoId)];
        && resp.displayName == displayName && resp.photoId == photoId
        && resp.totalReactions == s.total && resp.breakdown == s.breakdown
        && resp.firstDate == s.firstDate && resp.lastDate == s.lastDate
    {
      var key := (displayName, photoId);
      if key !in records then NotFound
      else
        var s := records[key];
        Found(displayName, photoId, s.total, s.breakdown, s.firstDate, s.lastDate)
    }
  }
}
