/**
 * The reaction service's handlers over its reaction collection, a table keyed by
 * (display_name, photo_id, reactor_name). Photo existence, which the service asks the photo
 * service about, is the set `photos` of existing photo keys. After each change the service
 * calls the photo-of-the-day service; those calls are the `Notice` each handler returns.
 */
module ReactionLog {
  import opened Common
  import opened Sorting
  import opened ReactionModels

  /** The call a handler makes to the photo-of-the-day service once the table has changed. */
  datatype Notice =
    | IncrementNotice(displayName: string, photoId: nat, reactionType: string)
    | UpdateNotice(displayName: string, photoId: nat, oldReactionType: string, newReactionType: string)
    | DecrementNotice(displayName: string, photoId: nat, reactionType: string)

  /** A created reaction and the Location header that points at it. */
  datatype Created = Created(reaction: Reaction, location: string)

  /** The keys of the reactions to photo `p`. */
  function PhotoKeys(rows: map<ReactionKey, Reaction>, p: PhotoKey): (keys: set<ReactionKey>)
    ensures forall k :: k in keys <==> k in rows && (k.0, k.1) == p
  {
    set k | k in rows && (k.0, k.1) == p
  }

  function CreatedAt(r: Reaction): int { r.createdAt }

  /** Adding a reaction to photo `p` under a new key adds one to that photo's listing and changes no other photo's. */
  lemma PhotoKeysAfterInsert(rows: map<ReactionKey, Reaction>, k: ReactionKey, r: Reaction, p: PhotoKey)
    requires k !in rows
    ensures (k.0, k.1) == p ==> |PhotoKeys(rows[k := r], p)| == |PhotoKeys(rows, p)| + 1
    ensures (k.0, k.1) != p ==> PhotoKeys(rows[k := r], p) == PhotoKeys(rows, p)
  {
    if (k.0, k.1) == p {
      assert PhotoKeys(rows[k := r], p) == PhotoKeys(rows, p) + {k};
    } else {
      assert PhotoKeys(rows[k := r], p) == PhotoKeys(rows, p);
    }
  }

  /** Removing an existing reaction of photo `p` takes one from that photo's listing and changes no other photo's. */
  lemma PhotoKeysAfterRemove(rows: map<ReactionKey, Reaction>, k: ReactionKey, p: PhotoKey)
    requires k in rows
    ensures (k.0, k.1) == p ==> |PhotoKeys(rows - {k}, p)| == |PhotoKeys(rows, p)| - 1
    ensures (k.0, k.1) != p ==> PhotoKeys(rows - {k}, p) == PhotoKeys(rows, p)
  {
    if (k.0, k.1) == p {
      assert PhotoKeys(rows, p) == PhotoKeys(rows - {k}, p) + {k};
    } else {
      assert PhotoKeys(rows - {k}, p) == PhotoKeys(rows, p);
    }
  }

  /** The rows stored under `keys`. */
  function RowsOf(rows: map<ReactionKey, Reaction>, keys: set<ReactionKey>): set<Reaction>
    requires keys <= rows.Keys
  {
    set k | k in keys :: rows[k]
  }

  /** The rows of one more key are the rows of the others and that key's row. */
  lemma RowsOfStep(rows: map<ReactionKey, Reaction>, keys: set<ReactionKey>, k: ReactionKey)
    requires keys <= rows.Keys && k in rows
    ensures RowsOf(rows, keys + {k}) == RowsOf(rows, keys) + {rows[k]}
  {
    var big, small := RowsOf(rows, keys + {k}), RowsOf(rows, keys) + {rows[k]};
    forall r | r in big ensures r in small {
      var j :| j in keys + {k} && rows[j] == r;
      if j != k { assert r in RowsOf(rows, keys); }
    }
    forall r | r in small ensures r in big {
      if r != rows[k] {
        var j :| j in keys && rows[j] == r;
        assert j in keys + {k};
      }
    }
  }

  /** The rows stored under `keys`, ordered by creation time (the `created_at` ascending sort). */
  method SortByCreation(rows: map<ReactionKey, Reaction>, keys: set<ReactionKey>) returns (sorted: seq<Reaction>)
    requires keys <= rows.Keys
    ensures |sorted| == |keys|
    ensures SortedBy(sorted, CreatedAt)
    ensures forall r :: r in sorted ==> exists k :: k in keys && rows[k] == r
    ensures forall k :: k in keys ==> rows[k] in sorted
  {
    var remaining := keys;
    ghost var done: set<ReactionKey> := {};
    sorted := [];
    while remaining != {}
      invariant remaining + done == keys && remaining !! done
      invariant |sorted| == |done|
      invariant SortedBy(sorted, CreatedAt)
      invariant forall r :: r in sorted <==> r in RowsOf(rows, done)
      decreases |remaining|
    {
      var k :| k in remaining;
      RowsOfStep(rows, done, k);
      sorted := InsertBy(sorted, rows[k], CreatedAt);
      done := done + {k};
      remaining := remaining - {k};
    }
    forall k | k in keys
      ensures rows[k] in sorted
    {
      assert rows[k] in RowsOf(rows, keys);
    }
  }

  class ReactionTable {
    /** The reaction collection; a map, so there is at most one reaction per key. */
    var rows: map<ReactionKey, Reaction>

    /** Each row is stored under its own key and satisfies the field bounds. */
    ghost predicate Valid()
      reads this
    {
      forall k :: k in rows ==> rows[k].Key() == k && WellFormed(rows[k])
    }

    constructor ()
      ensures Valid() && rows == map[]
    {
      rows := map[];
    }

    /**
     * POST /reactions/{display_name}/{photo_id}: checks, in this order, the field bounds (422),
     * the kind (400), the photo (404) and an existing reaction of the same reactor (409).
     */
    method Add(displayName: string, photoId: nat, body: ReactionCreate, photos: set<PhotoKey>, now: int)
      returns (result: Result<Created>, notice: Option<Notice>)
      requires Valid()
      modifies this
      ensures Valid()
      ensures var key := (displayName, photoId, body.reactorName);
        result == (
          if !ValidName(displayName) || !ValidName(body.reactorName) then Err(RequestValidation)
          else if !IsAllowedKind(body.reaction) then Err(InvalidReaction)
          else if (displayName, photoId) !in photos then Err(PhotoNotFound)
          else if key in old(rows) then Err(ReactionAlreadyExists)
          else Ok(Created(NewReaction(displayName, photoId, body.reactorName, body.reaction, now), ReactionLocation(key))))
      ensures rows == if result.Ok? then old(rows)[result.value.reaction.Key() := result.value.reaction] else old(rows)
      ensures notice == if result.Ok? then Some(IncrementNotice(displayName, photoId, body.reaction)) else None
    {
      notice := None;
      if !ValidName(displayName) || !ValidName(body.reactorName) {
        return Err(RequestValidation), notice;
      }
      if !IsAllowedKind(body.reaction) {
        return Err(InvalidReaction), notice;
      }
      if (displayName, photoId) !in photos {
        return Err(PhotoNotFound), notice;
      }
      var key := (displayName, photoId, body.reactorName);
      if key in rows {
        return Err(ReactionAlreadyExists), notice;
      }
      var reaction := NewReaction(displayName, photoId, body.reactorName, body.reaction, now);
      rows := rows[key := reaction];
      notice := Some(IncrementNotice(displayName, photoId, body.reaction));
      result := Ok(Created(reaction, ReactionLocation(key)));
    }

    /**
     * GET /reactions/{display_name}/{photo_id}: every reaction to the photo, oldest first, with
     * their number.
     */
    method ListForPhoto(displayName: string, photoId: nat, photos: set<PhotoKey>)
      returns (result: Result<PhotoReactionsResponse>)
      requires Valid()
      ensures !ValidName(displayName) ==> result == Err(RequestValidation)
      ensures ValidName(displayName) && (displayName, photoId) !in photos ==> result == Err(PhotoNotFound)
      ensures ValidName(displayName) && (displayName, photoId) in photos ==> result.Ok?
      ensures result.Ok? ==>
        var resp := result.value;
        && resp.displayName == displayName && resp.photoId == photoId
        && resp.totalReactions == |resp.reactions| == |PhotoKeys(rows, (displayName, photoId))|
        && SortedBy(resp.reactions, CreatedAt)
        && (forall r :: r in resp.reactions ==> r.Key() in rows && rows[r.Key()] == r && r.Photo() == (displayName, photoId))
        && (forall k :: k in PhotoKeys(rows, (displayName, photoId)) ==> rows[k] in resp.reactions)
    {
      if !ValidName(displayName) {
        return Err(RequestValidation);
      }
      if (displayName, photoId) !in photos {
        return Err(PhotoNotFound);
      }
      var keys := PhotoKeys(rows, (displayName, photoId));
      var sorted := SortByCreation(rows, keys);
      forall r | r in sorted
        ensures r.Key() in rows && rows[r.Key()] == r && r.Photo() == (displayName, photoId)
      {
        var k :| k in keys && rows[k] == r;
        assert rows[k].Key() == k;
      }
      result := Ok(PhotoReactionsResponse(displayName, photoId, |sorted|, sorted));
    }

    /**
     * PUT /reactions/{display_name}/{photo_id}/{reactor_name}: checks the path bounds (422), the
     * kind (400), the photo (404) and the reaction (404), then replaces the kind and stamps
     * `updated_at`. The reaction's kind is overwritten before the notice reads it, so the notice
     * reports the new kind as the old one too.
     */
    method Update(displayName: string, photoId: nat, reactorName: string, body: ReactionUpdate,
                  photos: set<PhotoKey>, now: int)
      returns (result: Result<Reaction>, notice: Option<Notice>)
      requires Valid()
      modifies this
      ensures Valid()
      ensures var key := (displayName, photoId, reactorName);
        result == (
          if !ValidName(displayName) || !ValidName(reactorName) then Err(RequestValidation)
          else if !IsAllowedKind(body.reaction) then Err(InvalidReaction)
          else if (displayName, photoId) !in photos then Err(PhotoNotFound)
          else if key !in old(rows) then Err(ReactionNotFound)
          else Ok(old(rows)[key].(reaction := body.reaction, updatedAt := now)))
      ensures result.Ok? ==>
        var key := (displayName, photoId, reactorName);
        && result.value.Key() == key
        && result.value.createdAt == old(rows)[key].createdAt
        && result.value.reaction == body.reaction
        && rows == old(rows)[key := result.value]
      ensures result.Err? ==> rows == old(rows)
      ensures notice == if result.Ok? then Some(UpdateNotice(displayName, photoId, body.reaction, body.reaction)) else None
    {
      notice := None;
      if !ValidName(displayName) || !ValidName(reactorName) {
        return Err(RequestValidation), notice;
      }
      if !IsAllowedKind(body.reaction) {
        return Err(InvalidReaction), notice;
      }
      if (displayName, photoId) !in photos {
        return Err(PhotoNotFound), notice;
      }
      var key := (displayName, photoId, reactorName);
      if key !in rows {
        return Err(ReactionNotFound), notice;
      }
      var reaction := rows[key];
      reaction := reaction.(reaction := body.reaction);
      reaction := reaction.(updatedAt := now);
      rows := rows[key := reaction];
      notice := Some(UpdateNotice(displayName, photoId, reaction.reaction, body.reaction));
      result := Ok(reaction);
    }

    /**
     * DELETE /reactions/{display_name}/{photo_id}/{reactor_name}: checks the path bounds (422),
     * the photo (404) and the reaction (404), then removes exactly that reaction. `error` is
     * None on success (204).
     */
    method Delete(displayName: string, photoId: nat, reactorName: string, photos: set<PhotoKey>)
      returns (error: Option<ApiError>, notice: Option<Notice>)
      requires Valid()
      modifies this
      ensures Valid()
      ensures var key := (displayName, photoId, reactorName);
        error == (
          if !ValidName(displayName) || !ValidName(reactorName) then Some(RequestValidation)
          else if (displayName, photoId) !in photos then Some(PhotoNotFound)
          else if key !in old(rows) then Some(ReactionNotFound)
          else None)
      ensures rows == if error.None? then old(rows) - {(displayName, photoId, reactorName)} else old(rows)
      ensures notice == if error.None? then
                Some(DecrementNotice(displayName, photoId, old(rows)[(displayName, photoId, reactorName)].reaction))
              else None
    {
      notice := None;
      if !ValidName(displayName) || !ValidName(reactorName) {
        return Some(RequestValidation), notice;
      }
      if (displayName, photoId) !in photos {
        return Some(PhotoNotFound), notice;
      }
      var key := (displayName, photoId, reactorName);
      if key !in rows {
        return Some(ReactionNotFound), notice;
      }
      var reaction := rows[key];
      rows := rows - {key};
      notice := Some(DecrementNotice(displayName, photoId, reaction.reaction));
      error := None;
    }
  }
}
