/**
 * The photo service's gallery and photo handlers over its two collections: the photos,
 * keyed by (display_name, photo_id), and the per-photographer id counters. Photographer
 * existence, tag generation and image decoding are calls into other services and libraries;
 * here they are parameters.
 */
module PhotoStore {
  import opened Common
  import opened Text
  import opened Paging
  import opened Sorting
  import opened PhotoModels
  import opened PhotoServiceConfig

  type PhotoKey = (string, nat)

  // ---------------------------------------------------------------- id allocation

  /** The id `allocate_photo_id` hands out: the stored `next_photo_id`, or 0 without a counter. */
  function AllocatedId(counters: map<string, nat>, displayName: string): (id: nat)
    ensures displayName !in counters ==> id == 0
  {
    if displayName in counters then counters[displayName] else 0
  }

  /** The counters after one allocation: this photographer's counter is one past the id handed out. */
  function AfterAllocate(counters: map<string, nat>, displayName: string): (c: map<string, nat>)
    ensures c.Keys == counters.Keys + {displayName}
    ensures c[displayName] == AllocatedId(counters, displayName) + 1
    ensures forall other :: other in counters && other != displayName ==> c[other] == counters[other]
  {
    counters[displayName := AllocatedId(counters, displayName) + 1]
  }

  /** The ids `n` successive uploads for one photographer receive. */
  function AllocateMany(counters: map<string, nat>, displayName: string, n: nat): seq<nat>
    decreases n
  {
    if n == 0 then []
    else [AllocatedId(counters, displayName)] + AllocateMany(AfterAllocate(counters, displayName), displayName, n - 1)
  }

  /** Successive uploads get consecutive ids from the stored counter on: 0, 1, 2, … for a new photographer. */
  lemma {:induction false} AllocationIsSequential(counters: map<string, nat>, displayName: string, n: nat)
    ensures var ids := AllocateMany(counters, displayName, n);
      |ids| == n && forall i :: 0 <= i < n ==> ids[i] == AllocatedId(counters, displayName) + i
    decreases n
  {
    if n > 0 {
      AllocationIsSequential(AfterAllocate(counters, displayName), displayName, n - 1);
    }
  }

  // ---------------------------------------------------------------- image checks

  /** The MIME types an upload may declare. */
  predicate AllowedType(settings: Settings, contentType: Option<string>) {
    contentType.Some? && contentType.value in settings.allowedImageTypes
  }

  /**
   * `validate_and_process_image`: the declared type first, then the size, then whether the
   * data decodes as an image (`decodes`).
   */
  function ValidateImage(settings: Settings, contentType: Option<string>, data: seq<Byte>, decodes: bool)
    : (r: Result<(seq<Byte>, string)>)
    ensures r.Ok? <==> AllowedType(settings, contentType) && |data| <= MaxImageSizeBytes(settings) && decodes
    ensures !AllowedType(settings, contentType) ==> r == Err(InvalidImage)
    ensures AllowedType(settings, contentType) && |data| > MaxImageSizeBytes(settings) ==> r == Err(ImageTooLarge)
    ensures AllowedType(settings, contentType) && |data| <= MaxImageSizeBytes(settings) && !decodes ==> r == Err(InvalidImage)
    ensures r.Ok? ==> r.value == (data, contentType.value)
  {
    if contentType.None? || contentType.value !in settings.allowedImageTypes then Err(InvalidImage)
    else if |data| > MaxImageSizeBytes(settings) then Err(ImageTooLarge)
    else if !decodes then Err(InvalidImage)
    else Ok((data, contentType.value))
  }

  /** With the default settings an image of exactly 10 MiB passes the size check and one byte more fails it. */
  lemma DefaultSizeLimit(data: seq<Byte>)
    requires AllowedType(Defaults, Some("image/png"))
    ensures |data| == 10485760 ==> ValidateImage(Defaults, Some("image/png"), data, true).Ok?
    ensures |data| == 10485761 ==> ValidateImage(Defaults, Some("image/png"), data, true) == Err(ImageTooLarge)
  {
    DefaultEndpointsAndLimits();
  }

  // ---------------------------------------------------------------- responses

  datatype Uploaded = Uploaded(photoId: nat, location: string)

  datatype PhotoDigest = PhotoDigest(photoId: nat, link: string)

  datatype PhotosResponse = PhotosResponse(items: seq<PhotoDigest>, hasMore: bool, totalCount: nat)

  datatype ImageResponse = ImageResponse(content: seq<Byte>, mediaType: string)

  datatype AttributesResponse = AttributesResponse(
    photoId: nat, displayName: string, meta: Metadata, createdAt: int, updatedAt: int)

  /** `/photo/{display_name}/{photo_id}`, the Location of an upload and the link of a listed photo. */
  function PhotoLink(displayName: string, photoId: nat): (link: string)
    ensures |link| == 8 + |displayName| + |NatToDecimal(photoId)|
    ensures link[..7] == "/photo/" && link[7..7 + |displayName|] == displayName && link[7 + |displayName|] == '/'
    ensures link[8 + |displayName|..] == NatToDecimal(photoId)
  {
    "/photo/" + displayName + "/" + NatToDecimal(photoId)
  }

  /** Two photos of the same photographer have different links. */
  lemma PhotoLinksDistinct(displayName: string, a: nat, b: nat)
    requires a != b
    ensures PhotoLink(displayName, a) != PhotoLink(displayName, b)
  {
    var prefix := "/photo/" + displayName + "/";
    if PhotoLink(displayName, a) == PhotoLink(displayName, b) {
      assert NatToDecimal(a) == PhotoLink(displayName, a)[|prefix|..];
      NatToDecimalInjective(a, b);
    }
  }

  /** The listing's items: one digest with its link per photo id. */
  function Digests(displayName: string, ids: seq<nat>): (ds: seq<PhotoDigest>)
    ensures |ds| == |ids|
    ensures forall i :: 0 <= i < |ids| ==> ds[i] == PhotoDigest(ids[i], PhotoLink(displayName, ids[i]))
  {
    seq(|ids|, i requires 0 <= i < |ids| => PhotoDigest(ids[i], PhotoLink(displayName, ids[i])))
  }

  /** The ids of one photographer's photos among some keys. */
  ghost function IdsOf(keys: set<PhotoKey>, displayName: string): set<nat>
  {
    set k | k in keys && k.0 == displayName :: k.1
  }

  class PhotoStore {
    /** The `photos` collection. */
    var photos: map<PhotoKey, Photo>
    /** The `photo_id_counters` collection: `next_photo_id` per photographer. */
    var counters: map<string, nat>

    /** Each photo is stored under its own key, and its id is below its photographer's counter. */
    ghost predicate Valid()
      reads this
    {
      forall k :: k in photos ==> photos[k].Key() == k && k.0 in counters && k.1 < counters[k.0]
    }

    constructor ()
      ensures Valid() && photos == map[] && counters == map[]
    {
      photos := map[];
      counters := map[];
    }

    /** `allocate_photo_id`: the id handed out is not used by any stored photo of the photographer. */
    method AllocatePhotoId(displayName: string) returns (id: nat)
      requires Valid()
      modifies this
      ensures Valid()
      ensures id == AllocatedId(old(counters), displayName)
      ensures counters == AfterAllocate(old(counters), displayName) && photos == old(photos)
      ensures (displayName, id) !in photos
    {
      if displayName !in counters {
        counters := counters[displayName := 1];
        id := 0;
      } else {
        id := counters[displayName];
        counters := counters[displayName := id + 1];
      }
    }

    /**
     * POST /gallery/{display_name}: the path bound (422), the photographer (404), the image
     * checks, then a new photo under a freshly allocated id.
     */
    method Upload(settings: Settings, displayName: string, contentType: Option<string>, data: seq<Byte>,
                  photographerExists: bool, decodes: bool, tags: seq<string>, now: int)
      returns (result: Result<Uploaded>)
      requires Valid()
      modifies this
      ensures Valid()
      ensures !ValidPathName(displayName) ==> result == Err(RequestValidation)
      ensures ValidPathName(displayName) && !photographerExists ==> result == Err(PhotographerNotFound)
      ensures ValidPathName(displayName) && photographerExists ==>
        var checked := ValidateImage(settings, contentType, data, decodes);
        (result.Ok? <==> checked.Ok?) && (checked.Err? ==> result == Err(checked.error))
      ensures result.Err? ==> photos == old(photos) && counters == old(counters)
      ensures result.Ok? ==>
        var id := AllocatedId(old(counters), displayName);
        && result.value == Uploaded(id, PhotoLink(displayName, id))
        && (displayName, id) !in old(photos)
        && photos == old(photos)[(displayName, id) := NewPhoto(displayName, id, data, tags, now)]
        && counters == AfterAllocate(old(counters), displayName)
    {
      if !ValidPathName(displayName) {
        return Err(RequestValidation);
      }
      if !photographerExists {
        return Err(PhotographerNotFound);
      }
      var checked := ValidateImage(settings, contentType, data, decodes);
      if checked.Err? {
        return Err(checked.error);
      }
      var id := AllocatePhotoId(displayName);
      photos := photos[(displayName, id) := NewPhoto(displayName, id, checked.value.0, tags, now)];
      result := Ok(Uploaded(id, PhotoLink(displayName, id)));
    }

    /**
     * GET /gallery/{display_name}: the photographer's photos ordered by id, one page of them,
     * whether more follow, and how many there are.
     */
    method ListPhotos(displayName: string, offset: int, limit: int, photographerExists: bool)
      returns (result: Result<PhotosResponse>)
      requires Valid()
      ensures !ValidPathName(displayName) || offset < 0 || !(1 <= limit <= 100) ==> result == Err(RequestValidation)
      ensures ValidPathName(displayName) && offset >= 0 && 1 <= limit <= 100 && !photographerExists ==> result == Err(PhotographerNotFound)
      ensures ValidPathName(displayName) && offset >= 0 && 1 <= limit <= 100 && photographerExists ==> result.Ok?
      ensures result.Ok? ==> offset >= 0
      ensures result.Ok? && offset >= 0 ==>
        var ids := IdsOf(photos.Keys, displayName);
        var page := Paginate(SortedIds(ids), offset, limit);
        && result.value.totalCount == |ids|
        && result.value.items == Digests(displayName, page.items)
        && result.value.hasMore == page.hasMore
      ensures result.Ok? && result.value.totalCount == 0 ==> result.value.items == [] && !result.value.hasMore
    {
      if !ValidPathName(displayName) || offset < 0 || !(1 <= limit <= 100) {
        return Err(RequestValidation);
      }
      if !photographerExists {
        return Err(PhotographerNotFound);
      }
      var sorted := SortedPhotoIds(displayName);
      ghost var ids := IdsOf(photos.Keys, displayName);
      ListingUnique(sorted, SortedIds(ids), ids);
      var total := |sorted|;
      if total == 0 {
        return Ok(PhotosResponse([], false, 0));
      }
      var page := Paginate(sorted, offset, limit);
      result := Ok(PhotosResponse(Digests(displayName, page.items), page.hasMore, total));
    }

    /** The ids of one photographer's photos, ascending (`.sort("photo_id")`). */
    method SortedPhotoIds(displayName: string) returns (sorted: seq<nat>)
      requires Valid()
      ensures IsListing(sorted, IdsOf(photos.Keys, displayName))
    {
      var remaining := photos.Keys;
      ghost var seen: set<PhotoKey> := {};
      sorted := [];
      while remaining != {}
        invariant remaining + seen == photos.Keys && remaining !! seen
        invariant IsListing(sorted, IdsOf(seen, displayName))
        decreases remaining
      {
        var k :| k in remaining;
        if k.0 == displayName {
          assert k.1 !in IdsOf(seen, displayName);
          sorted := InsertIncreasing(sorted, k.1);
        }
        assert IdsOf(seen + {k}, displayName) == IdsOf(seen, displayName) + (if k.0 == displayName then {k.1} else {});
        seen := seen + {k};
        remaining := remaining - {k};
      }
    }

    /** GET /photo/{display_name}/{photo_id}: the stored bytes, served as JPEG. */
    function GetImage(displayName: string, photoId: nat): (r: Result<ImageResponse>)
      reads this
      ensures !ValidPathName(displayName) ==> r == Err(RequestValidation)
      ensures ValidPathName(displayName) && (displayName, photoId) !in photos ==> r == Err(PhotoNotFound)
      ensures r.Ok? <==> ValidPathName(displayName) && (displayName, photoId) in photos
      ensures r.Ok? ==> r.value == ImageResponse(photos[(displayName, photoId)].imageData, "image/jpeg")
    {
      if !ValidPathName(displayName) then Err(RequestValidation)
      else if (displayName, photoId) !in photos then Err(PhotoNotFound)
      else Ok(ImageResponse(photos[(displayName, photoId)].imageData, "image/jpeg"))
    }

    /** GET /photo/{display_name}/{photo_id}/attributes: the metadata and timestamps, without the image. */
    function GetAttributes(displayName: string, photoId: nat): (r: Result<AttributesResponse>)
      reads this
      ensures !ValidPathName(displayName) ==> r == Err(RequestValidation)
      ensures ValidPathName(displayName) && (displayName, photoId) !in photos ==> r == Err(PhotoNotFound)
      ensures r.Ok? <==> ValidPathName(displayName) && (displayName, photoId) in photos
      ensures r.Ok? ==>
        var p := photos[(displayName, photoId)];
        r.value == AttributesResponse(p.photoId, p.displayName, p.meta, p.createdAt, p.updatedAt)
    {
      if !ValidPathName(displayName) then Err(RequestValidation)
      else if (displayName, photoId) !in photos then Err(PhotoNotFound)
      else
        var p := photos[(displayName, photoId)];
        Ok(AttributesResponse(p.photoId, p.displayName, p.meta, p.createdAt, p.updatedAt))
    }

    /**
     * PUT /photo/{display_name}/{photo_id}/attributes: writes the given fields of an existing
     * photo and nothing else; an update with no field given writes nothing. `error` is None
     * on success.
     */
    method UpdateAttributes(displayName: string, photoId: nat, u: AttributesUpdate) returns (error: Option<ApiError>)
      requires Valid()
      modifies this
      ensures Valid()
      ensures counters == old(counters)
      ensures !ValidPathName(displayName) ==> error == Some(RequestValidation)
      ensures ValidPathName(displayName) && (displayName, photoId) !in old(photos) ==> error == Some(PhotoNotFound)
      ensures error.None? <==> ValidPathName(displayName) && (displayName, photoId) in old(photos)
      ensures error.None? ==>
        var key := (displayName, photoId);
        photos == old(photos)[key := ApplyUpdate(old(photos)[key], u)]
      ensures error.Some? ==> photos == old(photos)
      ensures u == EmptyUpdate ==> photos == old(photos)
    {
      if !ValidPathName(displayName) {
        return Some(RequestValidation);
      }
      var key := (displayName, photoId);
      if key !in photos {
        return Some(PhotoNotFound);
      }
      if u != EmptyUpdate {
        photos := photos[key := ApplyUpdate(photos[key], u)];
      } else {
        EmptyUpdateChangesNothing(photos[key]);
      }
      error := None;
    }

    /** DELETE /photo/{display_name}/{photo_id}: removes exactly that photo. `error` is None on success (204). */
    method Delete(displayName: string, photoId: nat) returns (error: Option<ApiError>)
      requires Valid()
      modifies this
      ensures Valid()
      ensures counters == old(counters)
      ensures !ValidPathName(displayName) ==> error == Some(RequestValidation)
      ensures ValidPathName(displayName) && (displayName, photoId) !in old(photos) ==> error == Some(PhotoNotFound)
      ensures error.None? <==> ValidPathName(displayName) && (displayName, photoId) in old(photos)
      ensures photos == if error.None? then old(photos) - {(displayName, photoId)} else old(photos)
    {
      if !ValidPathName(displayName) {
        return Some(RequestValidation);
      }
      var key := (displayName, photoId);
      if key !in photos {
        return Some(PhotoNotFound);
      }
      photos := photos - {key};
      error := None;
    }

    /** Deleting a photo twice: whatever the first call did, the second finds nothing to delete. */
    method DeleteTwice(displayName: string, photoId: nat) returns (first: Option<ApiError>, second: Option<ApiError>)
      requires Valid()
      modifies this
      ensures Valid()
      ensures ValidPathName(displayName) ==> second == Some(PhotoNotFound)
      ensures first.None? ==> (displayName, photoId) in old(photos) && (displayName, photoId) !in photos
    {
      first := Delete(displayName, photoId);
      second := Delete(displayName, photoId);
    }
  }
}
