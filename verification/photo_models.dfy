/** The records of the photo service: a photo with its metadata, and the per-photographer id counter. */
module PhotoModels {
  import opened Common

  type Byte = bv8

  /** The `display_name` path parameter: between 1 and 16 characters. */
  predicate ValidPathName(s: string) { 1 <= |s| <= 16 }

  /** `PhotoMetadata`: the editable attributes and the generated tags. */
  datatype Metadata = Metadata(title: string, comment: string, location: string, author: string, tags: seq<string>)

  /** The metadata of a newly uploaded photo, before its tags are set. */
  const DefaultMetadata: Metadata := Metadata("untitled", "", "", "", [])

  /** The length bounds declared on the metadata fields. */
  predicate WithinBounds(m: Metadata) {
    |m.title| <= 100 && |m.comment| <= 200 && |m.location| <= 100 && |m.author| <= 120
  }

  /** The stored photo document. Timestamps are seconds. */
  datatype Photo = Photo(
    displayName: string,
    photoId: nat,
    imageData: seq<Byte>,
    meta: Metadata,
    createdAt: int,
    updatedAt: int)
  {
    function Key(): (string, nat) { (displayName, photoId) }
  }

  /** A photo as the upload handler builds it: default metadata but for the tags, both timestamps `now`. */
  function NewPhoto(displayName: string, photoId: nat, data: seq<Byte>, tags: seq<string>, now: int): (p: Photo)
    ensures p.Key() == (displayName, photoId) && p.imageData == data
    ensures p.meta == DefaultMetadata.(tags := tags) && WithinBounds(p.meta)
    ensures p.createdAt == now && p.updatedAt == now
  {
    Photo(displayName, photoId, data, DefaultMetadata.(tags := tags), now, now)
  }

  /** `PhotoAttributesUpdate`: every field optional; there is no field for tags or the image. */
  datatype AttributesUpdate = AttributesUpdate(
    title: Option<string>,
    comment: Option<string>,
    location: Option<string>,
    author: Option<string>)

  const EmptyUpdate: AttributesUpdate := AttributesUpdate(None, None, None, None)

  function Pick(update: Option<string>, current: string): string {
    if update.Some? then update.value else current
  }

  /** `photo.set(attributes.model_dump(exclude_none=True))`: only the fields given are written. */
  function ApplyUpdate(p: Photo, u: AttributesUpdate): (q: Photo)
    ensures q.Key() == p.Key() && q.imageData == p.imageData && q.meta.tags == p.meta.tags
    ensures q.createdAt == p.createdAt && q.updatedAt == p.updatedAt
    ensures q.meta.title == (if u.title.Some? then u.title.value else p.meta.title)
    ensures q.meta.comment == (if u.comment.Some? then u.comment.value else p.meta.comment)
    ensures q.meta.location == (if u.location.Some? then u.location.value else p.meta.location)
    ensures q.meta.author == (if u.author.Some? then u.author.value else p.meta.author)
  {
    var m := p.meta;
    p.(meta := m.(title := Pick(u.title, m.title), comment := Pick(u.comment, m.comment),
                  location := Pick(u.location, m.location), author := Pick(u.author, m.author)))
  }

  /** An update with no field given changes nothing. */
  lemma EmptyUpdateChangesNothing(p: Photo)
    ensures ApplyUpdate(p, EmptyUpdate) == p
  {
  }

  /** Applying the same update twice is the same as applying it once. */
  lemma ApplyUpdateIdempotent(p: Photo, u: AttributesUpdate)
    ensures ApplyUpdate(ApplyUpdate(p, u), u) == ApplyUpdate(p, u)
  {
  }

  /** The given values are written unchecked, so the bounds survive only if the given values keep them. */
  lemma ApplyUpdateBounds(p: Photo, u: AttributesUpdate)
    requires WithinBounds(p.meta)
    ensures WithinBounds(ApplyUpdate(p, u).meta) <==>
      (u.title.None? || |u.title.value| <= 100) && (u.comment.None? || |u.comment.value| <= 200)
      && (u.location.None? || |u.location.value| <= 100) && (u.author.None? || |u.author.value| <= 120)
  {
  }
}
