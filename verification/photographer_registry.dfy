/**
 * The photographer service's handlers over the `photographers` collection, kept in `_id`
 * order, which is insertion order.
 */
module PhotographerRegistry {
  import opened Common
  import opened Text
  import opened Paging
  import opened PhotographerModels

  datatype PhotographerDigest = PhotographerDigest(displayName: string, link: string)

  /** A listing page, with the `X-Total-Count` header it is sent with. */
  datatype PhotographersResponse = PhotographersResponse(
    items: seq<PhotographerDigest>, hasMore: bool, totalCount: nat, totalCountHeader: string)

  /** The display-name path parameter: between 1 and 16 characters. */
  predicate ValidPathName(s: string) { 1 <= |s| <= 16 }

  /** `/photographers/{display_name}`, the Location of a created photographer and the link of a listed one. */
  function PhotographerLink(displayName: string): (link: string)
    ensures |link| == 15 + |displayName| && link[15..] == displayName
  {
    "/photographers/" + displayName
  }

  /** Different photographers have different links. */
  lemma PhotographerLinkInjective(a: string, b: string)
    requires PhotographerLink(a) == PhotographerLink(b)
    ensures a == b
  {
    assert a == PhotographerLink(a)[15..];
  }

  function Digests(ps: seq<PhotographerDesc>): (ds: seq<PhotographerDigest>)
    ensures |ds| == |ps|
    ensures forall i :: 0 <= i < |ps| ==> ds[i] == PhotographerDigest(ps[i].displayName, PhotographerLink(ps[i].displayName))
  {
    seq(|ps|, i requires 0 <= i < |ps| => PhotographerDigest(ps[i].displayName, PhotographerLink(ps[i].displayName)))
  }

  /** No two photographers share a display name. */
  ghost predicate UniqueNames(ps: seq<PhotographerDesc>) {
    forall i, j :: 0 <= i < j < |ps| ==> ps[i].displayName != ps[j].displayName
  }

  /** The position of the photographer named `displayName`, if any. */
  function IndexOf(ps: seq<PhotographerDesc>, displayName: string): (r: Option<nat>)
    ensures r.Some? ==> r.value < |ps| && ps[r.value].displayName == displayName
    ensures r.None? <==> forall i :: 0 <= i < |ps| ==> ps[i].displayName != displayName
  {
    if ps == [] then None
    else if ps[0].displayName == displayName then Some(0)
    else
      var rest := IndexOf(ps[1..], displayName);
      if rest.Some? then Some(rest.value + 1) else None
  }

  /** Removing one photographer keeps the names of the others distinct. */
  lemma RemoveKeepsUnique(ps: seq<PhotographerDesc>, i: nat)
    requires UniqueNames(ps) && i < |ps|
    ensures UniqueNames(ps[..i] + ps[i + 1..])
  {
    var rs := ps[..i] + ps[i + 1..];
    forall a, b | 0 <= a < b < |rs|
      ensures rs[a].displayName != rs[b].displayName
    {
      var a' := if a < i then a else a + 1;
      var b' := if b < i then b else b + 1;
      assert rs[a] == ps[a'] && rs[b] == ps[b'];
    }
  }

  /** Appending a photographer whose name is not taken keeps the names distinct. */
  lemma AppendKeepsUnique(ps: seq<PhotographerDesc>, d: PhotographerDesc)
    requires UniqueNames(ps)
    requires forall i :: 0 <= i < |ps| ==> ps[i].displayName != d.displayName
    ensures UniqueNames(ps + [d])
  {
    var rs := ps + [d];
    forall a, b | 0 <= a < b < |rs|
      ensures rs[a].displayName != rs[b].displayName
    {
      assert rs[a] == ps[a];
    }
  }

  /** Every stored description is one that validation leaves as it is. */
  ghost predicate AllValidated(ps: seq<PhotographerDesc>) {
    forall i :: 0 <= i < |ps| ==> Normalized(ps[i])
  }

  /** Storing a normalized description, at the end or in place of another, keeps them all normalized. */
  lemma StoreKeepsValidated(ps: seq<PhotographerDesc>, i: nat, d: PhotographerDesc)
    requires AllValidated(ps) && i <= |ps| && Normalized(d)
    ensures i == |ps| ==> AllValidated(ps + [d])
    ensures i < |ps| ==> AllValidated(ps[i := d])
  {
    if i == |ps| {
      var rs := ps + [d];
      forall j | 0 <= j < |rs| ensures Normalized(rs[j]) {
        if j < |ps| { assert rs[j] == ps[j]; }
      }
    }
  }

  /** Removing a description keeps the others normalized. */
  lemma RemoveKeepsValidated(ps: seq<PhotographerDesc>, i: nat)
    requires AllValidated(ps) && i < |ps|
    ensures AllValidated(ps[..i] + ps[i + 1..])
  {
    var rs := ps[..i] + ps[i + 1..];
    forall j | 0 <= j < |rs| ensures Normalized(rs[j]) {
      assert rs[j] == ps[if j < i then j else j + 1];
    }
  }

  /** Replacing a photographer by one of the same name keeps the names distinct. */
  lemma ReplaceKeepsUnique(ps: seq<PhotographerDesc>, i: nat, d: PhotographerDesc)
    requires UniqueNames(ps) && i < |ps| && ps[i].displayName == d.displayName
    ensures UniqueNames(ps[i := d])
  {
    var rs := ps[i := d];
    forall a, b | 0 <= a < b < |rs|
      ensures rs[a].displayName != rs[b].displayName
    {
      assert rs[a].displayName == ps[a].displayName && rs[b].displayName == ps[b].displayName;
    }
  }

  class Registry {
    /** The collection in `_id` order. */
    var entries: seq<PhotographerDesc>

    ghost predicate Valid()
      reads this
    {
      UniqueNames(entries) && AllValidated(entries)
    }

    constructor ()
      ensures Valid() && entries == []
    {
      entries := [];
    }

    /**
     * POST /photographers: the body's validation (422), then a taken display name (409),
     * then the new photographer at the end of the collection and its Location.
     */
    method Create(body: PhotographerDesc) returns (result: Result<string>)
      requires Valid()
      modifies this
      ensures Valid()
      ensures ValidateDesc(body).None? ==> result == Err(RequestValidation)
      ensures ValidateDesc(body).Some? && IndexOf(old(entries), ValidateDesc(body).value.displayName).Some?
              ==> result == Err(PhotographerAlreadyExists)
      ensures result.Ok? <==> ValidateDesc(body).Some? && IndexOf(old(entries), ValidateDesc(body).value.displayName).None?
      ensures result.Ok? ==>
        var d := ValidateDesc(body).value;
        entries == old(entries) + [d] && result.value == PhotographerLink(d.displayName)
      ensures result.Err? ==> entries == old(entries)
    {
      var checked := ValidateDesc(body);
      if checked.None? {
        return Err(RequestValidation);
      }
      var d := checked.value;
      if IndexOf(entries, d.displayName).Some? {
        return Err(PhotographerAlreadyExists);
      }
      AppendKeepsUnique(entries, d);
      StoreKeepsValidated(entries, |entries|, d);
      entries := entries + [d];
      result := Ok(PhotographerLink(d.displayName));
    }

    /** HEAD /photographers: the number of photographers in the `X-Total-Count` header. */
    function HeadPhotographers(): (header: string)
      reads this
      ensures forall i :: 0 <= i < |header| ==> IsDigit(header[i])
      ensures DecimalValue(header) == |entries|
    {
      DecimalRoundTrip(|entries|);
      NatToDecimal(|entries|)
    }

    /**
     * GET /photographers: at most `limit` photographers from `offset` in `_id` order, whether
     * more follow, and the total, also sent as `X-Total-Count`.
     */
    function ListPhotographers(offset: int, limit: int): (r: Result<PhotographersResponse>)
      reads this
      ensures offset < 0 || !(1 <= limit <= 100) ==> r == Err(RequestValidation)
      ensures offset >= 0 && 1 <= limit <= 100 ==> r.Ok?
      ensures r.Ok? ==>
        && offset >= 0
        && r.value.totalCount == |entries|
        && r.value.totalCountHeader == HeadPhotographers()
        && r.value.items == Digests(entries[Min(offset, |entries|)..Min(offset + limit, |entries|)])
        && |r.value.items| <= limit
        && (r.value.hasMore <==> offset + limit < |entries|)
    {
      if offset < 0 || !(1 <= limit <= 100) then Err(RequestValidation)
      else
        var page := Paginate(entries, offset, limit);
        Ok(PhotographersResponse(Digests(page.items), page.hasMore, |entries|, NatToDecimal(|entries|)))
    }

    /** GET /photographers/{display_name}: the stored description, or 404. */
    function Get(displayName: string): (r: Result<PhotographerDesc>)
      reads this
      ensures !ValidPathName(displayName) ==> r == Err(RequestValidation)
      ensures r.Ok? <==> ValidPathName(displayName) && exists i :: 0 <= i < |entries| && entries[i].displayName == displayName
      ensures ValidPathName(displayName) && r.Err? ==> r == Err(PhotographerNotFound)
      ensures r.Ok? ==> r.value in entries && r.value.displayName == displayName
      ensures Valid() && r.Ok? ==> ValidateDesc(r.value) == Some(r.value)
    {
      if !ValidPathName(displayName) then Err(RequestValidation)
      else
        match IndexOf(entries, displayName)
        case None => Err(PhotographerNotFound)
        case Some(i) => NormalizedIffFixpoint(entries[i]); Ok(entries[i])
    }

    /**
     * PUT /photographers/{display_name}: request validation (422), a body naming another
     * photographer (422, before any lookup), an absent photographer (404), then every field
     * replaced by the body's, in place. `error` is None on success.
     */
    method Update(displayName: string, body: PhotographerDesc) returns (error: Option<ApiError>)
      requires Valid()
      modifies this
      ensures Valid()
      ensures !ValidPathName(displayName) || ValidateDesc(body).None? ==> error == Some(RequestValidation)
      ensures ValidPathName(displayName) && ValidateDesc(body).Some? && ValidateDesc(body).value.displayName != displayName
              ==> error == Some(DisplayNameMismatch)
      ensures ValidPathName(displayName) && ValidateDesc(body).Some? && ValidateDesc(body).value.displayName == displayName
              ==> error == (if IndexOf(old(entries), displayName).None? then Some(PhotographerNotFound) else None)
      ensures error.None? ==>
        var i := IndexOf(old(entries), displayName).value;
        entries == old(entries)[i := ValidateDesc(body).value]
      ensures error.Some? ==> entries == old(entries)
    {
      if !ValidPathName(displayName) {
        return Some(RequestValidation);
      }
      var checked := ValidateDesc(body);
      if checked.None? {
        return Some(RequestValidation);
      }
      if displayName != checked.value.displayName {
        return Some(DisplayNameMismatch);
      }
      var found := IndexOf(entries, displayName);
      if found.None? {
        return Some(PhotographerNotFound);
      }
      ReplaceKeepsUnique(entries, found.value, checked.value);
      StoreKeepsValidated(entries, found.value, checked.value);
      entries := entries[found.value := checked.value];
      error := None;
    }

    /** DELETE /photographers/{display_name}: removes that photographer, keeping the others' order. */
    method Delete(displayName: string) returns (error: Option<ApiError>)
      requires Valid()
      modifies this
      ensures Valid()
      ensures !ValidPathName(displayName) ==> error == Some(RequestValidation)
      ensures ValidPathName(displayName) ==>
        error == (if IndexOf(old(entries), displayName).None? then Some(PhotographerNotFound) else None)
      ensures error.None? ==>
        var i := IndexOf(old(entries), displayName).value;
        entries == old(entries)[..i] + old(entries)[i + 1..]
      ensures error.None? ==> forall j :: 0 <= j < |entries| ==> entries[j].displayName != displayName
      ensures error.Some? ==> entries == old(entries)
    {
      if !ValidPathName(displayName) {
        return Some(RequestValidation);
      }
      var found := IndexOf(entries, displayName);
      if found.None? {
        return Some(PhotographerNotFound);
      }
      var i := found.value;
      RemoveKeepsUnique(entries, i);
      RemoveKeepsValidated(entries, i);
      ghost var before := entries;
      entries := entries[..i] + entries[i + 1..];
      forall j | 0 <= j < |entries|
        ensures entries[j].displayName != displayName
      {
        var j' := if j < i then j else j + 1;
        assert entries[j] == before[j'];
      }
      error := None;
    }

    /** Deleting a photographer twice: the second call finds nothing to delete. */
    method DeleteTwice(displayName: string) returns (first: Option<ApiError>, second: Option<ApiError>)
      requires Valid()
      modifies this
      ensures Valid()
      ensures ValidPathName(displayName) ==> second == Some(PhotographerNotFound)
    {
      first := Delete(displayName);
      second := Delete(displayName);
    }
  }
}
