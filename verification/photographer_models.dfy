/** The photographer description and its field validation. */
module PhotographerModels {
  import opened Common
  import opened Text

  /** `PhotographerDesc`: the whole photographer record. */
  datatype PhotographerDesc = PhotographerDesc(
    displayName: string,
    firstName: string,
    lastName: string,
    interests: seq<string>)

  /**
   * One name field: its length bounds are checked on the value as sent, then
   * `validate_no_whitespace` rejects a whitespace-only value and keeps the stripped one.
   */
  function ValidateName(raw: string, maxLength: nat): (r: Option<string>)
    ensures r.Some? <==> 1 <= |raw| <= maxLength && !AllSpace(raw)
    ensures r.Some? ==> r.value == Strip(raw)
    ensures r.Some? ==> 1 <= |r.value| <= maxLength && !IsSpace(r.value[0]) && !IsSpace(r.value[|r.value| - 1])
  {
    StripEmptyIffAllSpace(raw);
    StripShape(raw);
    if !(1 <= |raw| <= maxLength) then None
    else if Strip(raw) == "" then None
    else Some(Strip(raw))
  }

  /** A validated name is accepted again unchanged. */
  lemma ValidateNameIdempotent(raw: string, maxLength: nat)
    requires ValidateName(raw, maxLength).Some?
    ensures ValidateName(ValidateName(raw, maxLength).value, maxLength) == ValidateName(raw, maxLength)
  {
    var v := Strip(raw);
    StripIdempotent(raw);
    StripEmptyIffAllSpace(v);
  }

  /** A whitespace-only value of any length is rejected. */
  lemma WhitespaceOnlyRejected(raw: string, maxLength: nat)
    requires AllSpace(raw)
    ensures ValidateName(raw, maxLength).None?
  {
  }

  /** A name field as validation leaves it: within its bounds, no whitespace at either end. */
  predicate Framed(s: string, maxLength: nat) {
    1 <= |s| <= maxLength && !IsSpace(s[0]) && !IsSpace(s[|s| - 1])
  }

  /** A description as validation leaves it. */
  predicate Normalized(d: PhotographerDesc) {
    Framed(d.displayName, 16) && Framed(d.firstName, 32) && Framed(d.lastName, 32)
  }

  /** The request body as validated: display name 1..16, first and last name 1..32, any interests. */
  function ValidateDesc(raw: PhotographerDesc): (r: Option<PhotographerDesc>)
    ensures r.Some? <==> ValidateName(raw.displayName, 16).Some? && ValidateName(raw.firstName, 32).Some?
                         && ValidateName(raw.lastName, 32).Some?
    ensures r.Some? ==> r.value == PhotographerDesc(Strip(raw.displayName), Strip(raw.firstName),
                                                    Strip(raw.lastName), raw.interests)
    ensures r.Some? ==> Normalized(r.value)
  {
    match (ValidateName(raw.displayName, 16), ValidateName(raw.firstName, 32), ValidateName(raw.lastName, 32))
    case (Some(d), Some(f), Some(l)) => Some(PhotographerDesc(d, f, l, raw.interests))
    case _ => None
  }

  /** A validated description validates to itself: storing and resending it changes nothing. */
  lemma ValidateDescIdempotent(raw: PhotographerDesc)
    requires ValidateDesc(raw).Some?
    ensures ValidateDesc(ValidateDesc(raw).value) == ValidateDesc(raw)
  {
    ValidateNameIdempotent(raw.displayName, 16);
    ValidateNameIdempotent(raw.firstName, 32);
    ValidateNameIdempotent(raw.lastName, 32);
  }

  /** The descriptions validation leaves unchanged are exactly the normalized ones. */
  lemma NormalizedIffFixpoint(d: PhotographerDesc)
    ensures Normalized(d) <==> ValidateDesc(d) == Some(d)
  {
    if Normalized(d) {
      StripFramed(d.displayName);
      StripFramed(d.firstName);
      StripFramed(d.lastName);
    }
  }

  /** The interests list is never a reason to refuse a description. */
  lemma InterestsUnconstrained(raw: PhotographerDesc, interests: seq<string>)
    ensures ValidateDesc(raw.(interests := interests)).Some? <==> ValidateDesc(raw).Some?
  {
  }
}
