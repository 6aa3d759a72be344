/** The records of the reaction service: one reaction of one reactor to one photo. */
module ReactionModels {
  import opened Text
  import ReactionServiceConfig

  /** A photo is named by its photographer's display name and its per-photographer number. */
  type PhotoKey = (string, nat)

  /** A reaction is named by the photo and the reactor: (display_name, photo_id, reactor_name). */
  type ReactionKey = (string, nat, string)

  /** The stored reaction document; `photo_id >= 0` is carried by the type. Timestamps are seconds. */
  datatype Reaction = Reaction(
    displayName: string,
    photoId: nat,
    reactorName: string,
    reaction: string,
    createdAt: int,
    updatedAt: int)
  {
    function Key(): ReactionKey { (displayName, photoId, reactorName) }
    function Photo(): PhotoKey { (displayName, photoId) }
  }

  /** Body of a create request. */
  datatype ReactionCreate = ReactionCreate(reaction: string, reactorName: string)

  /** Body of an update request. */
  datatype ReactionUpdate = ReactionUpdate(reaction: string)

  /** Answer to a listing: every reaction of one photo. */
  datatype PhotoReactionsResponse = PhotoReactionsResponse(
    displayName: string,
    photoId: nat,
    totalReactions: nat,
    reactions: seq<Reaction>)

  /** display_name and reactor_name: between 1 and 16 characters. */
  predicate ValidName(s: string) { 1 <= |s| <= 16 }

  predicate WellFormed(r: Reaction) { ValidName(r.displayName) && ValidName(r.reactorName) }

  predicate IsAllowedKind(kind: string) { kind in ReactionServiceConfig.AllowedReactions }

  /** A fresh reaction: both timestamps default to the creation time. */
  function NewReaction(displayName: string, photoId: nat, reactorName: string, kind: string, now: int): (r: Reaction)
    ensures r.Key() == (displayName, photoId, reactorName) && r.reaction == kind
    ensures r.createdAt == now && r.updatedAt == r.createdAt
  {
    Reaction(displayName, photoId, reactorName, kind, now, now)
  }

  /** `/reactions/{display_name}/{photo_id}/{reactor_name}`. */
  function ReactionLocation(k: ReactionKey): string
  {
    "/reactions/" + k.0 + "/" + NatToDecimal(k.1) + "/" + k.2
  }
}
