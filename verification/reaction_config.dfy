/** Settings of the reaction service, with their defaults. */
module ReactionServiceConfig {
  import opened ConnectionStrings
  import Text

  datatype Settings = Settings(
    mongo: MongoSettings,
    photographerHost: string,
    photographerPort: int,
    photographerTimeout: int,
    photoHost: string,
    photoPort: int,
    photoTimeout: int,
    apiTitle: string,
    apiVersion: string,
    allowedReactions: seq<string>)

  /** The seven reaction kinds a client may send. */
  const AllowedReactions: seq<string> := ["coeur", "pouce", "love", "fire", "wow", "sad", "sourire"]

  /** The values used when no environment variable overrides them. */
  const DefaultMongo: MongoSettings := MongoSettings("mongo", 27017, "", "", "reactions", "reactions")

  const Defaults: Settings := Settings(
    DefaultMongo,
    "photographer-dev", 8000, 5,
    "photo-dev", 8000, 5,
    "Reaction Service", "1.0.0",
    AllowedReactions)

  function MongodbUrl(s: Settings): string { MongoUrl(s.mongo) }

  function PhotographerServiceUrl(s: Settings): string { HttpUrl(s.photographerHost, s.photographerPort) }

  function PhotoServiceUrl(s: Settings): string { HttpUrl(s.photoHost, s.photoPort) }

  /** The database URL the default settings produce: no credentials, the `reactions` database. */
  lemma DefaultMongodbUrl()
    ensures MongodbUrl(Defaults) == "mongodb://" + "mongo" + ":" + "27017" + "/" + "reactions" + "?authSource=" + "reactions"
  {
    Text.RenderDefaultPorts();
    MongoUrlSpelled(DefaultMongo, "27017");
  }

  /** The service URLs the default settings produce. */
  lemma DefaultServiceUrls()
    ensures PhotographerServiceUrl(Defaults) == "http://" + "photographer-dev" + ":" + "8000"
    ensures PhotoServiceUrl(Defaults) == "http://" + "photo-dev" + ":" + "8000"
  {
    Text.RenderDefaultPorts();
    HttpUrlSpelled("photographer-dev", 8000, "8000");
    HttpUrlSpelled("photo-dev", 8000, "8000");
  }

  /** The allowed kinds are exactly seven distinct names. */
  lemma DefaultAllowedReactions()
    ensures |Defaults.allowedReactions| == 7
    ensures forall k :: k in Defaults.allowedReactions <==>
      k in {"coeur", "pouce", "love", "fire", "wow", "sad", "sourire"}
  {
  }
}
