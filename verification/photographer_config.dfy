/** Settings of the photographer service, with their defaults. */
module PhotographerServiceConfig {
  import opened ConnectionStrings
  import Text

  datatype Settings = Settings(mongo: MongoSettings, apiTitle: string, apiVersion: string)

  const DefaultMongo: MongoSettings := MongoSettings("mongo", 27017, "", "", "photographers", "photographers")

  /** The values used when no environment variable overrides them. */
  const Defaults: Settings := Settings(DefaultMongo, "Photographer Service", "1.0.0")

  function MongodbUrl(s: Settings): string { MongoUrl(s.mongo) }

  /** The database URL the default settings produce: no credentials, the `photographers` database. */
  lemma DefaultMongodbUrl()
    ensures Defaults.mongo.databaseName == "photographers"
    ensures MongodbUrl(Defaults) == "mongodb://" + "mongo" + ":" + "27017" + "/" + "photographers" + "?authSource=" + "photographers"
  {
    Text.RenderDefaultPorts();
    MongoUrlSpelled(DefaultMongo, "27017");
  }
}
