/** Settings of the photo-of-the-day gRPC service, with their defaults. */
module PhotoOfDayServiceConfig {
  import opened ConnectionStrings
  import Text

  datatype Settings = Settings(
    mongo: MongoSettings,
    grpcHost: string,
    grpcPort: int,
    photoHost: string,
    photoPort: int,
    photoTimeout: int,
    serviceName: string,
    logLevel: string)

  const DefaultMongo: MongoSettings := MongoSettings("mongo", 27017, "", "", "photo_of_day", "photo_of_day")

  /** The values used when no environment variable overrides them. */
  const Defaults: Settings := Settings(
    DefaultMongo,
    "0.0.0.0", 50052,
    "photo-service", 80, 5,
    "Photo of Day Service", "INFO")

  function MongodbUrl(s: Settings): string { MongoUrl(s.mongo) }

  function PhotoServiceUrl(s: Settings): string { HttpUrl(s.photoHost, s.photoPort) }

  function GrpcAddress(s: Settings): string { HostPort(s.grpcHost, s.grpcPort) }

  /** The database URL the default settings produce: no credentials, the `photo_of_day` database. */
  lemma DefaultMongodbUrl()
    ensures MongodbUrl(Defaults) == "mongodb://" + "mongo" + ":" + "27017" + "/" + "photo_of_day" + "?authSource=" + "photo_of_day"
  {
    Text.RenderDefaultPorts();
    MongoUrlSpelled(DefaultMongo, "27017");
  }

  /** The listening address and the photo service URL of the default settings. */
  lemma DefaultEndpoints()
    ensures GrpcAddress(Defaults) == "0.0.0.0" + ":" + "50052"
    ensures PhotoServiceUrl(Defaults) == "http://" + "photo-service" + ":" + "80"
  {
    Text.RenderDefaultPorts();
    HostPortSpelled("0.0.0.0", 50052, "50052");
    HttpUrlSpelled("photo-service", 80, "80");
  }
}
