/** Settings of the photo service, with their defaults. */
module PhotoServiceConfig {
  import opened ConnectionStrings
  import Text

  datatype Settings = Settings(
    mongo: MongoSettings,
    photographerHost: string,
    photographerPort: int,
    photographerTimeout: int,
    tagsHost: string,
    tagsPort: int,
    photoOfDayGrpcHost: string,
    photoOfDayGrpcPort: int,
    apiTitle: string,
    apiVersion: string,
    maxImageSizeMb: int,
    allowedImageTypes: seq<string>)

  const DefaultMongo: MongoSettings := MongoSettings("mongo", 27017, "", "", "photos", "photos")

  /** The values used when no environment variable overrides them. */
  const Defaults: Settings := Settings(
    DefaultMongo,
    "photographer-api", 80, 5,
    "tags-service", 50051,
    "photo-of-day-service", 50052,
    "Photo Service", "1.0.0",
    10,
    ["image/jpeg", "image/jpg", "image/png"])

  function MongodbUrl(s: Settings): string { MongoUrl(s.mongo) }

  function PhotographerServiceUrl(s: Settings): string { HttpUrl(s.photographerHost, s.photographerPort) }

  function TagsServiceAddress(s: Settings): string { HostPort(s.tagsHost, s.tagsPort) }

  /** The `max_image_size_bytes` property: megabytes to bytes. */
  function MaxImageSizeBytes(s: Settings): (bytes: int)
    ensures s.maxImageSizeMb >= 0 ==> bytes >= s.maxImageSizeMb
    ensures bytes % 1048576 == 0 && bytes / 1048576 == s.maxImageSizeMb
  {
    s.maxImageSizeMb * 1024 * 1024
  }

  /** The database URL the default settings produce: no credentials, the `photos` database. */
  lemma DefaultMongodbUrl()
    ensures MongodbUrl(Defaults) == "mongodb://" + "mongo" + ":" + "27017" + "/" + "photos" + "?authSource=" + "photos"
  {
    Text.RenderDefaultPorts();
    MongoUrlSpelled(DefaultMongo, "27017");
  }

  /** The other endpoints and limits of the default settings. */
  lemma DefaultEndpointsAndLimits()
    ensures PhotographerServiceUrl(Defaults) == "http://" + "photographer-api" + ":" + "80"
    ensures TagsServiceAddress(Defaults) == "tags-service" + ":" + "50051"
    ensures MaxImageSizeBytes(Defaults) == 10485760
  {
    Text.RenderDefaultPorts();
    HttpUrlSpelled("photographer-api", 80, "80");
    HostPortSpelled("tags-service", 50051, "50051");
  }
}
