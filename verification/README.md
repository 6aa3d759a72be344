# Photo-sharing services: a Dafny model of the request handlers and the reaction statistics

This project models the core of a photo-sharing application built from four small services:

- **Photographer service.** A registry of photographers keyed by display name. It offers create, count (`HEAD`), a paginated listing, get, full replacement and delete. Every name field is validated and stripped.
- **Photo service.** Each photographer has a gallery of photos numbered 0, 1, 2, … from a per-photographer counter. Uploads are checked for image type, size and decodability. The service lists photos by id and serves the image and its attributes. Attribute updates write only the fields given. The service also has two `/photo-of-day` endpoints, which ask the statistics service for the most reacted photo in a time window and serve it.
- **Reaction service.** Holds one reaction (a kind from a fixed list of seven) per reactor and photo. It adds, lists oldest first, updates and deletes reactions. After each change it sends a notice to the statistics service.
- **Photo-of-the-day statistics service** (a gRPC servicer). Keeps one record per photo: a per-kind breakdown, a total, and the first and last reaction dates. It builds these records by a full resync from the reaction log at startup. It patches a record incrementally on each `IncrementReaction` call.

The settings of each service are modelled too, with their defaults and the connection strings built from them.

Each service's stored collections are fields of a class: `ReactionLog.ReactionTable`, `PhotoStore.PhotoStore`, `PhotographerRegistry.Registry` and `PhotoOfDayServer.StatsStore`. The handlers that change them are methods whose `ensures` give the whole new state and the response, including every error case in the order the handler checks them. FastAPI's parameter validation comes first and is answered with 422. Read-only handlers are functions. What the statistics mean is stated on values in `StatsAggregation`, and the resync and patch are proved against it:

- A resynced record counts each kind exactly, its total is the group size, and its dates are the extremes of `created_at`.
- The incremental patch agrees with a resync on the breakdown and the total. It differs on the dates, and the model says exactly how.

Calls to other services and libraries are parameters:

- photo existence is a set of photo keys;
- photographer existence, image decodability and the generated tags are plain values;
- date parsing is a function `string -> Option<int>`;
- the best-photo query is a function from a window to an optional winner.

Timestamps are integers (seconds) and the clock is a `now` parameter.

The statistics are kept as follows:

- The gRPC servicer only increments. A reaction update or delete sends a notice, but no handler in the servicer acts on it.
- The resync upserts the records of photos that have reactions and never removes a record.

## Model

| member | source | states |
|---|---|---|
| Common.ApiError.Status | src/reaction-service/exceptions.py:12-68 | every handler error is a 4xx; it is 404 exactly for the not-found errors and 409 exactly for the already-exists errors |
| Text.NatToDecimal | src/photographer-service/routers/photographers_collection.py:74 | `str(n)` of a count is a non-empty string of decimal digits with no leading zero |
| Text.DecimalRoundTrip | src/photographer-service/routers/photographers_collection.py:74 | reading back the decimal rendering of a number gives the number |
| Text.NatToDecimalInjective | src/photo-service/routers/gallery.py:183 | different ids render differently |
| Text.StripLeading | src/photographer-service/models.py:52-54 | removes exactly the leading whitespace run of `str.strip` |
| Text.StripTrailing | src/photographer-service/models.py:52-54 | removes exactly the trailing whitespace run of `str.strip` |
| Text.StripShape | src/photographer-service/models.py:52-54 | `strip()` leaves a contiguous slice of the input with only whitespace cut away at both ends, and no whitespace at either end |
| Text.StripEmptyIffAllSpace | src/photographer-service/models.py:52 | `not v.strip()` holds exactly when the value is entirely whitespace (or empty) |
| Text.StripIdempotent | src/photographer-service/models.py:54 | stripping a stripped value changes nothing |
| Paging.Fetch | src/photo-service/routers/gallery.py:170-172 | `.skip(offset).limit(limit + 1)` returns at most `limit + 1` items |
| Paging.Paginate | src/photo-service/routers/gallery.py:170-177 | the page is exactly the sorted items from `offset` up to `offset + limit` (clipped), it has at most `limit` items, and `has_more` holds exactly when items remain beyond it |
| Paging.FollowPagesEnumerates | src/photographer-service/routers/photographers_collection.py:110-121 | following `has_more` page after page from `offset` yields every remaining item once, in order |
| Sorting.InsertBy | src/reaction-service/routers/reactions.py:140-143 | inserting into a list sorted by `created_at` keeps it sorted, makes it one longer, and its members are the old members and the new element |
| Sorting.InsertByPermutes | src/reaction-service/routers/reactions.py:140-143 | the insertion adds exactly one copy of the new element and keeps every other element as often as before |
| Sorting.InsertIncreasing | src/photo-service/routers/gallery.py:170-172 | inserting a new id into an ascending id list keeps it strictly ascending with exactly one more member |
| Sorting.SetMin | src/photo-service/routers/gallery.py:172 | a non-empty id set has a least element |
| Sorting.SortedIds | src/photo-service/routers/gallery.py:170-172 | every finite id set has an ascending listing of the same size |
| Sorting.ListingEmpty | src/photo-service/routers/gallery.py:162-167 | the listing is empty exactly when the set is |
| Sorting.ListingUnique | src/photo-service/routers/gallery.py:170-172 | an id set has only one ascending listing, so `.sort("photo_id")` determines the order |
| ConnectionStrings.HostPort | src/photo-of-day-service/config.py:46-49 | `host:port` is the host, a colon, then the decimal port |
| ConnectionStrings.HttpUrl | src/reaction-service/config.py:44-52 | a service URL is `http://` followed by `host:port` |
| ConnectionStrings.MongoUrl | src/reaction-service/config.py:34-42 | the MongoDB URL starts with `mongodb://` and ends with `host:port/database?authSource=auth_database` |
| ConnectionStrings.MongoUrlWithoutUser | src/reaction-service/config.py:37-41 | with no user configured, no credentials section appears |
| ConnectionStrings.NoAtInDecimal | src/reaction-service/config.py:40 | a rendered port never contains `@` |
| ConnectionStrings.MongoUrlCredentials | src/reaction-service/config.py:37-41 | the URL carries `user:password@` exactly when `mongo_user` is non-empty (when no host or database name contains `@`) |
| ReactionServiceConfig.DefaultMongodbUrl | src/reaction-service/config.py:10-42 | the default database URL is `mongodb://mongo:27017/reactions?authSource=reactions` |
| ReactionServiceConfig.DefaultServiceUrls | src/reaction-service/config.py:18-52 | the default photographer and photo service URLs are `http://photographer-dev:8000` and `http://photo-dev:8000` |
| ReactionServiceConfig.DefaultAllowedReactions | src/reaction-service/config.py:32 | exactly seven kinds are allowed by default: coeur, pouce, love, fire, wow, sad, sourire |
| PhotoServiceConfig.MaxImageSizeBytes | src/photo-service/config.py:65-68 | the byte limit is the megabyte setting times 1048576 |
| PhotoServiceConfig.DefaultMongodbUrl | src/photo-service/config.py:11-53 | the default database URL is `mongodb://mongo:27017/photos?authSource=photos` |
| PhotoServiceConfig.DefaultEndpointsAndLimits | src/photo-service/config.py:19-68 | default photographer URL, tags address, and a 10485760-byte image limit |
| PhotographerServiceConfig.DefaultMongodbUrl | src/photographer-service/config.py:11-36 | the default database URL is `mongodb://mongo:27017/photographers?authSource=photographers` |
| PhotoOfDayServiceConfig.DefaultMongodbUrl | src/photo-of-day-service/config.py:11-39 | the default database URL is `mongodb://mongo:27017/photo_of_day?authSource=photo_of_day` |
| PhotoOfDayServiceConfig.DefaultEndpoints | src/photo-of-day-service/config.py:19-49 | the default gRPC address is `0.0.0.0:50052` and the photo service URL is `http://photo-service:80` |
| ReactionModels.NewReaction | src/reaction-service/routers/reactions.py:85-92 | a new reaction has the requested key and kind, and `updated_at == created_at` |
| ReactionLog.PhotoKeysAfterInsert | src/reaction-service/routers/reactions.py:93 | saving a new reaction adds one to that photo's reaction count and leaves every other photo's alone |
| ReactionLog.PhotoKeysAfterRemove | src/reaction-service/routers/reactions.py:264 | deleting a reaction takes one from that photo's reaction count and leaves every other photo's alone |
| ReactionLog.ReactionTable.Add | src/reaction-service/routers/reactions.py:55-113 | errors in the handler's order (422 name bounds, 400 kind, 404 photo, 409 existing reaction); on success exactly one new row, its Location, and an increment notice; nothing changes on error |
| ReactionLog.ReactionTable.ListForPhoto | src/reaction-service/routers/reactions.py:129-165 | 422, 404 photo; otherwise exactly the photo's stored reactions, each once, sorted by `created_at`, with `total_reactions` their number |
| ReactionLog.SortByCreation | src/reaction-service/routers/reactions.py:140-143 | the rows under the given keys, all of them and only them, sorted by `created_at` |
| ReactionLog.ReactionTable.Update | src/reaction-service/routers/reactions.py:182-227 | errors in order (422, 400, 404 photo, 404 reaction); on success only the kind and `updated_at` of that row change, `created_at` is kept, and the notice carries the new kind as both old and new |
| ReactionLog.ReactionTable.Delete | src/reaction-service/routers/reactions.py:242-272 | errors in order (422, 404 photo, 404 reaction); on success exactly that row is removed, and a decrement notice carries its kind |
| StatsAggregation.Bump | src/photo-of-day-service/grpc_server.py:55 | one more of kind `k`, other kinds unchanged, `k` added to the keys |
| StatsAggregation.SumRemove | src/photo-of-day-service/grpc_server.py:66 | `sum(breakdown.values())` does not depend on the order the keys are visited |
| StatsAggregation.SumBump | src/photo-of-day-service/grpc_server.py:90-92 | bumping one kind raises the total by exactly one |
| StatsAggregation.Kinds | src/photo-of-day-service/grpc_server.py:54-55 | the kinds of a group, one per reaction, in order |
| StatsAggregation.BreakdownCounts | src/photo-of-day-service/grpc_server.py:51-55 | the resync breakdown has a key exactly for each kind that occurs, mapped to its number of occurrences |
| StatsAggregation.BreakdownTotal | src/photo-of-day-service/grpc_server.py:66 | the breakdown of a group sums to the group size |
| StatsAggregation.CreatedDates | src/photo-of-day-service/grpc_server.py:56 | the dates list holds each reaction's `created_at`, in order |
| StatsAggregation.SeqMin | src/photo-of-day-service/grpc_server.py:67 | `min(dates)` is a member of the list and at most every member |
| StatsAggregation.SeqMax | src/photo-of-day-service/grpc_server.py:68 | `max(dates)` is a member of the list and at least every member |
| StatsAggregation.AggregateSummarizes | src/photo-of-day-service/grpc_server.py:50-72 | a resynced record counts each kind exactly; its total equals the breakdown sum and the group size; its first and last dates are the earliest and latest `created_at`, both attained |
| StatsAggregation.Incremented | src/photo-of-day-service/grpc_server.py:84-115 | the patched record has one more of the kind and the other kinds as stored; total = old breakdown sum + 1; last date = now; first date kept, or now on insert |
| StatsAggregation.IncrementAgreesWithResync | src/photo-of-day-service/grpc_server.py:34-115 | patching the resynced record of a group with a new reaction gives the same breakdown and total as resyncing the extended group; the dates of each are stated, and they differ |
| StatsAggregation.IncrementAgreesWhenNewest | src/photo-of-day-service/grpc_server.py:82-115 | when the new reaction is the latest and stamped at patch time, the patch equals the resync in full |
| StatsAggregation.IncrementDatesCanDiffer | src/photo-of-day-service/grpc_server.py:108-111 | a reaction created before the patch runs gets dates from the patch that differ from the resync's |
| PhotoOfDayServer.GroupMembers | src/photo-of-day-service/grpc_server.py:44-48 | a photo's group holds exactly the log's reactions to that photo |
| PhotoOfDayServer.GroupNonEmpty | src/photo-of-day-service/grpc_server.py:44-48 | exactly the photos with reactions have a non-empty group |
| PhotoOfDayServer.GroupsAfterAppend | src/photo-of-day-service/grpc_server.py:46-48 | appending one reaction adds its photo and extends only that photo's group |
| PhotoOfDayServer.GroupOfAbsent | src/photo-of-day-service/grpc_server.py:48 | a photo not yet seen starts from an empty group (`setdefault`) |
| PhotoOfDayServer.Resynced | src/photo-of-day-service/grpc_server.py:50-72 | the resync writes one record per photo that has reactions |
| PhotoOfDayServer.Resync | src/photo-of-day-service/grpc_server.py:34-79 | after a resync every photo with reactions holds the aggregate of its group, and other records are untouched |
| PhotoOfDayServer.ResyncIdempotent | src/photo-of-day-service/grpc_server.py:34-79 | running the resync twice on the same log equals running it once |
| PhotoOfDayServer.ResyncedTotals | src/photo-of-day-service/grpc_server.py:64-69 | every record a resync writes has a total equal to the sum of its breakdown |
| PhotoOfDayServer.SyncThenIncrementAgrees | src/photo-of-day-service/grpc_server.py:34-115 | resyncing a log and then patching one new reaction gives the store a resync of the longer log gives: the same photos, the same other records, and the same breakdown and total for that photo, provided its record (if any) comes from the log |
| PhotoOfDayServer.GroupByPhoto | src/photo-of-day-service/grpc_server.py:44-48 | the grouping loop builds exactly the photos of the log, each with its reactions in log order, none empty |
| PhotoOfDayServer.SumValues | src/photo-of-day-service/grpc_server.py:66 | the loop computes the sum of the breakdown's values |
| PhotoOfDayServer.Summarize | src/photo-of-day-service/grpc_server.py:50-72 | the per-group loop computes the aggregate record of the group |
| PhotoOfDayServer.StatsStore.Sync | src/photo-of-day-service/grpc_server.py:34-79 | the store afterwards is the resync of the old store by the log; every total still equals its breakdown sum |
| PhotoOfDayServer.StatsStore.Increment | src/photo-of-day-service/grpc_server.py:82-129 | on a storage failure, `success=False`, the message, total 0, and no change; otherwise the record becomes the patched record, and the answer is `success=True` with total = previous total (or 0) + 1 |
| PhotoOfDayServer.StatsStore.GetPhotoStats | src/photo-of-day-service/grpc_server.py:132-149 | `found=False` exactly for an absent key; otherwise every stored field of the record |
| PhotoModels.NewPhoto | src/photo-service/routers/gallery.py:118-123 | a new photo has default metadata except its tags, is within the field bounds, and has both dates `now` |
| PhotoModels.ApplyUpdate | src/photo-service/routers/photo.py:143-147 | each given field is written and each absent one kept; key, image, tags and dates never change |
| PhotoModels.EmptyUpdateChangesNothing | src/photo-service/routers/photo.py:144-147 | an update with no field given changes nothing |
| PhotoModels.ApplyUpdateIdempotent | src/photo-service/routers/photo.py:143-147 | applying the same update twice equals applying it once |
| PhotoModels.ApplyUpdateBounds | src/photo-service/models.py:122-128 | the updated metadata is within bounds exactly when every given value is |
| PhotoStore.AllocatedId | src/photo-service/routers/gallery.py:38-53 | a photographer without a counter gets id 0 |
| PhotoStore.AfterAllocate | src/photo-service/routers/gallery.py:44-52 | after an allocation the photographer's counter is one past the id handed out; other counters are unchanged |
| PhotoStore.AllocationIsSequential | src/photo-service/routers/gallery.py:38-53 | successive uploads get consecutive ids from the stored counter: 0, 1, 2, … for a new photographer |
| PhotoStore.ValidateImage | src/photo-service/routers/gallery.py:56-83 | the image passes exactly when its type is allowed, its size is at most the limit and it decodes; the type is checked first (400), then the size (413), then decoding (400) |
| PhotoStore.DefaultSizeLimit | src/photo-service/routers/gallery.py:73-74 | with the default settings 10485760 bytes pass and 10485761 bytes are refused with 413 |
| PhotoStore.PhotoLink | src/photo-service/routers/gallery.py:127 | `/photo/`, the display name, `/`, the decimal id |
| PhotoStore.PhotoLinksDistinct | src/photo-service/routers/gallery.py:180-186 | two photos of one photographer have different links |
| PhotoStore.Digests | src/photo-service/routers/gallery.py:180-186 | one digest per id, each with its own link |
| PhotoStore.PhotoStore.AllocatePhotoId | src/photo-service/routers/gallery.py:38-53 | the id handed out is not used by any stored photo of the photographer |
| PhotoStore.PhotoStore.Upload | src/photo-service/routers/gallery.py:97-134 | errors in order (422 name, 404 photographer, then the image checks); on success one new photo under the allocated id, the counter advanced, and its Location; nothing changes on error |
| PhotoStore.PhotoStore.ListPhotos | src/photo-service/routers/gallery.py:147-195 | 422 for the name, a negative `offset` or a limit outside 1..100, 404 photographer; otherwise the page of the photographer's ids in ascending order, `has_more`, and the total number of their photos |
| PhotoStore.PhotoStore.SortedPhotoIds | src/photo-service/routers/gallery.py:170-172 | the loop lists exactly the photographer's photo ids, strictly ascending |
| PhotoStore.PhotoStore.GetImage | src/photo-service/routers/photo.py:54-74 | 422, 404; otherwise the stored bytes as `image/jpeg` |
| PhotoStore.PhotoStore.GetAttributes | src/photo-service/routers/photo.py:87-114 | 422, 404; otherwise the stored metadata, id, name and dates |
| PhotoStore.PhotoStore.UpdateAttributes | src/photo-service/routers/photo.py:128-153 | 422, 404; otherwise only that photo changes, by exactly the given fields; an empty update writes nothing |
| PhotoStore.PhotoStore.Delete | src/photo-service/routers/photo.py:166-185 | 422, 404; otherwise exactly that photo is removed; counters are kept, so its id is never reused |
| PhotoStore.PhotoStore.DeleteTwice | src/photo-service/routers/photo.py:166-185 | a second delete of the same photo answers 404 |
| PhotoOfDayRoute.RouteError.Status | src/photo-service/routers/photo_of_day.py:50-93 | the endpoint's status codes; 400 exactly for a reversed window or a malformed date |
| PhotoOfDayRoute.RemoveAll | src/photo-service/routers/photo_of_day.py:45 | `replace('Z', '')` removes every `Z` and keeps every other character |
| PhotoOfDayRoute.NormalizeDate | src/photo-service/routers/photo_of_day.py:44-49 | a date without a time gets the day time (`T00:00:00` for the start, `T23:59:59` for the end); one with a time loses every `Z`; the result always has a time |
| PhotoOfDayRoute.NormalizeKeepsPlainTimestamps | src/photo-service/routers/photo_of_day.py:44-49 | a timestamp with a time and no `Z` is passed on unchanged |
| PhotoOfDayRoute.NormalizeIdempotentWithTime | src/photo-service/routers/photo_of_day.py:44-49 | for a date that has a time, normalising twice equals normalising once |
| PhotoOfDayRoute.DefaultPeriod | src/photo-service/routers/photo_of_day.py:61-64 | the default window ends now and starts `days` days earlier |
| PhotoOfDayRoute.SelectPeriod | src/photo-service/routers/photo_of_day.py:42-64 | both dates given (non-empty): 400 when either fails to parse, 400 when the start is not before the end, otherwise exactly the parsed window; else the default window |
| PhotoOfDayRoute.OrUnknown | src/photo-service/routers/photo_of_day.py:133-134 | a header value is never empty: the value, or `Unknown` |
| PhotoOfDayRoute.GetPhotoOfDay | src/photo-service/routers/photo_of_day.py:33-149 | 422 for `days` outside 1..365 or a format other than image/json; the window's refusal; 404 without a winner; 500 when the winner is not stored; otherwise the JSON description or the image with its headers |
| PhotoOfDayRoute.PhotoOfDayServesWinner | src/photo-service/routers/photo_of_day.py:83-140 | a photo reply serves the photo the statistics named, as stored, in the requested format, over a non-empty explicit window |
| PhotoOfDayRoute.CaughtAsWritten | src/photo-service/routers/photo_of_day.py:142-149 | as written, any exception reaching these clauses escapes as an unhandled 500 |
| PhotoOfDayRoute.Caught | src/photo-service/routers/photo_of_day.py:142-149 | as intended, a store timeout is a 503 and anything else a JSON 500 |
| PhotoOfDayRoute.TimeoutNotMappedAsWritten | src/photo-service/routers/photo_of_day.py:142-143 | a store timeout gets 500 as written but 503 as intended |
| PhotoOfDayRoute.GetPhotoOfDayStats | src/photo-service/routers/photo_of_day.py:158-223 | 422 for `days`; a date that does not parse raises inside the handler and ends in the `except` clauses, given as a parameter; a reply carries the raw parsed window or the default one, the winner of that window and the stored photo |
| PhotoOfDayRoute.StatsRejectedDate | src/photo-service/routers/photo_of_day.py:166-223 | a date `fromisoformat` rejects on /stats: as written an unhandled 500 (the `NameError` of the first clause); with the clauses as intended the JSON 500 of `except Exception`; never 400 |
| PhotoOfDayRoute.RoutesDisagreeOnReversedWindow | src/photo-service/routers/photo_of_day.py:166-168 | a start not before the end gets 400 from the main endpoint and never 400 from `/stats` |
| PhotographerModels.ValidateName | src/photographer-service/models.py:48-54 | a name is accepted exactly when its raw length is within bounds and it is not all whitespace; the stored value is the stripped one, within bounds and with no whitespace at either end |
| PhotographerModels.ValidateNameIdempotent | src/photographer-service/models.py:48-54 | a validated name validates to itself |
| PhotographerModels.WhitespaceOnlyRejected | src/photographer-service/models.py:52-53 | a whitespace-only name is refused |
| PhotographerModels.ValidateDesc | src/photographer-service/models.py:9-54 | a description is accepted exactly when its three names are (16, 32, 32); it is stored with the names stripped and the interests as sent |
| PhotographerModels.ValidateDescIdempotent | src/photographer-service/models.py:9-54 | a stored description validates to itself |
| PhotographerModels.NormalizedIffFixpoint | src/photographer-service/models.py:9-54 | validation leaves a description unchanged exactly when its names are within bounds and have no whitespace at either end |
| PhotographerModels.InterestsUnconstrained | src/photographer-service/models.py:39-46 | the interests never decide whether a description is accepted |
| PhotographerRegistry.PhotographerLink | src/photographer-service/routers/photographers_collection.py:50 | `/photographers/` followed by the display name |
| PhotographerRegistry.PhotographerLinkInjective | src/photographer-service/routers/photographers_collection.py:127 | different photographers have different links |
| PhotographerRegistry.Digests | src/photographer-service/routers/photographers_collection.py:124-130 | one digest per photographer, in order, each with its link |
| PhotographerRegistry.IndexOf | src/photographer-service/routers/photographers_item.py:50-54 | the lookup finds the photographer with that name, or reports that none has it |
| PhotographerRegistry.RemoveKeepsUnique | src/photographer-service/routers/photographers_item.py:141 | removing one photographer keeps the other names distinct |
| PhotographerRegistry.AppendKeepsUnique | src/photographer-service/routers/photographers_collection.py:38-47 | inserting a photographer only after finding no one of that name keeps the names distinct |
| PhotographerRegistry.ReplaceKeepsUnique | src/photographer-service/routers/photographers_item.py:89-103 | overwriting a photographer with a body of the same name keeps the names distinct |
| PhotographerRegistry.StoreKeepsValidated | src/photographer-service/routers/photographers_collection.py:38-47 | storing a validated body, appended or in place of an entry, keeps every stored description one that validation leaves unchanged |
| PhotographerRegistry.RemoveKeepsValidated | src/photographer-service/routers/photographers_item.py:141 | removing an entry keeps every other description one that validation leaves unchanged |
| PhotographerRegistry.Registry.Create | src/photographer-service/routers/photographers_collection.py:31-56 | 422 for an invalid body, 409 for a taken name; otherwise the validated description is appended and its Location returned; nothing changes on error |
| PhotographerRegistry.Registry.HeadPhotographers | src/photographer-service/routers/photographers_collection.py:70-76 | `X-Total-Count` is a digit string that reads back as the number of photographers |
| PhotographerRegistry.Registry.ListPhotographers | src/photographer-service/routers/photographers_collection.py:98-139 | 422 for a negative `offset` or a limit outside 1..100; otherwise the page from `offset` in insertion order, at most `limit` items, `has_more` exactly when more remain, the total and its header |
| PhotographerRegistry.Registry.Get | src/photographer-service/routers/photographers_item.py:47-60 | 422, 404; otherwise the stored description with that name, which re-validating as a `PhotographerDesc` leaves unchanged |
| PhotographerRegistry.Registry.Update | src/photographer-service/routers/photographers_item.py:82-111 | 422 invalid, 422 when the body names another photographer (before any lookup), 404; otherwise that entry is replaced in place by the validated body and nothing else changes |
| PhotographerRegistry.Registry.Delete | src/photographer-service/routers/photographers_item.py:129-147 | 422, 404; otherwise exactly that entry is removed, the others keep their order, and the name is gone |
| PhotographerRegistry.Registry.DeleteTwice | src/photographer-service/routers/photographers_item.py:120-122 | a second delete of the same photographer answers 404 |

## Left out

- Storage, the network and the other services: MongoDB (Beanie and Motor), the HTTP clients and the gRPC channels are not modelled. Each collection is a class field. Each answer from another service is a parameter: photo existence, photographer existence, image decoding, the generated tags, the date parser and the best-photo query.
- The best-photo query of the statistics service (`get_photo_of_day` on the client) is a parameter. The client class behind it, and the `photo_of_day_client` the reaction service imports, are not part of this model. The reaction service's calls to it are the returned `Notice` values.
- `update_reaction` and `decrement_reaction` on the statistics client have no handler in the servicer. The model records the notice and changes no statistics for it.
- Failures of storage or of other services (503 `DatabaseUnavailableError`, `PhotographerServiceUnavailableError`, `TagsServiceUnavailableError`, network timeouts) are not modelled on the HTTP handlers. The one modelled failure is `IncrementReaction`'s exception path, where the failure is a parameter.
- Concurrency: handlers are modelled as atomic. Interleavings of concurrent requests, and a reaction added while the resync runs, are not modelled.
- Time: timestamps are integer seconds and the clock is a `now` parameter. Two `utcnow()` calls in one handler are taken to read the same instant. ISO-8601 formatting (`isoformat()`), time zones, and naive against aware datetimes are not modelled.
- ReactionModels.IsAllowedKind: the allowed kinds are the default list. A list overridden from the environment is not modelled.
- Settings overridden by environment variables or `.env` files are not modelled. The lemmas speak about the defaults.
- Response message strings and log output are not modelled, except the `IncrementReaction` message and the period description.
- The order among reactions with equal `created_at` is whatever the sort produces. The contracts state sortedness and contents, not a tie order.
- A negative `photo_id` is excluded by the `nat` type. FastAPI answers it with 422 before the handler runs.
- The `file.content_type or "image/jpeg"` fallback in `validate_and_process_image` is not reachable. A missing content type has already been refused, so the declared type is returned.
- Startup, the application factories, health endpoints and the gRPC server loop are not modelled. The startup resync is `StatsStore.Sync`.
- PhotoModels.ApplyUpdate: the attribute update does not re-check the metadata length bounds. This follows the code, and `ApplyUpdateBounds` states when the bounds survive.
- PhotoOfDayServer.StatsStore.Increment: the failure is one optional message standing for any exception the store raises. The message text is whatever `str(e)` gives.
- PhotoOfDayRoute.GetPhotoOfDay: a failure inside the statistics call or the photo lookup is not modelled, because both are total parameters. The exception clauses are modelled on their own by `CaughtAsWritten` and `Caught`.

## Findings

| source | as written | input that shows it | evidently intended | confidence | as-written member | corrected member |
|---|---|---|---|---|---|---|
| src/photo-service/routers/photo_of_day.py:142-149, 216-223 | the first `except` clause names `pymongo.errors.ServerSelectionTimeoutError`, but the module never imports `pymongo`; evaluating the clause raises `NameError`, so no clause handles the original exception and the request ends in an unhandled 500 | `GET /photo-of-day/stats?start_date=foo&end_date=bar`: `fromisoformat` raises `ValueError`, which should reach `except Exception` and answer a JSON 500; a store timeout should answer 503 | a store timeout answered 503 (`DatabaseUnavailableError`), any other exception answered with the JSON 500 `{"error": ...}` | not executed | PhotoOfDayRoute.CaughtAsWritten | PhotoOfDayRoute.Caught |
