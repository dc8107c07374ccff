# codex-backend catalog core, modelled in Dafny

codex-backend is a Go (Fiber + MongoDB) REST service that keeps a catalog of
video games together with the platforms, developers, publishers and genres
they refer to. Each of the five entities has the same three layers:

- a **repository** that talks to one MongoDB collection;
- a **service** that parses the hex ObjectID, assigns ids and timestamps,
  builds the update document and turns "no document" into a not-found
  sentinel;
- a **controller** that binds and validates the JSON body and maps each
  sentinel to an HTTP status and message.

Around them sit two request-validation middlewares, a JWT gate, an API-key
gate and the masking of the MongoDB URI in the connection log.

This project models that core as pure functions over an immutable store
and proves what each layer promises. The layers also differ from one
entity to the next, and the model keeps those differences exact:

- **Check order.** The genre and game updates check emptiness before the
  id; the other three check the id first.
- **`$set` wrapping.** The genre and game repositories wrap the patch in
  `$set`. The platform, developer and publisher repositories take the
  update document verbatim.
- **Sorting.** Only the game listing is sorted, by title.
- **Where ids and timestamps are assigned:**
  - platform, developer and publisher: in the service;
  - game: in the repository;
  - genre: the timestamps in the service, and the id in the repository,
    only when it is zero.

## Layout

| file | module | what it holds |
|---|---|---|
| `wrappers.dfy` | `Wrappers` | `Option`, `Result` |
| `object_ids.dfy` | `ObjectIds` | 12-byte ObjectIDs, `ObjectIDFromHex` and `Hex()` |
| `bson.dfy` | `Bson` | document values and strict field readers |
| `document_store.dfy` | `DocumentStore` | a collection as `map<ObjectId, Doc>`; `InsertOne`, `FindOne`, `FindOneAndUpdate` with `$set`, `FindOneAndDelete`, `Find` |
| `validation.dfy` | `Validation` | the validator's `required`/`min`/`max` checks and its field errors |
| `*_model.dfy` | `PlatformModel` … `GameModel` | entity records, update payloads, tag validation, encode/decode |
| `repository.dfy` | `Repository` | the repository operations that are shared, generic in the decoder |
| `*_repository.dfy` | `PlatformRepository` … `GameRepository` | each entity's repository |
| `ordering.dfy` | `Ordering` | the string order used by the title sort |
| `service_common.dfy` | `ServiceCommon` | service sentinels and the case-insensitive name filter |
| `*_service.dfy` | `PlatformService` … `GameService` | each entity's service |
| `http.dfy` | `Http` | responses, error bodies, middleware outcomes |
| `*_controller.dfy` | `PlatformController` … `GameController` | each entity's controller |
| `validator_middleware.dfy` | `ValidatorMiddleware` | the error handler and body validator of `middleware/` |
| `request_validator.dfy` | `RequestValidator` | the `ValidateRequest` middleware of `api/middleware/` |
| `jwt_auth.dfy` | `JwtAuth` | token lookup and claim extraction |
| `api_key.dfy` | `ApiKeyAuth` | the `X-API-Key` gate |
| `mongo_uri.dfy` | `MongoUri` | `maskURI` |

How the world outside the code is modelled:

- **The clock.** It is an `int` parameter `now`.
- **`primitive.NewObjectID()`** is a `FreshId` parameter: any non-zero id.
  The same stands in for the id the driver generates when a document has
  no `_id`.
- **The MongoDB regex engine** is a `Matcher` parameter.
- **The JWT parser** (`utils.ParseJWT`) is a parameter.
- **`err.Error()` text.** What `err.Error()` of a validation failure reads
  is a `render` parameter.
- **`API_KEY`** is a parameter.

## Model

| member | source | states |
|---|---|---|
| ObjectIds.ParseObjectId | services/platform_service.go:47-51 | an id string is accepted exactly when it is 24 hex digits, in either case |
| ObjectIds.DecodeHex | services/platform_service.go:47-51 | hex decoding succeeds iff every character is a hex digit and yields half as many bytes |
| ObjectIds.DecodeEncodeHex | services/platform_service.go:47-51 | decoding the hex form of any byte string gives the bytes back |
| ObjectIds.ParseHexRoundTrip | services/platform_service.go:47-51 | parsing the hex form of any ObjectID gives that ObjectID back |
| ObjectIds.ParseIgnoresCase | services/platform_service.go:47-51 | two id strings whose characters have equal hex values parse to the same result, so case does not matter |
| ObjectIds.SamePairsDecodeAlike | services/platform_service.go:47-51 | the same fact for the hex decoder: equal digit values give equal decodings |
| Bson.IdField | models/platform.go:11 | the `_id,omitempty` tag: a zero id is left out of the document and any other id is stored as `_id` |
| DocumentStore.SetDoc | repositories/genre_repository.go:63-71 | wrapping a patch gives a document whose only key is `$set`, and its operand is the patch itself |
| DocumentStore.InsertOne | repositories/platform_repository.go:55-58 | an `_id` that is not an ObjectID is refused, a restriction of the model's `map<ObjectId, Doc>` store that no caller reaches; otherwise the key is the `_id`, or a generated id when there is none; inserting fails iff the key is taken, and on success exactly that key is added |
| DocumentStore.FindOne | repositories/platform_repository.go:43-53 | a lookup finds a document iff the id is stored, and returns that document |
| DocumentStore.UpdateDocProblem | repositories/platform_repository.go:60-76 | an update document is accepted iff it is exactly `{$set: <object>}` whose keys are neither empty, nor operators, nor dotted paths |
| DocumentStore.SetDocAccepted | repositories/genre_repository.go:63-71 | a wrapped patch is accepted iff none of its keys is empty, an operator or a dotted path |
| DocumentStore.FindOneAndUpdate | repositories/platform_repository.go:60-76 | a rejected update document fails and changes nothing; a missing id gives no document and changes nothing; changing `_id` fails; otherwise the stored document becomes old + patch, and that is what is returned |
| DocumentStore.FindOneAndDelete | repositories/platform_repository.go:78-88 | the returned document is the stored one, present iff the id was stored; the id is removed and every other document is untouched |
| DocumentStore.Find | repositories/platform_repository.go:31-41 | the listed ids are distinct and are exactly the stored documents that match the filter |
| DocumentStore.DecodeAll | repositories/platform_repository.go:37-39 | `cursor.All` succeeds iff every document decodes, and then keeps order and length |
| Validation.CheckLength | models/platform.go:12 | a length passes iff it meets `required`, `min` and `max`; a failure names the field, the violated tag and its bound |
| Validation.CheckOptionalLength | models/platform.go:20 | an absent optional string passes (`omitempty`); a present one must meet `min` and `max` |
| Validation.CheckRequired | models/game.go:16 | a `required` check fails exactly on the zero value |
| Validation.CheckRange | models/game.go:20 | a number passes iff it lies in `[min, max]` |
| PlatformModel.Validate | models/platform.go:10-16 | no error iff the name and the manufacturer are both 2 to 50 characters; errors name only those fields |
| PlatformModel.ValidateUpdate | models/platform.go:19-22 | no error iff each field that is present is 2 to 50 characters |
| PlatformModel.DecodeEncode | models/platform.go:10-16 | a stored platform reads back unchanged |
| DeveloperModel.Validate | models/developers.go:10-15 | no error iff the name is 2 to 100 characters |
| DeveloperModel.ValidateUpdate | models/developers.go:18-20 | no error iff the name is absent or 2 to 100 characters |
| DeveloperModel.DecodeEncode | models/developers.go:10-15 | a stored developer reads back unchanged |
| PublisherModel.Validate | models/publisher.go:10-15 | no error iff the name is 2 to 100 characters |
| PublisherModel.ValidateUpdate | models/publisher.go:18-20 | no error iff the name is absent or 2 to 100 characters |
| PublisherModel.DecodeEncode | models/publisher.go:10-15 | a stored publisher reads back unchanged |
| GenreModel.Validate | models/genre.go:6-9 | no error iff the name is 2 to 50 characters |
| GenreModel.ValidateUpdate | models/genre.go:12-14 | no error iff the name is absent or 2 to 50 characters |
| GenreModel.DecodeEncode | models/genre.go:6-9 | a stored genre reads back unchanged |
| GameModel.ValidateTexts | models/game.go:12-15 | no text error iff the title is 1 to 100 characters, the description is non-empty, and the developer and publisher are each 2 to 50 characters |
| GameModel.ValidateRequired | models/game.go:16-19 | no error iff there is a release date, at least one platform, at least one genre and a cover image |
| GameModel.Validate | models/game.go:10-24 | no error iff every tag of the game struct holds, both scores included |
| GameModel.CheckOptionalSlice | models/game.go:33-34 | an optional list passes iff it is absent or non-empty |
| GameModel.CheckOptionalRange | models/game.go:35-36 | an optional score passes iff it is absent or in `[0, 100]` |
| GameModel.ValidateUpdate | models/game.go:27-37 | no error iff every present field meets its `omitempty` tag |
| GameModel.Decode | models/game.go:10-24 | a document decodes iff every field has the kind of its struct field, or is absent; each struct field then holds its document field's value, or the zero value when absent or null |
| GameModel.EncodedTexts | models/game.go:12-19 | each text field is stored under its bson name and reads back |
| GameModel.EncodedTimes | models/game.go:11-23 | the id, the dates and the scores are stored under their bson names and read back |
| GameModel.EncodedLists | models/game.go:17-18 | the platform ids and the genres are stored as arrays and read back |
| GameModel.EncodeWithId | repositories/game_repository.go:60-64 | storing a game under a generated key is the same as storing it with that id |
| GameModel.DecodeEncode | models/game.go:10-24 | a stored game reads back unchanged |
| Repository.FindAll | repositories/platform_repository.go:31-41 | the listing succeeds iff every matching document decodes; then it has one entry per matching document, each entry comes from one, and each one is listed |
| Repository.FindByID | repositories/platform_repository.go:43-53 | a missing id gives nil without an error; a stored one gives its decoding, or a decode error |
| Repository.Update | repositories/platform_repository.go:60-76 | a rejected update fails and changes nothing; a missing id gives nil; an `_id` change fails; otherwise the patch is merged and the merged document is returned |
| Repository.Delete | repositories/platform_repository.go:78-88 | the id is removed; the deleted document is returned, or nil when there was none |
| PlatformRepository.FindAll | repositories/platform_repository.go:31-41 | the unsorted listing of matching platforms, with the same success, length and contents guarantees |
| PlatformRepository.FindByID | repositories/platform_repository.go:43-53 | a missing id gives nil; a stored one gives its decoding or a decode error |
| PlatformRepository.Create | repositories/platform_repository.go:55-58 | the platform is inserted as given, under its id or a generated one when the id is zero; inserting fails iff the key is taken; the stored document reads back as the platform with that id |
| PlatformRepository.Update | repositories/platform_repository.go:60-76 | the update document is passed through unwrapped: a refused document fails unchanged; a missing id gives nil; an `_id` other than the key fails with the immutable-field error; otherwise, including an `_id` equal to the key, the patch is merged and read back |
| PlatformRepository.Delete | repositories/platform_repository.go:78-88 | the id is removed, and the deleted platform is returned, or nil |
| DeveloperRepository.FindAll | repositories/developer_repository.go:31-41 | as the platform listing, for developers |
| DeveloperRepository.FindByID | repositories/developer_repository.go:43-53 | as the platform lookup, for developers |
| DeveloperRepository.Create | repositories/developer_repository.go:55-58 | inserted as given; fails iff the key is taken; reads back with the key as id |
| DeveloperRepository.Update | repositories/developer_repository.go:60-76 | the update document is passed through unwrapped: a refused document fails unchanged; a missing id gives nil; an `_id` other than the key fails with the immutable-field error; otherwise, including an `_id` equal to the key, the patch is merged and read back |
| DeveloperRepository.Delete | repositories/developer_repository.go:78-88 | the id is removed, and the deleted developer is returned, or nil |
| PublisherRepository.FindAll | repositories/publisher_repository.go:31-41 | as the platform listing, for publishers |
| PublisherRepository.FindByID | repositories/publisher_repository.go:43-53 | as the platform lookup, for publishers |
| PublisherRepository.Create | repositories/publisher_repository.go:55-58 | inserted as given; fails iff the key is taken; reads back with the key as id |
| PublisherRepository.Update | repositories/publisher_repository.go:60-76 | the update document is passed through unwrapped: a refused document fails unchanged; a missing id gives nil; an `_id` other than the key fails with the immutable-field error; otherwise, including an `_id` equal to the key, the patch is merged and read back |
| PublisherRepository.Delete | repositories/publisher_repository.go:78-88 | the id is removed, and the deleted publisher is returned, or nil |
| GenreRepository.FindAll | repositories/genre_repository.go:31-41 | as the platform listing, for genres |
| GenreRepository.FindByID | repositories/genre_repository.go:43-53 | as the platform lookup, for genres |
| GenreRepository.Create | repositories/genre_repository.go:55-61 | an id is generated only when the genre's id is zero; inserting fails iff the key is taken; the genre that is returned carries the key and reads back from the store |
| GenreRepository.Update | repositories/genre_repository.go:63-79 | the fields are wrapped in `$set`: an empty, dotted or `$` key fails; a missing id gives nil; an `_id` other than the key fails with the immutable-field error; otherwise, including an `_id` equal to the key, the fields are merged |
| GenreRepository.Delete | repositories/genre_repository.go:81-91 | the id is removed, and the deleted genre is returned, or nil |
| GameRepository.InsertByTitle | repositories/game_repository.go:34 | inserting into a title-sorted list keeps it sorted and adds exactly that game |
| GameRepository.SortByTitle | repositories/game_repository.go:34 | the result is sorted by title and is a permutation of the input |
| GameRepository.SortedPairwise | repositories/game_repository.go:34 | in a sorted list every earlier title is at most every later one |
| GameRepository.FindAll | repositories/game_repository.go:32-43 | the listing guarantees of the other repositories, and the result is also sorted ascending by title |
| GameRepository.FindByID | repositories/game_repository.go:45-55 | a missing id gives nil; a stored one gives its decoding or a decode error |
| GameRepository.Create | repositories/game_repository.go:57-66 | both timestamps are set to now; the key is the game's id, or a generated one that is written back into the game; inserting fails iff the key is taken |
| GameRepository.Fields | repositories/game_repository.go:69 | the caller's update gains `updatedAt = now`, which overrides any `updatedAt` it carried, and every other key is kept |
| GameRepository.FieldsAccepted | repositories/game_repository.go:69-78 | the stamped update is accepted by `$set` iff none of the caller's keys is empty, an operator or a dotted path |
| GameRepository.Update | repositories/game_repository.go:68-89 | an empty, dotted or `$` key fails unchanged; a missing id gives nil; an `_id` change fails; otherwise the stamped fields are merged |
| GameRepository.Delete | repositories/game_repository.go:91-101 | the id is removed, and the deleted game is returned, or nil |
| Ordering.StringLeTotal | repositories/game_repository.go:34 | any two titles are comparable |
| Ordering.StringLeTransitive | repositories/game_repository.go:34 | the title order is transitive |
| Ordering.StringLeAntisymmetric | repositories/game_repository.go:34 | titles that are each at most the other are equal |
| Ordering.StringLeReflexive | repositories/game_repository.go:34 | every title is at most itself |
| ServiceCommon.NameFilter | services/platform_service.go:38-44 | an empty name matches every document; otherwise a document matches iff the case-insensitive regex matches its field's string, or one string element of its field's array |
| PlatformService.GetPlatforms | services/platform_service.go:38-45 | the platforms whose name matches the filter, or a decode error |
| PlatformService.GetPlatformByID | services/platform_service.go:47-62 | a malformed id gives `ErrInvalidID`; a missing platform gives `ErrPlatformNotFound`; a stored one is returned |
| PlatformService.CreatePlatform | services/platform_service.go:64-69 | the new id and both timestamps are assigned here, whatever the body said; creating fails iff the new id is taken |
| PlatformService.Patch | services/platform_service.go:81-89 | the `$set` fields are `updatedAt = now` plus exactly the fields that were supplied |
| PlatformService.MergePatch | services/platform_service.go:81-91 | merging the patch into a readable platform reads back as the platform with the supplied fields and `updatedAt` replaced |
| PlatformService.PatchIsSetDocument | services/platform_service.go:81-91 | the update document the service builds is always an accepted `$set` and never touches `_id` |
| PlatformService.MergeAt | services/platform_service.go:81-91 | after the merge at a stored key, the stored document reads back as the patched platform |
| PlatformService.UpdatePlatform | services/platform_service.go:71-100 | the id is checked before emptiness; an empty update changes nothing; otherwise the patch is merged and the updated platform is returned, or `ErrPlatformNotFound` |
| PlatformService.DeletePlatform | services/platform_service.go:102-117 | a malformed id changes nothing; otherwise the platform is removed and returned, or `ErrPlatformNotFound` |
| PlatformService.CreateThenGet | services/platform_service.go:47-69 | a created platform is fetched back by its hex id exactly as stored |
| PlatformService.UpdateThenGet | services/platform_service.go:47-100 | updating a stored, readable platform with at least one field succeeds, and fetching the same id afterwards returns what the update returned |
| PlatformService.DeleteThenGet | services/platform_service.go:47-117 | after a successful delete, fetching by the same id gives `ErrPlatformNotFound` |
| PlatformService.RepositoryTakesUpdateVerbatim | repositories/platform_repository.go:60-68 | the repository does not add `$set`: a bare field map is refused as not an update document, with nothing changed |
| DeveloperService.GetDevelopers | services/developer_service.go:38-45 | the developers whose name matches the filter, or a decode error |
| DeveloperService.GetDeveloperByID | services/developer_service.go:47-62 | a malformed id gives `ErrInvalidDeveloperID`; a missing developer gives `ErrDeveloperNotFound`; a stored one is returned |
| DeveloperService.CreateDeveloper | services/developer_service.go:64-69 | the new id and both timestamps are assigned here; creating fails iff the id is taken |
| DeveloperService.Patch | services/developer_service.go:81-86 | the `$set` fields are `updatedAt = now` plus the name when it was supplied |
| DeveloperService.MergePatch | services/developer_service.go:81-88 | merging reads back as the developer with the name and `updatedAt` replaced |
| DeveloperService.PatchIsSetDocument | services/developer_service.go:81-88 | the update document is always an accepted `$set` and never touches `_id` |
| DeveloperService.MergeAt | services/developer_service.go:81-88 | after the merge at a stored key, the stored document reads back as the patched developer |
| DeveloperService.UpdateDeveloper | services/developer_service.go:71-97 | the id is checked before emptiness; otherwise the name is merged and the developer returned, or `ErrDeveloperNotFound` |
| DeveloperService.DeleteDeveloper | services/developer_service.go:99-114 | a malformed id changes nothing; otherwise the developer is removed and returned, or not found |
| DeveloperService.CreateThenGet | services/developer_service.go:47-69 | a created developer is fetched back by its hex id |
| DeveloperService.UpdateThenGet | services/developer_service.go:47-97 | updating a stored, readable developer with at least one field succeeds, and fetching the same id afterwards returns what the update returned |
| DeveloperService.DeleteThenGet | services/developer_service.go:47-114 | after a successful delete, fetching gives `ErrDeveloperNotFound` |
| DeveloperService.RepositoryTakesUpdateVerbatim | repositories/developer_repository.go:60-68 | a bare field map is refused by the repository, with nothing changed |
| PublisherService.GetPublishers | services/publisher_service.go:38-45 | the publishers whose name matches the filter, or a decode error |
| PublisherService.GetPublisherByID | services/publisher_service.go:47-62 | a malformed id gives `ErrInvalidPublisherID`; a missing publisher gives `ErrPublisherNotFound`; a stored one is returned |
| PublisherService.CreatePublisher | services/publisher_service.go:64-69 | the new id and both timestamps are assigned here; creating fails iff the id is taken |
| PublisherService.Patch | services/publisher_service.go:81-86 | the `$set` fields are `updatedAt = now` plus the name when it was supplied |
| PublisherService.MergePatch | services/publisher_service.go:81-88 | merging reads back as the publisher with the name and `updatedAt` replaced |
| PublisherService.PatchIsSetDocument | services/publisher_service.go:81-88 | the update document is always an accepted `$set` and never touches `_id` |
| PublisherService.MergeAt | services/publisher_service.go:81-88 | after the merge at a stored key, the stored document reads back as the patched publisher |
| PublisherService.UpdatePublisher | services/publisher_service.go:71-97 | the id is checked before emptiness; otherwise the name is merged and the publisher returned, or `ErrPublisherNotFound` |
| PublisherService.DeletePublisher | services/publisher_service.go:99-114 | a malformed id changes nothing; otherwise the publisher is removed and returned, or not found |
| PublisherService.CreateThenGet | services/publisher_service.go:47-69 | a created publisher is fetched back by its hex id |
| PublisherService.UpdateThenGet | services/publisher_service.go:47-97 | updating a stored, readable publisher with at least one field succeeds, and fetching the same id afterwards returns what the update returned |
| PublisherService.DeleteThenGet | services/publisher_service.go:47-114 | after a successful delete, fetching gives `ErrPublisherNotFound` |
| PublisherService.RepositoryTakesUpdateVerbatim | repositories/publisher_repository.go:60-68 | a bare field map is refused by the repository, with nothing changed |
| GenreService.GetGenres | services/genre_service.go:38-45 | the genres whose name matches the filter, or a decode error |
| GenreService.GetGenreByID | services/genre_service.go:47-62 | a malformed id gives `ErrInvalidGenreID`; a missing genre gives `ErrGenreNotFound`; a stored one is returned |
| GenreService.CreateGenre | services/genre_service.go:64-68 | the service sets only the timestamps; the id given in the body is kept unless it is zero |
| GenreService.Patch | services/genre_service.go:80-85 | the fields are exactly `updatedAt = now` and the name |
| GenreService.PatchIsPlain | services/genre_service.go:80-87 | no key of the patch is an operator or dotted, and it does not touch `_id` |
| GenreService.MergeAt | services/genre_service.go:80-87 | after the merge at a stored key, the stored document reads back as the renamed genre |
| GenreService.UpdateGenre | services/genre_service.go:70-96 | an absent name gives `ErrNoGenreUpdateData` before the id is looked at; a malformed id gives `ErrInvalidGenreID`; otherwise the name is merged and the genre returned, or not found |
| GenreService.DeleteGenre | services/genre_service.go:98-113 | a malformed id changes nothing; otherwise the genre is removed and returned, or not found |
| GenreService.CreateThenGet | services/genre_service.go:47-68 | a created genre is fetched back by the hex form of the id it was stored under |
| GenreService.UpdateThenGet | services/genre_service.go:47-96 | updating a stored, readable genre with at least one field succeeds, and fetching the same id afterwards returns what the update returned |
| GenreService.DeleteThenGet | services/genre_service.go:47-113 | after a successful delete, fetching gives `ErrGenreNotFound` |
| GenreService.EmptyBeforeId | services/genre_service.go:70-78 | an empty update with a malformed id reports the empty update, not the id |
| GameService.GetGames | services/game_service.go:36-43 | the games whose title matches the filter, sorted by title, or a decode error |
| GameService.GetGameByID | services/game_service.go:45-60 | a malformed id gives `ErrInvalidGameID`; a missing game gives `ErrGameNotFound`; a stored one is returned |
| GameService.CreateGame | services/game_service.go:62-64 | the repository's create: both timestamps are now, and the key is the id given or a generated one |
| GameService.UpdateGame | services/game_service.go:66-85 | an empty map gives `ErrNoUpdateData` before the id is looked at; then the id is checked; then the raw map plus `updatedAt` is merged, with no whitelist and no validation |
| GameService.DeleteGame | services/game_service.go:87-102 | a malformed id changes nothing; otherwise the game is removed and returned, or not found |
| GameService.CreateThenGet | services/game_service.go:45-64 | a created game is fetched back by the hex form of its key, with both timestamps equal to the creation time |
| GameService.DeleteThenGet | services/game_service.go:45-102 | after a successful delete, fetching gives `ErrGameNotFound` |
| GameService.JsonIdRejected | services/game_service.go:66-85 | an update whose `_id` came from JSON (a string, not an ObjectID) is refused by the store as an immutable-field change, with nothing changed |
| GameService.UpdatedAtForced | repositories/game_repository.go:69 | whatever `updatedAt` the caller sent, a successful update returns `updatedAt = now` |
| GameService.RetitleReads | repositories/game_repository.go:68-88 | merging a new title and `updatedAt` into a readable game reads back as that game, retitled and restamped |
| GameService.UpdateSkipsValidation | services/game_service.go:66-85 | an empty title, which `Validate` rejects, is stored and returned by a successful update |
| GameService.EmptyFieldNameRefused | services/game_service.go:66-85 | a body with an empty field name is refused by the server's `$set` check, and nothing is written |
| GameService.IllTypedUpdatePoisons | repositories/game_repository.go:68-88 | a title of the wrong kind is written, then the update reports a decode error, and every later fetch of that game fails |
| GameService.UnreadableStored | services/game_service.go:45-60 | a stored document that does not decode makes the fetch fail with a storage error |
| Http.Fail | models/error.go:10-14 | an error body carries the same status as the response, a message and no field list |
| PlatformController.ErrorReply | controllers/platform_controller.go:142-167 | the invalid id and the empty update give 400 with their messages; not found gives 404; any other error gives 500 with the operation's message |
| PlatformController.GetPlatforms | controllers/platform_controller.go:27-48 | 200 with the matching platforms, or 500 "Failed to fetch platforms" |
| PlatformController.GetPlatformByID | controllers/platform_controller.go:51-84 | 400 iff the id is malformed; 404 iff it is not stored; 200 with the platform iff it is stored and readable; 500 otherwise |
| PlatformController.CreatePlatform | controllers/platform_controller.go:87-116 | an unreadable body gives 400; an invalid one gives the validation-error response; a taken id gives 500; otherwise 201, and only then does the store change |
| PlatformController.UpdatePlatform | controllers/platform_controller.go:119-172 | the body is parsed and validated before the service runs; a service error is mapped by `ErrorReply` to 400, 404 or 500 |
| PlatformController.DeletePlatform | controllers/platform_controller.go:175-211 | 400 iff the id is malformed; 404 iff it is absent; 200 with "Platform deleted successfully" and the platform iff it was readable; 500 otherwise |
| PlatformController.CreatedIsFetchable | controllers/platform_controller.go:51-116 | after a 201, fetching the returned id gives 200 with the same platform |
| PlatformController.ValidationBeforeId | controllers/platform_controller.go:119-143 | an invalid body is reported as a validation failure even when the id is malformed |
| PlatformController.IdBeforeEmptiness | controllers/platform_controller.go:140-148 | an empty update with a malformed id is reported as an invalid id |
| DeveloperController.ErrorReply | controllers/developer_controller.go:145-170 | the invalid id and the empty update give 400; not found gives 404; anything else gives 500 |
| DeveloperController.GetDevelopers | controllers/developer_controller.go:27-48 | 200 with the matching developers, or 500 |
| DeveloperController.GetDeveloperByID | controllers/developer_controller.go:51-85 | 400, 404, 200 and 500 exactly as for platforms, with the developer messages |
| DeveloperController.CreateDeveloper | controllers/developer_controller.go:88-118 | 400 for an unreadable body; the validation-error response for an invalid one; 500 for a taken id; otherwise 201 |
| DeveloperController.UpdateDeveloper | controllers/developer_controller.go:121-175 | validation comes before the service; errors are mapped by `ErrorReply` |
| DeveloperController.DeleteDeveloper | controllers/developer_controller.go:178-212 | 400 iff malformed; 404 iff absent; 200 with the developer itself iff readable; 500 otherwise |
| DeveloperController.CreatedIsFetchable | controllers/developer_controller.go:51-118 | after a 201, fetching the id gives 200 with the same developer |
| DeveloperController.ValidationBeforeId | controllers/developer_controller.go:121-141 | an invalid body is reported before a malformed id |
| DeveloperController.IdBeforeEmptiness | controllers/developer_controller.go:143-151 | an empty update with a malformed id is reported as an invalid id |
| PublisherController.ErrorReply | controllers/publisher_controller.go:143-168 | the invalid id and the empty update give 400; not found gives 404; anything else gives 500 |
| PublisherController.GetPublishers | controllers/publisher_controller.go:27-49 | 200 with the matching publishers, or 500 |
| PublisherController.GetPublisherByID | controllers/publisher_controller.go:52-85 | 400, 404, 200 and 500 exactly as for platforms, with the publisher messages |
| PublisherController.CreatePublisher | controllers/publisher_controller.go:88-117 | 400 for an unreadable body; the validation-error response for an invalid one; 500 for a taken id; otherwise 201 |
| PublisherController.UpdatePublisher | controllers/publisher_controller.go:120-173 | validation comes before the service; errors are mapped by `ErrorReply` |
| PublisherController.DeletePublisher | controllers/publisher_controller.go:176-209 | 400 iff malformed; 404 iff absent; 200 with the publisher itself iff readable; 500 otherwise |
| PublisherController.CreatedIsFetchable | controllers/publisher_controller.go:52-117 | after a 201, fetching the id gives 200 with the same publisher |
| PublisherController.ValidationBeforeId | controllers/publisher_controller.go:120-139 | an invalid body is reported before a malformed id |
| PublisherController.IdBeforeEmptiness | controllers/publisher_controller.go:141-149 | an empty update with a malformed id is reported as an invalid id |
| GenreController.ErrorReply | controllers/genre_controller.go:150-175 | "Invalid genre ID format" and "No valid update data provided" give 400; not found gives 404; anything else gives 500 |
| GenreController.GetGenres | controllers/genre_controller.go:26-47 | 200 with the matching genres, or 500 |
| GenreController.GetGenreByID | controllers/genre_controller.go:50-84 | 400 iff malformed; 404 iff absent; 200 iff readable; 500 otherwise |
| GenreController.CreateGenre | controllers/genre_controller.go:87-120 | 400 for an unreadable body; 400 with the validator's own error text for an invalid one; otherwise the service's create, with 201 on success |
| GenreController.UpdateGenre | controllers/genre_controller.go:123-180 | an invalid body gives 400 with the validator's text before the service runs; service errors are mapped by `ErrorReply` |
| GenreController.DeleteGenre | controllers/genre_controller.go:183-217 | 400 iff malformed; 404 iff absent; 200 with the genre iff readable; 500 otherwise |
| GenreController.CreatedIsFetchable | controllers/genre_controller.go:50-120 | after a 201, fetching the returned id gives 200 with the same genre |
| GenreController.EmptinessBeforeId | controllers/genre_controller.go:145-165 | an empty update with a malformed id is answered "No valid update data provided" |
| GameController.ErrorReply | controllers/game_controller.go:146-171 | "Invalid game ID format" and "No update data provided" give 400; not found gives 404; anything else gives 500 |
| GameController.GetGames | controllers/game_controller.go:27-49 | 200 with the matching games sorted by title, or 500 |
| GameController.GetGameByID | controllers/game_controller.go:52-85 | 400 iff malformed; 404 iff absent; 200 iff readable; 500 otherwise |
| GameController.CreateGame | controllers/game_controller.go:88-120 | 400 for an unreadable body; 400 with the validator's text for an invalid one; otherwise the service's create, with 201 on success |
| GameController.UpdateGame | controllers/game_controller.go:123-176 | the raw body map goes to the service unvalidated; an empty map gives 400 "No update data provided" |
| GameController.DeleteGame | controllers/game_controller.go:179-212 | 400 iff malformed; 404 iff absent; 200 with the game iff readable; 500 otherwise |
| GameController.CreatedIsFetchable | controllers/game_controller.go:52-120 | after a 201, fetching the returned id gives 200 with the same game |
| GameController.EmptinessBeforeId | controllers/game_controller.go:123-163 | an empty map with a malformed id is answered "No update data provided" |
| GameController.UpdateAcceptsInvalidTitle | controllers/game_controller.go:123-176 | an update setting an empty title is answered 200, although creating such a game is refused |
| ValidatorMiddleware.ErrorMessage | middleware/validator_middleware.go:21-39 | the exact message per tag: "This field is required"; for `min`, "Must be at least <param> characters long" on strings and "Must be at least <param>" otherwise; for `max`, "Must not exceed <param> characters" on strings and "Must not exceed <param>" otherwise; "Must be one of: <param>"; and "Invalid value" iff the tag is none of these |
| ValidatorMiddleware.ToLower | middleware/validator_middleware.go:47 | same length; upper-case ASCII letters become lower case; every other character is unchanged |
| ValidatorMiddleware.ToLowerIdempotent | middleware/validator_middleware.go:47 | lower-casing twice is lower-casing once |
| ValidatorMiddleware.ErrorHandler | middleware/validator_middleware.go:42-66 | validation errors give 400 "Validation failed" with one entry per error, in order, made of the lower-cased field and its message; any other error gives 500 "Internal Server Error" |
| ValidatorMiddleware.StructError | middleware/validator_middleware.go:78 | validation reports an error iff there is at least one field error |
| ValidatorMiddleware.ValidateRequestBody | middleware/validator_middleware.go:69-84 | an unreadable body gives 400 "Invalid request body"; a body goes on iff it validates, and then unchanged; otherwise the error handler answers |
| RequestValidator.Message | api/middleware/validator.go:34-47 | each of `required`, `email`, `min` and `max` has its fixed message, and every other tag gives "Invalid value" |
| RequestValidator.Collect | api/middleware/validator.go:20-23 | the map has a key for exactly the fields that have an error, holding the message of that field's last error |
| RequestValidator.ValidateRequest | api/middleware/validator.go:11-31 | an unreadable body gives 400 `{error: "Invalid request body"}`; a body goes on iff it validates; otherwise 400 `{errors: ...}` with the collected messages |
| RequestValidator.CollectDistinct | api/middleware/validator.go:20-23 | with distinct field names no error is lost: one entry per error, each with its own message |
| RequestValidator.NoLaterField | api/middleware/validator.go:20-23 | a field that has no error gets no entry |
| JwtAuth.TokenSource | api/middleware/jwt.go:12-21 | a non-empty session cookie is the token; otherwise a `Bearer ` header with something after the prefix yields what follows it; otherwise there is no token |
| JwtAuth.Authenticate | api/middleware/jwt.go:10-51 | no token gives 401 "Missing authentication token"; a parse error or an invalid token gives 401 "Invalid or expired token"; claims that are not a map give 401 "Invalid token claims"; otherwise the request goes on with the `sub` and `roles` claims as locals |
| JwtAuth.BearerRoundTrip | api/middleware/jwt.go:16-21 | a header built as `Bearer ` followed by a token yields that token |
| JwtAuth.CookieWins | api/middleware/jwt.go:13-16 | with a cookie present the outcome does not depend on the Authorization header |
| JwtAuth.LowerCaseSchemeIgnored | api/middleware/jwt.go:18-27 | the scheme is case-sensitive: `bearer ` counts as a missing token |
| ApiKeyAuth.ValidateApiKey | middleware/auth_middleware.go:11-33 | the request goes on iff the key is present and equals the configured one; a missing key and a wrong key each get their own 401 message |
| ApiKeyAuth.UnsetKeyRejectsAll | middleware/auth_middleware.go:15-29 | with no key configured every request is refused |
| MongoUri.Utf8Len | db/mongo.go:52 | Go's byte length lies between the number of characters and four times that number |
| MongoUri.MaskUri | db/mongo.go:46-56 | the result is empty iff the URI is; over ten bytes it is the fixed mask; otherwise the URI is shown unchanged |
| MongoUri.MaskBounded | db/mongo.go:46-56 | the log never shows more than fifteen bytes, and masking is idempotent |
| MongoUri.LongUriMasked | db/mongo.go:52-53 | more than ten characters are always masked, whatever their encoding |

## Left out

- I/O: HTTP parsing, logging, contexts and timeouts are not modelled. Of the
  process, `main.go`, `cmd/main.go` and route registration are left out too.
  A JSON body that does not bind is the `None` case of an `Option` parameter.
- Transport and server errors of the driver are left out. The only storage
  errors modelled are the ones the store's own rules produce: a duplicate
  key, an `_id` change, update documents it refuses, and decode failures.
- DocumentStore.InsertOne refuses an `_id` that is not an ObjectId. The
  server accepts any non-array `_id`; the refusal comes from keying the
  model's store by `ObjectId`, and no caller inserts such a document.
- BSON decoding is strict. An absent or null field reads as the zero value,
  and any other kind mismatch is a decode error. The driver's lenient
  conversions, such as string to time, are not modelled.
- DocumentStore.FindOneAndUpdate only models `$set`. Other update
  operators, and dotted or `$` field paths inside `$set`, are refused
  rather than interpreted.
- Nil and empty slices are not distinguished. For the game's `required`
  lists, an empty list fails just as nil does.
- Each Go operation reads `time.Now()` separately for `createdAt` and
  `updatedAt`; the model uses one `now` for both.
- `primitive.NewObjectID()`, the generated insert id, the regex engine,
  `utils.ParseJWT`, the `API_KEY` setting and the validator's `err.Error()`
  text are all parameters.
  - `utils/jwt.go` is not part of this model.
  - Its key function hands the HMAC verifier a string rather than a byte
    slice. Unless that is handled elsewhere, every token would fail to
    parse.
  - JwtAuth.Authenticate is stated for whatever the parser reports.
- The genre record carries `createdAt` and `updatedAt`, because the genre
  service writes both, although `models/genre.go` declares only the id and
  the name.
- GenreService.UpdateGenre: the `update == nil` branch is not modelled,
  because the controller always passes a bound struct.
- GameService.UpdateGame: where the driver would convert leniently, the
  model answers 500 and Go answers 200. A string sent for a time field
  (`{"releaseDate": "2024-05-01T00:00:00Z"}`) or hex strings sent for
  `platforms` are stored as strings, and the decode of the result fails.
  A dotted path such as `{"stats.rating": 5}` is refused by the model's
  store instead of being written as a nested field.
- GameController.UpdateGame: the same requests answer 500 in the model where
  Go answers 200, for the same reasons.
- ValidatorMiddleware.ValidateRequestBody: Go unmarshals every request into
  one schema pointer created when the route is set up
  (middleware/validator_middleware.go:69-72). A field missing from a body
  keeps the previous request's value. The model binds each body afresh,
  so the bound value stands for whatever the shared schema holds after
  unmarshalling.
- RequestValidator.ValidateRequest: the same holds for the one payload
  pointer of `api/middleware/validator.go:11-13`.
- ValidatorMiddleware.ErrorHandler and RequestValidator.ValidateRequest
  model a validator failure as either field errors or another error.
  - In the `middleware/` handler, any other error gives a 500.
  - The unchecked type assertion in `api/middleware/validator.go` would
    panic there. That path is not modelled.
- ValidatorMiddleware.ToLower is ASCII only. Go's `strings.ToLower` also
  folds non-ASCII letters; the struct field names it is applied to are
  ASCII.
- Validation counts string lengths in characters, as the validator does
  for `min` and `max` on strings. Struct tags other than those on the five
  entity structs are left out.
- The controllers' `ErrorReply` is one mapping shared by get, update and
  delete. The empty-update sentinel can only reach it from update.
- `handlers/auth.go`, the rate limiter, `api/middleware/apikey.go`,
  `api/middleware/auth.go` and the user model are not part of this model.
