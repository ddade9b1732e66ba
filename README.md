# Driver registry and nearby-driver query

This project models the core of the driver service in Dafny. That core is
the store of taxi-driver records and the service in front of it. The store
has four operations: create, update by identifier, a paginated newest-first
listing, and a scan filtered by taxi type. The service adds pagination
defaults and the nearby query. The nearby query keeps the drivers within
6 km of a point, attaches each one's distance, and sorts the results by
distance.

Files and modules:

- `wrappers.dfy` (`Wrappers`): `Option` and `Result`.
- `object_ids.dfy` (`ObjectIds`): the 12-byte document identifier. `Hex` is
  its lower-case 24-digit text form. `ObjectIdFromHex` is the parser that
  the update path runs first.
- `models.dfy` (`Models`): `Location` and `Driver`, with the fields of
  `driver-service/internal/models/driver.go`.
- `repository.dfy` (`Repository`): the class `DriverRepository`. It holds
  the collection as a `seq<Driver>` in insertion order, plus an `available`
  flag that stands for the store answering at all. Each method is proved
  against a function of the collection before the call: `CreateStep`,
  `UpdateStep`, `ListPage`/`Find` and `Matching`. The lemmas state what
  those functions promise.
- `service.dfy` (`Service`): the class `DriverService` over one repository,
  plus the pagination defaults (`Defaulted`) and the nearby query.
  `FindNearby` fills its results in a loop, as the Go code does. It then
  sorts them in place in an array (`SortByDistance`).

Modelling choices:

- The current time is a parameter `now: Time`, with `Time` an integer.
- The identifier the store would mint for an insert is a parameter
  `generated`. It must be non-nil and not present in the collection.
- The Haversine distance is a parameter `distance: (real, real, real, real)
  -> real`. It is called with the query point first and the driver's
  location second, as the Go code calls `utils.CalculateDistance`.
  `float64` is modelled as `real`.
- A store call that fails for reasons outside the core is modelled by
  `available == false`. Every store call then returns `StoreUnavailable`
  and changes nothing. The one exception is an update with a malformed
  identifier, which fails with `InvalidIdFormat` before the store is reached.
- An insert stores the record's own identifier when it is not the all-zero
  one. This follows from the `omitempty` tag on `_id` in the model file,
  and a client can set `id` in the JSON body: the `json:"id"` tag at
  `driver-service/internal/models/driver.go:11` decodes it, and the store
  keeps it. An insert whose identifier is already present fails with
  `DuplicateKey` and adds nothing.
- The listing follows the store's find semantics. A negative skip is
  refused (`NegativeSkip`). A limit of 0 means no limit. A negative limit
  means its absolute value. Records are ordered by `createdAt`, newest first.
  The store leaves the order among equal `createdAt` values unspecified; the
  model fixes one order (`NewestFirst`), and the listing's positions are
  stated in that order. `NewestFirstIsTheOnlyOrder` proves that when no two
  records share a `createdAt`, every newest-first arrangement of the
  collection is that one.
- `sort.Slice` is not stable. `SortByDistance` is an insertion sort that
  promises exactly what `sort.Slice` promises: the results are sorted by
  distance and are a permutation of the input. Nothing is promised about
  the order of equal distances.

## Model

| member | source | states |
|---|---|---|
| `Repository.DriverRepository.Create` | driver-service/internal/repository/driver_repository.go:35-47 | Stamps `createdAt` and `updatedAt` with the same instant, inserts, and returns the stored identifier's text; the new collection is exactly `CreateStep` of the old, and the identifiers stay present and distinct |
| `Repository.CreateStep` | driver-service/internal/repository/driver_repository.go:35-47 | An insert succeeds if and only if the store answers and the assigned identifier is new; a failure leaves the collection as it was; a success appends exactly one record and returns the hex form of that record's identifier |
| `Repository.CreateStampsRecord` | driver-service/internal/repository/driver_repository.go:36-40 | The appended record carries the caller's fields, the assigned identifier, and `createdAt == updatedAt == now` |
| `Repository.CreateKeepsValid` | driver-service/internal/repository/driver_repository.go:40-46 | After any insert every record has a non-nil identifier and no two share one |
| `Repository.DriverRepository.Update` | driver-service/internal/repository/driver_repository.go:50-79 | Parses the identifier, then sets the mutable fields of the matching record; the new collection is exactly `UpdateStep` of the old |
| `Repository.UpdateStep` | driver-service/internal/repository/driver_repository.go:50-79 | An update succeeds if and only if the identifier parses, the store answers and a record has that identifier; with a well-formed identifier a store error is reported before the match count is read; an update never changes the number of records, and a failed update changes nothing |
| `Repository.UpdateRejectsMalformedId` | driver-service/internal/repository/driver_repository.go:51-54 | An identifier that is not 24 hex digits fails with "invalid id format" whatever the store's state; nothing changes |
| `Repository.UpdateMissingId` | driver-service/internal/repository/driver_repository.go:69-76 | A well-formed identifier that names no record fails with "driver not found" and leaves the collection unchanged |
| `Repository.UpdateOverwritesMatch` | driver-service/internal/repository/driver_repository.go:56-69 | A successful update found a record with the parsed identifier; in it, `firstName`, `lastName`, `plate`, `taxiType` and `location` come from the caller and `updatedAt` is `now`; `_id`, `carBrand`, `carModel` and `createdAt` stay; every other record is unchanged |
| `Repository.UpdateKeepsValid` | driver-service/internal/repository/driver_repository.go:56-69 | An update keeps every identifier present and distinct |
| `Repository.IndexOfId` | driver-service/internal/repository/driver_repository.go:69 | The filter `_id == oid` finds the first record with that identifier, and finds none exactly when no record has it |
| `Repository.CreateThenUpdate` | driver-service/internal/repository/driver_repository.go:35-79 | The identifier returned by a successful insert, whether supplied by the caller or minted by the store, is accepted by a later update. That update rewrites the inserted record with the new fields and `updatedAt`, keeps its `createdAt`, `carBrand` and `carModel`, and the record is among those the listing pages through |
| `Repository.DriverRepository.List` | driver-service/internal/repository/driver_repository.go:82-103 | Succeeds exactly when the store answers and the skip `(page-1)*pageSize` is non-negative; returns at most `pageSize` records (positive size), the ones at positions `skip`, `skip+1`, ... of the newest-first order |
| `Repository.Window` | driver-service/internal/repository/driver_repository.go:86-88 | The window holds exactly `min(limit, n - skip)` records for a positive limit, at most `-limit` for a negative limit, everything from `skip` on for a zero limit, and its k-th record is record `skip + k` |
| `Repository.Find` | driver-service/internal/repository/driver_repository.go:86-94 | A find succeeds exactly when the store answers and the skip is non-negative |
| `Repository.NewestFirst` | driver-service/internal/repository/driver_repository.go:89 | The listing order holds exactly the records of the collection (a permutation) |
| `Repository.NewestFirstIsOrdered` | driver-service/internal/repository/driver_repository.go:89 | The listing order has non-increasing `createdAt` |
| `Repository.InsertNewestOrdered` | driver-service/internal/repository/driver_repository.go:89 | Placing a record into a newest-first sequence keeps it newest-first |
| `Repository.ListPageWindow` | driver-service/internal/repository/driver_repository.go:84-89 | For page and size at least 1 a live store returns exactly `min(pageSize, n - skip)` records (none past the end), record k being record `(page-1)*pageSize + k` of the newest-first order |
| `Repository.Skip` | driver-service/internal/repository/driver_repository.go:84 | For a positive page size the skip is non-negative exactly when the page is at least 1; `ListPageWindow` gives the records it selects |
| `Repository.ListPage` | driver-service/internal/repository/driver_repository.go:84-94 | The page query succeeds exactly when the store answers and the skip is non-negative, and returns at most `pageSize` records; `ListPageWindow` and `RecordOnItsPage` state which ones |
| `Repository.OrderedArrangementUnique` | driver-service/internal/repository/driver_repository.go:89 | Two newest-first arrangements of the same records are equal when no two different records share a `createdAt` |
| `Repository.NewestFirstIsTheOnlyOrder` | driver-service/internal/repository/driver_repository.go:89 | With distinct `createdAt` values, any newest-first permutation of the collection is `NewestFirst` of it, so every page query sees the same order |
| `Repository.RecordOnItsPage` | driver-service/internal/repository/driver_repository.go:84-89 | Every record is listed: record k of the newest-first order is item `k % pageSize` of page `k / pageSize + 1` |
| `Repository.DriverRepository.Search` | driver-service/internal/repository/driver_repository.go:106-126 | Succeeds exactly when the store answers; the empty filter returns the whole collection; otherwise a record is returned if and only if it is stored and its `taxiType` equals the filter |
| `Repository.Matching` | driver-service/internal/repository/driver_repository.go:107-114 | The filtered scan is no longer than the collection; `MatchingMembers` states exactly which records it keeps |
| `Repository.MatchingMembers` | driver-service/internal/repository/driver_repository.go:107-112 | The filtered scan holds exactly the stored records of the requested type, and everything for the empty filter |
| `Repository.MatchingUniqueIds` | driver-service/internal/repository/driver_repository.go:107-114 | Filtering keeps identifiers distinct |
| `Service.DriverService.CreateDriver` | driver-service/internal/service/driver_service.go:30-32 | Delegates to the store with unchanged arguments; the result and the new collection are the store's |
| `Service.DriverService.UpdateDriver` | driver-service/internal/service/driver_service.go:35-37 | Delegates to the store with unchanged arguments; the result and the new collection are the store's |
| `Service.Defaulted` | driver-service/internal/service/driver_service.go:41-46 | A page below 1 becomes 1 and a page size below 1 becomes 20; other values pass through with no upper bound |
| `Service.DefaultedZeroIsFirstPage` | driver-service/internal/service/driver_service.go:41-47 | Listing with page 0 and size 0 makes the same store call as page 1 and size 20 |
| `Service.DefaultedIdempotent` | driver-service/internal/service/driver_service.go:41-46 | Defaulting an already defaulted request changes nothing |
| `Service.DefaultedSkipNonNegative` | driver-service/internal/service/driver_service.go:41-47 | After defaulting, the store's skip is never negative, so a live store does not refuse the listing |
| `Service.DriverService.ListDrivers` | driver-service/internal/service/driver_service.go:40-48 | Makes the store's listing call with the defaulted page and size; it succeeds exactly when the store answers, and returns at most the defaulted page size |
| `Service.Skip64` | driver-service/internal/repository/driver_repository.go:84 | The skip as 64-bit machine arithmetic computes it, equal to the true product whenever that fits in 64 bits |
| `Service.WrappedSkipGoesNegative` | driver-service/internal/repository/driver_repository.go:84 | Page 2^62+1 of size 2 survives the defaulting, but its 64-bit skip is -2^63, which the store refuses; the unbounded skip gives an empty page |
| `Service.Nearby` | driver-service/internal/service/driver_service.go:61-78 | The nearby set has at most one result per candidate; `NearbyMembers`, `NearbyOnce` and `NearbyOnlyMatches` state its contents, and `FindNearby`'s loop is proved equal to it |
| `Service.NearbyMembers` | driver-service/internal/service/driver_service.go:61-78 | A result is in the nearby set if and only if it is the projection of a candidate within 6 km, carrying that candidate's distance |
| `Service.NearbyOnce` | driver-service/internal/service/driver_service.go:61-78 | With distinct identifiers among the candidates, each candidate within the radius yields exactly one result |
| `Service.NearbyExactlyOnce` | driver-service/internal/service/driver_service.go:53-78 | Every stored driver of the requested type within the radius appears exactly once among the query's results |
| `Service.NearbyOnlyMatches` | driver-service/internal/service/driver_service.go:53-78 | Every result is the projection of a stored driver of the requested type within the radius; each has `distanceKm <= 6.0` and the requested taxi type |
| `Service.SortByDistance` | driver-service/internal/service/driver_service.go:81-83 | Sorts in place: afterwards the results are non-decreasing in `distanceKm` and a permutation of what they were |
| `Service.DriverService.FindNearby` | driver-service/internal/service/driver_service.go:51-86 | Passes the filter to `Search` unchanged and returns its error with no results; otherwise returns the projections of the candidates within 6 km (a permutation of `Nearby` of the filtered scan), sorted by `distanceKm`, each within the radius and of the requested type |
| `ObjectIds.ObjectIdFromHex` | driver-service/internal/repository/driver_repository.go:51-54 | A parsed identifier came from 24 characters; `ObjectIdFromHexAccepts` states exactly which strings parse and `ObjectIdRoundTrip` that the text `Create` returns parses back |
| `ObjectIds.DecodeHex` | driver-service/internal/repository/driver_repository.go:51 | Decoding gives one byte per two characters; `DecodeHexAccepts` states when it succeeds and `HexRoundTrip` that it inverts `Hex` |
| `ObjectIds.ObjectIdFromHexAccepts` | driver-service/internal/repository/driver_repository.go:51-54 | The parser accepts a string if and only if it is 24 hexadecimal digits (either case) |
| `ObjectIds.DecodeHexAccepts` | driver-service/internal/repository/driver_repository.go:51 | Hex decoding succeeds exactly when every character is a hexadecimal digit |
| `ObjectIds.Hex` | driver-service/internal/repository/driver_repository.go:46 | The text form has two lower-case hex digits per byte |
| `ObjectIds.HexRoundTrip` | driver-service/internal/repository/driver_repository.go:46-51 | Decoding the text form of any bytes gives the bytes back |
| `ObjectIds.ObjectIdRoundTrip` | driver-service/internal/repository/driver_repository.go:46-51 | The identifier text that `Create` returns is well-formed and parses back to the stored identifier |

## Left out

- The Haversine computation (`driver-service/internal/utils/geo.go`) is a parameter. It is float64 trigonometry, and nothing is claimed about it: not reflexivity, not symmetry, not the length of a degree.
- Floating point: coordinates and distances are reals. A NaN distance fails `<= 6.0` in Go and is dropped; reals have no NaN.
- The HTTP handlers, request parsing, JSON encoding and the nil-to-empty-list normalisation are left out. In the model an empty result is simply `[]`.
- The gateway, the frontend, configuration, startup and the database connection are left out.
- Store failures other than a duplicate identifier and a negative skip are one flag, `available`. Context cancellation is not modelled.
- Concurrency and last-write-wins races are not modelled; the model is single-threaded.
- `Repository.DriverRepository.Create` and `Repository.DriverRepository.Update` also write the stamped timestamps into the caller's record; no caller reads them afterwards, so the model does not return them.
- Repository.DriverRepository.Create: on failure the Go code returns `""` with the error; the model returns only the error.
- The store keeps timestamps to the millisecond; `Time` is kept as given.
- Nothing is claimed about `updatedAt > createdAt`, because the clock promises no order.
- The listing's order among records with equal `createdAt` is whatever `NewestFirst` gives; the store does not promise one.
- Repository.RecordOnItsPage: holds for the one order `NewestFirst` fixes. Against the real store, whose separate page queries may order equal `createdAt` values differently, it holds only when `createdAt` values are distinct (`NewestFirstIsTheOnlyOrder`); otherwise a record can be skipped or shown twice across pages.
- Repository.DriverRepository.Search: returns the matches in insertion order. The store's unsorted find promises no order; nothing downstream depends on it, since `FindNearby` is stated up to a permutation.
- The byte-level error of the hex decoder is not modelled; every parse failure maps to "invalid id format", as in the code.
- Go `int` is 64 bits. The model's skip uses unbounded integers, which is the corrected behaviour (see Findings); `Service.Skip64` keeps the 64-bit form.

## Findings

| source | as written | input that shows it | evidently intended | confidence | as-written member | corrected member |
|---|---|---|---|---|---|---|
| driver-service/internal/repository/driver_repository.go:84 | `skip := (page - 1) * pageSize` is computed in 64-bit `int` and can wrap to a negative value after the service's defaulting | `page = 4611686018427387905` (2^62+1), `pageSize = 2`: the skip wraps to -2^63, and the store refuses a negative skip, so the listing fails | a page past the end of the collection is empty | not executed; the wrap-around follows from Go integer semantics; the refusal of a negative skip is the store's find behaviour as modelled | `Service.WrappedSkipGoesNegative` | `Service.DefaultedSkipNonNegative` |
