# sc2a-service `dist` package in Dafny

This project models the storage core of the `dist` package of sc2a-service. That package is the
release distribution service: it publishes release files, sends per-subscriber download links,
counts the downloads made through each link, and keeps a small configuration store.

State is one immutable value, `Db.State`. It holds four bolt buckets and the release data
directory:

- `release`: release id to its metadata record;
- `link`: link id to its link;
- `sub_download`: subscriber id to a nested map from release id to a counter kept as hex text;
- `config`: configuration key to its JSON value;
- the data directory: file name to bytes.

Every operation is a pure function from a state to a new state and a result. The main cases are:

- `UpdateConfig` and `List` are methods, because they visit a map in an order the model does
  not fix.
- UUIDs from `uuid.NewV4`, the value of `time.Now()` and the file-system faults are parameters.
- `Coherent` is the invariant every mutating operation keeps:
  - each release sits under its own id and has its `<id>.dat` file;
  - each link sits under its own id;
  - every counter is text `FormatUint` wrote.

Modules:

- `Errors`: the error kinds, plus `Option` and `Result`.
- `Hex`: the uint64 counter, and `strconv.FormatUint`/`ParseUint` in base 16. Includes
  `ParseUint`'s syntax and range errors, and the wrap-around of `n + 1`.
- `Db`: the records, the state, `DataFile`, bolt's key rule, UUID text and `Coherent`.
- `Releases`: `dist/release.go`.
- `Links`: `dist/link.go`.
- `Config`: `dist/config.go`.
- `Scenarios`: the scenarios of `dist/release_test.go` and `dist/link_test.go`, on a freshly
  opened store.

The model follows the code as written:

- Identifiers are random UUIDs, not sortable timestamps.
- `Get`, `Stream` and `Unpublish` do not validate identifiers.
- `Get` of an absent id is "no record, no error".
- `Unpublish` does not remove the release's links (see Findings).

## Model

| member | source | states |
|---|---|---|
| Hex.Format | dist/link.go:134 | FormatUint's text is non-empty lowercase hex with no leading zero (ParseFormat and CounterCodec give its inverse) |
| Hex.CounterValue | dist/link.go:131 | `n, _ = ParseUint` reads a non-number as 0 and an overlong number as 2^64-1, and reads a canonical text as the number FormatUint writes it for |
| Hex.Increment | dist/link.go:133 | `n + 1` on a uint64 is the successor below the maximum and wraps to 0 at 2^64-1 |
| Hex.Parse | dist/link.go:131 | ParseUint of the empty text is a syntax error; a syntax error reports 0 and a range error reports 2^64-1 |
| Hex.ParseFormat | dist/link.go:131-134 | ParseUint reads back, without error, every value FormatUint writes |
| Hex.FormatParse | dist/link.go:131-134 | every canonical hex text (lowercase, no leading zero, at most 16 digits) parses without error, and FormatUint writes it back |
| Hex.FormatCanonical | dist/link.go:134 | FormatUint writes lowercase hex with no leading zero and at most 16 digits |
| Hex.CounterCodec | dist/link.go:128-134 | a text is canonical and denotes n exactly when it is FormatUint's text for n: a bijection between uint64 and canonical texts |
| Db.DataFileInjective | dist/release.go:97 | distinct release ids have distinct data files |
| Db.OpenedIsCoherent | dist/db.go:36-46 | the freshly opened store, with all buckets empty, satisfies the store invariant |
| Releases.Less | dist/release.go:46 | `!Before`: a goes first exactly when b is not later, so records of equal date go first either way and the order is not strict |
| Releases.SortByDate | dist/release.go:44-46 | sort.Stable with ReleasesByDateDesc returns a permutation of its input with non-increasing dates |
| Releases.List | dist/release.go:63-85 | List returns each stored record as many times as the bucket holds it and nothing else, with non-increasing dates; the order of equal dates is not promised |
| Releases.Publish | dist/release.go:88-127 | success exactly when the file opens, the copy succeeds and the date marshals. On success: a fresh id, the caller's version and description, date = now, the upload stored as `<id>.dat`, and no other bucket changed. Any failure leaves the store unchanged and returns the matching error |
| Releases.PublishIgnoresCallerIdAndDate | dist/release.go:89-95 | the result of Publish does not depend on the ID or Date the caller passes |
| Releases.PublishThenGetAndStream | dist/release.go:109-125 | after a successful Publish, Get returns the saved record and Stream writes exactly the uploaded bytes |
| Releases.PublishKeepsCoherent | dist/release.go:97-123 | whatever the outcome, Publish never leaves a record without its data file |
| Releases.Get | dist/release.go:129-144 | the record under id when present; an absent id gives no record and no error |
| Releases.Unpublish | dist/release.go:147-164 | an absent id is a successful no-op; a failed removal changes nothing; otherwise the file and the record go, and links, counters, config and other releases are untouched |
| Releases.UnpublishKeepsCoherent | dist/release.go:157-163 | Unpublish keeps the store invariant, and for a release that was present it removes both the file and the record, or neither |
| Releases.UnpublishThenGetAndStream | dist/release.go:147-164 | after Unpublish, Get finds nothing and Stream reports ErrReleaseDataNotFound, while other releases read and stream as before |
| Releases.UnpublishIdempotent | dist/release.go:153-155 | a second Unpublish of the same id succeeds and changes nothing |
| Releases.Copy | dist/release.go:200-203 | the writer receives a prefix of the data; the copy has no error exactly when it received all of it, and the only error modelled is the sink's |
| Releases.Stream | dist/release.go:184-205 | no record gives ErrReleaseDataNotFound; a record without a file gives the open error; otherwise the writer receives a prefix of the file, all of it exactly when there is no error |
| Links.CreateLinks | dist/link.go:25-50 | one link per subscriber in order, each with its own fresh id, the given release and one shared date. All are stored and older links are kept. If the date cannot be marshalled, nothing is stored, MarshalFailed is returned and the first link is still returned |
| Links.CreateThenGetLink | dist/link.go:93-107 | GetLink returns each link of a new batch; an id not in the store gives ErrLinkNotFound |
| Links.CreateLinksKeepsCoherent | dist/link.go:27-48 | createLinks stores each link under its own id |
| Links.GetLink | dist/link.go:93-107 | the link under id, or ErrLinkNotFound exactly when there is none |
| Links.RemoveLinkIf | dist/link.go:52-69 | a link survives exactly when the predicate rejects it, survivors are unchanged, the result is nil, and no other bucket changes |
| Links.RemoveLinkIfIdempotent | dist/link.go:52-69 | a second removal with the same predicate changes nothing |
| Links.RemoveLinkIfKeepsCoherent | dist/link.go:52-69 | removal keeps the store invariant |
| Links.RemoveSubLinks | dist/link.go:71-75 | exactly the links of the subscriber go |
| Links.RemoveReleaseLinks | dist/link.go:77-81 | exactly the links to the release go |
| Links.ClearLinks | dist/link.go:83-87 | the link bucket is empty afterwards and nothing else changes (corrected behaviour) |
| Links.ClearLinksThenGetAndCreate | dist/link.go:83-87 | after clearLinks every GetLink is ErrLinkNotFound and a new batch can be created (corrected behaviour) |
| Links.ClearLinksAsWritten | dist/link.go:83-87 | as written, clearLinks leaves no bucket; it succeeds exactly when the bucket existed, and otherwise fails with ErrBucketNotFound |
| Links.GetLinkIn | dist/link.go:93-107 | GetLink as written on the bucket tx.Bucket returns: a nil bucket is a nil dereference, and otherwise the link is found exactly when its id is present |
| Links.GetLinkInAgrees | dist/link.go:93-107 | on a present bucket, GetLink as written and the model's GetLink agree, link for link and miss for miss |
| Links.ClearLinksBreaksGetLink | dist/link.go:83-87 | on any store, clearLinks as written succeeds and turns every later GetLink into a nil-bucket dereference where there was none before, and a second clearLinks fails. The corrected ClearLinks leaves a lookup that reports ErrLinkNotFound |
| Links.CountDownload | dist/link.go:119-136 | the (subscriber, release) counter goes up by one with wrap-around and is stored as FormatUint text. Every other counter and bucket is unchanged. An empty subscriber or release id rolls the transaction back |
| Links.StreamLink | dist/link.go:112-140 | unknown link: ErrLinkNotFound and nothing changes. Known link: its counter goes up by one before streaming, other counters are untouched, and the result is Stream's for the link's release |
| Links.StreamLinkKeepsCoherent | dist/link.go:128-134 | every stored counter stays canonical hex text |
| Links.GetSubDownloadStats | dist/link.go:143-161 | exactly the releases the subscriber has counters for, each with the value ParseUint gives; an empty map when there are none |
| Links.RepeatedDownloads | dist/link.go:112-140 | n serialised StreamLink calls on one link raise its counter by exactly n modulo 2^64, leave every other counter alone, and keep the links |
| Links.FirstDownloadStoresOne | dist/link.go:128-134 | the first download through a link stores the text "1" |
| Links.DownloadOfRemovedRelease | dist/link.go:119-138 | a link to a release that is gone still counts the download and then reports ErrReleaseDataNotFound |
| Links.UnpublishKeepsLinks | dist/release.go:161-163 | as written, a link to an unpublished release keeps resolving, and downloads through it keep counting |
| Links.UnpublishWithLinks | dist/link.go:77-81 | Unpublish followed by removeReleaseLinks: same error as Unpublish; on success no remaining link names the release and every other link stays |
| Links.UnpublishWithLinksStopsDownloads | dist/link.go:77-81 | after the corrected Unpublish, a former link of the release is ErrLinkNotFound and counts nothing |
| Config.GetAllConfig | dist/config.go:44-61 | every stored key with its decoded value, or DecodeFailed exactly when some value does not decode |
| Config.UpdateConfig | dist/config.go:63-78 | success exactly when every key is non-empty and every value marshals. It then sets every given key and keeps every other key. On failure it reports MarshalFailed or KeyRequired and writes nothing |
| Config.MergeThenGetAll | dist/config.go:63-78 | after a merge, GetAllConfig reads every updated key with its new value and every other key with its old one |
| Config.GetAllConfigOfOpened | dist/config.go:44-61 | an empty config bucket reads as an empty map, not an error |
| Config.MakeLink | dist/config.go:32-34 | the download URL is the base URI, then "/download/", then the link id, with nothing else |
| Config.MakeLinkRoundTrip | dist/config.go:32-34 | the download URL of a link id leads back to that id, and a URL that names an id is the one makeLink builds for it |
| Config.MakeLinkInjective | dist/config.go:32-34 | distinct link ids get distinct download URLs |
| Scenarios.DownloadScenario | dist/link_test.go:33-49 | for any UUIDs the two calls draw, publish "OK", link it to subscriber "a" and download: the writer receives "OK", the counter text is "1", the stats of "a" are one download, and the stats of "b" are empty |
| Scenarios.TenDownloadsScenario | dist/link_test.go:51-75 | for any UUIDs the two calls draw, ten downloads through one link make the statistic 10 |
| Scenarios.ListScenario | dist/release_test.go:18-52 | three records one second apart are listed newest first |

## Left out

- `dist/notify.go`, `dist/sub.go`, `main.go` and `ui/ui.go` are not part of this model. They cover e-mail delivery, stubs, HTTP routing and its version check, and static assets.
- `Release.FileName` is left out: it depends on a text template and Go's time formatting.
- `Configure`'s Mailgun client and template parsing are left out; only its `makeLink` closure is modelled.
- `OpenDB` and `CloseDB` are left out. The state starts as `Db.Opened`, with every bucket present and empty.
- Concurrency is left out. `downloadLock` and bolt transactions are modelled as making each call one atomic step, and the ten concurrent downloads of the test become ten sequential ones.
- UUID generation is a parameter. It is required to give fresh 36-character UUID text; randomness cannot be stated.
- The clock is a parameter. Time zones, the monotonic clock reading and `Date` precision are not modelled.
- encoding/json is taken as a lossless codec for the records the package writes. An undecodable release or link record is left out. Config values are modelled as the JSON values json.Unmarshal gives an `interface{}`: null, booleans, numbers, strings, arrays and objects. An undecodable config value is modelled too.
- bolt's limits on key and value size, and its disk errors, are left out. Only the rule that keys and bucket names must be non-empty is modelled.
- File modes, `O_TRUNC` and `os.RemoveAll` details are left out. Open, copy and remove faults are parameters.
- Releases.List: the contract states a permutation with non-increasing dates. It does not state the order of records with equal dates, which the non-strict `Less` leaves to bolt's visiting order.
- Releases.Copy: a read error from the data file during `io.Copy` is not modelled. The data file is a stored byte sequence that always reads back whole, so the only copy error is the writer's.
- Config.GetAllConfig: JSON numbers are modelled as exact reals. The rounding of decoding into float64 is not modelled.
- Links.RemoveLinkIf: the contract states the intended postcondition. bolt's deleting during `ForEach` can skip entries, and that is not modelled.
- Links.StreamLink: an error from the counter transaction is overwritten by `Stream`'s result in the source. The model reflects this by returning `Stream`'s result alone.
- Links.CreateLinks: json.Marshal of a link can fail only through its date. The failure is therefore modelled at the first link, with nothing persisted.

## Findings

| source | as written | input that shows it | evidently intended | confidence | as-written member | corrected member |
|---|---|---|---|---|---|---|
| dist/link.go:83-87 | `clearLinks` deletes the `link` bucket itself, and nothing recreates it until the next `OpenDB` | `clearLinks()` then `GetLink(id)` for any id: `tx.Bucket("link")` is nil, and `Get` on it panics | empty the bucket and keep it, so later lookups report ErrLinkNotFound | high; not executed | Links.ClearLinksBreaksGetLink | Links.ClearLinksThenGetAndCreate |
| dist/release.go:147-164 | `Unpublish` removes the file and the record but leaves every link to the release; `removeReleaseLinks` (dist/link.go:77-81) is never called | publish R, create a link L for R, unpublish R: `GetLink(L)` still succeeds, and `StreamLink(L)` counts a download before it reports ErrReleaseDataNotFound | also remove the release's links, as the unused `removeReleaseLinks` suggests | medium; not executed | Links.UnpublishKeepsLinks | Links.UnpublishWithLinksStopsDownloads |
