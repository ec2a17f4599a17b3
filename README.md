# Hotel merge engine — a Dafny model

This project models the merge engine of the hotel-fetch command-line tool. The tool
fetches hotel records from three suppliers: PaperFlies, Patagonia and Acme. It folds
them into one dictionary keyed by `(Id, DestinationId)` and returns the merged hotels.
The model starts once the three supplier lists have been fetched.

- `SearchMergeHotel` turns a missing payload into an empty list. It runs the three
  `Map*ToHotel` loops, in the order PaperFlies, Patagonia, Acme, over one
  `HotelDictionary`. It then returns the dictionary's values. The hotel-id and
  destination-id filters are accepted and never read.
- Each `Map*ToHotel` loop handles one record at a time:
  - A new key gets a new record, built by that supplier's rules.
  - A known key has its stored hotel updated field by field.
- The loops are imperative methods over a class holding a map and the insertion-ordered
  key list. They are proved against the pure `HotelMerge.Fold`.
- `Fold`, `Merge` and the per-supplier `NewFrom*` and `UpdateFrom*` functions state
  every field rule of the source.
- The LINQ `Union` is modelled exactly, for strings and for images, including its
  order and deduplication.
- The link-only image comparer and its hash are modelled. A null link makes the hash
  throw, and that exception escapes the whole merge.
- The string normalisers are modelled, including the regular-expression PascalCase
  split. Its result is proved equal to an independent character-by-character
  reference (`Spaced`).

The model follows the code as written, including these quirks:

- Patagonia and Acme give a missing longitude the incoming *latitude*.
- The Acme coordinate guard lacks its negation.
- A new Patagonia record builds its amenity images from its room images.
- A new record trims its tokens without lowercasing them.
- A new Acme record splits facility codes into words; an Acme update only lowercases them.
- PaperFlies overwrites country and description whenever it has a non-empty value.

Files:

| file | contents |
|---|---|
| `wrappers.dfy` | `Option`, `Result` |
| `numeric_extensions.dfy` | `IsNullOrZero` over an integer stand-in for `double?` |
| `hotel_image_detail.dfy` | the image record and its link-only comparer |
| `string_extensions.dfy` | `Beautify`, `BeautifyNullable`, `BeautifyAndToLower`, the split and `BeatifyAndSplitAndToLower` |
| `enumerable.dfy` | `Select(...) ?? []`, `Union` with the default or a key comparer |
| `models.dfy`, `dtos.dfy` | the hotel model and the three supplier records, as datatypes |
| `hotel_merge.dfy` | field rules, new records, updates, `Merge`, `Fold`, `MergeAll` and its one-hotel-per-key contract |
| `hotel_merger_service.dfy` | `HotelDictionary`, the three loops, `SearchMergeHotel` |
| `hotel_merge_properties.dfy` | what updates and whole folds preserve, image-union order |
| `merge_scenarios.dfy` | quirks and a complete three-supplier merge, as lemmas |

## Model

| member | source | states |
|---|---|---|
| NumericExtensions.IsNullOrZero | SomeSandwich.Hotel.Cli/Extensions/NumericExtensions.cs:13-16 | false exactly when the value is present and non-zero; true for null and for zero |
| HotelImageDetails.ComparerEquals | SomeSandwich.Hotel.Cli/Models/HotelImageDetail.cs:23-36 | two nulls are equal; one null and one detail are not; two details are equal exactly when their links are equal |
| HotelImageDetails.ComparerGetHashCode | SomeSandwich.Hotel.Cli/Models/HotelImageDetail.cs:39-42 | throws exactly when the link is null; otherwise the string hash of the link |
| HotelImageDetails.EqualsIgnoresDescription | SomeSandwich.Hotel.Cli/Models/HotelImageDetail.cs:35 | same link with different captions counts as the same image |
| HotelImageDetails.EqualsIsEquivalence | SomeSandwich.Hotel.Cli/Models/HotelImageDetail.cs:23-36 | the comparer is reflexive, symmetric and transitive |
| HotelImageDetails.HashAgreesWithEquals | SomeSandwich.Hotel.Cli/Models/HotelImageDetail.cs:39-42 | equal details have equal hash results, for every string hash |
| StringExtensions.Beautify | SomeSandwich.Hotel.Cli/Extensions/StringExtensions.cs:42-45 | the result has no outer white space; it is the input's slice between a leading and a trailing white-space run, so the interior is unchanged |
| StringExtensions.BeautifyNullable | SomeSandwich.Hotel.Cli/Extensions/StringExtensions.cs:52-55 | null stays null; a present value is trimmed as `Beautify` trims it |
| StringExtensions.BeautifyAndToLower | SomeSandwich.Hotel.Cli/Extensions/StringExtensions.cs:18-21 | the trimmed input lower-cased character by character; no upper-case letter and no outer white space |
| StringExtensions.RegexSplit | SomeSandwich.Hotel.Cli/Extensions/StringExtensions.cs:30-31 | the pieces concatenate back to the input; no piece of a non-empty input is empty |
| StringExtensions.BeautifyUnique | SomeSandwich.Hotel.Cli/Extensions/StringExtensions.cs:42-45 | trimming removes exactly the surrounding white space, whatever it is |
| StringExtensions.BeautifyKeepsTrimmed | SomeSandwich.Hotel.Cli/Extensions/StringExtensions.cs:42-45 | a string without outer white space is returned unchanged |
| StringExtensions.BeautifyIdempotent | SomeSandwich.Hotel.Cli/Extensions/StringExtensions.cs:42-45 | trimming twice is trimming once |
| StringExtensions.BeautifyAndToLowerIdempotent | SomeSandwich.Hotel.Cli/Extensions/StringExtensions.cs:18-21 | trimming and lower-casing twice is doing it once |
| StringExtensions.BlankNormalisesToEmpty | SomeSandwich.Hotel.Cli/Extensions/StringExtensions.cs:18-55 | an empty or all-white input gives "" from all four normalisers |
| StringExtensions.SplitFromIsSpaced | SomeSandwich.Hotel.Cli/Extensions/StringExtensions.cs:30-34 | joining the lower-cased pieces with " " equals the reference spacing of the rest of the string |
| StringExtensions.IsSplitBoundary | SomeSandwich.Hotel.Cli/Extensions/StringExtensions.cs:10 | a cut falls only inside the string, before a capital or after a letter followed by a non-letter; a capital after a non-capital, or a capital followed by a lower-case letter, always starts a word; a run of capitals is never cut unless its last capital starts a lower-case word |
| StringExtensions.RegexSplitIsSpaced | SomeSandwich.Hotel.Cli/Extensions/StringExtensions.cs:30-34 | splitting at the pattern, lower-casing the pieces and joining them with " " is lower-casing the string with one space at each boundary and nowhere else |
| StringExtensions.BeatifyAndSplitAndToLower | SomeSandwich.Hotel.Cli/Extensions/StringExtensions.cs:28-35 | the result is the trimmed input lower-cased, with one space at each boundary of the pattern and nowhere else |
| StringExtensions.SplitKeepsLowerWord | SomeSandwich.Hotel.Cli/Extensions/StringExtensions.cs:28-35 | a word of lower-case letters passes through the split unchanged |
| StringExtensions.SplitTwoCapitalisedWords | SomeSandwich.Hotel.Cli/Extensions/StringExtensions.cs:10 | two capitalised words are split and lower-cased with one space between them, as "BusinessCentre" becomes "business centre" |
| Enumerable.SelectOrEmpty | SomeSandwich.Hotel.Cli/Services/HotelMergerService.cs:69 | a null source gives the empty list; otherwise the selector applied to each element, in order |
| Enumerable.DistinctBy | SomeSandwich.Hotel.Cli/Services/HotelMergerService.cs:68-70 | the yielded elements have pairwise distinct keys, none of them already seen |
| Enumerable.DistinctByKeys | SomeSandwich.Hotel.Cli/Services/HotelMergerService.cs:68-70 | the keys yielded are exactly the input's keys that were not already seen |
| Enumerable.DistinctByKeepsFirst | SomeSandwich.Hotel.Cli/Services/HotelMergerService.cs:74-80 | the first element with a given key is the one yielded |
| Enumerable.UnionWith | SomeSandwich.Hotel.Cli/Services/HotelMergerService.cs:74-80 | a union under a key comparer has distinct keys and is no longer than both inputs together |
| Enumerable.UnionWithSpec | SomeSandwich.Hotel.Cli/Services/HotelMergerService.cs:74-80 | the union's keys are those of both inputs; a first list without repeated keys is kept as a prefix, followed by the new keys of the second |
| Enumerable.Union | SomeSandwich.Hotel.Cli/Services/HotelMergerService.cs:68-70 | an ordinal string union has no duplicates |
| Enumerable.UnionSpec | SomeSandwich.Hotel.Cli/Services/HotelMergerService.cs:68-73 | an element is in the union exactly when it is in either list; a duplicate-free first list is kept as a prefix, so the union is never shorter than it |
| HotelMerge.FillIfEmpty | SomeSandwich.Hotel.Cli/Services/HotelMergerService.cs:208-214 | a non-empty value is kept; a null or empty one takes a non-empty incoming value; a null or empty incoming value leaves the stored one exactly as it was, null or ""; the result is empty only when both are |
| HotelMerge.FillCoordinate | SomeSandwich.Hotel.Cli/Services/HotelMergerService.cs:140-141 | a present non-zero coordinate is kept; a null-or-zero one takes the replacement only when the incoming coordinate is present and non-zero |
| HotelMerge.AcmeCoordinate | SomeSandwich.Hotel.Cli/Services/HotelMergerService.cs:209-210 | a present non-zero coordinate is kept; a null-or-zero one takes the replacement only when the incoming coordinate is null-or-zero too |
| HotelMerge.LinkOfIsComparerEquals | SomeSandwich.Hotel.Cli/Models/HotelImageDetail.cs:23-36 | the key the image union deduplicates by is the comparer's equality: two images share a link exactly when the comparer calls them equal |
| HotelMerge.UnionImagesFailsWhenHashThrows | SomeSandwich.Hotel.Cli/Models/HotelImageDetail.cs:39-42 | the image union throws exactly when the comparer's hash throws on some image of either list, whatever the string hash |
| HotelMerge.UnionImages | SomeSandwich.Hotel.Cli/Services/HotelMergerService.cs:74-87 | throws exactly when a link in either list is null; otherwise one image per link, every link of both lists, and a link-distinct existing list kept as a prefix |
| HotelMerge.NewFromPaperFlies | SomeSandwich.Hotel.Cli/Services/HotelMergerService.cs:96-128 | the record key; trimmed text; tokens trimmed but not lower-cased; images copied; no coordinates, city or amenity images |
| HotelMerge.NewFromPatagonia | SomeSandwich.Hotel.Cli/Services/HotelMergerService.cs:166-197 | the record key; raw coordinates; trimmed text; room tokens trimmed only; amenity images equal to the room images; nothing else |
| HotelMerge.NewFromAcme | SomeSandwich.Hotel.Cli/Services/HotelMergerService.cs:223-243 | the record key; raw coordinates; trimmed text; general amenities split into lower-case words; no images, room amenities or booking conditions |
| HotelMerge.UpdateFromPaperFlies | SomeSandwich.Hotel.Cli/Services/HotelMergerService.cs:64-92 | throws exactly when a room or site image link is null; key kept; name and address filled if empty; country (raw) and description (trimmed) overwritten by any non-empty value; lists unioned; coordinates, city and amenity images unchanged |
| HotelMerge.UpdateFromPatagonia | SomeSandwich.Hotel.Cli/Services/HotelMergerService.cs:139-162 | throws exactly when a room or amenity image link is null; key kept; name, address and description filled if empty; both coordinates by `FillCoordinate` from the incoming latitude; city, country, general amenities, site images and booking conditions unchanged |
| HotelMerge.UpdateFromAcme | SomeSandwich.Hotel.Cli/Services/HotelMergerService.cs:208-219 | never throws; key kept; name, address, city, country and description filled if empty; both coordinates by `AcmeCoordinate` from the incoming latitude; only general amenities unioned |
| HotelMerge.NewRecord | SomeSandwich.Hotel.Cli/Services/HotelMergerService.cs:96-99 | a new record carries the key it is added under |
| HotelMerge.UpdateRecord | SomeSandwich.Hotel.Cli/Services/HotelMergerService.cs:206-219 | an update keeps the key; an Acme update never throws |
| HotelMerge.Merge | SomeSandwich.Hotel.Cli/Services/HotelMergerService.cs:60-129 | a new key is appended with its new record; a known key keeps its place and gets its update, or the update's exception; table validity is preserved |
| HotelMerge.Fold | SomeSandwich.Hotel.Cli/Services/HotelMergerService.cs:58-131 | a fold that does not throw preserves table validity and keeps every key already present |
| HotelMerge.FoldAppend | SomeSandwich.Hotel.Cli/Services/HotelMergerService.cs:51-53 | folding two lists in turn over one table is folding their concatenation; an exception in the first skips the second |
| HotelMerge.Values | SomeSandwich.Hotel.Cli/Services/HotelMergerService.cs:55 | the values listed in key-insertion order |
| HotelMerge.MergeAllFirstFails | SomeSandwich.Hotel.Cli/Services/HotelMergerService.cs:51 | an exception in the PaperFlies loop is the merge's exception |
| HotelMerge.MergeAllSecondFails | SomeSandwich.Hotel.Cli/Services/HotelMergerService.cs:52 | an exception in the Patagonia loop is the merge's exception |
| HotelMerge.MergeAllSucceeds | SomeSandwich.Hotel.Cli/Services/HotelMergerService.cs:49-55 | three loops that do not throw give the values of the last table |
| HotelMergerService.HotelDictionary.constructor | SomeSandwich.Hotel.Cli/Services/HotelMergerService.cs:49 | the dictionary starts empty |
| HotelMergerService.HotelDictionary.TryGetValue | SomeSandwich.Hotel.Cli/Services/HotelMergerService.cs:62 | a hotel is found exactly when the key is present, and it is the stored one |
| HotelMergerService.HotelDictionary.Add | SomeSandwich.Hotel.Cli/Services/HotelMergerService.cs:128 | an absent key is stored and appended to the key order |
| HotelMergerService.HotelDictionary.Set | SomeSandwich.Hotel.Cli/Services/HotelMergerService.cs:92 | the entry is replaced; the key order changes only when the key was absent |
| HotelMergerService.MapPaperFliesToHotel | SomeSandwich.Hotel.Cli/Services/HotelMergerService.cs:58-131 | the dictionary ends as `Fold` of the PaperFlies records says, or the loop reports the exception `Fold` meets |
| HotelMergerService.MapPatagoniaHotelToHotel | SomeSandwich.Hotel.Cli/Services/HotelMergerService.cs:133-200 | the same for the Patagonia records |
| HotelMergerService.MapAcmeHotelToHotel | SomeSandwich.Hotel.Cli/Services/HotelMergerService.cs:202-246 | the dictionary ends as `Fold` of the Acme records says, which never throws |
| HotelMergerService.SearchMergeHotel | SomeSandwich.Hotel.Cli/Services/HotelMergerService.cs:37-56 | the result is `MergeAll` of the three lists, a missing payload read as empty, whatever the id filters |
| HotelMerge.FoldKeys | SomeSandwich.Hotel.Cli/Services/HotelMergerService.cs:58-246 | the key order after a fold is the old order followed by each record key's first occurrence that was not yet present; a repeated key is never added again |
| HotelMerge.MergeKeys | SomeSandwich.Hotel.Cli/Services/HotelMergerService.cs:62-128 | one record appends its key exactly when the key is new, and leaves the key set unchanged otherwise |
| HotelMerge.ValuesOnePerKey | SomeSandwich.Hotel.Cli/Services/HotelMergerService.cs:55 | the values of a valid table hold one hotel per key, in key order |
| HotelMerge.MergeAll | SomeSandwich.Hotel.Cli/Services/HotelMergerService.cs:37-56 | a merge that does not throw returns exactly one hotel per distinct key of the three lists, no key twice, in first-occurrence order PaperFlies, Patagonia, Acme |
| HotelMergeProperties.UnionKeepsTokens | SomeSandwich.Hotel.Cli/Services/HotelMergerService.cs:68-73 | every token present before a list union is present after it |
| HotelMergeProperties.UpdateGrows | SomeSandwich.Hotel.Cli/Services/HotelMergerService.cs:64-219 | an update keeps the key, non-empty names, addresses and cities, non-zero coordinates, every token and every image link; a non-empty country stays non-empty and a present description stays present |
| HotelMergeProperties.FoldGrows | SomeSandwich.Hotel.Cli/Services/HotelMergerService.cs:58-246 | across a whole fold, every stored hotel is kept and only grows in that sense |
| HotelMergeProperties.UnionImagesKeepsFirst | SomeSandwich.Hotel.Cli/Services/HotelMergerService.cs:74-87 | the first image seen with each link is the one kept, caption included |
| HotelMergeProperties.SameLinkKeepsFirstCaption | SomeSandwich.Hotel.Cli/Services/HotelMergerService.cs:147-153 | two images with one link merge into the first, whatever the second's caption |
| MergeScenarios.PatagoniaLongitudeTakesLatitude | SomeSandwich.Hotel.Cli/Services/HotelMergerService.cs:141 | a Patagonia update that fills the longitude gives it the incoming latitude |
| MergeScenarios.AcmeNeverFillsLatitude | SomeSandwich.Hotel.Cli/Services/HotelMergerService.cs:209 | Acme never turns a null-or-zero latitude into a real one |
| MergeScenarios.AcmeZeroReplacesNull | SomeSandwich.Hotel.Cli/Services/HotelMergerService.cs:209 | Acme turns a null latitude into zero when its own latitude is zero |
| MergeScenarios.AcmeLongitudeTakesLatitude | SomeSandwich.Hotel.Cli/Services/HotelMergerService.cs:210 | when both longitudes are null-or-zero, Acme gives the hotel its latitude as longitude |
| MergeScenarios.PaperFliesBlanksDescription | SomeSandwich.Hotel.Cli/Services/HotelMergerService.cs:67 | PaperFlies details of one space turn any description into "" |
| MergeScenarios.NewRecordTokensMayShrink | SomeSandwich.Hotel.Cli/Services/HotelMergerService.cs:109 | a new record can hold a token twice, and the next union drops the repeat, so the list shrinks |
| MergeScenarios.ThreeRecordFold | SomeSandwich.Hotel.Cli/Services/HotelMergerService.cs:51-53 | three records with one key fold into the first one's new record updated by the other two in turn |
| MergeScenarios.OneHotelFromThree | SomeSandwich.Hotel.Cli/Services/HotelMergerService.cs:37-56 | one record from each supplier under one key gives a single hotel: the PaperFlies record, updated by Patagonia, then by Acme |
| MergeScenarios.PatagoniaWithoutImagesSucceeds | SomeSandwich.Hotel.Cli/Services/HotelMergerService.cs:147-160 | a Patagonia update without images into a hotel without images cannot throw |
| MergeScenarios.FirstSupplierNameWins | SomeSandwich.Hotel.Cli/Services/HotelMergerService.cs:51-53 | for any three records of one hotel, one from each supplier, whose merge does not throw and whose PaperFlies name is not blank: the merge returns that one hotel, named with the trimmed PaperFlies name |
| MergeScenarios.ImagelessMergeSucceeds | SomeSandwich.Hotel.Cli/Services/HotelMergerService.cs:37-56 | three records of one hotel whose PaperFlies and Patagonia image objects are null merge without throwing |
| MergeScenarios.BeachHotelMerge | SomeSandwich.Hotel.Cli/Services/HotelMergerService.cs:37-56 | a three-supplier merge returns one hotel: the PaperFlies name, the Patagonia latitude with its zero longitude rejected, the Acme country, one room image, and general amenities "WiFi" and "pool" |
| MergeScenarios.BeachFirstRecord | SomeSandwich.Hotel.Cli/Services/HotelMergerService.cs:96-128 | the PaperFlies record of that walk-through becomes the expected new hotel |
| MergeScenarios.BeachPatagoniaUpdate | SomeSandwich.Hotel.Cli/Services/HotelMergerService.cs:139-162 | the Patagonia update of that walk-through |
| MergeScenarios.BeachAcmeUpdate | SomeSandwich.Hotel.Cli/Services/HotelMergerService.cs:208-219 | the Acme update of that walk-through |
| MergeScenarios.PoolLowered | SomeSandwich.Hotel.Cli/Extensions/StringExtensions.cs:18-21 | "Pool" trims and lower-cases to "pool" |

## Where the code departs from the intended merge rules

The merge is meant to keep amenity tokens lower-case, to only ever grow a list, never
to downgrade a value, never to fail, and to treat a zero coordinate as absent. The code
does not keep these rules in the cases below. The model follows the code in each case,
and the lemmas above show the difference.

- Expected: every amenity token is stored lower-case, so a PaperFlies "WiFi" merged
  with an Acme "Pool" gives `{"wifi", "pool"}`. The code keeps "WiFi", because a new
  PaperFlies record trims its tokens without lower-casing them (`BeachHotelMerge`).
- Expected: a union never removes a token. A list holding a token twice from a new
  record loses the repeat at the next union (`NewRecordTokensMayShrink`).
- Expected: a value already filled is never replaced by a worse one. PaperFlies details
  of white space replace a description with "" (`PaperFliesBlanksDescription`).
- Expected: merging raises no error. A null image link makes the comparer's hash throw.
  The exception is not caught, so the whole merge fails (`UnionImages`,
  `SearchMergeHotel`).
- Expected: a zero coordinate counts as absent and a coordinate is filled only from the
  same coordinate. Acme replaces a null latitude with zero (`AcmeZeroReplacesNull`).
  Acme never fills a missing latitude (`AcmeNeverFillsLatitude`). Patagonia and Acme
  fill a longitude from the incoming latitude (`PatagoniaLongitudeTakesLatitude`,
  `AcmeLongitudeTakesLatitude`).
- Expected: a supplier's facility codes are turned into words the same way whether
  they create a record or update one. An Acme update lower-cases facility codes but
  does not split them. A new Acme record splits them (`UpdateFromAcme`, `NewFromAcme`).

## Left out

- The HTTP client, JSON deserialisation and the `Task.WhenAll` fan-out. The merge takes
  the three fetched lists, each possibly missing, as parameters.
- `Program.cs`: argument parsing, the "none" sentinel and JSON output. The filters it
  parses are never read by the merge anyway.
- Floating point. Coordinates are integers, since the merge only compares them with
  zero and copies them. In the walk-through, 1234 stands for 12.34.
- Culture-sensitive `ToLower`. Only ASCII letters are lower-cased.
- `Trim` and the split pattern use the exact `char.IsWhiteSpace` set and ASCII letter
  classes. Unicode letters outside ASCII are not modelled.
- Null supplier records, null elements inside image lists, and a null hotel id. The
  source throws on the first two when it reads `HotelId`, `Link` or `Url`, on the
  new-record path as well as on updates. A null id, which deserialisation can put in
  place of the empty-string default, is accepted in the key tuple. The model's types
  have no null there: records, images and ids are always present. Destination ids are
  `int` in the source and cannot be null.
- Null strings inside token lists. `Trim` on such a token throws in the source. The
  model's lists hold strings only.
- The process-seeded string hash. It is a parameter of `ComparerGetHashCode`, and
  the image union is modelled by link equality.
- Updating a stored `Hotel` object in place is modelled as replacing the dictionary
  entry with the updated value. The dictionary is local to the merge, so no other
  reference can observe the difference.
- The state of the dictionary when an exception escapes a loop. The exception ends the
  merge, and the partially filled dictionary is discarded with it.
- .NET `Dictionary` hashing and bucket layout. The table is a map plus the key
  insertion order, which is the order `Values` enumerates when nothing is removed.
- The Acme postal code, which the merge never reads.
