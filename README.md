# Photo organiser for Google Drive, in Dafny

This project models a batch script that organises photos on Google Drive. The
script lists the photos of the folder "Google Photos IphoneSE" and buckets them
by month of creation (`YYYY-MM`). It then files each bucket under
`Photos/<year>/<month name>`, for example `Photos/2007/September`. Filing a
photo adds the month folder to the photo's parents, so nothing is copied or
moved.

Two versions of the script are modelled:

- `organizePhotos.py`: the finished script.
- `quickstart.py`: an earlier draft. It reads one page per folder lookup,
  checks no trashed flags and files only the bucket `2007-09`.

The drive is a class, `Drive.Service`:

- Its items form a sequence of entries, and an item's id is its index, so
  creating a folder appends one entry at a fresh id.
- `Service.List` answers one list request. How the server splits a listing
  into pages, and which request fails with an `HttpError`, is a `Paging`
  value given to each enumeration. Any page split is allowed.
- The model assumes that a listing returns items in id order, so the first
  match is the oldest.
- A record is the dictionary a listing returns. It holds the keys that were
  requested, so comparing records compares those keys, as Python's `==` on
  dictionaries does. A request without `fields` also gets `kind`, which is the
  same for every file and is not modelled; such records already differ from
  photo records, which carry `createdTime` and no `mimeType`.

Modules:

| file | module | models |
|---|---|---|
| wrappers.dfy | `Wrappers` | `Option`, `Result` |
| listing.dfy | `Listing` | pages, page tokens, failed requests, what a paginated loop fetches |
| months.dfy | `Months` | `createdTime[0:7]`, `key[0:4]`, `calendar.month_name[int(key[5:7])]` |
| drive.dfy | `Drive` | the drive: entries, records, `files().list/create/update` |
| buckets.dfy | `Buckets` | `separatePhotosByMonth` (the same in both scripts) |
| organizer.dfy | `Organizer` | `organizePhotos.py`: `getChildren`, `getAllPhotos`, `createRemoteFolder` (the same in both scripts), `copyPhotosToFolders`, `main` |
| quickstart.dfy | `QuickStart` | `quickstart.py`: `getAllPhotos`, `copyPhotosToFolders`, `main` |

Three behaviours of the code are easy to misread:

- `getChildren` does not filter trashed items; its callers do.
- Buckets are processed in the dictionary's iteration order, which is
  unspecified. It is not ascending key order.
- Re-running a bucket attaches nothing only when the month folder's listing
  succeeds. A failed listing returns a partial result, and a photo missing from
  it is sent to the server again. Adding a parent a photo already has changes
  nothing, because parents form a set.

## Model

| member | source | states |
|---|---|---|
| Drive.Service.List | organizePhotos.py:93-96 | a list request returns the page its token names, from the children of `parent` in id order, with the requested keys, or an `HttpError` |
| Drive.Service.Create | organizePhotos.py:116 | creating a folder appends exactly one folder entry at a fresh id; nothing else changes |
| Drive.Service.AddParent | organizePhotos.py:151 | `addParents` adds one folder to one item's parents; no other item and no other field changes |
| Drive.ChildrenOfMembers | organizePhotos.py:93 | a record is listed for `parent` exactly when it projects an item that has `parent` among its parents |
| Drive.ChildrenOfAgree | organizePhotos.py:93 | two drives whose items project the same and agree on membership in `parent` give the same listing |
| Drive.ChildrenOfSnoc | organizePhotos.py:116 | a new item appears at the end of the listing of each of its parents |
| Listing.PagesCover | organizePhotos.py:88-101 | the pages concatenated in request order are the whole listing |
| Listing.FetchedAll | organizePhotos.py:88-101 | when no request fails, a paginated loop fetches the whole listing, whatever the page sizes |
| Listing.FetchedPrefix | organizePhotos.py:102-105 | when a request fails, what was fetched is a prefix of the listing |
| Listing.FlattenPrefix | organizePhotos.py:102-105 | the pages before any point concatenate to a prefix of the listing |
| Listing.FetchedMember | organizePhotos.py:98 | everything fetched is in the listing |
| Listing.FirstPageIsPrefix | quickstart.py:56-57 | a single request without a token returns a prefix of the listing |
| Months.MonthKey | organizePhotos.py:123 | definition of `createdTime[0:7]`; its use as the bucket key is stated by Buckets.BucketMembers |
| Months.YearName | organizePhotos.py:131 | definition of `key[0:4]`; the year folder's name, stated by Organizer.PlaceFiles |
| Months.MonthFolderName | organizePhotos.py:138 | definition of `calendar.month_name[int(key[5:7])]`; its properties are stated by Months.MonthFolderNamesDistinct |
| Months.MonthFolderNamesDistinct | organizePhotos.py:138 | two keys with different month numbers get different month folder names |
| Buckets.SeparatePhotosByMonth | organizePhotos.py:120-124 | the dictionary's keys are exactly the photos' `createdTime[0:7]`, and each key maps to the photos with that key in input order (quickstart.py:97-101 is the same function) |
| Buckets.BucketMembers | organizePhotos.py:123 | a photo is in bucket `key` exactly when it is an input photo whose `createdTime[0:7]` is `key` |
| Buckets.BucketCounts | organizePhotos.py:120-124 | a photo occurs in its own bucket as often as in the input, and in no other bucket, so nothing is lost or duplicated |
| Buckets.BucketAppend | organizePhotos.py:122-123 | bucketing the concatenation of two lists concatenates their buckets, so each bucket keeps input order |
| Buckets.BucketSizesSum | organizePhotos.py:120-124 | the bucket sizes over the keys sum to the number of photos |
| Buckets.BucketsOnlyForKeys | organizePhotos.py:121 | a key no photo has gets an empty bucket |
| Buckets.KeysOfMembers | organizePhotos.py:123 | the keys are exactly the keys of the input photos |
| Buckets.SumSizesSnoc | organizePhotos.py:122-123 | one more photo adds one to the sum exactly when its key is counted |
| Organizer.Live | organizePhotos.py:73 | definition of the non-trashed filter; its properties are stated by Organizer.LiveMembers and Organizer.LiveAppend |
| Organizer.LiveNamed | organizePhotos.py:131 | definition of the name-and-not-trashed filter at lines 56, 131, 140 and 177; its properties are stated by Organizer.LiveNamedFirst and Organizer.LiveNamedMembers |
| Organizer.LiveMembers | organizePhotos.py:73 | the non-trashed filter keeps exactly the records whose `trashed` is `False` |
| Organizer.LiveAppend | organizePhotos.py:73 | filtering page by page and filtering the concatenation agree |
| Organizer.LiveNamedFirst | organizePhotos.py:56-57 | the match list is empty exactly when no listed record is non-trashed with that name, and otherwise starts with the first such record |
| Organizer.LiveNamedMembers | organizePhotos.py:131 | every match is a listed non-trashed record with that name |
| Organizer.FetchedChild | organizePhotos.py:84-105 | every record `getChildren` returns is a child of the folder, as the drive holds it |
| Organizer.GetChildren | organizePhotos.py:84-105 | `getChildren` returns what the pages fetched before the first failed request concatenate to, unfiltered, and the whole listing when none fails |
| Organizer.GetAllPhotos | organizePhotos.py:54-81 | fails exactly when the root lists no non-trashed "Google Photos IphoneSE"; otherwise returns the non-trashed children of the first match that were fetched |
| Organizer.CreateRemoteFolder | organizePhotos.py:108-117 | one new folder with the given name at a fresh id, with parents `[parentID]` when given and none otherwise; nothing else changes (quickstart.py:85-94 is the same function) |
| Organizer.Resolve | organizePhotos.py:131-145 | definition of the find-or-create step for the year and the month folder; its properties are stated by Organizer.ResolveReuses, Organizer.ResolvedIsNamedChild and Organizer.ResolveIdempotent |
| Organizer.FindOrCreateFolder | organizePhotos.py:131-136 | the id and the drive after the find-or-create step are those `Resolve` gives |
| Organizer.ResolveReuses | organizePhotos.py:131-136 | nothing is created exactly when a non-trashed child with that name is listed, and then the first one is returned; otherwise one folder is created under the parent at a fresh id |
| Organizer.ResolvedIsNamedChild | organizePhotos.py:140-145 | the folder returned is a non-trashed child of the parent with that name, and the older items are untouched |
| Organizer.ResolveAgain | organizePhotos.py:131-145 | when neither listing fails, resolving again, on a drive whose listing of the parent is what the first resolution left, returns the same folder and creates nothing |
| Organizer.ResolveIdempotent | organizePhotos.py:131-145 | when neither listing fails, resolving twice in a row creates at most one folder, and the second call returns the first call's folder |
| Organizer.PhotosToAdd | organizePhotos.py:147 | definition of `photosToAdd`; its properties are stated by Organizer.PhotosToAddMembers and Organizer.NothingToAdd |
| Organizer.PhotosToAddMembers | organizePhotos.py:147 | a photo is to be added exactly when it is a non-trashed bucket photo whose record the month folder's listing does not show |
| Organizer.SelectPhotosToAdd | organizePhotos.py:147 | listing the month folder once per photo selects exactly the photos `PhotosToAdd` gives |
| Organizer.AttachEffect | organizePhotos.py:148-151 | attaching adds the month folder to the parents of exactly the attached photos and changes nothing else |
| Organizer.AttachElsewhere | organizePhotos.py:148-151 | attaching leaves the listing of every other folder unchanged |
| Organizer.AttachPhotos | organizePhotos.py:148-151 | the update loop leaves the drive that `Attach` describes |
| Organizer.Place | organizePhotos.py:130-151 | definition of one iteration of the bucket loop; the drive grows by at most the two folders it may create, and its properties are stated by Organizer.PlaceEffect, Organizer.PlaceFiles and Organizer.PlaceIdempotent |
| Organizer.PlaceBucket | organizePhotos.py:130-151 | one iteration of the bucket loop leaves the drive that `Place` describes |
| Organizer.PlaceEffect | organizePhotos.py:147-151 | placement only adds the month folder to the parents of the photos added, which are exactly the non-trashed bucket photos not listed in the month folder; every other item keeps its parents and fields |
| Organizer.PlaceGrows | organizePhotos.py:130-151 | placement removes no parent and changes no name, time, trashed flag or type |
| Organizer.PlaceFiles | organizePhotos.py:130-151 | after placement every non-trashed bucket photo is in a month folder with the month's name, in a year folder with the year's name, in the Photos folder |
| Organizer.NothingToAdd | organizePhotos.py:147 | when every non-trashed bucket photo is listed in the month folder, no photo is added |
| Organizer.PlaceIdempotent | organizePhotos.py:129-151 | when the year and month lookups of both runs and the second run's month folder listing succeed, placing the same bucket again finds the same year and month folders, adds no photo and leaves the drive unchanged |
| Organizer.Copy | organizePhotos.py:127-151 | definition of placing the buckets one after the other in a given order; its properties are stated by Organizer.CopyGrows and Organizer.CopyFiles |
| Organizer.CopyPhotosToFolders | organizePhotos.py:127-151 | every bucket is placed exactly once, in some order; the drive is that of placing them one after the other in that order |
| Organizer.CopyGrows | organizePhotos.py:127-151 | copying removes no parent and changes no name, time, trashed flag or type |
| Organizer.CopyFiles | organizePhotos.py:127-151 | after copying, every non-trashed photo of every bucket is filed under its month, year and the Photos folder, whatever the order and whichever requests failed |
| Organizer.LookupComplete | organizePhotos.py:177 | when no request fails, the Photos lookup through `getChildren` comes back empty exactly when the root has no non-trashed child named "Photos" |
| Organizer.ListedPhotosPlaceable | organizePhotos.py:56-73 | the listed photos all carry a month key, and every photo in every bucket exists on the drive |
| Organizer.Organize | organizePhotos.py:159-181 | fails with no change exactly when a lookup finds no source folder or no Photos folder; otherwise the drive is that of copying the monthly buckets of the listed photos into the first Photos folder found |
| QuickStart.TargetIsKey | quickstart.py:107 | the target key is a month key whose year folder is "2007" and whose month folder is "September" |
| QuickStart.Named | quickstart.py:109-110 | definition of the name-only filter; its properties are stated by QuickStart.NamedMembers and QuickStart.NamedFirst |
| QuickStart.LookUp | quickstart.py:109-110 | definition of a single-request lookup by name; its properties are stated by QuickStart.LookUpFinds and QuickStart.LookUpComplete |
| QuickStart.NamedFirst | quickstart.py:109-110 | the match list is empty exactly when no listed record has that name, and otherwise starts with the first record that has it |
| QuickStart.NamedMembers | quickstart.py:109-110 | the name filter keeps exactly the listed records with that name, trashed or not |
| QuickStart.FindNamed | quickstart.py:56-57 | a single-request lookup returns the first page's children with that name, or fails on an `HttpError` |
| QuickStart.LookUpFinds | quickstart.py:118-119 | every record a lookup returns is a child of the parent with that name, possibly trashed |
| QuickStart.LookUpComplete | quickstart.py:56-57 | when all children fit on the first page, a lookup sees every child with that name |
| QuickStart.AllPhotos | quickstart.py:54-82 | definition of what `getAllPhotos` returns; its properties are stated by QuickStart.AllPhotosAreChildren and QuickStart.AllPhotosPlaceable |
| QuickStart.GetAllPhotos | quickstart.py:54-82 | fails on an `HttpError` in the root lookup or when the root's first page has no "Google Photos IphoneSE"; otherwise returns what the pages fetched before the first failed request concatenate to, trashed items included |
| QuickStart.AllPhotosAreChildren | quickstart.py:62-82 | the photos are children of a root child named "Google Photos IphoneSE", trashed or not, and all of them when no request fails |
| QuickStart.AllPhotosPlaceable | quickstart.py:97-101 | the listed photos all carry a month key, and every bucketed photo exists on the drive |
| QuickStart.Resolve | quickstart.py:109-124 | definition of the single-request find-or-create step; its properties are stated by QuickStart.ResolveReuses and QuickStart.ResolvedIsNamedChild |
| QuickStart.ResolveReuses | quickstart.py:109-124 | the step fails exactly when its single request fails; otherwise nothing is created exactly when the first page lists a child with that name, and then the first such child is returned; else one folder is created under the parent at a fresh id |
| QuickStart.ResolvedIsNamedChild | quickstart.py:109-124 | a resolved folder is a child of the parent with that name, reused (possibly trashed) or one new folder |
| QuickStart.FindOrCreateFolder | quickstart.py:109-115 | fails without change on an `HttpError`; otherwise the id and drive are those `Resolve` gives |
| QuickStart.Missing | quickstart.py:126-127 | definition of `photosToAdd`; its properties are stated by QuickStart.MissingMembers and QuickStart.NeverSkips |
| QuickStart.MissingMembers | quickstart.py:126-127 | a photo is to be added exactly when its record is not in the month folder's first page |
| QuickStart.NeverSkips | quickstart.py:126-127 | the month folder's listing never contains a photo record, so every photo of the bucket is to be added |
| QuickStart.SelectPhotosToAdd | quickstart.py:126-127 | listing the month folder once per photo selects the photos missing from its first page, and fails when the listing fails |
| QuickStart.AttachAfterResolve | quickstart.py:128-131 | attaching after resolution adds the month folder to the parents of the attached photos only and keeps the folders found |
| QuickStart.Place | quickstart.py:107-131 | definition of the target bucket's iteration; the drive grows by at most the two folders it may create, and its properties are stated by QuickStart.PlaceEffect |
| QuickStart.PlaceEffect | quickstart.py:107-131 | when no request fails, every photo of the target bucket is in a "September" folder in a "2007" folder in the Photos folder, and nothing else about the existing items changed; when a request fails, the existing items are untouched |
| QuickStart.PlaceBucket | quickstart.py:108-131 | the target bucket's iteration leaves the drive that `Place` describes, and reports whether a request raised |
| QuickStart.CopyPhotosToFolders | quickstart.py:104-131 | only the `2007-09` bucket acts: without it the drive is unchanged; with it the drive is that of placing it, in whatever order the buckets come |
| QuickStart.FindPhotosFolder | quickstart.py:159-160 | definition of the Photos folder lookup of `main`; its single-page behaviour is stated by QuickStart.PhotosFolderMissedOnLaterPage |
| QuickStart.PhotosFolderMissedOnLaterPage | quickstart.py:159-160 | a drive whose "Photos" folder is on the root's second page makes the lookup fail although the folder exists |
| QuickStart.Run | quickstart.py:139-164 | fails with no change when a lookup fails or finds nothing; otherwise the drive is unchanged when there is no `2007-09` bucket, and is that of placing it otherwise |

## Left out

- Authentication, credential storage, command-line flags, building the API client and all console output are not modelled. They are I/O.
- Which record keys a request returns is modelled through `Fields`. The query strings themselves are not modelled.
- An `HttpError` is one abstract failed response. Its details are not modelled.
- Page sizes (`pageSize = 100`, `pageSize = 50`, the server default) are not modelled as numbers. Any page split is allowed, which covers every size.
- The model assumes that the server lists a folder's children in id order, that is, creation order, and in the same order every time. Organizer.ResolveAgain, Organizer.ResolveIdempotent and Organizer.PlaceIdempotent depend on this whenever two non-trashed children of a folder share a name: a server that lists them in another order on the second run would make the second run pick the other folder.
- The server's clock is a parameter. Every creation time is assumed to begin with a valid month key, which is an invariant of `Drive.Service`. A malformed `createdTime` or `int()` failure is not modelled.
- Folder creation and `addParents` updates always succeed. Their failures are not modelled.
- Concurrency and other writers to the drive are not modelled. The scripts assume none.
- Month names are the English names that Python's `calendar` module gives in the default C locale. Other locales are not modelled.
- Organizer.PlaceBucket: the month folder is listed once per photo, and every one of those listings is modelled with the same `Paging`. A server that answers them differently is not modelled.
- Organizer.PlaceIdempotent: this holds only when the first run's year and month lookups succeed, the second run's year, month and month folder listings all succeed, and the year, month and Photos folders are distinct. A failed first-run lookup can create a second "2007" folder, and a later complete lookup then returns the older one. A failed month folder listing makes the script add photos again.
- Organizer.ResolveAgain: this holds only when neither listing fails. When the first listing fails it can miss the existing folder and create a duplicate.
- Organizer.ResolveIdempotent: this holds only when neither listing fails. Two calls whose listings both fail at once on a drive without the folder create two folders.
- Organizer.CopyPhotosToFolders: the bucket order is a ghost result. Python's dictionary iteration order is not modelled.
- QuickStart.Run: an `HttpError` outside the photo listing ends the run as a `Failure`. A crash that leaves earlier changes is modelled; the traceback is not.

## Findings

| source | as written | input that shows it | evidently intended | confidence | as-written member | corrected member |
|---|---|---|---|---|---|---|
| quickstart.py:126-127 | compares each photo record (id, name, createdTime) with the month folder's records, which carry the default keys (kind, id, name, mimeType), so no photo ever matches | any run in which a photo of the bucket is already in the "September" folder: it is sent to the server again | skip photos already in the month folder, as organizePhotos.py:147 does by listing the same keys | not executed; high | QuickStart.NeverSkips | Organizer.PlaceIdempotent |
| quickstart.py:159-160 | looks for "Photos" on the root's first page only (50 items), then indexes `[0]` | a root whose listing puts "Photos" on the second page: the run raises `IndexError` although the folder exists | search every page, as organizePhotos.py:177 does through `getChildren` | not executed; medium | QuickStart.PhotosFolderMissedOnLaterPage | Organizer.LookupComplete |
