# Sublease marketplace: listing previews, photo upload and listing creation

This project models three pages of a housing-sublease marketplace written in
Next.js over Supabase, and proves properties of the model.

- **Listings page** (`src/app/listings/page.tsx`). `pickPreviewPhotos` picks the
  thumbnail strip of one listing in two phases:
  - Phase 1 visits kitchen, bedroom, bathroom and living room in that order.
    It takes each room's oldest photo unless that photo's storage path is
    already used or the strip is full.
  - Phase 2 fills the remaining slots with the photos whose paths phase 1
    did not use, oldest first.

  Before that, the page buckets the fetched photo rows by listing.
  - `Listings` holds the method that runs these loops step by step, together
    with the function `PickPreview` that states the result.
  - `PreviewProperties` proves what the selection promises about that
    function.
- **Add-photos page** (`src/app/create/photos/page.tsx`). This is module
  `AddPhotos`:
  - `onPick` keeps the image files the owner picked for one room.
  - `uploadRoom` derives each file's extension and storage path and uploads
    the files one by one into the storage bucket. It stops at the first
    failure.
  - `handleFinish` runs `uploadRoom` over the rooms in key order and then
    inserts one `listing_photos` row per uploaded file.
  - The bucket and the table are classes whose state the methods update. Each
    has a fixed refusal rule standing in for the remote service's answers.
- **Create-listing page** (`src/app/create/page.tsx`). This is module
  `CreateListing`:
  - `handleCreate` checks, in this order, that someone is signed in, that the
    address is not blank and that the postal code is not blank.
  - It then inserts the published `listings` row built from the form and
    navigates to the new listing's photo page.
- **`JsText`** models the JavaScript string operations the pages rely on:
  - `<` on strings;
  - `startsWith`;
  - `split(…).pop()`;
  - `trim()`, with the ECMAScript white-space set.

Two behaviours of the preview selection differ from what one might expect
of a thumbnail strip, and the model keeps them as the code has them:
- **Repeated paths.** One might expect a preview never to show the same
  storage path twice. Lines 55-61 of `src/app/listings/page.tsx` push every
  leftover photo without consulting `usedUrls`, so two rows with the same
  path can both be shown (`DuplicateRowsBothShown`). When the input's paths
  are distinct, so are the preview's (`PreviewDistinctWhenInputDistinct`),
  and the preview then has exactly `min(max, |all|)` photos
  (`PreviewLengthWhenInputDistinct`).
- **Older photos of an already shown room fill free slots.** One might expect
  a listing with photos kitchen@t1, kitchen@t2 and bedroom@t3 and four
  slots to show [kitchen@t1, bedroom@t3]. Lines 53-61 fill the free slots
  with every photo whose path is still unused, so the strip is
  [kitchen@t1, bedroom@t3, kitchen@t2] (`KitchenKitchenBedroom`).

## Model

| member | source | states |
|---|---|---|
| Listings.Rank | src/app/listings/page.tsx:24 | a room ranks below 4 exactly when it is one of the four preferred rooms, and then it is `ROOM_ORDER` at its rank |
| Listings.BucketMembers | src/app/listings/page.tsx:35-38 | a bucket holds exactly the input photos that carry its key |
| Listings.BucketCount | src/app/listings/page.tsx:35-38 | a bucket holds each photo with its key as many times as the input does, and no other photo |
| Listings.BucketAppend | src/app/listings/page.tsx:35-38 | bucketing keeps input order: the bucket of a concatenation is the concatenation of the buckets |
| Listings.BucketSnoc | src/app/listings/page.tsx:36-37 | pushing one photo extends the bucket of its key by that photo and leaves every other bucket as it was |
| Listings.BucketNonEmpty | src/app/listings/page.tsx:36 | a key has a non-empty bucket exactly when some input photo carries it |
| Listings.GroupingBuckets | src/app/listings/page.tsx:121-125 | after the loop, a key is present exactly when some photo carries it, and its value is that key's bucket in input order |
| Listings.GroupPhotos | src/app/listings/page.tsx:34-38 | the grouping loop builds the dictionary `Grouping` describes: keys exactly those with photos, each mapped to its bucket |
| Listings.ListingKeys | src/app/listings/page.tsx:121-125 | grouping by `listing_id` has a key exactly for each listing that has a photo |
| Listings.ListingBucketsOwn | src/app/listings/page.tsx:121-125 | every photo in a listing's bucket is an input photo of that listing |
| Listings.ListingBucketsComplete | src/app/listings/page.tsx:121-125 | every input photo is in its listing's bucket, as many times as it occurs in the input |
| Listings.InsertPermutes | src/app/listings/page.tsx:41 | inserting into a sorted run adds exactly the inserted photo |
| Listings.InsertSorted | src/app/listings/page.tsx:41 | inserting into a run ordered by `created_at` keeps it ordered |
| Listings.SortPermutes | src/app/listings/page.tsx:41 | sorting by `created_at` is a permutation of the input |
| Listings.SortSorted | src/app/listings/page.tsx:41 | the sorted sequence has no photo strictly older than one before it |
| Listings.PathSetAppend | src/app/listings/page.tsx:49 | adding a photo's path to the used set adds exactly that path |
| Listings.InsertDistinct | src/app/listings/page.tsx:56 | inserting a photo with a new path into a path-distinct run keeps it path-distinct |
| Listings.SortDistinct | src/app/listings/page.tsx:56 | sorting keeps storage paths distinct |
| Listings.PickPreviewPhotos | src/app/listings/page.tsx:26-66 | the step-by-step selection returns exactly `PickPreview(all, max)` |
| Listings.SortEachRoom | src/app/listings/page.tsx:40-42 | after sorting, the room dictionary has the same keys and each room holds its photos oldest first |
| Listings.FirstInBucket | src/app/listings/page.tsx:46 | `byRoom[room]?.[0]` after sorting is the room's oldest photo, or nothing for a room without photos |
| Listings.OnePerRoom | src/app/listings/page.tsx:45-51 | phase 1 returns the picks `Phase1` describes, and `usedUrls` is exactly the set of their paths |
| Listings.Phase1Next | src/app/listings/page.tsx:46-50 | one round appends the room's first photo exactly when the room has one, its path is unused and a slot is free |
| Listings.FillRemaining | src/app/listings/page.tsx:54-62 | phase 2 appends exactly `Fill`: unused photos oldest first, stopping when `max` is reached |
| PreviewProperties.SortedMembers | src/app/listings/page.tsx:41 | sorting keeps the length and the members |
| PreviewProperties.FirstOfOldest | src/app/listings/page.tsx:46 | a room has a phase-1 candidate exactly when it has a photo, and the candidate has no strictly older photo in its room |
| PreviewProperties.Phase1Facts | src/app/listings/page.tsx:45-51 | after `n` rooms: at most `max` and at most `n` picks, one oldest photo per visited room in room order, distinct paths |
| PreviewProperties.Phase1StepShape | src/app/listings/page.tsx:46-50 | one phase-1 round preserves that shape |
| PreviewProperties.Phase1Prefix | src/app/listings/page.tsx:45-51 | later phase-1 rounds only append to earlier picks |
| PreviewProperties.UnusedMembers | src/app/listings/page.tsx:55 | the `remaining` filter keeps exactly the input photos whose path is unused |
| PreviewProperties.FillFacts | src/app/listings/page.tsx:54-62 | phase 2 appends input photos with unused paths, oldest first, never beyond `max`, and nothing when phase 1 filled the strip |
| PreviewProperties.PreviewBounded | src/app/listings/page.tsx:47-58 | the preview never exceeds `max`, and is empty for `max <= 0` or an empty input |
| PreviewProperties.PreviewFromInput | src/app/listings/page.tsx:26-66 | every preview photo is an input row |
| PreviewProperties.PreviewPhase1First | src/app/listings/page.tsx:44-51 | the phase-1 picks open the preview, at most one per preferred room, each an oldest photo of its room, in room order |
| PreviewProperties.PreviewOtherRoomsLast | src/app/listings/page.tsx:45-61 | a photo of a room outside the four sits only after all phase-1 picks |
| PreviewProperties.PreviewFillSorted | src/app/listings/page.tsx:55-61 | the phase-2 part is oldest first up to ties and reuses no phase-1 path |
| PreviewProperties.SkippedRoomHasNoSubstitute | src/app/listings/page.tsx:46-50 | a room whose first photo's path is already used gets no photo at all in phase 1 |
| PreviewProperties.PickRoomRank | src/app/listings/page.tsx:45 | every pick after `n` rounds comes from one of the first `n` rooms |
| PreviewProperties.PickIsFirst | src/app/listings/page.tsx:46-48 | every phase-1 pick is its room's candidate |
| PreviewProperties.PickDistinct | src/app/listings/page.tsx:47-49 | phase-1 picks have pairwise different paths |
| PreviewProperties.PreviewOpensWithKitchen | src/app/listings/page.tsx:45-48 | with a free slot and a kitchen photo, the preview opens with a kitchen photo no other kitchen photo predates |
| PreviewProperties.UnusedSize | src/app/listings/page.tsx:55 | with distinct paths, the filter drops exactly as many photos as their paths overlap the used set |
| PreviewProperties.UnusedDistinct | src/app/listings/page.tsx:55 | the filter keeps paths distinct |
| PreviewProperties.PickedPathsFromInput | src/app/listings/page.tsx:47-49 | phase 1 uses only paths of the input |
| PreviewProperties.PreviewDistinctWhenInputDistinct | src/app/listings/page.tsx:55-61 | when the input's paths are distinct, so are the preview's |
| PreviewProperties.FillDistinct | src/app/listings/page.tsx:55-61 | phase 2 repeats no path when the input has none repeated |
| PreviewProperties.PreviewLengthWhenInputDistinct | src/app/listings/page.tsx:54-61 | when the input's paths are distinct, the preview has exactly `min(max, |all|)` photos |
| PreviewProperties.UnusedSnoc | src/app/listings/page.tsx:55 | the filter of a longer input extends the filter of the shorter one by the new photo exactly when its path is unused |
| PreviewProperties.NoCandidate | src/app/listings/page.tsx:46 | a room with no photos has no candidate |
| PreviewProperties.Phase1Skip | src/app/listings/page.tsx:47 | a round over a room without photos changes nothing |
| PreviewProperties.Phase1Take | src/app/listings/page.tsx:47-49 | a round whose candidate's path is new and which has a free slot appends that candidate |
| PreviewProperties.Phase1Taken | src/app/listings/page.tsx:47 | a round whose candidate's path is used appends nothing |
| PreviewProperties.NoPriorityRooms | src/app/listings/page.tsx:45-51 | an input without any of the four rooms gets no phase-1 picks |
| PreviewProperties.PreviewFrom | src/app/listings/page.tsx:54-61 | with room for everything, the preview is the phase-1 picks followed by all sorted leftovers |
| PreviewProperties.DuplicateRowsBothShown | src/app/listings/page.tsx:57-60 | two rows with the same path in a room outside the four are both shown: phase 2 does not check `usedUrls` |
| PreviewProperties.KitchenKitchenBedroom | src/app/listings/page.tsx:26-66 | kitchen@t2, bedroom@t3, kitchen@t1 with four slots gives kitchen@t1, bedroom@t3, kitchen@t2 |
| PreviewProperties.SamePathTwoRoomsCollapses | src/app/listings/page.tsx:45-61 | one path filed under kitchen and bedroom is shown once, as the kitchen photo |
| JsText.LessIrreflexive | src/app/listings/page.tsx:41 | no string is below itself |
| JsText.LessTransitive | src/app/listings/page.tsx:41 | string order is transitive |
| JsText.LessTotal | src/app/listings/page.tsx:41 | of two different strings one is below the other |
| JsText.LessAsymmetric | src/app/listings/page.tsx:41 | two strings are never below each other |
| JsText.NotLessTransitive | src/app/listings/page.tsx:41 | "not below" is transitive |
| JsText.Split | src/app/create/photos/page.tsx:60 | splitting yields at least one piece and no piece holds the separator |
| JsText.JoinSplit | src/app/create/photos/page.tsx:60 | joining the pieces of a split gives back the text |
| JsText.SplitJoin | src/app/create/photos/page.tsx:60 | splitting a join of separator-free pieces gives back the pieces |
| JsText.SplitFree | src/app/create/photos/page.tsx:60 | a text without the separator splits into itself alone |
| JsText.SplitAround | src/app/create/photos/page.tsx:60 | a separator-free text before the first separator is the first piece, and the rest splits on its own |
| JsText.SplitLastPiece | src/app/create/photos/page.tsx:60 | the last piece of `a + sep + b` is `b` when `b` holds no separator |
| JsText.SplitSeveral | src/app/create/photos/page.tsx:60 | a text holding the separator splits into at least two pieces |
| JsText.LastPieceOfSplit | src/app/create/photos/page.tsx:60 | `split(sep).pop()` is the text after the last separator |
| JsText.LastPieceFree | src/app/create/photos/page.tsx:60 | the text after the last separator holds no separator |
| JsText.LastPieceAfter | src/app/create/photos/page.tsx:60 | the text after the last separator of `a + sep + b` is that of `b` when `b` has no separator |
| JsText.TrimStartShape | src/app/create/page.tsx:53 | the start trim keeps a suffix, removes only spaces and stops at a non-space |
| JsText.TrimEndShape | src/app/create/page.tsx:53 | the end trim keeps a prefix, removes only spaces and stops at a non-space |
| JsText.TrimEmptyIffBlank | src/app/create/page.tsx:53 | `trim()` gives the empty string exactly when every character is ECMAScript white space |
| AddPhotos.RoomName | src/app/create/photos/page.tsx:7 | a room key holds no `/` and no `.`, so it is one path segment |
| AddPhotos.Index | src/app/create/photos/page.tsx:26-31 | each room has its position in the key order of the initial state |
| AddPhotos.ImagesOnlyCount | src/app/create/photos/page.tsx:50 | the filter keeps each image as often as it was picked, and no other file |
| AddPhotos.ImagesOnlyAppend | src/app/create/photos/page.tsx:50 | the filter keeps the picked order |
| AddPhotos.ImagesOnlyKeepsImages | src/app/create/photos/page.tsx:50 | a list of images passes unchanged |
| AddPhotos.PerRoom.Set | src/app/create/photos/page.tsx:51 | `{ ...prev, [room]: next }` gives `room` the new value and leaves the other rooms as they were |
| AddPhotos.PickFiles | src/app/create/photos/page.tsx:48-52 | a null file list changes nothing; otherwise the room's list is replaced by the picked images and the other rooms are unchanged |
| AddPhotos.PickedAreImages | src/app/create/photos/page.tsx:50-51 | after a pick the room holds only picked images, each as often as it was picked |
| AddPhotos.ExtensionIsSplitPop | src/app/create/photos/page.tsx:60 | the extension is the last piece of `split('.')`, or `jpg` when that piece is empty |
| AddPhotos.ExtensionShape | src/app/create/photos/page.tsx:60 | an extension is never empty and holds no dot |
| AddPhotos.ExtensionWithoutDot | src/app/create/photos/page.tsx:60 | a name without a dot is its own extension, and the empty name gives `jpg` |
| AddPhotos.ExtensionAfterLastDot | src/app/create/photos/page.tsx:60 | the extension is the text after the last dot, and a trailing dot gives `jpg` |
| AddPhotos.StoragePathExtension | src/app/create/photos/page.tsx:61 | a storage path's own extension is the one it was built with |
| AddPhotos.StoragePathParts | src/app/create/photos/page.tsx:61 | splitting a storage path at `/` gives back the listing id, the room and `uuid.ext` |
| AddPhotos.FileNameParts | src/app/create/photos/page.tsx:61 | splitting `uuid.ext` at `.` gives back the uuid and the extension |
| AddPhotos.StoragePathInjective | src/app/create/photos/page.tsx:61 | different listing, room, uuid or extension give different storage paths |
| AddPhotos.Storage.UploadError | src/app/create/photos/page.tsx:63-67 | an upload without upsert succeeds exactly when the path is free and not refused |
| AddPhotos.Storage.Upload | src/app/create/photos/page.tsx:63-66 | the upload reports that error and stores the file under the path exactly when it succeeds |
| AddPhotos.RoomPaths | src/app/create/photos/page.tsx:60-61 | one path per file |
| AddPhotos.RoomPathAt | src/app/create/photos/page.tsx:60-61 | the `k`-th path is built from the `k`-th uuid and the `k`-th file's extension |
| AddPhotos.RoomPathsDistinct | src/app/create/photos/page.tsx:61 | different uuids give different paths |
| AddPhotos.UploadFilesStops | src/app/create/photos/page.tsx:59-74 | without an error every file is recorded; on an error the files before the failing one are recorded, and the error is that file's upload error |
| AddPhotos.UploadFilesKeeps | src/app/create/photos/page.tsx:63-64 | objects already in the bucket are never overwritten |
| AddPhotos.UploadFilesRecords | src/app/create/photos/page.tsx:70-71 | the `k`-th record is `{ room, url, path }` for the `k`-th path and its public URL |
| AddPhotos.UploadFilesStored | src/app/create/photos/page.tsx:63-71 | each recorded path was free before and now holds its file |
| AddPhotos.UploadFilesAddsOnlyRecords | src/app/create/photos/page.tsx:59-74 | the bucket gains nothing but the recorded paths |
| AddPhotos.UploadedPathsDistinct | src/app/create/photos/page.tsx:63-67 | the recorded files were stored under pairwise different paths |
| AddPhotos.UploadStep | src/app/create/photos/page.tsx:63-71 | one iteration either ends the loop with that error or records the file and leaves the rest of the loop's outcome unchanged |
| AddPhotos.FilesOutcomeEnds | src/app/create/photos/page.tsx:58-74 | the loop's outcome before the first file is the whole upload, and after the last file it is what was recorded |
| AddPhotos.RowsMatchUploads | src/app/create/photos/page.tsx:113-118 | one `listing_photos` row per upload, in order, with the listing id and the upload's room, URL and path |
| AddPhotos.PhotoTable.Insert | src/app/create/photos/page.tsx:112-122 | the batch is stored whole when the table accepts it, and nothing is stored when the table refuses it |
| AddPhotos.RoomRunRecords | src/app/create/photos/page.tsx:100 | a room's records all carry that room, one per file when nothing fails |
| AddPhotos.RoomLoopSkip | src/app/create/photos/page.tsx:99 | a room without files leaves the loop's outcome unchanged |
| AddPhotos.RoomLoopUpload | src/app/create/photos/page.tsx:100-101 | one room either ends the loop with its error or appends its records and leaves the rest of the outcome unchanged |
| AddPhotos.RoomLoopDone | src/app/create/photos/page.tsx:97-102 | after the last room the outcome is what was collected |
| AddPhotos.UploadRoomsCounts | src/app/create/photos/page.tsx:97-102 | without an error there is one record per picked file, and each room has as many records as it had files |
| AddPhotos.UploadRoomsOrdered | src/app/create/photos/page.tsx:97-102 | records come room by room in key order |
| AddPhotos.NothingToUpload | src/app/create/photos/page.tsx:97-102 | with no files the loop uploads nothing, records nothing and cannot fail |
| AddPhotos.UploadRoomsKeeps | src/app/create/photos/page.tsx:97-102 | files already in the bucket survive the loop, whether or not it fails |
| AddPhotos.AddPhotosPage.constructor | src/app/create/photos/page.tsx:23-35 | the listing id is the query parameter or empty; no files, not loading, no message, not completed |
| AddPhotos.AddPhotosPage.OnPick | src/app/create/photos/page.tsx:48-52 | the room lists become `PickFiles` of the old ones; nothing else changes |
| AddPhotos.AddPhotosPage.UploadRoom | src/app/create/photos/page.tsx:54-75 | the bucket and the result are those of `UploadFiles` over the room's paths |
| AddPhotos.AddPhotosPage.UploadEveryRoom | src/app/create/photos/page.tsx:96-102 | the bucket and the result are those of `UploadRooms` from the first room |
| AddPhotos.AddPhotosPage.HandleFinish | src/app/create/photos/page.tsx:77-132 | no listing id: the message and nothing else. Signed out: go to login with no uploads. Otherwise the bucket follows `UploadRooms`; an upload or insert error is shown; rows are inserted only when uploads exist; `completed` and the congratulation otherwise. Loading ends false |
| CreateListing.RowColumns | src/app/create/page.tsx:69-92 | the text columns and coordinates are the form's fields; price, beds and baths are `Number` of their fields; each square footage is `null` exactly when its field is empty and otherwise `Number` of it; owner is the user, country United States, status published, `published_at` is now |
| CreateListing.SameRow | src/app/create/page.tsx:69-92 | two forms give the same row exactly when their text fields agree, their numeric fields parse to the same numbers and their square-footage columns agree |
| CreateListing.PrepareGuards | src/app/create/page.tsx:46-63 | signed out means sign in, whatever the form; a blank address is reported before a blank postal code; the row is ready exactly when neither is blank |
| CreateListing.ListingTable.Insert | src/app/create/page.tsx:66-95 | a refused insert returns the error and stores nothing; otherwise the row is stored and its id returned |
| CreateListing.SubmitOutcomes | src/app/create/page.tsx:46-117 | a row is inserted exactly when signed in, address and postal code not blank and the table accepts; that row is the user's published row built from the form; the photo page follows exactly then, the login page exactly when signed out |
| CreateListing.CreateListingPage.constructor | src/app/create/page.tsx:12-31 | the form starts at price 1200, one bed, one bath and empty text; not loading; no message; numbers are parsed by the given `Number` |
| CreateListing.CreateListingPage.Edit | src/app/create/page.tsx:138 | the inputs' change handlers replace the form and change nothing else |
| CreateListing.CreateListingPage.HandleCreate | src/app/create/page.tsx:40-124 | message, navigation and the table follow `Submit`; the form is never cleared; loading ends false on every path |

## Left out

- Supabase is not called. `auth.getUser` becomes an optional user id passed in. The storage bucket and the two tables are classes with a fixed rule for which requests they refuse, in place of the remote answers.
- Network failures beyond refusals are not modelled: a thrown exception in `getUser` or a rejected promise.
- `crypto.randomUUID()` values are passed in, one list per room. The id the database gives a new listing is passed in as well. `new Date().toISOString()` is passed in as `now`.
- `URL.createObjectURL` previews (`makePreviewUrls`) and every JSX rendering and style are left out.
- The first and third `getUser` calls of `handleFinish` and the `console.log` calls only log, so they are not modelled.
- The mount-time redirect of the create page (`useEffect` at lines 33-38) is not part of this model.
- `Number(...)` is not implemented: the parse from text to a JavaScript number (finite, `NaN` or an infinity) is a function the caller supplies, so the model promises only that numeric columns are that function of their fields. Floating-point precision and `-0` are not modelled; `lat`/`lng` are carried through unchanged as `real`.
- Listings.SortByTime: `Array.prototype.sort` with a comparator that never answers 0 may order equal timestamps either way. The model fixes one stable insertion order, and the properties are stated up to ties (no photo strictly older than one before it).
- JsText.Less compares `char`s, not UTF-16 code units. Both agree for characters of the Basic Multilingual Plane, which covers ISO timestamps.
- The listings page's dictionary is a `map`. The quirk of a room or listing id named like an `Object.prototype` member (such as `constructor`) is not modelled.
- The fetch of listings and photo rows, and the page's fallback to an empty dictionary when the photo query fails, are not modelled.
- The other pages are not part of this model: home, login, logout, listing detail, and the address autocomplete component.
- `created_at` of stored rows is assigned by the database and is not modelled.
