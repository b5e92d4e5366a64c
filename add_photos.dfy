/**
 * The add-photos step of the create flow: the per-room file selection
 * (`onPick`), the storage path each file is uploaded under, the upload loop of
 * one room (`uploadRoom`) and the finishing action (`handleFinish`) that
 * uploads every room and records one `listing_photos` row per upload.
 *
 * The storage bucket and the photo table are remote services. They are
 * modelled as objects whose state the page changes: `Storage` holds the
 * uploaded objects by path, `PhotoTable` the inserted rows. What the services
 * refuse for reasons outside the page (policies, quotas, a missing table, the
 * network) is fixed up front in their `refused`/`refusal` fields.
 */
module AddPhotos {
  import opened Wrappers
  import JsText

  // ---------------------------------------------------------------------------
  // Rooms and files
  // ---------------------------------------------------------------------------

  /** `RoomKey`: the four rooms the page collects photos for. */
  datatype RoomKey = Kitchen | Bedroom | Bathroom | LivingRoom

  /** The room key as it appears in storage paths and in `listing_photos.room`. */
  function RoomName(room: RoomKey): (name: string)
    ensures '/' !in name && '.' !in name
  {
    match room
    case Kitchen => "kitchen"
    case Bedroom => "bedroom"
    case Bathroom => "bathroom"
    case LivingRoom => "living_room"
  }

  /**
   * `Object.keys(filesByRoom)`: the key order of the initial state literal.
   * The spread update of `onPick` overwrites an existing key in place, so the
   * order never changes.
   */
  const RoomKeys: seq<RoomKey> := [Kitchen, Bedroom, Bathroom, LivingRoom]

  /** The position of a room in `RoomKeys`. */
  function Index(room: RoomKey): (i: nat)
    ensures i < |RoomKeys| && RoomKeys[i] == room
  {
    match room
    case Kitchen => 0
    case Bedroom => 1
    case Bathroom => 2
    case LivingRoom => 3
  }

  /** A browser `File`, reduced to what the page reads: its name and MIME type. */
  datatype File = File(name: string, mimeType: string)

  predicate IsImage(f: File)
  {
    JsText.StartsWith(f.mimeType, "image/")
  }

  /** `files.filter((f) => f.type.startsWith('image/'))`. */
  function ImagesOnly(files: seq<File>): seq<File>
  {
    if files == [] then [] else (if IsImage(files[0]) then [files[0]] else []) + ImagesOnly(files[1..])
  }

  /** The filter keeps every image as often as it occurs and drops everything else. */
  lemma {:induction false} ImagesOnlyCount(files: seq<File>, f: File)
    ensures multiset(ImagesOnly(files))[f] == if IsImage(f) then multiset(files)[f] else 0
  {
    if files != [] {
      ImagesOnlyCount(files[1..], f);
      assert files == [files[0]] + files[1..];
    }
  }

  /** The filter keeps the input order: filtering a concatenation filters each part. */
  lemma {:induction false} ImagesOnlyAppend(a: seq<File>, b: seq<File>)
    ensures ImagesOnly(a + b) == ImagesOnly(a) + ImagesOnly(b)
  {
    if a != [] {
      ImagesOnlyAppend(a[1..], b);
      assert (a + b)[1..] == a[1..] + b;
    } else {
      assert a + b == b;
    }
  }

  /** A list of images passes the filter unchanged. */
  lemma {:induction false} ImagesOnlyKeepsImages(files: seq<File>)
    requires forall k :: 0 <= k < |files| ==> IsImage(files[k])
    ensures ImagesOnly(files) == files
  {
    if files != [] {
      ImagesOnlyKeepsImages(files[1..]);
    }
  }

  /** One value per room, as in an object keyed by `RoomKey`. */
  datatype PerRoom<T> = PerRoom(kitchen: T, bedroom: T, bathroom: T, livingRoom: T)
  {
    function Get(room: RoomKey): T
    {
      match room
      case Kitchen => kitchen
      case Bedroom => bedroom
      case Bathroom => bathroom
      case LivingRoom => livingRoom
    }

    /** `{ ...this, [room]: files }`. */
    function Set(room: RoomKey, value: T): (r: PerRoom<T>)
      ensures r.Get(room) == value
      ensures forall other :: other != room ==> r.Get(other) == Get(other)
    {
      match room
      case Kitchen => this.(kitchen := value)
      case Bedroom => this.(bedroom := value)
      case Bathroom => this.(bathroom := value)
      case LivingRoom => this.(livingRoom := value)
    }
  }

  /** The page's `filesByRoom` state: one list of files per room. */
  type RoomFiles = PerRoom<seq<File>>

  /** The initial state: no files for any room. */
  const NoFiles: RoomFiles := PerRoom([], [], [], [])

  /**
   * `onPick(room, fileList)`: a null file list changes nothing; otherwise the
   * room's list becomes the images of the new selection, in selection order,
   * whatever it held before, and the other rooms keep theirs.
   */
  function PickFiles(prev: RoomFiles, room: RoomKey, fileList: Option<seq<File>>): (next: RoomFiles)
    ensures fileList == None ==> next == prev
    ensures fileList.Some? ==> next.Get(room) == ImagesOnly(fileList.value)
    ensures forall other :: other != room ==> next.Get(other) == prev.Get(other)
  {
    match fileList
    case None => prev
    case Some(list) => prev.Set(room, ImagesOnly(list))
  }

  /** After a pick, the room holds only images, each picked as often as it was selected. */
  lemma PickedAreImages(prev: RoomFiles, room: RoomKey, list: seq<File>, f: File)
    ensures var next := PickFiles(prev, room, Some(list));
      (f in next.Get(room) ==> IsImage(f) && f in list)
      && multiset(next.Get(room))[f] == if IsImage(f) then multiset(list)[f] else 0
  {
    ImagesOnlyCount(list, f);
  }

  // ---------------------------------------------------------------------------
  // Extensions and storage paths
  // ---------------------------------------------------------------------------

  /** `file.name.split('.').pop() || 'jpg'`: the text after the last dot, or `jpg` when that is empty. */
  function Extension(name: string): string
  {
    var last := JsText.LastPiece(name, '.');
    if last == [] then "jpg" else last
  }

  /** `Extension` is the source's expression: the last piece of splitting at dots, or `jpg` for an empty one. */
  lemma ExtensionIsSplitPop(name: string)
    ensures var parts := JsText.Split(name, '.');
      Extension(name) == if parts[|parts| - 1] == [] then "jpg" else parts[|parts| - 1]
  {
    JsText.LastPieceOfSplit(name, '.');
  }

  /** An extension is never empty and holds no dot. */
  lemma ExtensionShape(name: string)
    ensures Extension(name) != [] && '.' !in Extension(name)
  {
    JsText.LastPieceFree(name, '.');
  }

  /** A name without a dot is its own extension, unless it is empty. */
  lemma ExtensionWithoutDot(name: string)
    requires '.' !in name
    ensures Extension(name) == if name == [] then "jpg" else name
  {
  }

  /** The extension is what follows the last dot; a trailing dot gives `jpg`. */
  lemma ExtensionAfterLastDot(stem: string, tail: string)
    requires '.' !in tail
    ensures Extension(stem + "." + tail) == if tail == [] then "jpg" else tail
  {
    JsText.LastPieceAfter(stem, tail, '.');
  }

  /** `${listingId}/${room}/${uuid}.${ext}`. */
  function StoragePath(listingId: string, room: RoomKey, uuid: string, ext: string): string
  {
    listingId + "/" + RoomName(room) + "/" + uuid + "." + ext
  }

  /** A path's own extension is the extension it was built with. */
  lemma StoragePathExtension(listingId: string, room: RoomKey, uuid: string, ext: string)
    requires ext != [] && '.' !in ext
    ensures Extension(StoragePath(listingId, room, uuid, ext)) == ext
  {
    assert StoragePath(listingId, room, uuid, ext) == (listingId + "/" + RoomName(room) + "/" + uuid) + "." + ext;
    ExtensionAfterLastDot(listingId + "/" + RoomName(room) + "/" + uuid, ext);
  }

  /** Splitting a path at `/` gives back the listing id, the room and the file name. */
  lemma StoragePathParts(listingId: string, room: RoomKey, uuid: string, ext: string)
    requires '/' !in listingId && '/' !in uuid && '/' !in ext
    ensures JsText.Split(StoragePath(listingId, room, uuid, ext), '/') == [listingId, RoomName(room), uuid + "." + ext]
  {
    var file := uuid + "." + ext;
    assert '/' !in file by {
      assert forall k :: 0 <= k < |file| ==> file[k] == if k < |uuid| then uuid[k] else if k == |uuid| then '.' else ext[k - |uuid| - 1];
    }
    JsText.SplitFree(file, '/');
    JsText.SplitAround(RoomName(room), file, '/');
    assert StoragePath(listingId, room, uuid, ext) == listingId + ['/'] + (RoomName(room) + ['/'] + file);
    JsText.SplitAround(listingId, RoomName(room) + ['/'] + file, '/');
  }

  /** Splitting a file name `uuid.ext` at `.` gives back the uuid and the extension. */
  lemma FileNameParts(uuid: string, ext: string)
    requires '.' !in uuid && '.' !in ext
    ensures JsText.Split(uuid + "." + ext, '.') == [uuid, ext]
  {
    JsText.SplitFree(ext, '.');
    JsText.SplitAround(uuid, ext, '.');
  }

  /**
   * Different listings, rooms, uuids or extensions give different paths, as
   * long as ids and uuids hold no `/` or `.` (a `crypto.randomUUID` is hex
   * digits and dashes).
   */
  lemma StoragePathInjective(l1: string, r1: RoomKey, u1: string, e1: string, l2: string, r2: RoomKey, u2: string, e2: string)
    requires '/' !in l1 && '/' !in u1 && '/' !in e1 && '.' !in u1 && '.' !in e1
    requires '/' !in l2 && '/' !in u2 && '/' !in e2 && '.' !in u2 && '.' !in e2
    requires StoragePath(l1, r1, u1, e1) == StoragePath(l2, r2, u2, e2)
    ensures l1 == l2 && r1 == r2 && u1 == u2 && e1 == e2
  {
    StoragePathParts(l1, r1, u1, e1);
    StoragePathParts(l2, r2, u2, e2);
    assert RoomName(r1) == RoomName(r2);
    FileNameParts(u1, e1);
    FileNameParts(u2, e2);
  }

  // ---------------------------------------------------------------------------
  // The storage bucket
  // ---------------------------------------------------------------------------

  /** One uploaded file as `uploadRoom` records it: `{ room, url, path }`. */
  datatype Upload = Upload(room: RoomKey, url: string, path: string)

  /** The `listing-photos` storage bucket. */
  class Storage {
    /** The stored files by path. */
    var objects: map<string, File>
    /** Uploads the service rejects on its own account, with the error it returns. */
    const refused: map<string, Error>
    /** The error an upload with `upsert: false` gets for a path that is taken. */
    const existsError: Error
    /** The prefix `getPublicUrl` puts before a path. */
    const publicBase: string

    constructor(objects: map<string, File>, refused: map<string, Error>, existsError: Error, publicBase: string)
      ensures this.objects == objects && this.refused == refused
      ensures this.existsError == existsError && this.publicBase == publicBase
    {
      this.objects := objects;
      this.refused := refused;
      this.existsError := existsError;
      this.publicBase := publicBase;
    }

    /** `bucket.getPublicUrl(path).data.publicUrl`. */
    function PublicUrl(path: string): string
    {
      publicBase + path
    }

    /** The error `bucket.upload(path, …, { upsert: false })` returns when the bucket holds `objects`. */
    function UploadError(objects: map<string, File>, path: string): (error: Option<Error>)
      ensures error == None <==> path !in objects && path !in refused
    {
      if path in objects then Some(existsError)
      else if path in refused then Some(refused[path])
      else None
    }

    /** `bucket.upload(path, file, { upsert: false, contentType: file.type })`. */
    method Upload(path: string, file: File) returns (error: Option<Error>)
      modifies this
      ensures error == UploadError(old(objects), path)
      ensures objects == if error == None then old(objects)[path := file] else old(objects)
    {
      error := UploadError(objects, path);
      if error == None {
        objects := objects[path := file];
      }
    }
  }

  /** What a sequence of uploads leaves behind: the records made, the bucket, and the error that stopped it. */
  datatype Run = Run(uploads: seq<Upload>, objects: map<string, File>, error: Option<Error>)

  /** The paths `uploadRoom` builds for a room's files, the `k`-th named by the `k`-th uuid. */
  function RoomPaths(listingId: string, room: RoomKey, files: seq<File>, uuids: seq<string>): (paths: seq<string>)
    requires |uuids| == |files|
    ensures |paths| == |files|
  {
    if files == [] then []
    else [StoragePath(listingId, room, uuids[0], Extension(files[0].name))] + RoomPaths(listingId, room, files[1..], uuids[1..])
  }

  /** The `k`-th path is built from the `k`-th uuid and the `k`-th file's extension. */
  lemma {:induction false} RoomPathAt(listingId: string, room: RoomKey, files: seq<File>, uuids: seq<string>, k: nat)
    requires |uuids| == |files| && k < |files|
    ensures RoomPaths(listingId, room, files, uuids)[k] == StoragePath(listingId, room, uuids[k], Extension(files[k].name))
  {
    if k > 0 {
      RoomPathAt(listingId, room, files[1..], uuids[1..], k - 1);
    }
  }

  /**
   * Distinct uuids give distinct paths: each file of a room gets a path of its
   * own, so two files of one selection never compete for a path.
   */
  lemma RoomPathsDistinct(listingId: string, room: RoomKey, files: seq<File>, uuids: seq<string>, a: nat, b: nat)
    requires |uuids| == |files| && a < |files| && b < |files|
    requires '/' !in listingId && '/' !in uuids[a] && '.' !in uuids[a] && '/' !in uuids[b] && '.' !in uuids[b]
    requires '/' !in Extension(files[a].name) && '/' !in Extension(files[b].name)
    requires uuids[a] != uuids[b]
    ensures RoomPaths(listingId, room, files, uuids)[a] != RoomPaths(listingId, room, files, uuids)[b]
  {
    var paths := RoomPaths(listingId, room, files, uuids);
    RoomPathAt(listingId, room, files, uuids, a);
    RoomPathAt(listingId, room, files, uuids, b);
    ExtensionShape(files[a].name);
    ExtensionShape(files[b].name);
    if paths[a] == paths[b] {
      StoragePathInjective(listingId, room, uuids[a], Extension(files[a].name), listingId, room, uuids[b], Extension(files[b].name));
    }
  }

  /**
   * The loop of `uploadRoom`: each file is uploaded under its path and
   * recorded with its public URL; the first error ends the loop.
   */
  function UploadFiles(store: Storage, objects: map<string, File>, room: RoomKey,
                       files: seq<File>, paths: seq<string>): Run
    requires |paths| == |files|
    decreases |files|
  {
    if files == [] then Run([], objects, None)
    else
      match store.UploadError(objects, paths[0])
      case Some(e) => Run([], objects, Some(e))
      case None =>
        var rest := UploadFiles(store, objects[paths[0] := files[0]], room, files[1..], paths[1..]);
        Run([Upload(room, store.PublicUrl(paths[0]), paths[0])] + rest.uploads, rest.objects, rest.error)
  }

  /**
   * `uploadRoom` makes at most one record per file; without an error every
   * file has its record, and an error comes from the upload of the file right
   * after the last one recorded.
   */
  lemma {:induction false} UploadFilesStops(store: Storage, objects: map<string, File>, room: RoomKey,
                                            files: seq<File>, paths: seq<string>)
    requires |paths| == |files|
    decreases |files|
    ensures var run := UploadFiles(store, objects, room, files, paths);
      && |run.uploads| <= |files|
      && (run.error == None ==> |run.uploads| == |files|)
      && (run.error != None ==>
            |run.uploads| < |files| && run.error == store.UploadError(run.objects, paths[|run.uploads|]))
  {
    if files != [] && store.UploadError(objects, paths[0]) == None {
      UploadFilesStops(store, objects[paths[0] := files[0]], room, files[1..], paths[1..]);
    }
  }

  /** Files already in the bucket stay there unchanged: an upload never overwrites. */
  lemma {:induction false} UploadFilesKeeps(store: Storage, objects: map<string, File>, room: RoomKey,
                                            files: seq<File>, paths: seq<string>)
    requires |paths| == |files|
    decreases |files|
    ensures var run := UploadFiles(store, objects, room, files, paths);
      forall p :: p in objects ==> p in run.objects && run.objects[p] == objects[p]
  {
    if files != [] && store.UploadError(objects, paths[0]) == None {
      UploadFilesKeeps(store, objects[paths[0] := files[0]], room, files[1..], paths[1..]);
    }
  }

  /** The `k`-th record names the `k`-th path and its public URL. */
  lemma {:induction false} UploadFilesRecords(store: Storage, objects: map<string, File>, room: RoomKey,
                                              files: seq<File>, paths: seq<string>)
    requires |paths| == |files|
    decreases |files|
    ensures var run := UploadFiles(store, objects, room, files, paths);
      |run.uploads| <= |files|
      && forall k :: 0 <= k < |run.uploads| ==> run.uploads[k] == Upload(room, store.PublicUrl(paths[k]), paths[k])
  {
    if files != [] && store.UploadError(objects, paths[0]) == None {
      UploadFilesRecords(store, objects[paths[0] := files[0]], room, files[1..], paths[1..]);
    }
  }

  /** Each recorded file's path was free before the loop, and the file is stored under it. */
  lemma {:induction false} UploadFilesStored(store: Storage, objects: map<string, File>, room: RoomKey,
                                             files: seq<File>, paths: seq<string>)
    requires |paths| == |files|
    decreases |files|
    ensures var run := UploadFiles(store, objects, room, files, paths);
      |run.uploads| <= |files|
      && forall k :: 0 <= k < |run.uploads| ==>
           paths[k] !in objects && paths[k] in run.objects && run.objects[paths[k]] == files[k]
  {
    if files != [] && store.UploadError(objects, paths[0]) == None {
      var objects' := objects[paths[0] := files[0]];
      UploadFilesStored(store, objects', room, files[1..], paths[1..]);
      UploadFilesKeeps(store, objects', room, files[1..], paths[1..]);
      var rest := UploadFiles(store, objects', room, files[1..], paths[1..]);
      assert forall k :: 1 <= k < 1 + |rest.uploads| ==> paths[k] == paths[1..][k - 1] && files[k] == files[1..][k - 1];
    }
  }

  /** The loop adds nothing to the bucket but the recorded files. */
  lemma {:induction false} UploadFilesAddsOnlyRecords(store: Storage, objects: map<string, File>, room: RoomKey,
                                                      files: seq<File>, paths: seq<string>)
    requires |paths| == |files|
    decreases |files|
    ensures var run := UploadFiles(store, objects, room, files, paths);
      forall p :: p in run.objects && p !in objects ==> exists k :: 0 <= k < |run.uploads| && k < |files| && p == paths[k]
  {
    if files != [] && store.UploadError(objects, paths[0]) == None {
      var objects' := objects[paths[0] := files[0]];
      UploadFilesAddsOnlyRecords(store, objects', room, files[1..], paths[1..]);
      var run := UploadFiles(store, objects, room, files, paths);
      var rest := UploadFiles(store, objects', room, files[1..], paths[1..]);
      forall p | p in run.objects && p !in objects
        ensures exists k :: 0 <= k < |run.uploads| && k < |files| && p == paths[k]
      {
        if p != paths[0] {
          var k :| 0 <= k < |rest.uploads| && k < |files| - 1 && p == paths[1..][k];
          assert p == paths[k + 1];
        }
      }
    }
  }

  /** The files one loop uploads were stored under pairwise different paths: a repeated path fails. */
  lemma {:induction false} UploadedPathsDistinct(store: Storage, objects: map<string, File>, room: RoomKey,
                                                 files: seq<File>, paths: seq<string>, a: nat, b: nat)
    requires |paths| == |files| && a < b < |files|
    requires b < |UploadFiles(store, objects, room, files, paths).uploads|
    decreases |files|
    ensures paths[a] != paths[b]
  {
    var objects' := objects[paths[0] := files[0]];
    if a == 0 {
      UploadFilesStored(store, objects', room, files[1..], paths[1..]);
      assert paths[1..][b - 1] == paths[b];
    } else {
      UploadedPathsDistinct(store, objects', room, files[1..], paths[1..], a - 1, b - 1);
    }
  }

  /**
   * The outcome of `uploadRoom`'s whole loop, seen after `i` files: `done`
   * recorded, the bucket at `objects`, and the remaining files still to come.
   */
  ghost function FilesOutcome(store: Storage, objects: map<string, File>, room: RoomKey,
                              files: seq<File>, paths: seq<string>, i: nat, done: seq<Upload>): Run
    requires |paths| == |files| && i <= |files|
  {
    var rest := UploadFiles(store, objects, room, files[i..], paths[i..]);
    Run(done + rest.uploads, rest.objects, rest.error)
  }

  /**
   * The `i`-th file uploaded as `bucket.upload` does: an error is the error of
   * the whole loop, and success adds the file's record.
   */
  lemma UploadStep(store: Storage, objects: map<string, File>, room: RoomKey, files: seq<File>, paths: seq<string>,
                   i: nat, done: seq<Upload>, error: Option<Error>, after: map<string, File>)
    requires |paths| == |files| && i < |files|
    requires error == store.UploadError(objects, paths[i])
    requires after == if error == None then objects[paths[i] := files[i]] else objects
    ensures var whole := FilesOutcome(store, objects, room, files, paths, i, done);
      && (error != None ==> after == whole.objects && whole.error == error)
      && (error == None ==>
            FilesOutcome(store, after, room, files, paths, i + 1, done + [Upload(room, store.PublicUrl(paths[i]), paths[i])]) == whole)
  {
    assert files[i..][1..] == files[i + 1..] && paths[i..][1..] == paths[i + 1..];
    if error == None {
      var record := Upload(room, store.PublicUrl(paths[i]), paths[i]);
      var rest := UploadFiles(store, after, room, files[i + 1..], paths[i + 1..]);
      assert done + ([record] + rest.uploads) == (done + [record]) + rest.uploads;
    }
  }

  /** Before the first file the outcome is the whole loop's; after the last, the loop is done. */
  lemma FilesOutcomeEnds(store: Storage, objects: map<string, File>, room: RoomKey, files: seq<File>, paths: seq<string>,
                         done: seq<Upload>)
    requires |paths| == |files|
    ensures FilesOutcome(store, objects, room, files, paths, 0, []) == UploadFiles(store, objects, room, files, paths)
    ensures FilesOutcome(store, objects, room, files, paths, |files|, done) == Run(done, objects, None)
  {
    assert files[0..] == files && paths[0..] == paths;
    assert files[|files|..] == [] && done + [] == done;
  }

  // ---------------------------------------------------------------------------
  // The photo table
  // ---------------------------------------------------------------------------

  /** A `listing_photos` row as `handleFinish` inserts it. */
  datatype PhotoRow = PhotoRow(listingId: string, room: string, url: string, storagePath: string)

  /** `allUploads.map((u) => ({ listing_id, room: u.room, url: u.url, storage_path: u.path }))`. */
  function Rows(listingId: string, uploads: seq<Upload>): seq<PhotoRow>
  {
    if uploads == [] then []
    else [PhotoRow(listingId, RoomName(uploads[0].room), uploads[0].url, uploads[0].path)] + Rows(listingId, uploads[1..])
  }

  /** One row per upload, in upload order, with the upload's room, URL and path. */
  lemma {:induction false} RowsMatchUploads(listingId: string, uploads: seq<Upload>)
    ensures var rows := Rows(listingId, uploads);
      |rows| == |uploads|
      && forall k :: 0 <= k < |uploads| ==>
           rows[k] == PhotoRow(listingId, RoomName(uploads[k].room), uploads[k].url, uploads[k].path)
  {
    if uploads != [] {
      RowsMatchUploads(listingId, uploads[1..]);
    }
  }

  /** The `listing_photos` table. */
  class PhotoTable {
    var rows: seq<PhotoRow>
    /** The error every insert gets when the table refuses inserts (missing table, row-level security). */
    const refusal: Option<Error>

    constructor(rows: seq<PhotoRow>, refusal: Option<Error>)
      ensures this.rows == rows && this.refusal == refusal
    {
      this.rows := rows;
      this.refusal := refusal;
    }

    /** `insert(batch)`: one request, so the batch is stored whole or not at all. */
    method Insert(batch: seq<PhotoRow>) returns (error: Option<Error>)
      modifies this
      ensures error == refusal
      ensures rows == if refusal == None then old(rows) + batch else old(rows)
    {
      error := refusal;
      if refusal == None {
        rows := rows + batch;
      }
    }
  }

  // ---------------------------------------------------------------------------
  // Uploading every room
  // ---------------------------------------------------------------------------

  /** The number of files in the rooms from the `n`-th of `RoomKeys` on. */
  function FilesFrom(files: RoomFiles, n: nat): nat
    requires n <= |RoomKeys|
    decreases |RoomKeys| - n
  {
    if n == |RoomKeys| then 0 else |files.Get(RoomKeys[n])| + FilesFrom(files, n + 1)
  }

  /**
   * The uuids `crypto.randomUUID()` returns while `handleFinish` uploads each
   * room: one per file of that room, in the room's file order.
   */
  type RoomUuids = PerRoom<seq<string>>

  predicate UuidsFor(files: RoomFiles, uuids: RoomUuids)
  {
    forall room :: |uuids.Get(room)| == |files.Get(room)|
  }

  /** What `uploadRoom` does to `room`'s files with the room's uuids. */
  function RoomRun(store: Storage, objects: map<string, File>, listingId: string, room: RoomKey,
                   files: RoomFiles, uuids: RoomUuids): Run
    requires UuidsFor(files, uuids)
  {
    UploadFiles(store, objects, room, files.Get(room), RoomPaths(listingId, room, files.Get(room), uuids.Get(room)))
  }

  /**
   * The room loop of `handleFinish` from the `n`-th room on: rooms without
   * files are skipped, the others are uploaded in key order, and the first
   * error ends the loop.
   */
  function UploadRooms(store: Storage, objects: map<string, File>, listingId: string, files: RoomFiles,
                       uuids: RoomUuids, n: nat): Run
    requires n <= |RoomKeys| && UuidsFor(files, uuids)
    decreases |RoomKeys| - n
  {
    if n == |RoomKeys| then Run([], objects, None)
    else if files.Get(RoomKeys[n]) == [] then UploadRooms(store, objects, listingId, files, uuids, n + 1)
    else
      var run := RoomRun(store, objects, listingId, RoomKeys[n], files, uuids);
      if run.error != None then run
      else
        var rest := UploadRooms(store, run.objects, listingId, files, uuids, n + 1);
        Run(run.uploads + rest.uploads, rest.objects, rest.error)
  }

  /** How many of the records are for `room`. */
  function RoomCount(uploads: seq<Upload>, room: RoomKey): nat
  {
    if uploads == [] then 0
    else (if uploads[0].room == room then 1 else 0) + RoomCount(uploads[1..], room)
  }

  lemma {:induction false} RoomCountAppend(a: seq<Upload>, b: seq<Upload>, room: RoomKey)
    ensures RoomCount(a + b, room) == RoomCount(a, room) + RoomCount(b, room)
  {
    if a != [] {
      RoomCountAppend(a[1..], b, room);
      assert (a + b)[1..] == a[1..] + b;
    } else {
      assert a + b == b;
    }
  }

  lemma {:induction false} RoomCountSingle(uploads: seq<Upload>, r: RoomKey, room: RoomKey)
    requires forall k :: 0 <= k < |uploads| ==> uploads[k].room == r
    ensures RoomCount(uploads, room) == if room == r then |uploads| else 0
  {
    if uploads != [] {
      RoomCountSingle(uploads[1..], r, room);
    }
  }

  /** All records of one room's upload carry that room, one per file when nothing fails. */
  lemma RoomRunRecords(store: Storage, objects: map<string, File>, listingId: string, room: RoomKey,
                       files: RoomFiles, uuids: RoomUuids)
    requires UuidsFor(files, uuids)
    ensures var run := RoomRun(store, objects, listingId, room, files, uuids);
      && (forall k :: 0 <= k < |run.uploads| ==> run.uploads[k].room == room)
      && (run.error == None ==> |run.uploads| == |files.Get(room)|)
  {
    var paths := RoomPaths(listingId, room, files.Get(room), uuids.Get(room));
    UploadFilesRecords(store, objects, room, files.Get(room), paths);
    UploadFilesStops(store, objects, room, files.Get(room), paths);
  }

  lemma IndexOfKey(n: nat)
    requires n < |RoomKeys|
    ensures Index(RoomKeys[n]) == n
  {
  }

  /**
   * The outcome of `handleFinish`'s whole room loop, seen after `n` rooms:
   * `done` recorded, the bucket at `objects`, and the remaining rooms still
   * to come.
   */
  ghost function RoomLoopOutcome(store: Storage, objects: map<string, File>, listingId: string,
                                 files: RoomFiles, uuids: RoomUuids, n: nat, done: seq<Upload>): Run
    requires n <= |RoomKeys| && UuidsFor(files, uuids)
  {
    var rest := UploadRooms(store, objects, listingId, files, uuids, n);
    Run(done + rest.uploads, rest.objects, rest.error)
  }

  /** A room without files leaves the loop's outcome as it is. */
  lemma RoomLoopSkip(store: Storage, objects: map<string, File>, listingId: string,
                     files: RoomFiles, uuids: RoomUuids, n: nat, done: seq<Upload>)
    requires n < |RoomKeys| && UuidsFor(files, uuids) && files.Get(RoomKeys[n]) == []
    ensures RoomLoopOutcome(store, objects, listingId, files, uuids, n + 1, done)
         == RoomLoopOutcome(store, objects, listingId, files, uuids, n, done)
  {
  }

  /**
   * Room `n` uploaded as `uploadRoom` does: an error is the error of the whole
   * loop, and success adds the room's records.
   */
  lemma RoomLoopUpload(store: Storage, objects: map<string, File>, listingId: string,
                       files: RoomFiles, uuids: RoomUuids, n: nat, done: seq<Upload>,
                       result: Result<seq<Upload>, Error>, after: map<string, File>)
    requires n < |RoomKeys| && UuidsFor(files, uuids) && files.Get(RoomKeys[n]) != []
    requires var run := RoomRun(store, objects, listingId, RoomKeys[n], files, uuids);
      after == run.objects && result == if run.error == None then Ok(run.uploads) else Err(run.error.value)
    ensures var whole := RoomLoopOutcome(store, objects, listingId, files, uuids, n, done);
      && (result.Err? ==> after == whole.objects && whole.error == Some(result.error))
      && (result.Ok? ==> RoomLoopOutcome(store, after, listingId, files, uuids, n + 1, done + result.value) == whole)
  {
    var run := RoomRun(store, objects, listingId, RoomKeys[n], files, uuids);
    if run.error == None {
      var rest := UploadRooms(store, run.objects, listingId, files, uuids, n + 1);
      assert done + (run.uploads + rest.uploads) == (done + run.uploads) + rest.uploads;
    }
  }

  /** After the last room, the loop's records and bucket are those of the whole loop. */
  lemma RoomLoopDone(store: Storage, objects: map<string, File>, listingId: string,
                     files: RoomFiles, uuids: RoomUuids, done: seq<Upload>)
    requires UuidsFor(files, uuids)
    ensures RoomLoopOutcome(store, objects, listingId, files, uuids, |RoomKeys|, done) == Run(done, objects, None)
  {
    assert done + [] == done;
  }

  /** The records of room `n` followed by those of the later rooms count every room's files from `n` on. */
  lemma CountsCombine(head: seq<Upload>, tail: seq<Upload>, files: RoomFiles, n: nat)
    requires n < |RoomKeys|
    requires |head| == |files.Get(RoomKeys[n])| && forall k :: 0 <= k < |head| ==> head[k].room == RoomKeys[n]
    requires forall room :: RoomCount(tail, room) == if Index(room) < n + 1 then 0 else |files.Get(room)|
    ensures forall room :: RoomCount(head + tail, room) == if Index(room) < n then 0 else |files.Get(room)|
  {
    IndexOfKey(n);
    forall room ensures RoomCount(head + tail, room) == if Index(room) < n then 0 else |files.Get(room)| {
      RoomCountAppend(head, tail, room);
      RoomCountSingle(head, RoomKeys[n], room);
    }
  }

  /**
   * Without an error, the room loop makes one record per file and, for each
   * room it visits, exactly as many records as that room has files: a room
   * without files contributes none.
   */
  lemma {:induction false} UploadRoomsCounts(store: Storage, objects: map<string, File>, listingId: string, files: RoomFiles,
                                             uuids: RoomUuids, n: nat)
    requires n <= |RoomKeys| && UuidsFor(files, uuids)
    decreases |RoomKeys| - n
    ensures var run := UploadRooms(store, objects, listingId, files, uuids, n);
      run.error == None ==>
        |run.uploads| == FilesFrom(files, n)
        && forall room :: RoomCount(run.uploads, room) == if Index(room) < n then 0 else |files.Get(room)|
  {
    if n < |RoomKeys| {
      var roomFiles := files.Get(RoomKeys[n]);
      if roomFiles == [] {
        UploadRoomsCounts(store, objects, listingId, files, uuids, n + 1);
        assert UploadRooms(store, objects, listingId, files, uuids, n) == UploadRooms(store, objects, listingId, files, uuids, n + 1);
        forall room | Index(room) == n ensures files.Get(room) == [] {
        }
      } else {
        var run := RoomRun(store, objects, listingId, RoomKeys[n], files, uuids);
        if run.error == None {
          var rest := UploadRooms(store, run.objects, listingId, files, uuids, n + 1);
          UploadFilesStops(store, objects, RoomKeys[n], roomFiles, RoomPaths(listingId, RoomKeys[n], roomFiles, uuids.Get(RoomKeys[n])));
          RoomRunRecords(store, objects, listingId, RoomKeys[n], files, uuids);
          UploadRoomsCounts(store, run.objects, listingId, files, uuids, n + 1);
          if rest.error == None {
            CountsCombine(run.uploads, rest.uploads, files, n);
          }
        }
      }
    }
  }

  /** The records come room by room, in key order, none for a room before the `n`-th. */
  predicate OrderedFrom(uploads: seq<Upload>, n: nat)
  {
    && (forall k :: 0 <= k < |uploads| ==> n <= Index(uploads[k].room))
    && (forall i, j :: 0 <= i < j < |uploads| ==> Index(uploads[i].room) <= Index(uploads[j].room))
  }

  /** Records of room `n` followed by ordered records of later rooms are ordered. */
  lemma OrderCombine(head: seq<Upload>, tail: seq<Upload>, n: nat)
    requires n < |RoomKeys|
    requires forall k :: 0 <= k < |head| ==> head[k].room == RoomKeys[n]
    requires OrderedFrom(tail, n + 1)
    ensures OrderedFrom(head + tail, n)
  {
    IndexOfKey(n);
  }

  /** The records come room by room, in key order, starting at the `n`-th room. */
  lemma {:induction false} UploadRoomsOrdered(store: Storage, objects: map<string, File>, listingId: string, files: RoomFiles,
                                              uuids: RoomUuids, n: nat)
    requires n <= |RoomKeys| && UuidsFor(files, uuids)
    decreases |RoomKeys| - n
    ensures OrderedFrom(UploadRooms(store, objects, listingId, files, uuids, n).uploads, n)
  {
    if n < |RoomKeys| {
      var roomFiles := files.Get(RoomKeys[n]);
      if roomFiles == [] {
        UploadRoomsOrdered(store, objects, listingId, files, uuids, n + 1);
      } else {
        var run := RoomRun(store, objects, listingId, RoomKeys[n], files, uuids);
        RoomRunRecords(store, objects, listingId, RoomKeys[n], files, uuids);
        IndexOfKey(n);
        if run.error == None {
          var rest := UploadRooms(store, run.objects, listingId, files, uuids, n + 1);
          UploadRoomsOrdered(store, run.objects, listingId, files, uuids, n + 1);
          OrderCombine(run.uploads, rest.uploads, n);
        }
      }
    }
  }

  /** Nothing to upload: the room loop uploads nothing, records nothing and cannot fail. */
  lemma {:induction false} NothingToUpload(store: Storage, objects: map<string, File>, listingId: string, files: RoomFiles,
                                           uuids: RoomUuids, n: nat)
    requires n <= |RoomKeys| && UuidsFor(files, uuids) && FilesFrom(files, n) == 0
    decreases |RoomKeys| - n
    ensures UploadRooms(store, objects, listingId, files, uuids, n) == Run([], objects, None)
  {
    if n < |RoomKeys| {
      NothingToUpload(store, objects, listingId, files, uuids, n + 1);
    }
  }

  /** Files already in the bucket survive the room loop, whether or not it fails. */
  lemma {:induction false} UploadRoomsKeeps(store: Storage, objects: map<string, File>, listingId: string, files: RoomFiles,
                                            uuids: RoomUuids, n: nat)
    requires n <= |RoomKeys| && UuidsFor(files, uuids)
    decreases |RoomKeys| - n
    ensures var run := UploadRooms(store, objects, listingId, files, uuids, n);
      forall p :: p in objects ==> p in run.objects && run.objects[p] == objects[p]
  {
    if n < |RoomKeys| {
      var roomFiles := files.Get(RoomKeys[n]);
      if roomFiles == [] {
        UploadRoomsKeeps(store, objects, listingId, files, uuids, n + 1);
      } else {
        var run := RoomRun(store, objects, listingId, RoomKeys[n], files, uuids);
        UploadFilesKeeps(store, objects, RoomKeys[n], roomFiles, RoomPaths(listingId, RoomKeys[n], roomFiles, uuids.Get(RoomKeys[n])));
        if run.error == None {
          UploadRoomsKeeps(store, run.objects, listingId, files, uuids, n + 1);
        }
      }
    }
  }

  // ---------------------------------------------------------------------------
  // The page
  // ---------------------------------------------------------------------------

  const MissingListingMessage: string := "Missing listingId in URL. Go back and publish again."
  const PublishedMessage: string := "\U{1F389} Congrats! You have published your listing."

  /** `e?.message ?? 'Upload failed.'`. */
  function ErrorText(e: Error): string
  {
    e.message.GetOr("Upload failed.")
  }

  /** The state of `AddPhotosPage` and the services it writes to. */
  class AddPhotosPage {
    /** `searchParams.get('listingId') || ''`. */
    const listingId: string
    const storage: Storage
    const table: PhotoTable
    var filesByRoom: RoomFiles
    var loading: bool
    var msg: Option<string>
    var completed: bool
    /** The last `router.replace` target. */
    var navigation: Option<string>

    constructor(listingIdParam: Option<string>, storage: Storage, table: PhotoTable)
      ensures listingId == listingIdParam.GetOr("") && this.storage == storage && this.table == table
      ensures filesByRoom == NoFiles && !loading && msg == None && !completed && navigation == None
    {
      listingId := listingIdParam.GetOr("");
      this.storage := storage;
      this.table := table;
      filesByRoom := NoFiles;
      loading := false;
      msg := None;
      completed := false;
      navigation := None;
    }

    /** `onPick(room, fileList)`. */
    method OnPick(room: RoomKey, fileList: Option<seq<File>>)
      modifies this
      ensures filesByRoom == PickFiles(old(filesByRoom), room, fileList)
      ensures loading == old(loading) && msg == old(msg) && completed == old(completed) && navigation == old(navigation)
    {
      if fileList == None {
        return;
      }
      var next := ImagesOnly(fileList.value);
      filesByRoom := filesByRoom.Set(room, next);
    }

    /** `uploadRoom(room, files)`, with the uuids its `crypto.randomUUID()` calls return. */
    method UploadRoom(room: RoomKey, files: seq<File>, uuids: seq<string>) returns (result: Result<seq<Upload>, Error>)
      requires |uuids| == |files|
      modifies storage
      ensures var run := UploadFiles(storage, old(storage.objects), room, files, RoomPaths(listingId, room, files, uuids));
        storage.objects == run.objects
        && result == if run.error == None then Ok(run.uploads) else Err(run.error.value)
    {
      ghost var paths := RoomPaths(listingId, room, files, uuids);
      ghost var whole := UploadFiles(storage, storage.objects, room, files, paths);
      FilesOutcomeEnds(storage, storage.objects, room, files, paths, []);
      var uploads: seq<Upload> := [];
      for i := 0 to |files|
        invariant FilesOutcome(storage, storage.objects, room, files, paths, i, uploads) == whole
      {
        var file := files[i];
        var ext := Extension(file.name);
        var path := StoragePath(listingId, room, uuids[i], ext);
        assert path == paths[i] by {
          RoomPathAt(listingId, room, files, uuids, i);
        }
        ghost var before := storage.objects;
        var error := storage.Upload(path, file);
        UploadStep(storage, before, room, files, paths, i, uploads, error, storage.objects);
        if error != None {
          return Err(error.value);
        }
        uploads := uploads + [Upload(room, storage.PublicUrl(path), path)];
      }
      FilesOutcomeEnds(storage, storage.objects, room, files, paths, uploads);
      return Ok(uploads);
    }

    /**
     * The room loop of `handleFinish`: each room with files is uploaded in key
     * order, and the first error is rethrown.
     */
    method UploadEveryRoom(files: RoomFiles, uuids: RoomUuids) returns (result: Result<seq<Upload>, Error>)
      requires UuidsFor(files, uuids)
      modifies storage
      ensures var run := UploadRooms(storage, old(storage.objects), listingId, files, uuids, 0);
        storage.objects == run.objects
        && result == if run.error == None then Ok(run.uploads) else Err(run.error.value)
    {
      ghost var whole := UploadRooms(storage, storage.objects, listingId, files, uuids, 0);
      var allUploads: seq<Upload> := [];
      for n := 0 to |RoomKeys|
        invariant RoomLoopOutcome(storage, storage.objects, listingId, files, uuids, n, allUploads) == whole
      {
        var room := RoomKeys[n];
        var roomFiles := files.Get(room);
        if roomFiles == [] {
          RoomLoopSkip(storage, storage.objects, listingId, files, uuids, n, allUploads);
          continue;
        }
        ghost var before := storage.objects;
        var uploaded := UploadRoom(room, roomFiles, uuids.Get(room));
        RoomLoopUpload(storage, before, listingId, files, uuids, n, allUploads, uploaded, storage.objects);
        if uploaded.Err? {
          return uploaded;
        }
        allUploads := allUploads + uploaded.value;
      }
      RoomLoopDone(storage, storage.objects, listingId, files, uuids, allUploads);
      return Ok(allUploads);
    }

    /**
     * `handleFinish()`, given whether `auth.getUser()` finds a user and the
     * uuids for each room's files.
     */
    method HandleFinish(user: Option<string>, uuids: RoomUuids)
      requires UuidsFor(filesByRoom, uuids)
      modifies this, storage, table
      ensures filesByRoom == old(filesByRoom)
      ensures listingId == "" ==>
        msg == Some(MissingListingMessage) && loading == old(loading) && completed == old(completed)
        && navigation == old(navigation) && storage.objects == old(storage.objects) && table.rows == old(table.rows)
      ensures listingId != "" && user == None ==>
        navigation == Some("/login") && msg == None && !loading && completed == old(completed)
        && storage.objects == old(storage.objects) && table.rows == old(table.rows)
      ensures listingId != "" && user != None ==>
        var run := UploadRooms(storage, old(storage.objects), listingId, old(filesByRoom), uuids, 0);
        storage.objects == run.objects && !loading && navigation == old(navigation)
        && (run.error != None ==>
              msg == Some(ErrorText(run.error.value)) && completed == old(completed) && table.rows == old(table.rows))
        && (run.error == None && run.uploads == [] ==>
              msg == Some(PublishedMessage) && completed && table.rows == old(table.rows))
        && (run.error == None && run.uploads != [] && table.refusal != None ==>
              msg == Some(ErrorText(table.refusal.value)) && completed == old(completed) && table.rows == old(table.rows))
        && (run.error == None && run.uploads != [] && table.refusal == None ==>
              msg == Some(PublishedMessage) && completed && table.rows == old(table.rows) + Rows(listingId, run.uploads))
    {
      if listingId == "" {
        msg := Some(MissingListingMessage);
        return;
      }
      loading := true;
      msg := None;
      if user == None {
        navigation := Some("/login");
        loading := false;
        return;
      }
      var result := UploadEveryRoom(filesByRoom, uuids);
      if result.Err? {
        msg := Some(ErrorText(result.error));
        loading := false;
        return;
      }
      var allUploads := result.value;
      if |allUploads| > 0 {
        var error := table.Insert(Rows(listingId, allUploads));
        if error != None {
          msg := Some(ErrorText(error.value));
          loading := false;
          return;
        }
      }
      completed := true;
      msg := Some(PublishedMessage);
      loading := false;
    }
  }
}
