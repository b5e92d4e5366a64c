/**
 * The listings page: `pickPreviewPhotos`, which chooses the thumbnail strip of
 * one listing, and the loop that buckets the fetched photo rows by listing.
 *
 * The selection works in two phases. Phase 1 visits the rooms kitchen,
 * bedroom, bathroom, living_room in that order and takes the oldest photo of
 * each, unless its storage path is already taken or the strip is full.
 * Phase 2 fills the free slots with the photos whose paths phase 1 did not
 * take, oldest first. `PickPreview` states the result as a function of the
 * input; `PickPreviewPhotos` computes it step by step as the page does.
 */
module Listings {
  import opened Wrappers
  import JsText

  /** A row of `listing_photos` as the listings page selects it. */
  datatype Photo = Photo(listingId: string, room: string, storagePath: string, createdAt: string)

  /** The rooms phase 1 visits, in visiting order. */
  const RoomOrder: seq<string> := ["kitchen", "bedroom", "bathroom", "living_room"]

  /** The position of a room in `RoomOrder`, and 4 for every other room tag. */
  function Rank(room: string): (r: nat)
    ensures r <= 4
    ensures r < 4 <==> room in RoomOrder
    ensures r < 4 ==> RoomOrder[r] == room
  {
    if room == "kitchen" then 0
    else if room == "bedroom" then 1
    else if room == "bathroom" then 2
    else if room == "living_room" then 3
    else 4
  }

  // ---------------------------------------------------------------------------
  // Grouping photo rows into buckets
  // ---------------------------------------------------------------------------

  /** The field a grouping loop keys its dictionary on. */
  datatype Key = ByRoom | ByListing

  function KeyOf(p: Photo, key: Key): string
  {
    match key
    case ByRoom => p.room
    case ByListing => p.listingId
  }

  /** The photos of `s` whose key is `k`, in their order in `s`. */
  function Bucket(s: seq<Photo>, key: Key, k: string): seq<Photo>
  {
    if s == [] then []
    else Bucket(s[..|s| - 1], key, k) + (if KeyOf(s[|s| - 1], key) == k then [s[|s| - 1]] else [])
  }

  /** A bucket holds exactly the photos of the input that carry its key. */
  lemma {:induction false} BucketMembers(s: seq<Photo>, key: Key, k: string)
    ensures forall p :: p in Bucket(s, key, k) <==> p in s && KeyOf(p, key) == k
  {
    if s != [] {
      BucketMembers(s[..|s| - 1], key, k);
      assert s == s[..|s| - 1] + [s[|s| - 1]];
    }
  }

  /** A bucket holds each such photo as many times as the input does, and no other. */
  lemma {:induction false} BucketCount(s: seq<Photo>, key: Key, k: string, p: Photo)
    ensures multiset(Bucket(s, key, k))[p] == if KeyOf(p, key) == k then multiset(s)[p] else 0
  {
    if s != [] {
      BucketCount(s[..|s| - 1], key, k, p);
      assert s == s[..|s| - 1] + [s[|s| - 1]];
    }
  }

  /** Appending a photo extends the bucket of its key and no other. */
  lemma BucketSnoc(s: seq<Photo>, x: Photo, key: Key, k: string)
    ensures Bucket(s + [x], key, k) == Bucket(s, key, k) + if KeyOf(x, key) == k then [x] else []
  {
    assert (s + [x])[..|s + [x]| - 1] == s;
  }

  /** Photos earlier in the input come earlier in the bucket: the bucket of a concatenation is the concatenation of the buckets. */
  lemma {:induction false} BucketAppend(a: seq<Photo>, b: seq<Photo>, key: Key, k: string)
    ensures Bucket(a + b, key, k) == Bucket(a, key, k) + Bucket(b, key, k)
  {
    if b != [] {
      var front, y := b[..|b| - 1], b[|b| - 1];
      assert b == front + [y];
      assert a + b == (a + front) + [y];
      BucketAppend(a, front, key, k);
      BucketSnoc(a + front, y, key, k);
      BucketSnoc(front, y, key, k);
    } else {
      assert a + b == a;
    }
  }

  /** A key has a non-empty bucket exactly when some photo carries it. */
  lemma BucketNonEmpty(s: seq<Photo>, key: Key, k: string)
    ensures Bucket(s, key, k) != [] <==> exists p :: p in s && KeyOf(p, key) == k
  {
    BucketMembers(s, key, k);
    var b := Bucket(s, key, k);
    if b != [] {
      assert b[0] in b;
    }
  }

  /**
   * The dictionary the loop `for (const p of photos) { g[key] = g[key] || [];
   * g[key].push(p); }` has built once it has seen the photos of `s`.
   */
  function Grouping(s: seq<Photo>, key: Key): map<string, seq<Photo>>
  {
    if s == [] then map[]
    else
      var g, p := Grouping(s[..|s| - 1], key), s[|s| - 1];
      var k := KeyOf(p, key);
      g[k := (if k in g then g[k] else []) + [p]]
  }

  /**
   * A key is present exactly when some photo carries it, and its bucket lists
   * those photos in input order.
   */
  lemma {:induction false} GroupingBuckets(s: seq<Photo>, key: Key)
    ensures forall k :: k in Grouping(s, key) <==> Bucket(s, key, k) != []
    ensures forall k :: k in Grouping(s, key) ==> Grouping(s, key)[k] == Bucket(s, key, k)
  {
    if s != [] {
      var init, p := s[..|s| - 1], s[|s| - 1];
      GroupingBuckets(init, key);
      forall k ensures Bucket(s, key, k) == Bucket(init, key, k) + if KeyOf(p, key) == k then [p] else [] {
        assert s == init + [p];
        BucketSnoc(init, p, key, k);
      }
    }
  }

  /** The grouping loop, run over `photos`. */
  method GroupPhotos(photos: seq<Photo>, key: Key) returns (grouped: map<string, seq<Photo>>)
    ensures grouped == Grouping(photos, key)
    ensures forall k :: k in grouped <==> Bucket(photos, key, k) != []
    ensures forall k :: k in grouped ==> grouped[k] == Bucket(photos, key, k)
  {
    grouped := map[];
    for i := 0 to |photos|
      invariant grouped == Grouping(photos[..i], key)
    {
      var p := photos[i];
      var k := KeyOf(p, key);
      var bucket := if k in grouped then grouped[k] else [];
      assert photos[..i + 1][..i] == photos[..i];
      grouped := grouped[k := bucket + [p]];
    }
    assert photos[..|photos|] == photos;
    GroupingBuckets(photos, key);
  }

  /** The listings page keys on `listing_id`: there is one bucket per listing that has photos. */
  lemma ListingKeys(photos: seq<Photo>)
    ensures forall id :: id in Grouping(photos, ByListing) <==> exists p :: p in photos && p.listingId == id
  {
    GroupingBuckets(photos, ByListing);
    forall id ensures (id in Grouping(photos, ByListing) <==> exists p :: p in photos && p.listingId == id) {
      BucketNonEmpty(photos, ByListing, id);
    }
  }

  /** Each bucket holds photos of its own listing only. */
  lemma ListingBucketsOwn(photos: seq<Photo>)
    ensures forall id, p :: id in Grouping(photos, ByListing) && p in Grouping(photos, ByListing)[id] ==> p in photos && p.listingId == id
  {
    GroupingBuckets(photos, ByListing);
    forall id | id in Grouping(photos, ByListing) ensures forall p :: p in Bucket(photos, ByListing, id) ==> p in photos && p.listingId == id {
      BucketMembers(photos, ByListing, id);
    }
  }

  /** Every photo lands in its listing's bucket, as often as it occurs in the input. */
  lemma ListingBucketsComplete(photos: seq<Photo>)
    ensures forall p :: p in photos ==> p.listingId in Grouping(photos, ByListing) && multiset(Grouping(photos, ByListing)[p.listingId])[p] == multiset(photos)[p]
  {
    GroupingBuckets(photos, ByListing);
    forall p | p in photos ensures p.listingId in Grouping(photos, ByListing) && multiset(Bucket(photos, ByListing, p.listingId))[p] == multiset(photos)[p] {
      BucketNonEmpty(photos, ByListing, p.listingId);
      BucketCount(photos, ByListing, p.listingId, p);
    }
  }

  // ---------------------------------------------------------------------------
  // Ordering by created_at
  // ---------------------------------------------------------------------------

  /**
   * The comparator `(a, b) => (a.created_at > b.created_at ? 1 : -1)` asks for
   * `a` after `b` exactly when `b.created_at < a.created_at` as strings. It never
   * answers 0, so the engine is free to order equal timestamps either way.
   */
  predicate After(a: Photo, b: Photo)
  {
    JsText.Less(b.createdAt, a.createdAt)
  }

  /** Oldest first, up to ties: no photo has a strictly earlier timestamp than one before it. */
  predicate SortedByTime(s: seq<Photo>)
  {
    forall i, j :: 0 <= i < j < |s| ==> !JsText.Less(s[j].createdAt, s[i].createdAt)
  }

  /** Places `x` before the first element of `s` that it need not follow. */
  function Insert(x: Photo, s: seq<Photo>): seq<Photo>
  {
    if s == [] then [x]
    else if After(x, s[0]) then [s[0]] + Insert(x, s[1..])
    else [x] + s
  }

  lemma {:induction false} InsertPermutes(x: Photo, s: seq<Photo>)
    ensures multiset(Insert(x, s)) == multiset(s) + multiset{x}
  {
    if s != [] {
      assert s == [s[0]] + s[1..];
      if After(x, s[0]) {
        InsertPermutes(x, s[1..]);
      }
    }
  }

  lemma {:induction false} InsertSorted(x: Photo, s: seq<Photo>)
    requires SortedByTime(s)
    ensures SortedByTime(Insert(x, s))
  {
    if s == [] {
    } else if After(x, s[0]) {
      var t := Insert(x, s[1..]);
      InsertSorted(x, s[1..]);
      InsertPermutes(x, s[1..]);
      JsText.LessAsymmetric(s[0].createdAt, x.createdAt);
      forall j | 0 <= j < |t| ensures !JsText.Less(t[j].createdAt, s[0].createdAt) {
        assert t[j] in multiset(t);
        if t[j] != x {
          assert t[j] in multiset(s[1..]);
          var m :| 0 <= m < |s[1..]| && s[1..][m] == t[j];
          assert s[m + 1] == t[j];
        }
      }
    } else {
      forall j | 0 <= j < |s| ensures !JsText.Less(s[j].createdAt, x.createdAt) {
        if j > 0 {
          JsText.NotLessTransitive(x.createdAt, s[0].createdAt, s[j].createdAt);
        }
      }
    }
  }

  /**
   * `Array.prototype.sort` with the comparator above, taken as an insertion
   * sort: any sort the engine uses returns a permutation ordered oldest first
   * (`SortPermutes`, `SortSorted`), and may differ from this one only in the
   * order of equal timestamps.
   */
  function SortByTime(s: seq<Photo>): seq<Photo>
  {
    if s == [] then [] else Insert(s[0], SortByTime(s[1..]))
  }

  /** Sorting keeps every photo, as often as it occurs. */
  lemma {:induction false} SortPermutes(s: seq<Photo>)
    ensures multiset(SortByTime(s)) == multiset(s)
  {
    if s != [] {
      SortPermutes(s[1..]);
      InsertPermutes(s[0], SortByTime(s[1..]));
      assert s == [s[0]] + s[1..];
    }
  }

  /** Sorting puts the photos oldest first. */
  lemma {:induction false} SortSorted(s: seq<Photo>)
    ensures SortedByTime(SortByTime(s))
  {
    if s != [] {
      SortSorted(s[1..]);
      InsertSorted(s[0], SortByTime(s[1..]));
    }
  }

  /** Sets of storage paths. */
  function PathSet(s: seq<Photo>): set<string>
  {
    set p | p in s :: p.storagePath
  }

  lemma PathSetAppend(s: seq<Photo>, x: Photo)
    ensures PathSet(s + [x]) == PathSet(s) + {x.storagePath}
  {
    assert forall p :: p in s + [x] <==> p in s || p == x;
  }

  predicate DistinctPaths(s: seq<Photo>)
  {
    forall i, j :: 0 <= i < j < |s| ==> s[i].storagePath != s[j].storagePath
  }

  lemma {:induction false} InsertDistinct(x: Photo, s: seq<Photo>)
    requires DistinctPaths(s) && x.storagePath !in PathSet(s)
    ensures DistinctPaths(Insert(x, s))
  {
    if s != [] && After(x, s[0]) {
      assert PathSet(s[1..]) <= PathSet(s);
      InsertDistinct(x, s[1..]);
      InsertPermutes(x, s[1..]);
      var t := Insert(x, s[1..]);
      forall j | 0 <= j < |t| ensures t[j].storagePath != s[0].storagePath {
        assert t[j] in multiset(t);
        if t[j] != x {
          assert t[j] in multiset(s[1..]);
          var m :| 0 <= m < |s[1..]| && s[1..][m] == t[j];
          assert s[m + 1] == t[j];
        }
      }
    } else if s != [] {
      forall j | 0 <= j < |s| ensures s[j].storagePath != x.storagePath {
        assert s[j] in s;
      }
    }
  }

  /** Sorting keeps storage paths distinct. */
  lemma {:induction false} SortDistinct(s: seq<Photo>)
    requires DistinctPaths(s)
    ensures DistinctPaths(SortByTime(s))
  {
    if s != [] {
      SortDistinct(s[1..]);
      SortPermutes(s[1..]);
      var t := SortByTime(s[1..]);
      forall p | p in t ensures p.storagePath != s[0].storagePath {
        assert p in multiset(s[1..]);
        var m :| 0 <= m < |s[1..]| && s[1..][m] == p;
        assert s[m + 1] == p;
      }
      InsertDistinct(s[0], t);
    }
  }

  // ---------------------------------------------------------------------------
  // The selection, as a function of its input
  // ---------------------------------------------------------------------------

  /** `byRoom[room]?.[0]` once each bucket is sorted: the oldest photo of the room, if it has any. */
  function FirstOf(all: seq<Photo>, room: string): Option<Photo>
  {
    var s := SortByTime(Bucket(all, ByRoom, room));
    if s == [] then None else Some(s[0])
  }

  /** Phase 1's treatment of one room: take its oldest photo if its path is new and a slot is free. */
  function Step(all: seq<Photo>, max: int, chosen: seq<Photo>, room: string): seq<Photo>
  {
    match FirstOf(all, room)
    case None => chosen
    case Some(first) =>
      if first.storagePath !in PathSet(chosen) && |chosen| < max then chosen + [first] else chosen
  }

  /** The picks after phase 1 has visited the first `n` rooms of `RoomOrder`. */
  function Phase1(all: seq<Photo>, max: int, n: nat): seq<Photo>
    requires n <= |RoomOrder|
  {
    if n == 0 then [] else Step(all, max, Phase1(all, max, n - 1), RoomOrder[n - 1])
  }

  /** `all.filter((p) => !usedUrls.has(p.storage_path))`. */
  function Unused(all: seq<Photo>, used: set<string>): seq<Photo>
  {
    if all == [] then []
    else Unused(all[..|all| - 1], used) + (if all[|all| - 1].storagePath !in used then [all[|all| - 1]] else [])
  }

  /** The first `n` elements of `s`, or all of them. */
  function Take(s: seq<Photo>, n: nat): seq<Photo>
  {
    if n < |s| then s[..n] else s
  }

  /** Phase 2's contribution, given the phase-1 picks. */
  function Fill(all: seq<Photo>, max: int, picks: seq<Photo>): seq<Photo>
  {
    if |picks| < max then Take(SortByTime(Unused(all, PathSet(picks))), max - |picks|) else []
  }

  /** What `pickPreviewPhotos(all, max)` returns. */
  function PickPreview(all: seq<Photo>, max: int): seq<Photo>
  {
    var picks := Phase1(all, max, |RoomOrder|);
    picks + Fill(all, max, picks)
  }

  // ---------------------------------------------------------------------------
  // The selection, step by step
  // ---------------------------------------------------------------------------

  /** `pickPreviewPhotos(all, max)`. */
  method PickPreviewPhotos(all: seq<Photo>, max: int) returns (chosen: seq<Photo>)
    ensures chosen == PickPreview(all, max)
  {
    // group by room
    var byRoom := GroupPhotos(all, ByRoom);
    // sort each room by created_at, oldest first
    byRoom := SortEachRoom(all, byRoom);
    // 1) one per preferred room
    var usedUrls;
    chosen, usedUrls := OnePerRoom(all, max, byRoom);
    // 2) fill with remaining photos from anywhere
    if |chosen| < max {
      chosen := FillRemaining(all, max, chosen, usedUrls);
    }
  }

  /** `for (const r of Object.keys(byRoom)) byRoom[r].sort(...)`: every bucket ends up sorted. */
  method SortEachRoom(all: seq<Photo>, grouped: map<string, seq<Photo>>) returns (byRoom: map<string, seq<Photo>>)
    requires forall r :: r in grouped <==> Bucket(all, ByRoom, r) != []
    requires forall r :: r in grouped ==> grouped[r] == Bucket(all, ByRoom, r)
    ensures forall r :: r in byRoom <==> Bucket(all, ByRoom, r) != []
    ensures forall r :: r in byRoom ==> byRoom[r] == SortByTime(Bucket(all, ByRoom, r))
  {
    byRoom := grouped;
    var pending := byRoom.Keys;
    while pending != {}
      invariant pending <= byRoom.Keys
      invariant byRoom.Keys == grouped.Keys
      invariant forall r :: r in byRoom ==>
        byRoom[r] == if r in pending then grouped[r] else SortByTime(grouped[r])
      decreases pending
    {
      var r :| r in pending;
      byRoom := byRoom[r := SortByTime(byRoom[r])];
      pending := pending - {r};
    }
  }

  /** `byRoom[room]?.[0]` is `FirstOf(all, room)` once the buckets are sorted. */
  lemma FirstInBucket(all: seq<Photo>, byRoom: map<string, seq<Photo>>, room: string)
    requires forall r :: r in byRoom <==> Bucket(all, ByRoom, r) != []
    requires forall r :: r in byRoom ==> byRoom[r] == SortByTime(Bucket(all, ByRoom, r))
    ensures FirstOf(all, room) == if room in byRoom && |byRoom[room]| > 0 then Some(byRoom[room][0]) else None
  {
    var b := Bucket(all, ByRoom, room);
    SortPermutes(b);
    assert |SortByTime(b)| == |b| by {
      assert |multiset(SortByTime(b))| == |multiset(b)|;
    }
  }

  /** Phase 1: the loop over `ROOM_ORDER`, given the sorted buckets. */
  method OnePerRoom(all: seq<Photo>, max: int, byRoom: map<string, seq<Photo>>)
    returns (chosen: seq<Photo>, usedUrls: set<string>)
    requires forall r :: r in byRoom <==> Bucket(all, ByRoom, r) != []
    requires forall r :: r in byRoom ==> byRoom[r] == SortByTime(Bucket(all, ByRoom, r))
    ensures chosen == Phase1(all, max, |RoomOrder|)
    ensures usedUrls == PathSet(chosen)
  {
    chosen, usedUrls := [], {};
    for i := 0 to |RoomOrder|
      invariant chosen == Phase1(all, max, i)
      invariant usedUrls == PathSet(chosen)
    {
      var room := RoomOrder[i];
      Phase1Next(all, max, byRoom, i);
      if room in byRoom && |byRoom[room]| > 0 {
        var first := byRoom[room][0];
        if first.storagePath !in usedUrls && |chosen| < max {
          chosen := chosen + [first];
          usedUrls := usedUrls + {first.storagePath};
        }
      }
    }
  }

  /** One round of phase 1, stated over the sorted buckets. */
  lemma Phase1Next(all: seq<Photo>, max: int, byRoom: map<string, seq<Photo>>, i: nat)
    requires i < |RoomOrder|
    requires forall r :: r in byRoom <==> Bucket(all, ByRoom, r) != []
    requires forall r :: r in byRoom ==> byRoom[r] == SortByTime(Bucket(all, ByRoom, r))
    ensures var room, c := RoomOrder[i], Phase1(all, max, i);
      Phase1(all, max, i + 1) ==
        if room in byRoom && |byRoom[room]| > 0 && byRoom[room][0].storagePath !in PathSet(c) && |c| < max
        then c + [byRoom[room][0]] else c
    ensures var room, c := RoomOrder[i], Phase1(all, max, i);
      room in byRoom && |byRoom[room]| > 0 ==> PathSet(c + [byRoom[room][0]]) == PathSet(c) + {byRoom[room][0].storagePath}
  {
    var room := RoomOrder[i];
    FirstInBucket(all, byRoom, room);
    if room in byRoom && |byRoom[room]| > 0 {
      PathSetAppend(Phase1(all, max, i), byRoom[room][0]);
    }
  }

  /** Phase 2: the loop over the sorted unused photos, which stops once `max` photos are chosen. */
  method FillRemaining(all: seq<Photo>, max: int, picks: seq<Photo>, usedUrls: set<string>)
    returns (chosen: seq<Photo>)
    requires |picks| < max && usedUrls == PathSet(picks)
    ensures chosen == picks + Fill(all, max, picks)
  {
    var remaining := Unused(all, usedUrls);
    remaining := SortByTime(remaining);
    chosen := picks;
    var used := usedUrls;
    var i := 0;
    while i < |remaining|
      invariant 0 <= i <= |remaining|
      invariant chosen == picks + remaining[..i]
      invariant |chosen| <= max
    {
      if |chosen| >= max {
        break;
      }
      chosen := chosen + [remaining[i]];
      used := used + {remaining[i].storagePath};
      i := i + 1;
    }
    assert remaining[..i] == Take(remaining, max - |picks|);
  }
}
