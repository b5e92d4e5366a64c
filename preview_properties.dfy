/**
 * What `pickPreviewPhotos` guarantees, proved about `Listings.PickPreview`:
 * the bound, where the photos come from, the shape of phase 1, the order of
 * phase 2, exact length and distinct paths when the input paths are distinct,
 * and a few concrete inputs, among them one that shows phase 2 repeating a path.
 */
module PreviewProperties {
  import opened Wrappers
  import JsText
  import opened Listings

  // ---------------------------------------------------------------------------
  // Building blocks
  // ---------------------------------------------------------------------------

  lemma SortedMembers(s: seq<Photo>)
    ensures forall q :: q in SortByTime(s) <==> q in s
    ensures |SortByTime(s)| == |s|
  {
    var t := SortByTime(s);
    SortPermutes(s);
    forall q ensures q in t <==> q in s {
      assert q in t <==> q in multiset(t);
      assert q in s <==> q in multiset(s);
    }
    assert |multiset(t)| == |multiset(s)|;
  }

  /** The phase-1 candidate of a room exists exactly when the room has a photo, and is one of its oldest. */
  lemma FirstOfOldest(all: seq<Photo>, room: string)
    ensures FirstOf(all, room).Some? <==> exists q :: q in all && q.room == room
    ensures FirstOf(all, room).Some? ==>
      var f := FirstOf(all, room).value;
      f in all && f.room == room &&
      forall q :: q in all && q.room == room ==> !JsText.Less(q.createdAt, f.createdAt)
  {
    var b := Bucket(all, ByRoom, room);
    var s := SortByTime(b);
    BucketMembers(all, ByRoom, room);
    SortedMembers(b);
    SortSorted(b);
    if q :| q in all && q.room == room {
      assert q in s;
    }
    if s != [] {
      assert s[0] in s;
      forall q | q in all && q.room == room ensures !JsText.Less(q.createdAt, s[0].createdAt) {
        assert q in s;
        var j :| 0 <= j < |s| && s[j] == q;
        if j == 0 {
          JsText.LessIrreflexive(q.createdAt);
        }
      }
    }
  }

  /** Phase 1 after `n` rooms: bounded, one oldest photo per visited room in room order, distinct paths. */
  /** The shape phase 1 gives its picks after visiting `n` rooms. */
  ghost predicate Phase1Shape(all: seq<Photo>, max: int, n: nat, c: seq<Photo>)
  {
    && |c| <= n
    && (max <= 0 ==> c == [])
    && (max >= 0 ==> |c| <= max)
    && (forall i :: 0 <= i < |c| ==> Rank(c[i].room) < n && FirstOf(all, c[i].room) == Some(c[i]))
    && (forall i, j :: 0 <= i < j < |c| ==> Rank(c[i].room) < Rank(c[j].room))
    && DistinctPaths(c)
  }

  /** Phase 1 after `n` rooms: bounded, one oldest photo per visited room in room order, distinct paths. */
  lemma {:induction false} Phase1Facts(all: seq<Photo>, max: int, n: nat)
    requires n <= |RoomOrder|
    ensures Phase1Shape(all, max, n, Phase1(all, max, n))
  {
    if n > 0 {
      Phase1Facts(all, max, n - 1);
      Phase1StepShape(all, max, n - 1, Phase1(all, max, n - 1));
    }
  }

  lemma Phase1StepShape(all: seq<Photo>, max: int, n: nat, prev: seq<Photo>)
    requires n < |RoomOrder|
    requires Phase1Shape(all, max, n, prev)
    ensures Phase1Shape(all, max, n + 1, Step(all, max, prev, RoomOrder[n]))
  {
    var room := RoomOrder[n];
    FirstOfOldest(all, room);
    match FirstOf(all, room)
    case None =>
    case Some(f) =>
      if f.storagePath !in PathSet(prev) && |prev| < max {
        var c := prev + [f];
        assert Rank(f.room) == n;
        forall i | 0 <= i < |prev| ensures c[i].storagePath != f.storagePath {
          assert prev[i] in prev;
        }
      }
  }

  /** Later rounds of phase 1 only append. */
  lemma {:induction false} Phase1Prefix(all: seq<Photo>, max: int, m: nat, n: nat)
    requires m <= n <= |RoomOrder|
    ensures |Phase1(all, max, m)| <= |Phase1(all, max, n)|
    ensures Phase1(all, max, n)[..|Phase1(all, max, m)|] == Phase1(all, max, m)
  {
    if m < n {
      Phase1Prefix(all, max, m, n - 1);
    }
  }

  lemma {:induction false} UnusedMembers(all: seq<Photo>, used: set<string>)
    ensures forall q :: q in Unused(all, used) <==> q in all && q.storagePath !in used
  {
    if all != [] {
      UnusedMembers(all[..|all| - 1], used);
      assert all == all[..|all| - 1] + [all[|all| - 1]];
    }
  }

  /** Phase 2 appends photos of the input whose paths phase 1 did not take, oldest first, and never overfills. */
  lemma FillFacts(all: seq<Photo>, max: int, picks: seq<Photo>)
    ensures var fill := Fill(all, max, picks);
      && SortedByTime(fill)
      && (forall q :: q in fill ==> q in all && q.storagePath !in PathSet(picks))
      && (|picks| >= max ==> fill == [])
      && (|picks| < max ==> |fill| <= max - |picks|)
  {
    var u := Unused(all, PathSet(picks));
    UnusedMembers(all, PathSet(picks));
    SortedMembers(u);
    SortSorted(u);
    var s := SortByTime(u);
    if |picks| < max {
      var fill := Take(s, max - |picks|);
      forall q | q in fill ensures q in s {
        var j :| 0 <= j < |fill| && fill[j] == q;
        assert s[j] == q;
      }
    }
  }

  // ---------------------------------------------------------------------------
  // The candidate properties
  // ---------------------------------------------------------------------------

  /** Never more than `max` photos; nothing at all for `max <= 0` or an empty input. */
  lemma PreviewBounded(all: seq<Photo>, max: int)
    ensures max <= 0 ==> PickPreview(all, max) == []
    ensures max >= 0 ==> |PickPreview(all, max)| <= max
    ensures all == [] ==> PickPreview(all, max) == []
  {
    var picks := Phase1(all, max, |RoomOrder|);
    Phase1Facts(all, max, |RoomOrder|);
    FillFacts(all, max, picks);
    if all == [] {
      if picks != [] {
        FirstOfOldest(all, picks[0].room);
      }
    }
  }

  /** Every photo of the preview is a row of the input. */
  lemma PreviewFromInput(all: seq<Photo>, max: int)
    ensures forall q :: q in PickPreview(all, max) ==> q in all
  {
    var picks := Phase1(all, max, |RoomOrder|);
    Phase1Facts(all, max, |RoomOrder|);
    FillFacts(all, max, picks);
    forall q | q in PickPreview(all, max) ensures q in all {
      if q in picks {
        var i :| 0 <= i < |picks| && picks[i] == q;
        FirstOfOldest(all, q.room);
      }
    }
  }

  /**
   * The phase-1 picks open the preview. Each is the oldest photo of a
   * priority room (up to equal timestamps), the rooms follow `RoomOrder`
   * without repetition, and so there are at most four.
   */
  lemma PreviewPhase1First(all: seq<Photo>, max: int)
    ensures var r, picks := PickPreview(all, max), Phase1(all, max, |RoomOrder|);
      && |picks| <= |r| && r[..|picks|] == picks
      && |picks| <= |RoomOrder|
      && (forall i :: 0 <= i < |picks| ==> picks[i].room in RoomOrder && picks[i] in all)
      && (forall i, q :: 0 <= i < |picks| && q in all && q.room == picks[i].room ==>
            !JsText.Less(q.createdAt, picks[i].createdAt))
      && (forall i, j :: 0 <= i < j < |picks| ==> Rank(picks[i].room) < Rank(picks[j].room))
  {
    var picks := Phase1(all, max, |RoomOrder|);
    Phase1Facts(all, max, |RoomOrder|);
    forall i | 0 <= i < |picks| ensures picks[i].room in RoomOrder && picks[i] in all {
      FirstOfOldest(all, picks[i].room);
    }
    forall i, q | 0 <= i < |picks| && q in all && q.room == picks[i].room
      ensures !JsText.Less(q.createdAt, picks[i].createdAt)
    {
      FirstOfOldest(all, picks[i].room);
    }
  }

  /** A photo of any other room can only sit after all phase-1 picks. */
  lemma PreviewOtherRoomsLast(all: seq<Photo>, max: int)
    ensures var r, picks := PickPreview(all, max), Phase1(all, max, |RoomOrder|);
      forall i :: 0 <= i < |r| && r[i].room !in RoomOrder ==> |picks| <= i
  {
    var picks := Phase1(all, max, |RoomOrder|);
    Phase1Facts(all, max, |RoomOrder|);
  }

  /** The phase-2 part is oldest first (up to ties) and reuses no phase-1 path. */
  lemma PreviewFillSorted(all: seq<Photo>, max: int)
    ensures var r, picks := PickPreview(all, max), Phase1(all, max, |RoomOrder|);
      && SortedByTime(r[|picks|..])
      && forall q :: q in r[|picks|..] ==> q.storagePath !in PathSet(picks)
  {
    var picks := Phase1(all, max, |RoomOrder|);
    FillFacts(all, max, picks);
    assert PickPreview(all, max)[|picks|..] == Fill(all, max, picks);
  }

  /**
   * A room whose oldest photo has a path an earlier room already took is
   * skipped: phase 1 takes no other photo of that room instead.
   */
  lemma SkippedRoomHasNoSubstitute(all: seq<Photo>, max: int, k: nat)
    requires k < |RoomOrder|
    requires FirstOf(all, RoomOrder[k]).Some?
    requires FirstOf(all, RoomOrder[k]).value.storagePath in PathSet(Phase1(all, max, k))
    ensures forall q :: q in Phase1(all, max, |RoomOrder|) ==> q.room != RoomOrder[k]
  {
    var f := FirstOf(all, RoomOrder[k]).value;
    var before := Phase1(all, max, k);
    var picks := Phase1(all, max, |RoomOrder|);
    var y :| y in before && y.storagePath == f.storagePath;
    var m :| 0 <= m < |before| && before[m] == y;
    Phase1Prefix(all, max, k, |RoomOrder|);
    assert picks[m] == y;
    PickRoomRank(all, max, k, m);
    FirstOfOldest(all, RoomOrder[k]);
    assert f.room == RoomOrder[k];
    PickDistinct(all, max);
    NotInDistinct(picks, m, f);
    forall q | q in picks ensures q.room == RoomOrder[k] ==> q == f {
      var i :| 0 <= i < |picks| && picks[i] == q;
      PickIsFirst(all, max, i);
    }
  }

  lemma PickRoomRank(all: seq<Photo>, max: int, n: nat, i: nat)
    requires n <= |RoomOrder| && i < |Phase1(all, max, n)|
    ensures Rank(Phase1(all, max, n)[i].room) < n
  {
    Phase1Facts(all, max, n);
  }

  lemma PickIsFirst(all: seq<Photo>, max: int, i: nat)
    requires i < |Phase1(all, max, |RoomOrder|)|
    ensures var c := Phase1(all, max, |RoomOrder|); FirstOf(all, c[i].room) == Some(c[i])
  {
    Phase1Facts(all, max, |RoomOrder|);
  }

  lemma PickDistinct(all: seq<Photo>, max: int)
    ensures DistinctPaths(Phase1(all, max, |RoomOrder|))
  {
    Phase1Facts(all, max, |RoomOrder|);
  }

  /** A photo sharing its path with a different element of a path-distinct sequence is not in it. */
  lemma NotInDistinct(c: seq<Photo>, m: nat, f: Photo)
    requires DistinctPaths(c) && m < |c|
    requires c[m].storagePath == f.storagePath && c[m] != f
    ensures f !in c
  {
    forall i | 0 <= i < |c| ensures c[i] != f {
      if i < m {
      } else if m < i {
      }
    }
  }

  /** With at least one slot and a kitchen photo, the preview opens with an oldest kitchen photo. */
  lemma PreviewOpensWithKitchen(all: seq<Photo>, max: int)
    requires max >= 1
    requires exists q :: q in all && q.room == "kitchen"
    ensures var r := PickPreview(all, max);
      && |r| >= 1 && r[0] in all && r[0].room == "kitchen"
      && forall q :: q in all && q.room == "kitchen" ==> !JsText.Less(q.createdAt, r[0].createdAt)
  {
    FirstOfOldest(all, "kitchen");
    Phase1Prefix(all, max, 1, |RoomOrder|);
    assert Phase1(all, max, 1) == [FirstOf(all, "kitchen").value];
  }

  // ---------------------------------------------------------------------------
  // Distinct storage paths in the input
  // ---------------------------------------------------------------------------

  lemma LastPathIsNew(s: seq<Photo>)
    requires s != [] && DistinctPaths(s)
    ensures s[|s| - 1].storagePath !in PathSet(s[..|s| - 1])
    ensures DistinctPaths(s[..|s| - 1])
  {
    var init := s[..|s| - 1];
    forall p | p in init ensures p.storagePath != s[|s| - 1].storagePath {
      var i :| 0 <= i < |init| && init[i] == p;
    }
  }

  lemma {:induction false} PathSetSize(s: seq<Photo>)
    requires DistinctPaths(s)
    ensures |PathSet(s)| == |s|
  {
    if s != [] {
      var init, x := s[..|s| - 1], s[|s| - 1];
      assert s == init + [x];
      PathSetAppend(init, x);
      LastPathIsNew(s);
      PathSetSize(init);
    }
  }

  /** The paths of a non-empty sequence are those of its front plus that of its last photo. */
  lemma PathSetLast(s: seq<Photo>)
    requires s != []
    ensures PathSet(s) == PathSet(s[..|s| - 1]) + {s[|s| - 1].storagePath}
  {
    assert s == s[..|s| - 1] + [s[|s| - 1]];
    PathSetAppend(s[..|s| - 1], s[|s| - 1]);
  }

  /** Adding a new path to a set grows its overlap with `used` by one exactly when the path is used. */
  lemma OverlapGrows(paths: set<string>, x: string, used: set<string>)
    requires x !in paths
    ensures |(paths + {x}) * used| == |paths * used| + if x in used then 1 else 0
  {
    if x in used {
      assert (paths + {x}) * used == (paths * used) + {x};
    } else {
      assert (paths + {x}) * used == paths * used;
    }
  }

  lemma {:induction false} UnusedSize(all: seq<Photo>, used: set<string>)
    requires DistinctPaths(all)
    ensures |Unused(all, used)| + |PathSet(all) * used| == |all|
  {
    if all != [] {
      var init, x := all[..|all| - 1], all[|all| - 1];
      PathSetLast(all);
      LastPathIsNew(all);
      UnusedSize(init, used);
      OverlapGrows(PathSet(init), x.storagePath, used);
    }
  }

  lemma {:induction false} UnusedDistinct(all: seq<Photo>, used: set<string>)
    requires DistinctPaths(all)
    ensures DistinctPaths(Unused(all, used))
  {
    if all != [] {
      var init, x := all[..|all| - 1], all[|all| - 1];
      LastPathIsNew(all);
      UnusedDistinct(init, used);
      UnusedMembers(init, used);
      var u := Unused(init, used);
      forall i | 0 <= i < |u| ensures u[i].storagePath != x.storagePath {
        assert u[i] in init;
      }
    }
  }

  /** Phase 1 only takes paths of the input. */
  lemma PickedPathsFromInput(all: seq<Photo>, max: int)
    ensures PathSet(Phase1(all, max, |RoomOrder|)) <= PathSet(all)
  {
    var picks := Phase1(all, max, |RoomOrder|);
    PreviewPhase1First(all, max);
    forall path | path in PathSet(picks) ensures path in PathSet(all) {
      var x :| x in picks && x.storagePath == path;
      var i :| 0 <= i < |picks| && picks[i] == x;
    }
  }

  /** When the input's storage paths are distinct, so are the preview's. */
  lemma PreviewDistinctWhenInputDistinct(all: seq<Photo>, max: int)
    requires DistinctPaths(all)
    ensures DistinctPaths(PickPreview(all, max))
  {
    var picks := Phase1(all, max, |RoomOrder|);
    var fill := Fill(all, max, picks);
    assert DistinctPaths(picks) by {
      PickDistinct(all, max);
    }
    FillDistinct(all, max, picks);
    assert forall q :: q in fill ==> q.storagePath !in PathSet(picks) by {
      FillFacts(all, max, picks);
    }
    DistinctConcat(picks, fill);
  }

  lemma FillDistinct(all: seq<Photo>, max: int, picks: seq<Photo>)
    requires DistinctPaths(all)
    ensures DistinctPaths(Fill(all, max, picks))
  {
    var u := Unused(all, PathSet(picks));
    UnusedDistinct(all, PathSet(picks));
    SortDistinct(u);
    var s := SortByTime(u);
    if |picks| < max && max - |picks| < |s| {
      var t := s[..max - |picks|];
      forall i, j | 0 <= i < j < |t| ensures t[i].storagePath != t[j].storagePath {
        assert t[i] == s[i] && t[j] == s[j];
      }
    }
  }

  /** Two path-distinct sequences whose paths do not meet concatenate to a path-distinct sequence. */
  lemma DistinctConcat(a: seq<Photo>, b: seq<Photo>)
    requires DistinctPaths(a) && DistinctPaths(b)
    requires forall q :: q in b ==> q.storagePath !in PathSet(a)
    ensures DistinctPaths(a + b)
  {
    var r := a + b;
    forall i, j | 0 <= i < j < |r| ensures r[i].storagePath != r[j].storagePath {
      if j >= |a| && i < |a| {
        assert r[j] in b;
        assert r[i] in a;
      } else if i >= |a| {
        assert r[i] == b[i - |a|] && r[j] == b[j - |a|];
      }
    }
  }

  /** When the input's storage paths are distinct, the preview is exactly `min(max, |all|)` long. */
  lemma PreviewLengthWhenInputDistinct(all: seq<Photo>, max: int)
    requires DistinctPaths(all) && max >= 0
    ensures |PickPreview(all, max)| == if max < |all| then max else |all|
  {
    var picks := Phase1(all, max, |RoomOrder|);
    var used := PathSet(picks);
    assert |picks| <= max by {
      Phase1Facts(all, max, |RoomOrder|);
    }
    assert |used| == |picks| by {
      PickDistinct(all, max);
      PathSetSize(picks);
    }
    assert |Unused(all, used)| == |all| - |used| by {
      PathSetSize(all);
      PickedPathsFromInput(all, max);
      assert PathSet(all) * used == used;
      UnusedSize(all, used);
    }
    assert |used| <= |all| by {
      PathSetSize(all);
      PickedPathsFromInput(all, max);
      assert PathSet(all) == used + (PathSet(all) - used);
    }
    SortedMembers(Unused(all, used));
  }

  // ---------------------------------------------------------------------------
  // Concrete inputs
  // ---------------------------------------------------------------------------

  lemma UnusedSnoc(s: seq<Photo>, x: Photo, used: set<string>)
    ensures Unused(s + [x], used) == Unused(s, used) + if x.storagePath !in used then [x] else []
  {
    assert (s + [x])[..|s|] == s;
  }

  /** A room none of whose photos is in the input has no phase-1 candidate. */
  lemma NoCandidate(all: seq<Photo>, room: string)
    requires forall q :: q in all ==> q.room != room
    ensures FirstOf(all, room) == None
  {
    FirstOfOldest(all, room);
  }

  /** A phase-1 round over a room without photos leaves the picks as they are. */
  lemma Phase1Skip(all: seq<Photo>, max: int, n: nat)
    requires n < |RoomOrder| && FirstOf(all, RoomOrder[n]) == None
    ensures Phase1(all, max, n + 1) == Phase1(all, max, n)
  {
  }

  /** A phase-1 round whose candidate has a new path and a free slot appends it. */
  lemma Phase1Take(all: seq<Photo>, max: int, n: nat, p: Photo)
    requires n < |RoomOrder| && FirstOf(all, RoomOrder[n]) == Some(p)
    requires p.storagePath !in PathSet(Phase1(all, max, n)) && |Phase1(all, max, n)| < max
    ensures Phase1(all, max, n + 1) == Phase1(all, max, n) + [p]
  {
  }

  /** A phase-1 round whose candidate's path is taken appends nothing. */
  lemma Phase1Taken(all: seq<Photo>, max: int, n: nat, p: Photo)
    requires n < |RoomOrder| && FirstOf(all, RoomOrder[n]) == Some(p)
    requires p.storagePath in PathSet(Phase1(all, max, n))
    ensures Phase1(all, max, n + 1) == Phase1(all, max, n)
  {
  }

  /** Phase 1 of an input holding none of the priority rooms picks nothing. */
  lemma NoPriorityRooms(all: seq<Photo>, max: int)
    requires forall q :: q in all ==> q.room !in RoomOrder
    ensures Phase1(all, max, |RoomOrder|) == []
  {
    NoCandidate(all, "kitchen");
    Phase1Skip(all, max, 0);
    NoCandidate(all, "bedroom");
    Phase1Skip(all, max, 1);
    NoCandidate(all, "bathroom");
    Phase1Skip(all, max, 2);
    NoCandidate(all, "living_room");
    Phase1Skip(all, max, 3);
  }

  /** The preview once phase 1 and the sorted leftovers are known. */
  lemma PreviewFrom(all: seq<Photo>, max: int, picks: seq<Photo>, leftovers: seq<Photo>)
    requires Phase1(all, max, |RoomOrder|) == picks
    requires SortByTime(Unused(all, PathSet(picks))) == leftovers
    requires |picks| + |leftovers| <= max
    ensures PickPreview(all, max) == picks + leftovers
  {
  }

  /**
   * Phase 2 never consults the used paths while it appends: two identical rows
   * of a room outside the priority list both reach the preview, so the preview
   * repeats a storage path.
   */
  lemma DuplicateRowsBothShown()
    ensures var p := Photo("L1", "patio", "L1/patio/a.jpg", "2024-05-01T10:00:00Z");
      PickPreview([p, p], 4) == [p, p]
  {
    var p := Photo("L1", "patio", "L1/patio/a.jpg", "2024-05-01T10:00:00Z");
    NoPriorityRooms([p, p], 4);
    DuplicateRowsLeftovers(p);
    PreviewFrom([p, p], 4, [], [p, p]);
  }

  lemma DuplicateRowsLeftovers(p: Photo)
    ensures SortByTime(Unused([p, p], PathSet([]))) == [p, p]
  {
    assert Unused([p, p], PathSet([])) == [p, p] by {
      assert PathSet([]) == {};
      UnusedSnoc([], p, {});
      UnusedSnoc([p], p, {});
      assert [p] + [p] == [p, p];
    }
    JsText.LessIrreflexive(p.createdAt);
    assert SortByTime([p]) == [p];
    assert SortByTime([p, p]) == Insert(p, [p]);
  }

  /**
   * Two kitchen photos and one bedroom photo, all with distinct paths and
   * times t1 < t2 < t3: phase 1 takes the oldest kitchen photo and the bedroom
   * photo, and phase 2 adds the younger kitchen photo. The input order does not matter.
   */
  lemma KitchenKitchenBedroom()
    ensures
      var k1 := Photo("L1", "kitchen", "L1/kitchen/1.jpg", "t1");
      var k2 := Photo("L1", "kitchen", "L1/kitchen/2.jpg", "t2");
      var b3 := Photo("L1", "bedroom", "L1/bedroom/3.jpg", "t3");
      PickPreview([k2, b3, k1], 4) == [k1, b3, k2]
  {
    var k1 := Photo("L1", "kitchen", "L1/kitchen/1.jpg", "t1");
    var k2 := Photo("L1", "kitchen", "L1/kitchen/2.jpg", "t2");
    var b3 := Photo("L1", "bedroom", "L1/bedroom/3.jpg", "t3");
    var all := [k2, b3, k1];
    KitchenKitchenBedroomPhase1(k1, k2, b3);
    KitchenKitchenBedroomLeftovers(k1, k2, b3);
    PreviewFrom([k2, b3, k1], 4, [k1, b3], [k2]);
  }

  lemma KitchenKitchenBedroomLeftovers(k1: Photo, k2: Photo, b3: Photo)
    requires k1 == Photo("L1", "kitchen", "L1/kitchen/1.jpg", "t1")
    requires k2 == Photo("L1", "kitchen", "L1/kitchen/2.jpg", "t2")
    requires b3 == Photo("L1", "bedroom", "L1/bedroom/3.jpg", "t3")
    ensures SortByTime(Unused([k2, b3, k1], PathSet([k1, b3]))) == [k2]
  {
    var all := [k2, b3, k1];
    var used := {k1.storagePath, b3.storagePath};
    assert PathSet([k1, b3]) == used;
    assert Unused(all, used) == [k2] by {
      assert [] + [k2] == [k2] && [k2] + [b3] == [k2, b3] && [k2, b3] + [k1] == all;
      UnusedSnoc([], k2, used);
      UnusedSnoc([k2], b3, used);
      UnusedSnoc([k2, b3], k1, used);
    }
    assert SortByTime([k2]) == [k2];
  }

  lemma KitchenKitchenBedroomPhase1(k1: Photo, k2: Photo, b3: Photo)
    requires k1 == Photo("L1", "kitchen", "L1/kitchen/1.jpg", "t1")
    requires k2 == Photo("L1", "kitchen", "L1/kitchen/2.jpg", "t2")
    requires b3 == Photo("L1", "bedroom", "L1/bedroom/3.jpg", "t3")
    ensures Phase1([k2, b3, k1], 4, |RoomOrder|) == [k1, b3]
  {
    var all := [k2, b3, k1];
    KitchenKitchenBedroomFirsts(k1, k2, b3);
    Phase1Take(all, 4, 0, k1);
    assert PathSet([k1]) == {k1.storagePath};
    Phase1Take(all, 4, 1, b3);
    NoCandidate(all, "bathroom");
    Phase1Skip(all, 4, 2);
    NoCandidate(all, "living_room");
    Phase1Skip(all, 4, 3);
  }

  lemma KitchenKitchenBedroomFirsts(k1: Photo, k2: Photo, b3: Photo)
    requires k1 == Photo("L1", "kitchen", "L1/kitchen/1.jpg", "t1")
    requires k2 == Photo("L1", "kitchen", "L1/kitchen/2.jpg", "t2")
    requires b3 == Photo("L1", "bedroom", "L1/bedroom/3.jpg", "t3")
    ensures FirstOf([k2, b3, k1], "kitchen") == Some(k1)
    ensures FirstOf([k2, b3, k1], "bedroom") == Some(b3)
  {
    var all := [k2, b3, k1];
    assert [] + [k2] == [k2] && [k2] + [b3] == [k2, b3] && [k2, b3] + [k1] == all;
    assert Bucket(all, ByRoom, "kitchen") == [k2, k1] by {
      BucketSnoc([], k2, ByRoom, "kitchen");
      BucketSnoc([k2], b3, ByRoom, "kitchen");
      BucketSnoc([k2, b3], k1, ByRoom, "kitchen");
    }
    assert SortByTime([k2, k1]) == [k1, k2] by {
      assert JsText.Less("t1", "t2");
      assert [k2, k1][1..] == [k1];
      assert SortByTime([k1]) == [k1];
      assert Insert(k2, [k1]) == [k1, k2];
    }
    assert Bucket(all, ByRoom, "bedroom") == [b3] by {
      BucketSnoc([], k2, ByRoom, "bedroom");
      BucketSnoc([k2], b3, ByRoom, "bedroom");
      BucketSnoc([k2, b3], k1, ByRoom, "bedroom");
    }
    assert SortByTime([b3]) == [b3];
  }

  /**
   * One storage path filed under two rooms: phase 1 keeps it once, for the
   * earlier room in `RoomOrder`, and phase 2 skips the other row as used.
   */
  lemma SamePathTwoRoomsCollapses()
    ensures
      var k := Photo("L1", "kitchen", "L1/x.jpg", "t2");
      var b := Photo("L1", "bedroom", "L1/x.jpg", "t1");
      PickPreview([b, k], 4) == [k]
  {
    var k := Photo("L1", "kitchen", "L1/x.jpg", "t2");
    var b := Photo("L1", "bedroom", "L1/x.jpg", "t1");
    var all := [b, k];
    SamePathTwoRoomsPhase1(k, b);
    assert PathSet([k]) == {"L1/x.jpg"};
    assert Unused(all, {"L1/x.jpg"}) == [] by {
      assert [] + [b] == [b] && [b] + [k] == all;
      UnusedSnoc([], b, {"L1/x.jpg"});
      UnusedSnoc([b], k, {"L1/x.jpg"});
    }
    PreviewFrom(all, 4, [k], []);
  }

  lemma SamePathTwoRoomsPhase1(k: Photo, b: Photo)
    requires k == Photo("L1", "kitchen", "L1/x.jpg", "t2")
    requires b == Photo("L1", "bedroom", "L1/x.jpg", "t1")
    ensures Phase1([b, k], 4, |RoomOrder|) == [k]
  {
    var all := [b, k];
    SamePathTwoRoomsFirsts(k, b);
    Phase1Take(all, 4, 0, k);
    assert PathSet([k]) == {"L1/x.jpg"};
    Phase1Taken(all, 4, 1, b);
    NoCandidate(all, "bathroom");
    Phase1Skip(all, 4, 2);
    NoCandidate(all, "living_room");
    Phase1Skip(all, 4, 3);
  }

  lemma SamePathTwoRoomsFirsts(k: Photo, b: Photo)
    requires k == Photo("L1", "kitchen", "L1/x.jpg", "t2")
    requires b == Photo("L1", "bedroom", "L1/x.jpg", "t1")
    ensures FirstOf([b, k], "kitchen") == Some(k)
    ensures FirstOf([b, k], "bedroom") == Some(b)
  {
    var all := [b, k];
    assert [] + [b] == [b] && [b] + [k] == all;
    assert Bucket(all, ByRoom, "kitchen") == [k] by {
      BucketSnoc([], b, ByRoom, "kitchen");
      BucketSnoc([b], k, ByRoom, "kitchen");
    }
    assert Bucket(all, ByRoom, "bedroom") == [b] by {
      BucketSnoc([], b, ByRoom, "bedroom");
      BucketSnoc([b], k, ByRoom, "bedroom");
    }
    assert SortByTime([k]) == [k];
    assert SortByTime([b]) == [b];
  }
}
