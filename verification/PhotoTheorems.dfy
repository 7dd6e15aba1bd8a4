/** What galleries keep under changes, and what a matching base proves. */
module PhotoTheorems {
  import opened Wrappers
  import opened PhotoSync

  ghost predicate IdsApart(photos: seq<Photo>) {
    forall i, j :: 0 <= i < j < |photos| ==> photos[i].id != photos[j].id
  }

  // ----- filtering and updating -----

  lemma {:induction false} UpdatedAt(photos: seq<Photo>, u: Update)
    ensures |UpdateAll(photos, u)| == |photos|
    ensures forall i :: 0 <= i < |photos| ==> UpdateAll(photos, u)[i] == Updated(photos[i], u)
  {
    if photos != [] {
      UpdatedAt(photos[1..], u);
    }
  }

  lemma {:induction false} WithoutMeans(photos: seq<Photo>, id: Option<nat>)
    ensures forall p :: p in Without(photos, id) <==> p in photos && Some(p.id) != id
    ensures IdsApart(photos) ==> IdsApart(Without(photos, id))
    ensures (forall p :: p in photos ==> Some(p.id) != id) ==> Without(photos, id) == photos
  {
    if photos != [] {
      WithoutMeans(photos[1..], id);
      assert photos == [photos[0]] + photos[1..];
    }
  }

  lemma {:induction false} WithoutCommutes(photos: seq<Photo>, a: Option<nat>, b: Option<nat>)
    ensures Without(Without(photos, a), b) == Without(Without(photos, b), a)
  {
    if photos != [] {
      WithoutCommutes(photos[1..], a, b);
      var head := [photos[0]];
      assert (head + Without(photos[1..], a))[1..] == Without(photos[1..], a);
      assert (head + Without(photos[1..], b))[1..] == Without(photos[1..], b);
    }
  }

  lemma UpdateKeepsIdentity(p: Photo, u: Update)
    ensures Updated(p, u).id == p.id
    ensures Updated(p, u) == p || Revision(Updated(p, u)) == Revision(p) + 1
  {
  }

  lemma {:induction false} WithoutUpdated(photos: seq<Photo>, u: Update, id: Option<nat>)
    ensures Without(UpdateAll(photos, u), id) == UpdateAll(Without(photos, id), u)
  {
    if photos != [] {
      UpdateKeepsIdentity(photos[0], u);
      WithoutUpdated(photos[1..], u, id);
      assert UpdateAll(photos, u)[1..] == UpdateAll(photos[1..], u);
      if Some(photos[0].id) != id {
        assert Without(photos, id)[1..] == Without(photos[1..], id);
      }
    }
  }

  // ----- one change on one photo -----

  /** A photo that stays either is untouched or has exactly the next revision; ids stay and stay apart. */
  lemma ChangeSteps(photos: seq<Photo>, change: PhotoChange)
    requires IdsApart(photos)
    ensures var after := ApplyPhotoChange(photos, change);
            && IdsApart(after)
            && forall q :: q in after ==>
                 exists p :: p in photos && p.id == q.id && (q == p || Revision(q) == Revision(p) + 1)
  {
    var remaining := Remaining(photos, change);
    var u := UpdateOf(photos, change);
    WithoutMeans(photos, change.photoId);
    UpdatedAt(remaining, u);
    var after := ApplyPhotoChange(photos, change);
    assert IdsApart(remaining) && forall p :: p in remaining ==> p in photos;
    hide UpdateAll, Updated, UpdateOf, Remaining, Without;
    forall i, j | 0 <= i < j < |after| ensures after[i].id != after[j].id {
      UpdateKeepsIdentity(remaining[i], u);
      UpdateKeepsIdentity(remaining[j], u);
    }
    forall q | q in after
      ensures exists p :: p in photos && p.id == q.id && (q == p || Revision(q) == Revision(p) + 1)
    {
      var i :| 0 <= i < |after| && after[i] == q;
      UpdateKeepsIdentity(remaining[i], u);
      assert remaining[i] in photos;
    }
  }

  // ----- histories -----

  /** A gallery and every identifier it ever had. */
  datatype Gallery = Gallery(photos: seq<Photo>, used: set<nat>)

  datatype Step = Change(change: PhotoChange) | Add(photo: Photo, position: nat)

  function Take(g: Gallery, step: Step): Gallery {
    match step
    case Change(change) => g.(photos := ApplyPhotoChange(g.photos, change))
    case Add(photo, position) =>
      if photo.id in g.used || position > |g.photos| then g
      else Gallery(g.photos[..position] + [photo] + g.photos[position..], g.used + {photo.id})
  }

  function Run(g: Gallery, steps: seq<Step>): Gallery
    decreases steps
  {
    if steps == [] then g else Run(Take(g, steps[0]), steps[1..])
  }

  ghost predicate GalleryOk(g: Gallery) {
    IdsApart(g.photos) && forall p :: p in g.photos ==> p.id in g.used
  }

  /** Photos that both galleries have: later revisions, and the same record at the same revision. */
  ghost predicate Later(g: Gallery, h: Gallery) {
    && g.used <= h.used
    && forall q :: q in h.photos && q.id in g.used ==>
         exists p :: p in g.photos && p.id == q.id
                     && Revision(p) <= Revision(q) && (Revision(p) == Revision(q) ==> p == q)
  }

  lemma StepIsLater(g: Gallery, step: Step)
    requires GalleryOk(g)
    ensures GalleryOk(Take(g, step)) && Later(g, Take(g, step))
  {
    match step
    case Change(change) =>
      ChangeSteps(g.photos, change);
      hide ApplyPhotoChange;
    case Add(photo, position) =>
      if photo.id !in g.used && position <= |g.photos| {
        var h := Take(g, step);
        forall q | q in h.photos && q.id in g.used
          ensures exists p :: p in g.photos && p.id == q.id && Revision(p) <= Revision(q) && (Revision(p) == Revision(q) ==> p == q)
        {
          assert q in g.photos;
        }
      } else {
        assert forall q :: q in g.photos ==> q in g.photos && Revision(q) <= Revision(q);
      }
  }

  lemma LaterChains(g: Gallery, h: Gallery, k: Gallery)
    requires Later(g, h) && Later(h, k)
    ensures Later(g, k)
  {
    forall q | q in k.photos && q.id in g.used
      ensures exists p :: p in g.photos && p.id == q.id && Revision(p) <= Revision(q) && (Revision(p) == Revision(q) ==> p == q)
    {
      var m :| m in h.photos && m.id == q.id && Revision(m) <= Revision(q) && (Revision(m) == Revision(q) ==> m == q);
      var p :| p in g.photos && p.id == m.id && Revision(p) <= Revision(m) && (Revision(p) == Revision(m) ==> p == m);
    }
  }

  lemma LaterSelf(g: Gallery)
    ensures GalleryOk(g) ==> Later(g, g)
  {
    forall q | q in g.photos
      ensures exists p :: p in g.photos && p.id == q.id && Revision(p) <= Revision(q) && (Revision(p) == Revision(q) ==> p == q)
    {
      assert q in g.photos && q.id == q.id;
    }
  }

  /** Over any history revisions never fall, and an equal identifier and revision mean an identical record. */
  lemma {:induction false} RevisionsIdentify(g: Gallery, steps: seq<Step>)
    requires GalleryOk(g)
    ensures GalleryOk(Run(g, steps)) && Later(g, Run(g, steps))
    decreases steps
  {
    hide GalleryOk, Later, Take;
    if steps == [] {
      LaterSelf(g);
    } else {
      StepIsLater(g, steps[0]);
      RevisionsIdentify(Take(g, steps[0]), steps[1..]);
      LaterChains(g, Take(g, steps[0]), Run(g, steps));
    }
  }

  // ----- what a base says -----

  lemma {:induction false} InsertKeepsAll(s: Seen, sorted: seq<Seen>)
    ensures multiset(InsertSeen(s, sorted)) == multiset(sorted) + multiset{s}
  {
    if sorted != [] && s.id >= sorted[0].id {
      InsertKeepsAll(s, sorted[1..]);
      assert sorted == [sorted[0]] + sorted[1..];
    }
  }

  lemma {:induction false} SortKeepsAll(base: seq<Seen>)
    ensures multiset(SortSeen(base)) == multiset(base)
  {
    if base != [] {
      var front := base[..|base| - 1];
      SortKeepsAll(front);
      InsertKeepsAll(base[|base| - 1], SortSeen(front));
      assert base == front + [base[|base| - 1]];
    }
  }

  lemma {:induction false} SeenOfMeans(photos: seq<Photo>, s: Seen)
    ensures s in SeenOf(photos) <==> exists p :: p in photos && s == Seen(p.id, Revision(p))
  {
    if photos != [] {
      SeenOfMeans(photos[1..], s);
    }
  }

  lemma {:induction false} OnlyMeans(photos: seq<Photo>, id: Option<nat>)
    ensures forall p :: p in Only(photos, id) <==> p in photos && Some(p.id) == id
  {
    if photos != [] {
      OnlyMeans(photos[1..], id);
    }
  }

  ghost predicate Ascends(base: seq<Seen>) {
    forall i, j :: 0 <= i < j < |base| ==> base[i].id <= base[j].id
  }

  lemma {:induction false} InsertAscends(s: Seen, sorted: seq<Seen>)
    requires Ascends(sorted)
    ensures Ascends(InsertSeen(s, sorted))
  {
    if sorted != [] && s.id >= sorted[0].id {
      InsertAscends(s, sorted[1..]);
      InsertKeepsAll(s, sorted[1..]);
      var rest := InsertSeen(s, sorted[1..]);
      forall x | x in rest ensures sorted[0].id <= x.id {
        assert x in multiset(rest);
      }
    }
  }

  lemma {:induction false} SortAscends(base: seq<Seen>)
    ensures Ascends(SortSeen(base))
  {
    if base != [] {
      SortAscends(base[..|base| - 1]);
      InsertAscends(base[|base| - 1], SortSeen(base[..|base| - 1]));
    }
  }

  ghost predicate SeenApart(base: seq<Seen>) {
    forall i, j :: 0 <= i < j < |base| ==> base[i].id != base[j].id
  }

  /** There is one way to put a base in order, when it names no photo twice. */
  lemma {:induction false} AscendingIsUnique(a: seq<Seen>, b: seq<Seen>)
    requires Ascends(a) && Ascends(b) && SeenApart(b) && multiset(a) == multiset(b)
    ensures a == b
  {
    if a != [] {
      FirstSeenAgree(a, b);
      assert a == [a[0]] + a[1..] && b == [b[0]] + b[1..];
      assert multiset(a[1..]) == multiset(a) - multiset{a[0]} == multiset(b[1..]);
      AscendingIsUnique(a[1..], b[1..]);
    }
  }

  lemma FirstSeenAgree(a: seq<Seen>, b: seq<Seen>)
    requires Ascends(a) && Ascends(b) && SeenApart(b) && multiset(a) == multiset(b) && a != []
    ensures b != [] && a[0] == b[0]
  {
    assert a[0] in multiset(a) && a[0] in b;
    assert b[0] in multiset(b) && b[0] in a;
  }

  lemma {:induction false} ReviewedApart(change: PhotoChange, photos: seq<Photo>)
    requires IdsApart(photos)
    ensures IdsApart(Reviewed(change, photos))
  {
    if photos != [] {
      ReviewedApart(change, photos[1..]);
      OnlyMeans(photos[1..], change.photoId);
    }
  }

  lemma {:induction false} SeenOfAt(photos: seq<Photo>)
    ensures |SeenOf(photos)| == |photos|
    ensures forall i :: 0 <= i < |photos| ==> SeenOf(photos)[i] == Seen(photos[i].id, Revision(photos[i]))
  {
    if photos != [] {
      SeenOfAt(photos[1..]);
    }
  }

  lemma {:induction false} CountApart(base: seq<Seen>, s: Seen)
    requires SeenApart(base)
    ensures multiset(base)[s] == if s in base then 1 else 0
  {
    if base != [] {
      assert base == [base[0]] + base[1..];
      CountApart(base[1..], s);
    }
  }

  /** A replacement or deletion reviews its own photo, any other change the whole gallery. */
  predicate Reviews(change: PhotoChange, p: Photo) {
    (change.action == Replace || change.action == Delete) ==> Some(p.id) == change.photoId
  }

  lemma ReviewedMeans(change: PhotoChange, photos: seq<Photo>, p: Photo)
    ensures p in Reviewed(change, photos) <==> p in photos && Reviews(change, p)
  {
    OnlyMeans(photos, change.photoId);
    hide Only;
  }

  /** A base matches exactly when it names each reviewed photo once, with the revision it has, in whatever order, and nothing else. */
  lemma BaseMatchesExactly(change: PhotoChange, photos: seq<Photo>)
    requires IdsApart(photos)
    ensures PhotoBaseMatches(change, photos) <==>
              forall s :: multiset(change.base)[s] ==
                if exists p :: p in photos && Reviews(change, p) && s == Seen(p.id, Revision(p)) then 1 else 0
  {
    var reviewed := Reviewed(change, photos);
    var seen := SeenOf(reviewed);
    ReviewedApart(change, photos);
    SeenOfAt(reviewed);
    hide SortSeen, SeenOf, Reviewed, Revision, IdsApart;
    forall p ensures p in reviewed <==> p in photos && Reviews(change, p) {
      ReviewedMeans(change, photos, p);
    }
    forall s
      ensures multiset(seen)[s] == if exists p :: p in photos && Reviews(change, p) && s == Seen(p.id, Revision(p)) then 1 else 0
    {
      SeenOfMeans(reviewed, s);
      CountApart(seen, s);
    }
    SortIsDetermined(change.base, seen);
  }

  lemma SortIsDetermined(a: seq<Seen>, b: seq<Seen>)
    requires SeenApart(b)
    ensures SortSeen(a) == SortSeen(b) <==> forall s :: multiset(a)[s] == multiset(b)[s]
  {
    SortKeepsAll(a);
    SortKeepsAll(b);
    SortAscends(a);
    SortAscends(b);
    var sorted := SortSeen(b);
    if forall s :: multiset(a)[s] == multiset(b)[s] {
      assert multiset(a) == multiset(b);
      hide SortSeen;
      forall i, j | 0 <= i < j < |sorted| ensures sorted[i].id != sorted[j].id {
        SortedApart(b, i, j);
      }
      AscendingIsUnique(SortSeen(a), sorted);
    }
  }

  lemma SortedApart(b: seq<Seen>, i: nat, j: nat)
    requires SeenApart(b) && i < j < |SortSeen(b)|
    ensures SortSeen(b)[i].id != SortSeen(b)[j].id
  {
    var sorted := SortSeen(b);
    SortKeepsAll(b);
    hide SortSeen;
    if sorted[i].id == sorted[j].id {
      assert sorted == sorted[..i] + [sorted[i]] + sorted[i + 1..j] + [sorted[j]] + sorted[j + 1..];
      assert sorted[i] in multiset(b) && sorted[j] in multiset(b);
      CountApart(b, sorted[i]);
    }
  }

  /** A base that was taken from one gallery and matches another reviewed the same identifiers and revisions. */
  lemma MatchingBasesAgree(change: PhotoChange, before: seq<Photo>, after: seq<Photo>, s: Seen)
    requires PhotoBaseMatches(change, before) && PhotoBaseMatches(change, after)
    ensures s in SeenOf(Reviewed(change, before)) <==> s in SeenOf(Reviewed(change, after))
  {
    SortKeepsAll(SeenOf(Reviewed(change, before)));
    SortKeepsAll(SeenOf(Reviewed(change, after)));
    assert s in SeenOf(Reviewed(change, before)) <==> s in multiset(SeenOf(Reviewed(change, before)));
    assert s in SeenOf(Reviewed(change, after)) <==> s in multiset(SeenOf(Reviewed(change, after)));
  }

  lemma UniqueById(photos: seq<Photo>, p: Photo)
    requires IdsApart(photos) && p in photos
    ensures forall q :: q in photos && q.id == p.id ==> q == p
  {
    forall q | q in photos && q.id == p.id ensures q == p {
      var i :| 0 <= i < |photos| && photos[i] == p;
      var j :| 0 <= j < |photos| && photos[j] == q;
      assert i == j;
    }
  }

  lemma SameRevisionSameRecord(g: Gallery, h: Gallery, q: Photo)
    requires GalleryOk(g) && Later(g, h) && q in h.photos
    ensures (exists p :: p in g.photos && p.id == q.id && Revision(p) == Revision(q)) ==> q in g.photos
  {
    if p :| p in g.photos && p.id == q.id && Revision(p) == Revision(q) {
      var m :| m in g.photos && m.id == q.id
               && Revision(m) <= Revision(q) && (Revision(m) == Revision(q) ==> m == q);
      UniqueById(g.photos, p);
    }
  }

  /** Where a base matches two galleries of one history, a photo reviewed in one is seen alike in the other. */
  lemma ReviewedAlike(change: PhotoChange, before: seq<Photo>, after: seq<Photo>, p: Photo)
    requires PhotoBaseMatches(change, before) && PhotoBaseMatches(change, after)
    requires p in Reviewed(change, before)
    ensures exists q :: q in Reviewed(change, after) && q.id == p.id && Revision(q) == Revision(p)
  {
    var s := Seen(p.id, Revision(p));
    MatchingBasesAgree(change, before, after, s);
    SeenOfMeans(Reviewed(change, before), s);
    SeenOfMeans(Reviewed(change, after), s);
    hide PhotoBaseMatches, SeenOf, Only, Revision;
    var q :| q in Reviewed(change, after) && s == Seen(q.id, Revision(q));
  }

  lemma ReviewedLaterWasThere(g: Gallery, h: Gallery, change: PhotoChange, p: Photo)
    requires GalleryOk(g) && Later(g, h)
    requires PhotoBaseMatches(change, g.photos) && PhotoBaseMatches(change, h.photos)
    requires p in Reviewed(change, h.photos)
    ensures p in Reviewed(change, g.photos)
  {
    hide GalleryOk, Later, PhotoBaseMatches, Reviewed, Revision;
    ReviewedAlike(change, h.photos, g.photos, p);
    var q :| q in Reviewed(change, g.photos) && q.id == p.id && Revision(q) == Revision(p);
    ReviewedMeans(change, g.photos, q);
    ReviewedMeans(change, g.photos, p);
    ReviewedMeans(change, h.photos, p);
    SameRevisionSameRecord(g, h, p);
  }

  lemma ReviewedThenIsStillThere(g: Gallery, h: Gallery, change: PhotoChange, p: Photo)
    requires GalleryOk(g) && Later(g, h)
    requires PhotoBaseMatches(change, g.photos) && PhotoBaseMatches(change, h.photos)
    requires p in Reviewed(change, g.photos)
    ensures p in Reviewed(change, h.photos)
  {
    ReviewedMeans(change, g.photos, p);
    UniqueById(g.photos, p);
    hide GalleryOk, Later, PhotoBaseMatches, Reviewed, Revision;
    ReviewedAlike(change, g.photos, h.photos, p);
    var q :| q in Reviewed(change, h.photos) && q.id == p.id && Revision(q) == Revision(p);
    ReviewedMeans(change, h.photos, q);
    SameRevisionSameRecord(g, h, q);
  }

  /**
   When the base a change carries matched the gallery it was made against, and matches the gallery as
   it is after any history, then every photo it reviewed is there with the identical record, and no other.
   */
  lemma MatchingBaseProvesNothingChanged(g: Gallery, steps: seq<Step>, change: PhotoChange, p: Photo)
    requires GalleryOk(g)
    requires PhotoBaseMatches(change, g.photos) && PhotoBaseMatches(change, Run(g, steps).photos)
    ensures p in Reviewed(change, g.photos) <==> p in Reviewed(change, Run(g, steps).photos)
  {
    hide GalleryOk, Later, PhotoBaseMatches, Reviewed, Run;
    var h := Run(g, steps);
    RevisionsIdentify(g, steps);
    if p in Reviewed(change, h.photos) {
      ReviewedLaterWasThere(g, h, change, p);
    } else if p in Reviewed(change, g.photos) {
      ReviewedThenIsStillThere(g, h, change, p);
    }
  }

  // ----- primaries -----

  ghost predicate AtMostOnePrimary(photos: seq<Photo>) {
    forall i, j :: 0 <= i < j < |photos| ==> !(IsPrimary(photos[i]) && IsPrimary(photos[j]))
  }

  predicate SomePrimary(photos: seq<Photo>) {
    exists i :: 0 <= i < |photos| && IsPrimary(photos[i])
  }

  lemma {:induction false} FirstIsLeast(photos: seq<Photo>)
    requires photos != []
    ensures First(photos).value in photos
    ensures IdsApart(photos) ==> forall p :: p in photos && p != First(photos).value ==> Before(First(photos).value, p)
  {
    if |photos| > 1 {
      FirstIsLeast(photos[1..]);
      assert photos == [photos[0]] + photos[1..];
    }
  }

  lemma {:induction false} WithoutKeepsPrimaries(photos: seq<Photo>, id: Option<nat>)
    ensures AtMostOnePrimary(photos) ==> AtMostOnePrimary(Without(photos, id))
    ensures forall i :: 0 <= i < |Without(photos, id)| ==> Without(photos, id)[i] in photos
  {
    if photos != [] {
      WithoutKeepsPrimaries(photos[1..], id);
      var rest := Without(photos[1..], id);
      if Some(photos[0].id) != id && AtMostOnePrimary(photos) {
        assert AtMostOnePrimary(photos[1..]);
        forall j | 0 <= j < |rest| ensures !(IsPrimary(photos[0]) && IsPrimary(rest[j])) {
          var k :| 0 <= k < |photos[1..]| && photos[1..][k] == rest[j];
          assert photos[k + 1] == rest[j];
        }
      }
    }
  }

  lemma PrimaryAfter(p: Photo, u: Update)
    ensures IsPrimary(Updated(p, u)) <==> if u.Promoted? then Some(p.id) == u.primaryId else IsPrimary(p)
  {
  }

  /** No change makes a second primary photo. */
  lemma AtMostOnePrimaryIsKept(photos: seq<Photo>, change: PhotoChange)
    requires IdsApart(photos) && AtMostOnePrimary(photos)
    ensures AtMostOnePrimary(ApplyPhotoChange(photos, change))
  {
    var remaining := Remaining(photos, change);
    var u := UpdateOf(photos, change);
    var after := ApplyPhotoChange(photos, change);
    WithoutMeans(photos, change.photoId);
    WithoutKeepsPrimaries(photos, change.photoId);
    UpdatedAt(remaining, u);
    assert IdsApart(remaining) && AtMostOnePrimary(remaining);
    hide Without, UpdateAll, Updated, UpdateOf, Remaining, IsPrimary;
    forall i, j | 0 <= i < j < |after| ensures !(IsPrimary(after[i]) && IsPrimary(after[j])) {
      PrimaryAfter(remaining[i], u);
      PrimaryAfter(remaining[j], u);
    }
  }

  lemma {:induction false} PrimariesAre(photos: seq<Photo>, id: nat, u: Update)
    requires u == Promoted(Some(id))
    ensures SomePrimary(UpdateAll(photos, u)) <==> exists i :: 0 <= i < |photos| && photos[i].id == id
  {
    UpdatedAt(photos, u);
    var after := UpdateAll(photos, u);
    hide UpdateAll, Updated;
    forall i | 0 <= i < |photos| ensures IsPrimary(after[i]) <==> photos[i].id == id {
      PrimaryAfter(photos[i], u);
    }
  }

  /** Choosing a primary leaves a primary exactly when the chosen photo is in the gallery. */
  lemma ChosenPrimary(photos: seq<Photo>, change: PhotoChange)
    requires change.action == Primary && change.photoId.Some?
    ensures SomePrimary(ApplyPhotoChange(photos, change)) <==>
              exists i :: 0 <= i < |photos| && photos[i].id == change.photoId.value
  {
    PrimariesAre(photos, change.photoId.value, Promoted(change.photoId));
  }

  /** Deleting the primary photo promotes the first of the rest, so a gallery that has one and is not emptied keeps one. */
  lemma DeletingKeepsAPrimary(photos: seq<Photo>, change: PhotoChange)
    requires change.action == Delete && SomePrimary(photos) && Without(photos, change.photoId) != []
    ensures SomePrimary(ApplyPhotoChange(photos, change))
  {
    var remaining := Without(photos, change.photoId);
    if HasPrimary(photos, change.photoId) {
      FirstIsLeast(remaining);
      PrimariesAre(remaining, First(remaining).value.id, Promoted(FirstId(remaining)));
    } else {
      var i :| 0 <= i < |photos| && IsPrimary(photos[i]);
      WithoutMeans(photos, change.photoId);
      assert photos[i] in remaining;
      UpdatedAt(remaining, Unchanged);
    }
  }

  /** By place in the gallery, 0 when it has none, and then by identifier. */
  predicate ShownBefore(a: Photo, b: Photo) {
    var place := if a.sortOrder.Some? then a.sortOrder.value else 0;
    var other := if b.sortOrder.Some? then b.sortOrder.value else 0;
    place < other || (place == other && a.id < b.id)
  }

  lemma FirstIsShownBefore(photos: seq<Photo>, p: Photo)
    requires IdsApart(photos) && p in photos
    ensures Some(p.id) == FirstId(photos) <==> forall q :: q in photos && q != p ==> ShownBefore(p, q)
  {
    FirstIsLeast(photos);
    var first := First(photos).value;
    UniqueById(photos, p);
    hide First, IdsApart;
    if p != first {
      assert ShownBefore(first, p) && !ShownBefore(p, first);
    }
  }

  lemma UpdatedIsIn(photos: seq<Photo>, u: Update, p: Photo)
    requires p in photos
    ensures Updated(p, u) in UpdateAll(photos, u)
  {
    UpdatedAt(photos, u);
    var i :| 0 <= i < |photos| && photos[i] == p;
    assert UpdateAll(photos, u)[i] == Updated(p, u);
  }

  lemma DeletingThePrimary(photos: seq<Photo>, change: PhotoChange, d: Photo)
    requires change.action == Delete && d in photos && Some(d.id) == change.photoId && d.isPrimary == Some(true)
    ensures var rest := Without(photos, change.photoId);
            ApplyPhotoChange(photos, change) == UpdateAll(rest, Promoted(FirstId(rest)))
  {
    var i :| 0 <= i < |photos| && photos[i] == d;
    assert IsPrimary(photos[i]) && HasPrimary(photos, change.photoId);
    hide Without, UpdateAll, FirstId;
  }

  /** When the primary photo is deleted, the one of the rest that is shown before all the others becomes primary, and no other. */
  lemma DeletingPromotesTheFirst(photos: seq<Photo>, change: PhotoChange, p: Photo)
    requires IdsApart(photos) && change.action == Delete
    requires exists d :: d in photos && Some(d.id) == change.photoId && d.isPrimary == Some(true)
    requires p in photos && Some(p.id) != change.photoId
    ensures var first := forall q :: q in photos && Some(q.id) != change.photoId && q != p ==> ShownBefore(p, q);
            if p.isPrimary == Some(first) then p in ApplyPhotoChange(photos, change)
            else p.(isPrimary := Some(first), revision := Some(Revision(p) + 1)) in ApplyPhotoChange(photos, change)
  {
    hide ApplyPhotoChange, Without, HasPrimary, UpdateAll, FirstId, IdsApart, ShownBefore;
    var remaining := Without(photos, change.photoId);
    var d :| d in photos && Some(d.id) == change.photoId && d.isPrimary == Some(true);
    DeletingThePrimary(photos, change, d);
    WithoutMeans(photos, change.photoId);
    FirstIsShownBefore(remaining, p);
    UpdatedIsIn(remaining, Promoted(FirstId(remaining)), p);
  }

  // ----- changes that do not overlap commute -----

  /** Whether each photo is primary is set. */
  predicate PrimariesSet(photos: seq<Photo>) {
    forall i :: 0 <= i < |photos| ==> photos[i].isPrimary.Some?
  }

  lemma UpdatesCommute(p: Photo, u: Update, v: Update)
    requires !u.Reordered? && !v.Reordered? && !(u.Promoted? && v.Promoted?)
    requires u.Replaced? && v.Replaced? ==> u.id != v.id
    ensures Updated(Updated(p, u), v) == Updated(Updated(p, v), u)
  {
  }

  lemma {:induction false} UpdateAllCommutes(photos: seq<Photo>, u: Update, v: Update)
    requires !u.Reordered? && !v.Reordered? && !(u.Promoted? && v.Promoted?)
    requires u.Replaced? && v.Replaced? ==> u.id != v.id
    ensures UpdateAll(UpdateAll(photos, u), v) == UpdateAll(UpdateAll(photos, v), u)
  {
    if photos != [] {
      UpdatesCommute(photos[0], u, v);
      UpdateAllCommutes(photos[1..], u, v);
      assert UpdateAll(photos, u)[1..] == UpdateAll(photos[1..], u);
      assert UpdateAll(photos, v)[1..] == UpdateAll(photos[1..], v);
    }
  }

  /** Replacing a photo changes neither which photo is primary nor which sorts first. */
  lemma {:induction false} ReplacingKeepsPlaces(photos: seq<Photo>, u: Update, id: Option<nat>)
    requires u.Replaced? || u.Unchanged?
    ensures FirstId(UpdateAll(photos, u)) == FirstId(photos)
    ensures photos != [] ==> First(UpdateAll(photos, u)) == Some(Updated(First(photos).value, u))
    ensures HasPrimary(UpdateAll(photos, u), id) <==> HasPrimary(photos, id)
  {
    UpdatedAt(photos, u);
    if photos != [] {
      ReplacingKeepsPlaces(photos[1..], u, id);
      assert UpdateAll(photos, u)[1..] == UpdateAll(photos[1..], u);
    }
    var after := UpdateAll(photos, u);
    assert forall i :: 0 <= i < |photos| ==> after[i].id == photos[i].id && IsPrimary(after[i]) == IsPrimary(photos[i]);
  }

  lemma ReplacementsCommute(photos: seq<Photo>, a: PhotoChange, b: PhotoChange)
    requires a.action == Replace && b.action == Replace && a.photoId != b.photoId
    ensures ApplyPhotoChange(ApplyPhotoChange(photos, a), b) == ApplyPhotoChange(ApplyPhotoChange(photos, b), a)
  {
    UpdateAllCommutes(photos, UpdateOf(photos, a), UpdateOf(photos, b));
  }

  lemma ReplacementAndDeletionCommute(photos: seq<Photo>, a: PhotoChange, b: PhotoChange)
    requires a.action == Replace && b.action == Delete && a.photoId != b.photoId
    ensures ApplyPhotoChange(ApplyPhotoChange(photos, a), b) == ApplyPhotoChange(ApplyPhotoChange(photos, b), a)
  {
    var u := UpdateOf(photos, a);
    var remaining := Without(photos, b.photoId);
    var v := UpdateOf(photos, b);
    WithoutUpdated(photos, u, b.photoId);
    ReplacingKeepsPlaces(photos, u, b.photoId);
    ReplacingKeepsPlaces(remaining, u, b.photoId);
    UpdateAllCommutes(remaining, u, v);
    hide UpdateAll, Without, First, HasPrimary;
  }

  /** Removing a photo that is not first leaves the same photo first. */
  lemma FirstWithoutAnother(photos: seq<Photo>, id: Option<nat>)
    requires IdsApart(photos) && (photos == [] || FirstId(photos) != id)
    ensures FirstId(Without(photos, id)) == FirstId(photos)
  {
    WithoutMeans(photos, id);
    var rest := Without(photos, id);
    if photos != [] {
      FirstIsLeast(photos);
      var first := First(photos).value;
      assert first in rest;
      FirstIsLeast(rest);
      hide First, Without;
      assert !Before(First(rest).value, first);
    }
  }

  lemma {:induction false} PromotionKeepsPlaces(photos: seq<Photo>, u: Update, id: Option<nat>)
    requires u.Promoted?
    ensures FirstId(UpdateAll(photos, u)) == FirstId(photos)
    ensures photos != [] ==> First(UpdateAll(photos, u)) == Some(Updated(First(photos).value, u))
    ensures HasPrimary(UpdateAll(photos, u), id) <==>
              id == u.primaryId && exists i :: 0 <= i < |photos| && Some(photos[i].id) == id
  {
    UpdatedAt(photos, u);
    if photos != [] {
      PromotionKeepsPlaces(photos[1..], u, id);
      assert UpdateAll(photos, u)[1..] == UpdateAll(photos[1..], u);
    }
    var after := UpdateAll(photos, u);
    assert forall i :: 0 <= i < |photos| ==>
      after[i].id == photos[i].id && (IsPrimary(after[i]) <==> Some(photos[i].id) == u.primaryId);
  }

  lemma {:induction false} UnchangedAll(photos: seq<Photo>)
    ensures UpdateAll(photos, Unchanged) == photos
  {
    if photos != [] {
      UnchangedAll(photos[1..]);
      assert photos == [photos[0]] + photos[1..];
    }
  }

  lemma PrimaryWithout(photos: seq<Photo>, a: Option<nat>, b: Option<nat>)
    requires a != b
    ensures HasPrimary(Without(photos, a), b) <==> HasPrimary(photos, b)
  {
    WithoutMeans(photos, a);
    var rest := Without(photos, a);
    hide Without;
    if i :| 0 <= i < |photos| && Some(photos[i].id) == b && IsPrimary(photos[i]) {
      assert photos[i] in rest;
    }
    if j :| 0 <= j < |rest| && Some(rest[j].id) == b && IsPrimary(rest[j]) {
      assert rest[j] in photos;
    }
  }

  /** Whether deleting one photo makes the other one primary. */
  predicate HandsOver(photos: seq<Photo>, from: Option<nat>, to: Option<nat>) {
    HasPrimary(photos, from) && to.Some? && FirstId(Without(photos, from)) == to
  }

  /** The gallery after deleting first a and then b: a mark that went to b moves on when b goes. */
  function AfterBoth(photos: seq<Photo>, a: Option<nat>, b: Option<nat>): seq<Photo> {
    var rest := Without(Without(photos, a), b);
    if HandsOver(photos, a, b) then UpdateAll(UpdateAll(rest, Promoted(b)), Promoted(FirstId(rest)))
    else if HasPrimary(photos, a) || HasPrimary(photos, b) then UpdateAll(rest, Promoted(FirstId(rest)))
    else rest
  }

  lemma DeletingBoth(photos: seq<Photo>, a: PhotoChange, b: PhotoChange)
    requires a.action == Delete && b.action == Delete && a.photoId != b.photoId && IdsApart(photos)
    ensures ApplyPhotoChange(ApplyPhotoChange(photos, a), b) == AfterBoth(photos, a.photoId, b.photoId)
  {
    var remaining := Without(photos, a.photoId);
    var first := Promoted(FirstId(remaining));
    var rest := Without(remaining, b.photoId);
    PrimaryWithout(photos, a.photoId, b.photoId);
    WithoutMeans(photos, a.photoId);
    UnchangedAll(remaining);
    UnchangedAll(rest);
    UnchangedAll(UpdateAll(rest, first));
    WithoutUpdated(remaining, first, b.photoId);
    PromotionKeepsPlaces(remaining, first, b.photoId);
    PromotionKeepsPlaces(rest, first, b.photoId);
    hide UpdateAll, Without, HasPrimary, IdsApart, First;
    if HasPrimary(photos, a.photoId) {
      if HandsOver(photos, a.photoId, b.photoId) {
        FirstIsHere(remaining);
      } else {
        WithoutOther(remaining, b.photoId);
      }
    }
  }

  lemma FirstIsHere(photos: seq<Photo>)
    requires photos != []
    ensures exists i :: 0 <= i < |photos| && Some(photos[i].id) == FirstId(photos)
  {
    FirstIsLeast(photos);
    var i :| 0 <= i < |photos| && photos[i] == First(photos).value;
    assert Some(photos[i].id) == FirstId(photos);
  }

  lemma WithoutOther(photos: seq<Photo>, id: Option<nat>)
    requires IdsApart(photos) && (id.Some? ==> FirstId(photos) != id)
    ensures FirstId(Without(photos, id)) == FirstId(photos)
  {
    WithoutMeans(photos, id);
    if id.Some? {
      FirstWithoutAnother(photos, id);
    }
  }

  /** Promoting a photo that is not there first only shows on the next one, and only if its mark is not a plain no. */
  lemma PromotingTwice(rest: seq<Photo>, gone: Option<nat>)
    requires IdsApart(rest) && forall p :: p in rest ==> Some(p.id) != gone
    ensures UpdateAll(UpdateAll(rest, Promoted(gone)), Promoted(FirstId(rest))) == UpdateAll(rest, Promoted(FirstId(rest)))
            <==> rest == [] || First(rest).value.isPrimary == Some(false)
  {
    var next := Promoted(FirstId(rest));
    var once := UpdateAll(rest, next);
    var through := UpdateAll(rest, Promoted(gone));
    var twice := UpdateAll(through, next);
    UpdatedAt(rest, Promoted(gone));
    UpdatedAt(through, next);
    UpdatedAt(rest, next);
    if rest != [] {
      FirstIsLeast(rest);
      var first := First(rest).value;
      hide UpdateAll, Updated, First;
      forall i | 0 <= i < |rest|
        ensures twice[i] == once[i] <==> rest[i] != first || first.isPrimary == Some(false)
      {
        UniqueById(rest, first);
        assert rest[i] in rest;
        PromotedOnTheWay(rest[i], gone, FirstId(rest));
      }
      var k :| 0 <= k < |rest| && rest[k] == first;
      assert twice == once ==> twice[k] == once[k];
      assert (forall i :: 0 <= i < |rest| ==> twice[i] == once[i]) ==> twice == once;
    }
  }

  lemma PromotedOnTheWay(p: Photo, gone: Option<nat>, next: Option<nat>)
    requires Some(p.id) != gone
    ensures Updated(Updated(p, Promoted(gone)), Promoted(next)) == Updated(p, Promoted(next))
            <==> Some(p.id) != next || p.isPrimary == Some(false)
  {
  }

  lemma {:induction false} PromotingEitherGone(rest: seq<Photo>, a: Option<nat>, b: Option<nat>)
    requires forall p :: p in rest ==> Some(p.id) != a && Some(p.id) != b
    ensures UpdateAll(rest, Promoted(a)) == UpdateAll(rest, Promoted(b))
  {
    if rest != [] {
      assert rest[0] in rest;
      PromotingEitherGone(rest[1..], a, b);
    }
  }

  /** Whether the order of two deletions shows: one hands its mark to the other, not both, and the next photo's mark is not a plain no. */
  predicate OrderShows(photos: seq<Photo>, a: PhotoChange, b: PhotoChange) {
    && a.action == Delete && b.action == Delete
    && HandsOver(photos, a.photoId, b.photoId) != HandsOver(photos, b.photoId, a.photoId)
    && var rest := Without(Without(photos, a.photoId), b.photoId);
       rest != [] && First(rest).value.isPrimary != Some(false)
  }

  lemma DeletionsCommuteExactly(photos: seq<Photo>, a: PhotoChange, b: PhotoChange)
    requires a.action == Delete && b.action == Delete && a.photoId != b.photoId && IdsApart(photos)
    ensures ApplyPhotoChange(ApplyPhotoChange(photos, a), b) == ApplyPhotoChange(ApplyPhotoChange(photos, b), a)
            <==> !OrderShows(photos, a, b)
  {
    var rest := Without(Without(photos, a.photoId), b.photoId);
    DeletingBoth(photos, a, b);
    DeletingBoth(photos, b, a);
    WithoutCommutes(photos, a.photoId, b.photoId);
    WithoutMeans(photos, a.photoId);
    WithoutMeans(Without(photos, a.photoId), b.photoId);
    PromotingTwice(rest, a.photoId);
    PromotingTwice(rest, b.photoId);
    PromotingEitherGone(rest, a.photoId, b.photoId);
    hide ApplyPhotoChange, UpdateAll, Without, First, HasPrimary, IdsApart;
  }

  /**
   Two changes that do not overlap give the same gallery, records and revisions alike, in either order,
   exactly unless they are two deletions of which one, and only one, would hand the primary mark to the
   other, and the photo that gets it in the end is marked as primary already or has no mark.
   */
  lemma ChangesCommuteExactly(photos: seq<Photo>, a: PhotoChange, b: PhotoChange)
    requires !PhotoChangesOverlap(a, b) && IdsApart(photos)
    ensures ApplyPhotoChange(ApplyPhotoChange(photos, a), b) == ApplyPhotoChange(ApplyPhotoChange(photos, b), a)
            <==> !OrderShows(photos, a, b)
  {
    hide ApplyPhotoChange, HandsOver, Without, First;
    if a.action == Replace && b.action == Replace {
      ReplacementsCommute(photos, a, b);
    } else if a.action == Replace {
      ReplacementAndDeletionCommute(photos, a, b);
    } else if b.action == Replace {
      ReplacementAndDeletionCommute(photos, b, a);
    } else {
      DeletionsCommuteExactly(photos, a, b);
    }
  }

  lemma OthersAreMarkedNo(photos: seq<Photo>, a: Option<nat>, b: Option<nat>)
    requires AtMostOnePrimary(photos) && PrimariesSet(photos) && IdsApart(photos) && HasPrimary(photos, a)
    ensures forall p :: p in Without(Without(photos, a), b) ==> p.isPrimary == Some(false)
  {
    WithoutMeans(photos, a);
    WithoutMeans(Without(photos, a), b);
    hide Without;
    var i :| 0 <= i < |photos| && Some(photos[i].id) == a && IsPrimary(photos[i]);
    forall p | p in Without(Without(photos, a), b) ensures p.isPrimary == Some(false) {
      var j :| 0 <= j < |photos| && photos[j] == p;
      assert i < j || j < i;
      assert !IsPrimary(p) && p.isPrimary.Some?;
      assert !p.isPrimary.value;
    }
  }

  /** With at most one primary photo and every mark set, changes that do not overlap commute. */
  lemma IndependentChangesCommute(photos: seq<Photo>, a: PhotoChange, b: PhotoChange)
    requires !PhotoChangesOverlap(a, b)
    requires IdsApart(photos) && AtMostOnePrimary(photos) && PrimariesSet(photos)
    ensures ApplyPhotoChange(ApplyPhotoChange(photos, a), b) == ApplyPhotoChange(ApplyPhotoChange(photos, b), a)
  {
    ChangesCommuteExactly(photos, a, b);
    hide ApplyPhotoChange, Without, First, HasPrimary, AtMostOnePrimary, PrimariesSet, IdsApart;
    if OrderShows(photos, a, b) {
      var rest := Without(Without(photos, a.photoId), b.photoId);
      FirstIsLeast(rest);
      WithoutCommutes(photos, a.photoId, b.photoId);
      if HandsOver(photos, a.photoId, b.photoId) {
        OthersAreMarkedNo(photos, a.photoId, b.photoId);
      } else {
        OthersAreMarkedNo(photos, b.photoId, a.photoId);
      }
    }
  }

  function Sample(id: nat, isPrimary: Option<bool>): Photo {
    Photo(id, None, None, 0, None, None, isPrimary, 0)
  }

  function DeleteOf(id: nat): PhotoChange {
    PhotoChange(Delete, Some(id), [], [], None)
  }

  lemma SmallGalleries(p: Photo, q: Photo, r: Photo, u: Update, id: Option<nat>)
    ensures UpdateAll([p], u) == [Updated(p, u)]
    ensures UpdateAll([p, q], u) == [Updated(p, u), Updated(q, u)]
    ensures First([p]) == Some(p) && First([p, q]) == Some(if Before(q, p) then q else p)
    ensures Without([p], id) == if Some(p.id) == id then [] else [p]
    ensures Without([p, q], id) == (if Some(p.id) == id then [] else [p]) + Without([q], id)
    ensures Without([p, q, r], id) == (if Some(p.id) == id then [] else [p]) + Without([q, r], id)
  {
    assert [p][1..] == [] && [p, q][1..] == [q] && [q][1..] == [] && [p, q, r][1..] == [q, r];
    assert UpdateAll([q], u) == [Updated(q, u)];
    assert [p] + [] == [p];
  }

  /** Three photos in order, the middle one primary and the first not: deleting the middle one promotes the first. */
  lemma MiddleHandsOver(x: Photo, y: Photo, z: Photo)
    requires x.id == 0 && y.id == 1 && z.id == 2 && IsPrimary(y) && !IsPrimary(x) && Order(x) == Order(z) == 0
    ensures HandsOver([x, y, z], Some(1), Some(0)) && !HandsOver([x, y, z], Some(0), Some(1))
    ensures Without(Without([x, y, z], Some(1)), Some(0)) == [z]
  {
    SmallGalleries(x, y, z, Unchanged, Some(1));
    SmallGalleries(y, z, z, Unchanged, Some(1));
    SmallGalleries(z, z, z, Unchanged, Some(1));
    SmallGalleries(x, z, z, Unchanged, Some(0));
    SmallGalleries(z, z, z, Unchanged, Some(0));
    hide Without, First;
    assert [x, y, z][1] == y;
    assert Without([x, y, z], Some(1)) == [x, z];
  }

  /** With a second primary, or with an unset mark, the order of two deletions can show. */
  lemma OrderShowsWithoutTheConditions(last: Option<bool>)
    requires last != Some(false)
    ensures var mark := if last.Some? then Some(false) else None;
            var photos := [Sample(0, mark), Sample(1, Some(true)), Sample(2, last)];
            && !PhotoChangesOverlap(DeleteOf(1), DeleteOf(0)) && IdsApart(photos)
            && (last.Some? ==> PrimariesSet(photos)) && (last.None? ==> AtMostOnePrimary(photos))
            && ApplyPhotoChange(ApplyPhotoChange(photos, DeleteOf(1)), DeleteOf(0))
               != ApplyPhotoChange(ApplyPhotoChange(photos, DeleteOf(0)), DeleteOf(1))
  {
    hide ApplyPhotoChange, HandsOver, Without, First;
    var mark := if last.Some? then Some(false) else None;
    var z := Sample(2, last);
    var photos := [Sample(0, mark), Sample(1, Some(true)), z];
    MiddleHandsOver(photos[0], photos[1], z);
    SmallGalleries(z, z, z, Unchanged, None);
    ChangesCommuteExactly(photos, DeleteOf(1), DeleteOf(0));
  }

  // ----- base matching and changes to other photos -----

  /** Whether a change gives the photo a new revision on its way. */
  predicate Touches(photos: seq<Photo>, change: PhotoChange, p: Photo) {
    match change.action
    case Replace => change.photoId == Some(p.id) && change.replacement.Some?
    case Reorder => p.sortOrder != Some(IndexIn(change.order, p.id))
    case Primary => p.isPrimary != Some(Some(p.id) == change.photoId)
    case Delete =>
      HasPrimary(photos, change.photoId) && p.isPrimary != Some(Some(p.id) == FirstId(Without(photos, change.photoId)))
  }

  lemma {:induction false} OnlyOne(photos: seq<Photo>, p: Photo)
    requires IdsApart(photos) && p in photos
    ensures Only(photos, Some(p.id)) == [p]
  {
    if photos[0].id == p.id {
      UniqueById(photos, p);
      OnlyNone(photos[1..], Some(p.id));
    } else {
      assert p in photos[1..];
      OnlyOne(photos[1..], p);
    }
  }

  lemma {:induction false} OnlyNone(photos: seq<Photo>, id: Option<nat>)
    requires forall i :: 0 <= i < |photos| ==> Some(photos[i].id) != id
    ensures Only(photos, id) == []
  {
    if photos != [] {
      OnlyNone(photos[1..], id);
    }
  }

  lemma StaysAs(photos: seq<Photo>, change: PhotoChange, p: Photo)
    requires p in photos && !(change.action == Delete && change.photoId == Some(p.id))
    ensures Updated(p, UpdateOf(photos, change)) in ApplyPhotoChange(photos, change)
  {
    WithoutMeans(photos, change.photoId);
    var remaining := Remaining(photos, change);
    assert p in remaining;
    UpdatedAt(remaining, UpdateOf(photos, change));
    hide Without, UpdateAll, Updated, UpdateOf, Remaining;
    var i :| 0 <= i < |remaining| && remaining[i] == p;
    assert ApplyPhotoChange(photos, change)[i] == Updated(p, UpdateOf(photos, change));
  }

  lemma TouchedIsBumped(photos: seq<Photo>, change: PhotoChange, p: Photo)
    ensures Revision(Updated(p, UpdateOf(photos, change))) == Revision(p) <==> !Touches(photos, change, p)
  {
    hide Without, HasPrimary, FirstId, IndexIn;
  }

  lemma SortOne(seen: Seen)
    ensures SortSeen([seen]) == [seen]
  {
    assert [seen][..0] == [];
    assert SortSeen([seen]) == InsertSeen(seen, SortSeen([]));
  }

  lemma BaseOfOne(change: PhotoChange, photos: seq<Photo>, p: Photo)
    requires change.action == Replace || change.action == Delete
    requires IdsApart(photos) && p in photos && change.photoId == Some(p.id)
    ensures PhotoChangeBase(change, photos) == [Seen(p.id, Revision(p))]
  {
    OnlyOne(photos, p);
    SortOne(Seen(p.id, Revision(p)));
    assert SeenOf([p]) == [Seen(p.id, Revision(p))] by { assert [p][1..] == []; }
  }

  /**
   A change whose base matches keeps matching after a change to another photo exactly when that change
   gives the reviewed photo no new revision; a deletion gives one when it moves the primary mark.
   */
  lemma BaseStillMatchesExactly(photos: seq<Photo>, other: PhotoChange, change: PhotoChange, p: Photo)
    requires !PhotoChangesOverlap(other, change)
    requires IdsApart(photos) && p in photos && change.photoId == Some(p.id) && PhotoBaseMatches(change, photos)
    ensures PhotoBaseMatches(change, ApplyPhotoChange(photos, other)) <==> !Touches(photos, other, p)
  {
    var after := ApplyPhotoChange(photos, other);
    var q := Updated(p, UpdateOf(photos, other));
    ChangeSteps(photos, other);
    StaysAs(photos, other, p);
    TouchedIsBumped(photos, other, p);
    UpdateKeepsIdentity(p, UpdateOf(photos, other));
    BaseOfOne(change, photos, p);
    BaseOfOne(change, after, q);
    hide Touches, Updated, UpdateOf, ApplyPhotoChange, PhotoChangeBase, SortSeen;
    assert [Seen(p.id, Revision(p))][0] == Seen(p.id, Revision(p));
    assert [Seen(q.id, Revision(q))][0] == Seen(q.id, Revision(q));
  }

  lemma PrimaryGoesOn(p: Photo, q: Photo)
    requires p.id != q.id && IsPrimary(p) && q.isPrimary == Some(false)
    ensures Touches([p, q], DeleteOf(p.id), q)
  {
    var photos := [p, q];
    assert Some(photos[0].id) == Some(p.id) && IsPrimary(photos[0]);
    SmallGalleries(p, q, q, Unchanged, Some(p.id));
    SmallGalleries(q, q, q, Unchanged, Some(p.id));
    hide Without, First;
    assert Without(photos, Some(p.id)) == [q];
  }

  /** Deleting the primary photo promotes another one, and a replacement of that one made beside it no longer matches. */
  lemma BaseStopsMatching(replacement: Replacement)
    ensures var photos := [Sample(0, Some(true)), Sample(1, Some(false))];
            var change := PhotoChange(Replace, Some(1), [], [Seen(1, 1)], Some(replacement));
            && !PhotoChangesOverlap(DeleteOf(0), change) && IdsApart(photos) && PhotoBaseMatches(change, photos)
            && !PhotoBaseMatches(change, ApplyPhotoChange(photos, DeleteOf(0)))
  {
    hide ApplyPhotoChange, PhotoChangeBase, Touches, HasPrimary, SortSeen;
    var p, q := Sample(0, Some(true)), Sample(1, Some(false));
    var change := PhotoChange(Replace, Some(1), [], [Seen(1, 1)], Some(replacement));
    assert [p, q][1] == q;
    BaseOfOne(change, [p, q], q);
    SortOne(Seen(1, 1));
    PrimaryGoesOn(p, q);
    BaseStillMatchesExactly([p, q], DeleteOf(0), change, q);
  }

  // ----- what replacing and reordering do -----

  /** Replacing changes one photo's file facts and its revision, and nothing else anywhere. */
  lemma ReplacingChangesOnePhoto(photos: seq<Photo>, change: PhotoChange, i: nat)
    requires change.action == Replace && i < |photos|
    ensures var after := ApplyPhotoChange(photos, change);
            |after| == |photos|
            && if change.photoId == Some(photos[i].id) && change.replacement.Some? then
                 var r := change.replacement.value;
                 after[i] == Photo(photos[i].id, Some(Revision(photos[i]) + 1), Some(r.fileName), r.contentType,
                                   Some(r.byteSize), photos[i].sortOrder, photos[i].isPrimary, photos[i].rest)
               else after[i] == photos[i]
  {
    UpdatedAt(photos, UpdateOf(photos, change));
  }

  lemma {:induction false} IndexInMeans(order: seq<nat>, id: nat)
    ensures var i := IndexIn(order, id);
            if id in order then 0 <= i < |order| && order[i] == id && (forall j :: 0 <= j < i ==> order[j] != id)
            else i == -1
  {
    if order != [] && order[0] != id {
      IndexInMeans(order[1..], id);
      assert order == [order[0]] + order[1..];
    }
  }

  /** Reordering puts the photos in the order asked for, and repeating it changes nothing. */
  lemma ReorderingOrders(photos: seq<Photo>, change: PhotoChange, i: nat, j: nat)
    requires change.action == Reorder && i < |photos| && j < |photos|
    requires photos[i].id in change.order && photos[j].id in change.order
    ensures var after := ApplyPhotoChange(photos, change);
            && |after| == |photos|
            && 0 <= Order(after[i]) < |change.order| && change.order[Order(after[i])] == photos[i].id
            && (photos[i].id != photos[j].id ==> Order(after[i]) != Order(after[j]))
            && Updated(after[i], Reordered(change.order)) == after[i]
  {
    UpdatedAt(photos, Reordered(change.order));
    IndexInMeans(change.order, photos[i].id);
    IndexInMeans(change.order, photos[j].id);
    hide UpdateAll, IndexIn;
  }
}
