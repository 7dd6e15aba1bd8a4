/**
 Gallery edits and the revisions that tell whether the photos a change reviewed are
 still as they were.  An identifier stands for its place in the collation order.
 */
module PhotoSync {
  import opened Wrappers

  datatype Photo = Photo(
    id: nat,
    revision: Option<int>,
    fileName: Option<nat>,
    contentType: nat,
    byteSize: Option<int>,
    sortOrder: Option<int>,
    isPrimary: Option<bool>,
    rest: nat)                     // the fields no change touches

  datatype Replacement = Replacement(fileName: nat, contentType: nat, byteSize: int)

  datatype Action = Replace | Delete | Primary | Reorder

  datatype Seen = Seen(id: nat, revision: int)

  datatype PhotoChange = PhotoChange(
    action: Action, photoId: Option<nat>, order: seq<nat>, base: seq<Seen>, replacement: Option<Replacement>)

  function Revision(p: Photo): int {
    if p.revision.Some? then p.revision.value else 1
  }

  function Order(p: Photo): int {
    if p.sortOrder.Some? then p.sortOrder.value else 0
  }

  // ----- bases -----

  function InsertSeen(s: Seen, sorted: seq<Seen>): seq<Seen> {
    if sorted == [] || s.id < sorted[0].id then [s] + sorted else [sorted[0]] + InsertSeen(s, sorted[1..])
  }

  /** A stable sort by identifier. */
  function SortSeen(base: seq<Seen>): seq<Seen> {
    if base == [] then [] else InsertSeen(base[|base| - 1], SortSeen(base[..|base| - 1]))
  }

  function SeenOf(photos: seq<Photo>): seq<Seen> {
    if photos == [] then [] else [Seen(photos[0].id, Revision(photos[0]))] + SeenOf(photos[1..])
  }

  function PhotoBase(photos: seq<Photo>): seq<Seen> {
    SortSeen(SeenOf(photos))
  }

  function Only(photos: seq<Photo>, id: Option<nat>): seq<Photo> {
    if photos == [] then []
    else if Some(photos[0].id) == id then [photos[0]] + Only(photos[1..], id)
    else Only(photos[1..], id)
  }

  /** The photos that a change reviews. */
  function Reviewed(change: PhotoChange, photos: seq<Photo>): seq<Photo> {
    if change.action == Replace || change.action == Delete then Only(photos, change.photoId) else photos
  }

  function PhotoChangeBase(change: PhotoChange, photos: seq<Photo>): seq<Seen> {
    PhotoBase(Reviewed(change, photos))
  }

  predicate PhotoBaseMatches(change: PhotoChange, photos: seq<Photo>) {
    SortSeen(change.base) == PhotoChangeBase(change, photos)
  }

  // ----- applying a change -----

  function Without(photos: seq<Photo>, id: Option<nat>): seq<Photo> {
    if photos == [] then []
    else if Some(photos[0].id) == id then Without(photos[1..], id)
    else [photos[0]] + Without(photos[1..], id)
  }

  predicate IsPrimary(p: Photo) {
    p.isPrimary == Some(true)
  }

  predicate HasPrimary(photos: seq<Photo>, id: Option<nat>) {
    exists i :: 0 <= i < |photos| && Some(photos[i].id) == id && IsPrimary(photos[i])
  }

  predicate Before(a: Photo, b: Photo) {
    Order(a) < Order(b) || (Order(a) == Order(b) && a.id < b.id)
  }

  /** The photo that sorts first by order and then by identifier. */
  function First(photos: seq<Photo>): (first: Option<Photo>)
    ensures first.None? <==> photos == []
  {
    if photos == [] then None
    else
      var rest := First(photos[1..]);
      if rest.Some? && Before(rest.value, photos[0]) then rest else Some(photos[0])
  }

  function FirstId(photos: seq<Photo>): Option<nat> {
    var first := First(photos);
    if first.Some? then Some(first.value.id) else None
  }

  function IndexIn(order: seq<nat>, id: nat): int {
    if order == [] then -1
    else if order[0] == id then 0
    else
      var i := IndexIn(order[1..], id);
      if i < 0 then -1 else i + 1
  }

  /** What a change does to each photo that stays. */
  datatype Update =
    | Unchanged
    | Replaced(id: nat, replacement: Replacement)
    | Reordered(order: seq<nat>)
    | Promoted(primaryId: Option<nat>)

  function Bumped(p: Photo): Photo {
    p.(revision := Some(Revision(p) + 1))
  }

  function Updated(p: Photo, u: Update): Photo {
    match u
    case Unchanged => p
    case Replaced(id, r) =>
      if p.id != id then p
      else Bumped(p).(fileName := Some(r.fileName), contentType := r.contentType, byteSize := Some(r.byteSize))
    case Reordered(order) =>
      var index := IndexIn(order, p.id);
      if p.sortOrder == Some(index) then p else Bumped(p).(sortOrder := Some(index))
    case Promoted(id) =>
      var primary := Some(p.id) == id;
      if p.isPrimary == Some(primary) then p else Bumped(p).(isPrimary := Some(primary))
  }

  function UpdateAll(photos: seq<Photo>, u: Update): seq<Photo> {
    if photos == [] then [] else [Updated(photos[0], u)] + UpdateAll(photos[1..], u)
  }

  function Remaining(photos: seq<Photo>, change: PhotoChange): seq<Photo> {
    if change.action == Delete then Without(photos, change.photoId) else photos
  }

  function UpdateOf(photos: seq<Photo>, change: PhotoChange): Update {
    match change.action
    case Replace =>
      if change.photoId.Some? && change.replacement.Some?
      then Replaced(change.photoId.value, change.replacement.value) else Unchanged
    case Reorder => Reordered(change.order)
    case Primary => Promoted(change.photoId)
    case Delete =>
      if HasPrimary(photos, change.photoId) then Promoted(FirstId(Without(photos, change.photoId))) else Unchanged
  }

  function ApplyPhotoChange(photos: seq<Photo>, change: PhotoChange): seq<Photo> {
    UpdateAll(Remaining(photos, change), UpdateOf(photos, change))
  }

  predicate TouchesGallery(change: PhotoChange) {
    change.action == Primary || change.action == Reorder
  }

  predicate PhotoChangesOverlap(left: PhotoChange, right: PhotoChange) {
    TouchesGallery(left) || TouchesGallery(right) || left.photoId == right.photoId
  }
}
