/**
 * The workshop handlers: create, the field-by-field update, delete under
 * the RESTRICT rule of the rows that reference a workshop, and the listing
 * of the image files an admin may pick for a workshop.
 */
module Workshops {
  import opened Wrappers
  import opened Js
  import opened Schema
  import opened Seqs
  import Uploads

  const MissingWorkshopFields := "Missing required fields: name, rating, location, icon"
  const WorkshopNotFound := "Workshop not found"
  const NoFieldsToUpdate := "No fields to update"

  /** `rating` is DECIMAL(3,1), kept here in tenths. */
  const MaxRating := 999

  predicate FitsRating(tenths: int) {
    -MaxRating <= tenths <= MaxRating
  }

  // ---------------------------------------------------------------------------
  // createWorkshop

  datatype WorkshopBody = WorkshopBody(
    name: Field<string>, rating: Field<int>, location: Field<string>,
    icon: Field<string>, image: Field<string>)

  /** `rating` only has to be present: 0 and null pass this test. */
  predicate WorkshopComplete(b: WorkshopBody) {
    TruthyText(b.name) && b.rating.Supplied() && TruthyText(b.location) && TruthyText(b.icon)
  }

  /** `newId` is the auto-increment id the insert would receive. */
  function CreateWorkshop(s: Store, b: WorkshopBody, newId: Id): (r: Result<Store, Error>)
    ensures !WorkshopComplete(b) ==> r == Err(Http(400, MissingWorkshopFields))
    ensures WorkshopComplete(b) && b.rating.Null? ==> r == Err(Db(NotNull))
    ensures r.Ok? <==>
      WorkshopComplete(b) && b.rating.Val? && FitsRating(b.rating.value) && newId !in s.workshops
    ensures r.Ok? ==>
      && r.value.workshops == s.workshops[newId := Workshop(
           b.name.value, b.rating.value, b.location.value, b.icon.value, TextOrNull(b.image))]
      && r.value.(workshops := s.workshops) == s
  {
    if !WorkshopComplete(b) then Err(Http(400, MissingWorkshopFields))
    else if !b.rating.Val? then Err(Db(NotNull))
    else if !FitsRating(b.rating.value) then Err(Db(BadValue))
    else if newId in s.workshops then Err(Db(DuplicateKey))
    else Ok(s.(workshops := s.workshops[newId := Workshop(
      b.name.value, b.rating.value, b.location.value, b.icon.value, TextOrNull(b.image))]))
  }

  /** An empty image name is stored as null, like a missing one. */
  lemma EmptyImageStoredNull(s: Store, b: WorkshopBody, newId: Id)
    requires b.image == Val("") || b.image.Undefined?
    requires CreateWorkshop(s, b, newId).Ok?
    ensures CreateWorkshop(s, b, newId).value.workshops[newId].image == None
  {
  }

  lemma CreateWorkshopValid(s: Store, b: WorkshopBody, newId: Id)
    requires Valid(s)
    ensures CreateWorkshop(s, b, newId).Ok? ==> Valid(CreateWorkshop(s, b, newId).value)
  {
  }

  // ---------------------------------------------------------------------------
  // updateWorkshop

  datatype WorkshopPatch = WorkshopPatch(
    name: Field<string>, rating: Field<int>, location: Field<string>,
    icon: Field<string>, image: Field<string>)

  predicate AnyWorkshopField(p: WorkshopPatch) {
    p.name.Supplied() || p.rating.Supplied() || p.location.Supplied()
    || p.icon.Supplied() || p.image.Supplied()
  }

  /** The NOT NULL columns accept every value supplied for them; `image` takes anything. */
  predicate WorkshopPatchAcceptable(p: WorkshopPatch) {
    && (p.name.Supplied() ==> p.name.Val?)
    && (p.rating.Supplied() ==> p.rating.Val? && FitsRating(p.rating.value))
    && (p.location.Supplied() ==> p.location.Val?)
    && (p.icon.Supplied() ==> p.icon.Val?)
  }

  function Pick<T>(current: T, f: Field<T>): T {
    if f.Val? then f.value else current
  }

  function UpdateWorkshop(s: Store, id: Id, p: WorkshopPatch): (r: Result<Store, Error>)
    ensures id !in s.workshops ==> r == Err(Http(404, WorkshopNotFound))
    ensures id in s.workshops && !AnyWorkshopField(p) ==> r == Err(Http(400, NoFieldsToUpdate))
    ensures r.Ok? <==> id in s.workshops && AnyWorkshopField(p) && WorkshopPatchAcceptable(p)
    ensures r.Ok? ==>
      && r.value.workshops.Keys == s.workshops.Keys
      && (forall w :: w in s.workshops && w != id ==> r.value.workshops[w] == s.workshops[w])
      && r.value.(workshops := s.workshops) == s
    ensures r.Ok? ==>
      var was, now := s.workshops[id], r.value.workshops[id];
      && now.name == (if p.name.Supplied() then p.name.value else was.name)
      && now.rating == (if p.rating.Supplied() then p.rating.value else was.rating)
      && now.location == (if p.location.Supplied() then p.location.value else was.location)
      && now.icon == (if p.icon.Supplied() then p.icon.value else was.icon)
      && now.image == (if p.image.Supplied() then TextOrNull(p.image) else was.image)
  {
    if id !in s.workshops then Err(Http(404, WorkshopNotFound))
    else if !AnyWorkshopField(p) then Err(Http(400, NoFieldsToUpdate))
    else if !WorkshopPatchAcceptable(p) then
      Err(Db(if p.rating.Val? && !FitsRating(p.rating.value) then BadValue else NotNull))
    else
      var cur := s.workshops[id];
      var next := Workshop(
        Pick(cur.name, p.name), Pick(cur.rating, p.rating), Pick(cur.location, p.location),
        Pick(cur.icon, p.icon), if p.image.Supplied() then TextOrNull(p.image) else cur.image);
      Ok(s.(workshops := s.workshops[id := next]))
  }

  /** Applying the same patch twice leaves the workshop as applying it once. */
  lemma UpdateWorkshopIdempotent(s: Store, id: Id, p: WorkshopPatch)
    requires UpdateWorkshop(s, id, p).Ok?
    ensures UpdateWorkshop(UpdateWorkshop(s, id, p).value, id, p) == UpdateWorkshop(s, id, p)
  {
    var s1 := UpdateWorkshop(s, id, p).value;
    var s2 := UpdateWorkshop(s1, id, p).value;
    assert s2.workshops == s1.workshops;
  }

  lemma UpdateWorkshopValid(s: Store, id: Id, p: WorkshopPatch)
    requires Valid(s)
    ensures UpdateWorkshop(s, id, p).Ok? ==> Valid(UpdateWorkshop(s, id, p).value)
  {
  }

  // ---------------------------------------------------------------------------
  // deleteWorkshop

  function DeleteWorkshop(s: Store, id: Id): (r: Result<Store, Error>)
    ensures id !in s.workshops ==> r == Err(Http(404, WorkshopNotFound))
    ensures id in s.workshops && WorkshopInUse(s, id) ==> r == Err(Db(ForeignKey))
    ensures r.Ok? <==> id in s.workshops && !WorkshopInUse(s, id)
    ensures r.Ok? ==> r.value.workshops.Keys == s.workshops.Keys - {id} && r.value.(workshops := s.workshops) == s
    ensures r.Ok? ==> r.value.workshops == s.workshops - {id}
  {
    if id !in s.workshops then Err(Http(404, WorkshopNotFound))
    else match DeleteWorkshopRow(s, id)
      case Err(f) => Err(Db(f))
      case Ok(s1) => Ok(s1)
  }

  lemma DeleteWorkshopValid(s: Store, id: Id)
    requires Valid(s)
    ensures DeleteWorkshop(s, id).Ok? ==> Valid(DeleteWorkshop(s, id).value)
  {
    DeleteWorkshopRowValid(s, id);
  }

  // ---------------------------------------------------------------------------
  // getAvailableImages

  const ImageExtensions: seq<string> := [".jpg", ".jpeg", ".png", ".gif", ".webp", ".svg"]

  datatype ImageEntry = ImageEntry(filename: string, path: string, url: string)

  predicate IsImageFile(file: string) {
    Lower(Uploads.ExtName(file)) in ImageExtensions
  }

  function Describe(file: string): ImageEntry {
    ImageEntry(file, "/mobile/assets/img/" + file, "/static/mobile/assets/img/" + file)
  }

  /** The directory listing filtered to image extensions, in listing order, each described. */
  function ImageFiles(files: seq<string>): (r: seq<ImageEntry>)
    ensures |r| <= |files|
    ensures forall i :: 0 <= i < |r| ==> r[i].filename in files && IsImageFile(r[i].filename) && r[i] == Describe(r[i].filename)
    ensures forall f :: f in files && IsImageFile(f) ==> Describe(f) in r
  {
    var kept := Filter(files, IsImageFile);
    forall f | f in files && IsImageFile(f)
      ensures Describe(f) in Describes(kept)
    {
      var j :| 0 <= j < |files| && files[j] == f;
      DescribedIn(kept, f);
    }
    Describes(kept)
  }

  function Describes(files: seq<string>): (r: seq<ImageEntry>)
    ensures |r| == |files|
    ensures forall i :: 0 <= i < |files| ==> r[i] == Describe(files[i])
  {
    seq(|files|, i requires 0 <= i < |files| => Describe(files[i]))
  }

  lemma DescribedIn(files: seq<string>, f: string)
    requires f in files
    ensures Describe(f) in Describes(files)
  {
    var k :| 0 <= k < |files| && files[k] == f;
    assert Describes(files)[k] == Describe(f);
  }

  /** The filter keeps listing order: it distributes over concatenation. */
  lemma ImageFilesAppend(a: seq<string>, b: seq<string>)
    ensures ImageFiles(a + b) == ImageFiles(a) + ImageFiles(b)
  {
    FilterConcat(a, b, IsImageFile);
    DescribesConcat(Filter(a, IsImageFile), Filter(b, IsImageFile));
  }

  lemma DescribesConcat(x: seq<string>, y: seq<string>)
    ensures Describes(x + y) == Describes(x) + Describes(y)
  {
    var l, r := Describes(x + y), Describes(x) + Describes(y);
    forall i | 0 <= i < |l| ensures l[i] == r[i] {
      if i < |x| {
        assert (x + y)[i] == x[i];
      } else {
        assert (x + y)[i] == y[i - |x|];
      }
    }
  }

  /** Candidate `i` is the first directory that exists. */
  predicate FirstFound(candidates: seq<Option<seq<string>>>, i: int) {
    0 <= i < |candidates| && candidates[i].Some? && forall j :: 0 <= j < i ==> candidates[j].None?
  }

  /**
   * The handler tries its candidate directories in order and lists the first
   * that exists (`None` = missing); with none it answers with an empty list.
   */
  function AvailableImages(candidates: seq<Option<seq<string>>>): (r: seq<ImageEntry>)
    ensures (forall i :: 0 <= i < |candidates| ==> candidates[i].None?) ==> r == []
    ensures forall i :: FirstFound(candidates, i) ==> r == ImageFiles(candidates[i].value)
  {
    var listing := FirstListing(candidates);
    assert ImageFiles([]) == [];
    ImageFiles(listing)
  }

  /** The listing of the first directory that exists, or nothing. */
  function FirstListing(candidates: seq<Option<seq<string>>>): (r: seq<string>)
    ensures (forall i :: 0 <= i < |candidates| ==> candidates[i].None?) ==> r == []
    ensures forall i :: FirstFound(candidates, i) ==> r == candidates[i].value
  {
    if candidates == [] then []
    else if candidates[0].Some? then candidates[0].value
    else
      FirstFoundTail(candidates);
      FirstListing(candidates[1..])
  }

  /** Past a missing first directory, the first one found is found one place earlier in the rest. */
  lemma FirstFoundTail(candidates: seq<Option<seq<string>>>)
    requires candidates != [] && candidates[0].None?
    ensures forall i :: FirstFound(candidates, i) ==> FirstFound(candidates[1..], i - 1) && candidates[1..][i - 1] == candidates[i]
    ensures (forall i :: 0 <= i < |candidates[1..]| ==> candidates[1..][i].None?) <==> (forall i :: 0 <= i < |candidates| ==> candidates[i].None?)
  {
    forall i | FirstFound(candidates, i)
      ensures FirstFound(candidates[1..], i - 1)
    {
      forall j | 0 <= j < i - 1
        ensures candidates[1..][j].None?
      {
        assert candidates[1..][j] == candidates[j + 1];
      }
    }
    if forall i :: 0 <= i < |candidates[1..]| ==> candidates[1..][i].None? {
      forall i | 0 <= i < |candidates|
        ensures candidates[i].None?
      {
        if i > 0 {
          assert candidates[i] == candidates[1..][i - 1];
        }
      }
    }
  }
}
