/**
 * Laboratory results attached to a child (server/controllers/labResultController.js):
 * listing without the file contents, reading one, uploading, the doctor's
 * review and deletion. A parent reaches only their own children's results.
 */
module LabResultController {
  import opened Common
  import opened Sorting
  import opened ChildModel
  import opened LabResultModel
  import opened Store

  /** A result as the listing sends it: the file contents are removed. */
  function Stripped(l: LabResult): (r: LabResult)
    ensures r.fileData == None
  {
    l.(fileData := None)
  }

  /** Stripping keeps every other field: with the contents put back it is the stored result. */
  lemma StrippedKeepsTheRest(l: LabResult)
    ensures Stripped(l).(fileData := l.fileData) == l
    ensures Stripped(Stripped(l)) == Stripped(l)
  {
  }

  function StripAll(s: seq<(Id, LabResult)>): (r: seq<(Id, LabResult)>)
    ensures |r| == |s|
    ensures forall i :: 0 <= i < |s| ==> r[i] == (s[i].0, Stripped(s[i].1))
  {
    seq(|s|, i requires 0 <= i < |s| => (s[i].0, Stripped(s[i].1)))
  }

  predicate LatestTestFirst(a: (Id, LabResult), b: (Id, LabResult))
  {
    a.1.testDate >= b.1.testDate
  }

  /** The child's stored results, most recent test first. */
  function OfChild(labs: map<Id, LabResult>, n: nat, childId: Id): (r: seq<(Id, LabResult)>)
    ensures SortedBy(r, LatestTestFirst)
    ensures forall e :: e in r <==> e.0 in labs && e.0 < n && labs[e.0] == e.1 && e.1.child == childId
  {
    var mine: seq<(Id, LabResult)> := Filter(Entries(labs, n), (e: (Id, LabResult)) => e.1.child == childId);
    SortBySorted(mine, LatestTestFirst);
    assert forall e :: e in SortBy(mine, LatestTestFirst) <==> e in mine by {
      forall e ensures e in SortBy(mine, LatestTestFirst) <==> e in mine { SortByMembers(mine, LatestTestFirst, e); }
    }
    SortBy(mine, LatestTestFirst)
  }

  /** Stripping keeps the order of the test dates. */
  lemma StripAllSorted(s: seq<(Id, LabResult)>)
    requires SortedBy(s, LatestTestFirst)
    ensures SortedBy(StripAll(s), LatestTestFirst)
  {
  }

  /** The stripped listing holds exactly the child's results, each stripped. */
  lemma StripAllMembers(labs: map<Id, LabResult>, n: nat, childId: Id)
    ensures var r := StripAll(OfChild(labs, n, childId));
      (forall k :: k in labs && k < n && labs[k].child == childId ==> (k, Stripped(labs[k])) in r) &&
      (forall e :: e in r ==> e.0 in labs && e.0 < n && e.1 == Stripped(labs[e.0]) && e.1.child == childId)
  {
    var found := OfChild(labs, n, childId);
    var r := StripAll(found);
    forall k | k in labs && k < n && labs[k].child == childId ensures (k, Stripped(labs[k])) in r {
      assert (k, labs[k]) in found;
      var i :| 0 <= i < |found| && found[i] == (k, labs[k]);
      assert r[i] == (k, Stripped(labs[k]));
    }
    forall e | e in r ensures e.0 in labs && e.0 < n && e.1 == Stripped(labs[e.0]) && e.1.child == childId {
      var i :| 0 <= i < |r| && r[i] == e;
      assert found[i] in found;
    }
  }

  /**
   * `getLabResultsByChild`: 404 for an unknown child, 403 for a parent of
   * another child; otherwise every result of the child, most recent test
   * first, each without its file contents.
   */
  function GetLabResultsByChild(children: map<Id, Child>, labs: map<Id, LabResult>, n: nat, caller: Actor, childId: Id)
    : (r: Result<seq<(Id, LabResult)>>)
    ensures childId !in children <==> r == Err(NotFound)
    ensures childId in children && !CanAccess(caller, children[childId]) <==> r == Err(Forbidden)
    ensures r.Ok? ==> SortedBy(r.value, LatestTestFirst)
    ensures r.Ok? ==> forall e :: e in r.value ==> e.1.fileData == None
    ensures r.Ok? ==> forall e :: e in r.value ==>
      e.0 in labs && e.0 < n && e.1 == Stripped(labs[e.0]) && e.1.child == childId
    ensures r.Ok? ==> forall k :: k in labs && k < n && labs[k].child == childId ==> (k, Stripped(labs[k])) in r.value
  {
    if childId !in children then Err(NotFound)
    else if !CanAccess(caller, children[childId]) then Err(Forbidden)
    else
      var found := OfChild(labs, n, childId);
      StripAllSorted(found);
      StripAllMembers(labs, n, childId);
      var r := StripAll(found);
      Ok(r)
  }

  /**
   * `getLabResult`: 404 for an unknown result; a parent gets 403 for another
   * parent's child and 500 when the child is gone (its `parent` is read from
   * a null); everyone else gets the whole result, file contents included.
   */
  function GetLabResult(children: map<Id, Child>, labs: map<Id, LabResult>, caller: Actor, id: Id): (r: Result<LabResult>)
    ensures id !in labs <==> r == Err(NotFound)
    ensures id in labs && caller.role == Parent && labs[id].child !in children ==> r == Err(InternalError)
    ensures id in labs && caller.role == Parent && labs[id].child in children && children[labs[id].child].parent != caller.id ==>
      r == Err(Forbidden)
    ensures r.Ok? ==> (id in labs && r.value == labs[id] &&
      (caller.role == Parent ==> labs[id].child in children && children[labs[id].child].parent == caller.id))
    ensures id in labs && caller.role != Parent ==> r == Ok(labs[id])
  {
    if id !in labs then Err(NotFound)
    else if caller.role == Parent && labs[id].child !in children then Err(InternalError)
    else if caller.role == Parent && children[labs[id].child].parent != caller.id then Err(Forbidden)
    else Ok(labs[id])
  }

  /** The fields of an upload; absent ones are `None`, an absent title is "". */
  datatype UploadForm = UploadForm(
    childId: Option<Id>,
    title: string,
    description: Option<string>,
    testType: Option<TestType>,
    testDate: Option<int>,
    fileData: Option<string>,
    fileName: string,
    fileType: string,
    fileSize: int)

  /** Where the result is said to be filed: `uploads/<child>/<file name>`. */
  function FilePath(child: Id, fileName: string): (r: string)
    ensures r == "uploads/" + NatToString(child) + "/" + fileName
    ensures r[..8] == "uploads/" && r[|r| - |fileName|..] == fileName
  {
    "uploads/" + NatToString(child) + "/" + fileName
  }

  /** The child and the file name are both recovered from the path. */
  lemma FilePathDetermines(c1: Id, f1: string, c2: Id, f2: string)
    requires FilePath(c1, f1) == FilePath(c2, f2)
    ensures c1 == c2 && f1 == f2
  {
    var p := FilePath(c1, f1);
    var s1, s2 := NatToString(c1), NatToString(c2);
    assert p == "uploads/" + s1 + "/" + f1;
    assert p == "uploads/" + s2 + "/" + f2;
    assert !IsDigit('/');
    assert p[8 + |s1|] == '/' && p[8 + |s2|] == '/';
    assert |s1| < |s2| ==> CharAt(p, 8 + |s1|) == CharAt(s2, |s1|) && IsDigit(CharAt(s2, |s1|));
    assert |s2| < |s1| ==> CharAt(p, 8 + |s2|) == CharAt(s1, |s2|) && IsDigit(CharAt(s1, |s2|));
    assert s1 == p[8..8 + |s1|] == s2;
    NatToStringInjective(c1, c2);
    assert f1 == p[9 + |s1|..] == f2;
  }

  /** The stored result of an upload: 400 without child, title, test date or file contents; pending; filed under the child. */
  function NewLabResult(f: UploadForm, uploader: Id): (r: Result<LabResult>)
    ensures r.Err? <==> f.childId.None? || f.title == "" || f.testDate.None? || f.fileData.None? || f.fileData.value == ""
    ensures r.Err? ==> r.error == BadRequest
    ensures r.Ok? ==> (r.value.child == f.childId.value && r.value.uploadedBy == uploader &&
      r.value.title == f.title && r.value.description == f.description &&
      r.value.testType == Pick(f.testType, OtherTest) && r.value.testDate == f.testDate.value &&
      r.value.fileName == f.fileName && r.value.fileType == f.fileType && r.value.fileSize == f.fileSize &&
      r.value.filePath == FilePath(f.childId.value, f.fileName) && r.value.fileData == f.fileData &&
      r.value.status == LabPending && r.value.doctorComments == None &&
      r.value.reviewedBy == None && r.value.reviewedAt == None)
  {
    if f.childId.None? || f.title == "" || f.testDate.None? || f.fileData.None? || f.fileData.value == "" then
      Err(BadRequest)
    else
      Ok(LabResult(f.childId.value, uploader, f.title, f.description, Pick(f.testType, OtherTest), f.testDate.value,
                   f.fileName, f.fileType, f.fileSize, FilePath(f.childId.value, f.fileName), f.fileData,
                   LabPending, None, None, None))
  }

  /**
   * `uploadLabResult`: 400 for missing fields, then 404 for an unknown
   * child and 403 for a parent of another child; otherwise the result is
   * stored. Any role may upload.
   */
  method UploadLabResult(db: Db, caller: Actor, f: UploadForm) returns (r: Result<Id>)
    requires db.Valid()
    modifies db`labResults, db`nextId
    ensures db.Valid()
    ensures NewLabResult(f, caller.id).Err? ==> r == Err(BadRequest)
    ensures NewLabResult(f, caller.id).Ok? && f.childId.value !in db.children ==> r == Err(NotFound)
    ensures (NewLabResult(f, caller.id).Ok? && f.childId.value in db.children &&
      !CanAccess(caller, db.children[f.childId.value])) ==> r == Err(Forbidden)
    ensures r.Err? ==> db.labResults == old(db.labResults) && db.nextId == old(db.nextId)
    ensures r.Ok? ==> (NewLabResult(f, caller.id).Ok? && f.childId.value in db.children &&
      CanAccess(caller, db.children[f.childId.value]) && r.value == old(db.nextId) &&
      db.labResults == old(db.labResults)[r.value := NewLabResult(f, caller.id).value])
  {
    var made := NewLabResult(f, caller.id);
    if made.Err? {
      return Err(made.error);
    }
    var childId := f.childId.value;
    if childId !in db.children {
      return Err(NotFound);
    }
    if !CanAccess(caller, db.children[childId]) {
      return Err(Forbidden);
    }
    var id := db.AddLabResult(made.value);
    r := Ok(id);
  }

  /**
   * The review of `updateLabResult`: a given status replaces the old one, given
   * comments (even empty ones) replace the old ones, and a given status other
   * than pending records the reviewer and the time.
   */
  function Review(l: LabResult, reviewer: Id, status: Option<LabStatus>, comments: Option<string>, now: int): (r: LabResult)
    ensures r.status == Pick(status, l.status)
    ensures r.doctorComments == (if comments.Some? then comments else l.doctorComments)
    ensures status.Some? && status.value != LabPending ==> r.reviewedBy == Some(reviewer) && r.reviewedAt == Some(now)
    ensures !(status.Some? && status.value != LabPending) ==> r.reviewedBy == l.reviewedBy && r.reviewedAt == l.reviewedAt
    ensures r.(status := l.status, doctorComments := l.doctorComments, reviewedBy := l.reviewedBy, reviewedAt := l.reviewedAt) == l
  {
    var l1 := l.(status := Pick(status, l.status));
    var l2 := if comments.Some? then l1.(doctorComments := comments) else l1;
    if status.Some? && status.value != LabPending then l2.(reviewedBy := Some(reviewer), reviewedAt := Some(now)) else l2
  }

  /** Setting the status back to pending keeps the earlier reviewer: a result once reviewed stays marked reviewed by someone. */
  lemma BackToPendingKeepsReviewer(l: LabResult, reviewer: Id, comments: Option<string>, now: int)
    ensures Review(l, reviewer, Some(LabPending), comments, now).status == LabPending
    ensures Review(l, reviewer, Some(LabPending), comments, now).reviewedBy == l.reviewedBy
  {
  }

  /**
   * `updateLabResult`: 404 for an unknown result, then 403 for a caller who is
   * neither doctor nor admin (the route has already excluded them); otherwise
   * the review is saved.
   */
  method UpdateLabResult(db: Db, caller: Actor, id: Id, status: Option<LabStatus>, comments: Option<string>, now: int)
    returns (r: Result<LabResult>)
    requires db.Valid()
    modifies db`labResults
    ensures db.Valid()
    ensures id !in old(db.labResults) ==> r == Err(NotFound)
    ensures id in old(db.labResults) && caller.role == Parent ==> r == Err(Forbidden)
    ensures r.Err? ==> db.labResults == old(db.labResults)
    ensures r.Ok? ==> (id in old(db.labResults) && caller.role != Parent &&
      r.value == Review(old(db.labResults)[id], caller.id, status, comments, now) &&
      db.labResults == old(db.labResults)[id := r.value])
  {
    if id !in db.labResults {
      return Err(NotFound);
    }
    if caller.role != Doctor && caller.role != Admin {
      return Err(Forbidden);
    }
    var reviewed := Review(db.labResults[id], caller.id, status, comments, now);
    db.PutLabResult(id, reviewed);
    r := Ok(reviewed);
  }

  /** `deleteLabResult`: 404 for an unknown result, 403 unless the caller is an admin or the uploader. */
  method DeleteLabResult(db: Db, caller: Actor, id: Id) returns (r: Result<Id>)
    requires db.Valid()
    modifies db`labResults
    ensures db.Valid()
    ensures id !in old(db.labResults) ==> r == Err(NotFound)
    ensures id in old(db.labResults) && caller.role != Admin && old(db.labResults)[id].uploadedBy != caller.id ==>
      r == Err(Forbidden)
    ensures r.Err? ==> db.labResults == old(db.labResults)
    ensures r.Ok? ==> (r.value == id && id in old(db.labResults) &&
      (caller.role == Admin || old(db.labResults)[id].uploadedBy == caller.id) &&
      db.labResults == old(db.labResults) - {id})
  {
    if id !in db.labResults {
      return Err(NotFound);
    }
    if caller.role != Admin && db.labResults[id].uploadedBy != caller.id {
      return Err(Forbidden);
    }
    db.RemoveLabResult(id);
    r := Ok(id);
  }
}
