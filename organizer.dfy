/**
 * organizePhotos.py: enumerate the photos of the source folder, bucket them by
 * month, and file each bucket under Photos/<year>/<month> by adding the month
 * folder to each photo's parents.
 */
module Organizer {
  import opened Wrappers
  import opened Listing
  import opened Drive
  import Months
  import Buckets

  const SourceFolderName := "Google Photos IphoneSE"
  const PhotosFolderName := "Photos"

  /** Every listing in this script asks for the same keys. */
  const Listed := IdNameTimeTrashed

  /** Indexing an empty match list (`[...][0]`) raises. */
  datatype Error = NoSourceFolder | NoPhotosFolder

  // ---------------------------------------------------------------------------
  // Filters (the list comprehensions)
  // ---------------------------------------------------------------------------

  /** `[f for f in rs if f['trashed'] == False]` */
  function Live(rs: seq<Record>): seq<Record>
  {
    if rs == [] then []
    else
      var n := |rs| - 1;
      Live(rs[..n]) + (if rs[n].trashed == Some(false) then [rs[n]] else [])
  }

  predicate LiveNamedAs(r: Record, name: string)
  {
    r.name == name && r.trashed == Some(false)
  }

  /** `[item for item in rs if item['name'] == name and item['trashed'] == False]` */
  function LiveNamed(rs: seq<Record>, name: string): seq<Record>
  {
    if rs == [] then []
    else
      var n := |rs| - 1;
      LiveNamed(rs[..n], name) + (if LiveNamedAs(rs[n], name) then [rs[n]] else [])
  }

  lemma {:induction false} LiveMembers(rs: seq<Record>, r: Record)
    ensures r in Live(rs) <==> r in rs && r.trashed == Some(false)
  {
    if rs != [] {
      var n := |rs| - 1;
      LiveMembers(rs[..n], r);
      assert rs == rs[..n] + [rs[n]];
    }
  }

  lemma {:induction false} LiveAppend(a: seq<Record>, b: seq<Record>)
    ensures Live(a + b) == Live(a) + Live(b)
    decreases |b|
  {
    if b == [] {
      assert a + b == a;
    } else {
      var n := |b| - 1;
      assert (a + b)[..|a| + n] == a + b[..n];
      LiveAppend(a, b[..n]);
    }
  }

  /** The match list is empty exactly when nothing listed matches, and otherwise starts with the first match. */
  lemma {:induction false} LiveNamedFirst(rs: seq<Record>, name: string)
    ensures LiveNamed(rs, name) == [] <==> forall i | 0 <= i < |rs| :: !LiveNamedAs(rs[i], name)
    ensures LiveNamed(rs, name) != [] ==>
      exists j | 0 <= j < |rs| :: rs[j] == LiveNamed(rs, name)[0] && LiveNamedAs(rs[j], name)
                                  && forall i | 0 <= i < j :: !LiveNamedAs(rs[i], name)
  {
    if rs != [] {
      var n := |rs| - 1;
      LiveNamedFirst(rs[..n], name);
      if LiveNamed(rs[..n], name) != [] {
        var j :| 0 <= j < n && rs[..n][j] == LiveNamed(rs[..n], name)[0] && LiveNamedAs(rs[..n][j], name)
                 && forall i | 0 <= i < j :: !LiveNamedAs(rs[..n][i], name);
        assert forall i | 0 <= i < j :: rs[i] == rs[..n][i];
      }
    }
  }

  lemma LiveNamedSnoc(rs: seq<Record>, r: Record, name: string)
    ensures LiveNamed(rs + [r], name) == LiveNamed(rs, name) + (if LiveNamedAs(r, name) then [r] else [])
  {
    assert (rs + [r])[..|rs|] == rs;
  }

  lemma {:induction false} LiveNamedMembers(rs: seq<Record>, name: string, r: Record)
    ensures r in LiveNamed(rs, name) <==> r in rs && LiveNamedAs(r, name)
  {
    if rs != [] {
      var n := |rs| - 1;
      LiveNamedMembers(rs[..n], name, r);
      assert rs == rs[..n] + [rs[n]];
    }
  }

  /** A record collected from a listing of `parent` is the current record of a child of `parent`. */
  lemma FetchedChild(es: seq<Entry>, parent: Id, paging: Paging, r: Record)
    requires r in Fetched(ChildrenOf(es, parent, Listed), paging)
    ensures r.id < |es| && parent in es[r.id].parents && r == Project(r.id, es[r.id], Listed)
  {
    FetchedMember(ChildrenOf(es, parent, Listed), paging, r);
    ChildrenOfMembers(es, parent, Listed, r);
  }

  // ---------------------------------------------------------------------------
  // getChildren, getAllPhotos
  // ---------------------------------------------------------------------------

  /** `getChildren(parentID)`: follow the tokens; on a failed request stop and keep what was collected. */
  method GetChildren(service: Service, parentID: Id, paging: Paging) returns (children: seq<Record>)
    ensures children == Fetched(ChildrenOf(service.entries, parentID, Listed), paging)
  {
    ghost var pages := Pages(ChildrenOf(service.entries, parentID, Listed), paging.sizes);
    children := [];
    var pageToken: Option<nat> := None;
    while true
      invariant pageToken.Some? ==> 0 < pageToken.value < |pages|
      invariant children == Flatten(pages[..PageIndex(pageToken)])
      invariant paging.failAt.Some? ==> PageIndex(pageToken) <= paging.failAt.value
      decreases |pages| - PageIndex(pageToken)
    {
      var files := service.List(parentID, Listed, paging, pageToken);
      if files.HttpError? {
        break;
      }
      FlattenSnoc(pages, PageIndex(pageToken));
      children := children + files.files;
      if files.nextPageToken.None? {
        assert pages[..|pages|] == pages;
        break;
      }
      pageToken := files.nextPageToken;
    }
  }

  /**
   * `getAllPhotos()`: find the source folder among the root's children, then
   * collect its non-trashed children page by page, keeping what was collected
   * when a request fails.
   */
  method GetAllPhotos(service: Service, rootPaging: Paging, paging: Paging) returns (result: Result<seq<Record>, Error>)
    ensures var sources := LiveNamed(Fetched(ChildrenOf(service.entries, service.root, Listed), rootPaging), SourceFolderName);
      && (result.Failure? <==> sources == [])
      && (result.Failure? ==> result.error == NoSourceFolder)
      && (result.Success? ==> result.value == Live(Fetched(ChildrenOf(service.entries, sources[0].id, Listed), paging)))
  {
    var rootChildren := GetChildren(service, service.root, rootPaging);
    var googlePhotosFolder := LiveNamed(rootChildren, SourceFolderName);
    if googlePhotosFolder == [] {
      return Failure(NoSourceFolder);
    }
    var googlePhotosFolderId := googlePhotosFolder[0].id;
    ghost var pages := Pages(ChildrenOf(service.entries, googlePhotosFolderId, Listed), paging.sizes);
    var allPhotos := [];
    var pageToken: Option<nat> := None;
    while true
      invariant pageToken.Some? ==> 0 < pageToken.value < |pages|
      invariant allPhotos == Live(Flatten(pages[..PageIndex(pageToken)]))
      invariant paging.failAt.Some? ==> PageIndex(pageToken) <= paging.failAt.value
      decreases |pages| - PageIndex(pageToken)
    {
      var files := service.List(googlePhotosFolderId, Listed, paging, pageToken);
      if files.HttpError? {
        break;
      }
      FlattenSnoc(pages, PageIndex(pageToken));
      LiveAppend(Flatten(pages[..PageIndex(pageToken)]), files.files);
      allPhotos := allPhotos + Live(files.files);
      if files.nextPageToken.None? {
        assert pages[..|pages|] == pages;
        break;
      }
      pageToken := files.nextPageToken;
    }
    result := Success(allPhotos);
  }

  // ---------------------------------------------------------------------------
  // createRemoteFolder and folder resolution
  // ---------------------------------------------------------------------------

  function ParentList(parentID: Option<Id>): set<Id>
  {
    if parentID.Some? then {parentID.value} else {}
  }

  /** `createRemoteFolder(folderName, parentID)`: one new folder, with `[parentID]` as parents when given. */
  method CreateRemoteFolder(service: Service, folderName: string, parentID: Option<Id>, now: string) returns (id: Id)
    requires service.Valid() && Months.ValidStamp(now)
    modifies service
    ensures service.Valid()
    ensures id == |old(service.entries)|
    ensures service.entries == old(service.entries) + [NewFolder(folderName, now, ParentList(parentID))]
  {
    id := service.Create(folderName, ParentList(parentID), now);
  }

  /**
   * The find-or-create step of `copyPhotosToFolders` (year and month alike):
   * the first listed non-trashed child named `name`, or else a new folder
   * under `parent`.  Gives the folder's id and the drive afterwards.
   */
  function Resolve(es: seq<Entry>, parent: Id, name: string, paging: Paging, now: string): (Id, seq<Entry>)
  {
    var found := LiveNamed(Fetched(ChildrenOf(es, parent, Listed), paging), name);
    if |found| > 0 then (found[0].id, es) else (|es|, es + [NewFolder(name, now, {parent})])
  }

  method FindOrCreateFolder(service: Service, parentId: Id, name: string, paging: Paging, now: string) returns (folderId: Id)
    requires service.Valid() && Months.ValidStamp(now)
    modifies service
    ensures service.Valid()
    ensures (folderId, service.entries) == Resolve(old(service.entries), parentId, name, paging, now)
  {
    var children := GetChildren(service, parentId, paging);
    var matches := LiveNamed(children, name);
    if |matches| > 0 {
      folderId := matches[0].id;
    } else {
      folderId := CreateRemoteFolder(service, name, Some(parentId), now);
    }
  }

  /**
   * Resolution reuses exactly when a match is listed: it then returns the first
   * listed non-trashed child with that name and changes nothing; otherwise it
   * adds one folder with that name under `parent`, at a fresh id.
   */
  lemma ResolveReuses(es: seq<Entry>, parent: Id, name: string, paging: Paging, now: string)
    ensures var listed := Fetched(ChildrenOf(es, parent, Listed), paging);
            var (id, es') := Resolve(es, parent, name, paging, now);
      && (es' == es <==> exists r | r in listed :: LiveNamedAs(r, name))
      && (es' == es ==> exists j | 0 <= j < |listed| :: listed[j].id == id && LiveNamedAs(listed[j], name)
                                                       && forall i | 0 <= i < j :: !LiveNamedAs(listed[i], name))
      && (es' != es ==> id == |es| && es' == es + [NewFolder(name, now, {parent})])
  {
    var listed := Fetched(ChildrenOf(es, parent, Listed), paging);
    LiveNamedFirst(listed, name);
    if LiveNamed(listed, name) == [] {
      forall r | r in listed
        ensures !LiveNamedAs(r, name)
      {
        var k :| 0 <= k < |listed| && listed[k] == r;
      }
    }
  }

  /** Whichever way it goes, the folder returned is a non-trashed child of `parent` named `name`, and older items are untouched. */
  lemma ResolvedIsNamedChild(es: seq<Entry>, parent: Id, name: string, paging: Paging, now: string)
    ensures var (id, es') := Resolve(es, parent, name, paging, now);
      && |es| <= |es'| <= |es| + 1 && es'[..|es|] == es
      && id < |es'| && es'[id].name == name && !es'[id].trashed && parent in es'[id].parents
  {
    var found := LiveNamed(Fetched(ChildrenOf(es, parent, Listed), paging), name);
    if |found| > 0 {
      LiveNamedMembers(Fetched(ChildrenOf(es, parent, Listed), paging), name, found[0]);
      FetchedChild(es, parent, paging, found[0]);
    }
  }

  /**
   * Resolving again, on a drive whose listing of `parent` is what the first
   * resolution left, gives the same folder and creates nothing, provided neither
   * enumeration failed.
   */
  lemma ResolveAgain(es: seq<Entry>, later: seq<Entry>, parent: Id, name: string, p1: Paging, p2: Paging, now1: string, now2: string)
    requires Reliable(p1) && Reliable(p2)
    requires ChildrenOf(later, parent, Listed) == ChildrenOf(Resolve(es, parent, name, p1, now1).1, parent, Listed)
    ensures Resolve(later, parent, name, p2, now2) == (Resolve(es, parent, name, p1, now1).0, later)
  {
    var listing := ChildrenOf(es, parent, Listed);
    var relisting := ChildrenOf(later, parent, Listed);
    FetchedAll(listing, p1);
    FetchedAll(relisting, p2);
    if LiveNamed(listing, name) == [] {
      var folder := NewFolder(name, now1, {parent});
      assert Resolve(es, parent, name, p1, now1) == (|es|, es + [folder]);
      ChildrenOfSnoc(es, folder, parent, Listed);
      assert relisting == listing + [Project(|es|, folder, Listed)];
      LiveNamedSnoc(listing, Project(|es|, folder, Listed), name);
      assert LiveNamed(relisting, name) == [Project(|es|, folder, Listed)];
    } else {
      assert Resolve(es, parent, name, p1, now1) == (LiveNamed(listing, name)[0].id, es);
      assert relisting == listing;
    }
  }

  /** Resolving twice in a row gives the same folder the second time and creates nothing (no failed request either time). */
  lemma ResolveIdempotent(es: seq<Entry>, parent: Id, name: string, p1: Paging, p2: Paging, now1: string, now2: string)
    requires Reliable(p1) && Reliable(p2)
    ensures var (id, es') := Resolve(es, parent, name, p1, now1);
            Resolve(es', parent, name, p2, now2) == (id, es')
  {
    ResolveAgain(es, Resolve(es, parent, name, p1, now1).1, parent, name, p1, p2, now1, now2);
  }

  // ---------------------------------------------------------------------------
  // Placement
  // ---------------------------------------------------------------------------

  /** How the server answers the enumerations of one bucket, and the time it stamps on new folders. */
  datatype BucketNet = BucketNet(year: Paging, month: Paging, presence: Paging, now: string)

  /** `[item for item in photoList if item not in present and item['trashed'] == False]` */
  function PhotosToAdd(photos: seq<Record>, present: seq<Record>): seq<Record>
  {
    if photos == [] then []
    else
      var n := |photos| - 1;
      PhotosToAdd(photos[..n], present)
        + (if photos[n] !in present && photos[n].trashed == Some(false) then [photos[n]] else [])
  }

  /** A photo is to be added exactly when it is a non-trashed bucket photo not listed in the month folder. */
  lemma {:induction false} PhotosToAddMembers(photos: seq<Record>, present: seq<Record>, p: Record)
    ensures p in PhotosToAdd(photos, present) <==> p in photos && p !in present && p.trashed == Some(false)
  {
    if photos != [] {
      var n := |photos| - 1;
      PhotosToAddMembers(photos[..n], present, p);
      assert photos == photos[..n] + [photos[n]];
    }
  }

  predicate InDrive(photos: seq<Record>, count: nat)
  {
    forall i | 0 <= i < |photos| :: photos[i].id < count
  }

  lemma PhotosToAddInDrive(photos: seq<Record>, present: seq<Record>, count: nat)
    requires InDrive(photos, count)
    ensures InDrive(PhotosToAdd(photos, present), count)
  {
    var add := PhotosToAdd(photos, present);
    forall i | 0 <= i < |add| ensures add[i].id < count {
      PhotosToAddMembers(photos, present, add[i]);
    }
  }

  function IdsOf(photos: seq<Record>): set<Id>
  {
    set i | 0 <= i < |photos| :: photos[i].id
  }

  /** The drive after `addParents = folder` for each photo in turn. */
  function Attach(es: seq<Entry>, photos: seq<Record>, folder: Id): (r: seq<Entry>)
    requires InDrive(photos, |es|)
    ensures |r| == |es|
  {
    if photos == [] then es
    else
      var n := |photos| - 1;
      WithParent(Attach(es, photos[..n], folder), photos[n].id, folder)
  }

  /** Attaching adds `folder` to the parents of exactly the attached photos and changes nothing else. */
  lemma {:induction false} AttachEffect(es: seq<Entry>, photos: seq<Record>, folder: Id)
    requires InDrive(photos, |es|)
    ensures forall i | 0 <= i < |es| ::
      Attach(es, photos, folder)[i] == es[i].(parents := es[i].parents + (if i in IdsOf(photos) then {folder} else {}))
  {
    if photos != [] {
      var n := |photos| - 1;
      AttachEffect(es, photos[..n], folder);
      assert IdsOf(photos) == IdsOf(photos[..n]) + {photos[n].id} by {
        assert forall i | 0 <= i < n :: photos[..n][i] == photos[i];
      }
    }
  }

  /** Attaching leaves every folder's listing alone except `folder`'s. */
  lemma AttachElsewhere(es: seq<Entry>, photos: seq<Record>, folder: Id, other: Id)
    requires InDrive(photos, |es|) && other != folder
    ensures ChildrenOf(Attach(es, photos, folder), other, Listed) == ChildrenOf(es, other, Listed)
  {
    AttachEffect(es, photos, folder);
    ChildrenOfAgree(Attach(es, photos, folder), es, other, Listed);
  }

  /**
   * What placing one bucket did: the folders used, what the month folder's
   * listing showed, the photos attached, and the drive afterwards.
   */
  datatype Placement = Placement(year: Id, month: Id, present: seq<Record>, added: seq<Record>, after: seq<Entry>)

  /** One iteration of `copyPhotosToFolders`' loop, for bucket `key` holding `photoList`. */
  function Place(es: seq<Entry>, photosFolderId: Id, key: string, photoList: seq<Record>, net: BucketNet): (r: Placement)
    requires Months.IsKey(key) && InDrive(photoList, |es|)
    ensures |es| <= |r.after| <= |es| + 2
  {
    ResolvedIsNamedChild(es, photosFolderId, Months.YearName(key), net.year, net.now);
    var (yearFolderId, es1) := Resolve(es, photosFolderId, Months.YearName(key), net.year, net.now);
    ResolvedIsNamedChild(es1, yearFolderId, Months.MonthFolderName(key), net.month, net.now);
    var (monthFolderId, es2) := Resolve(es1, yearFolderId, Months.MonthFolderName(key), net.month, net.now);
    var present := Fetched(ChildrenOf(es2, monthFolderId, Listed), net.presence);
    var add := PhotosToAdd(photoList, present);
    PhotosToAddInDrive(photoList, present, |es2|);
    Placement(yearFolderId, monthFolderId, present, add, Attach(es2, add, monthFolderId))
  }

  /**
   * The comprehension at the heart of `copyPhotosToFolders`: the month folder is
   * listed again for every photo of the bucket (the listing is inside the
   * comprehension), and a non-trashed photo is kept when its record is not listed.
   */
  method SelectPhotosToAdd(service: Service, monthFolderId: Id, photoList: seq<Record>, presence: Paging)
    returns (photosToAdd: seq<Record>)
    ensures photosToAdd == PhotosToAdd(photoList, Fetched(ChildrenOf(service.entries, monthFolderId, Listed), presence))
  {
    ghost var present := Fetched(ChildrenOf(service.entries, monthFolderId, Listed), presence);
    photosToAdd := [];
    for j := 0 to |photoList|
      invariant photosToAdd == PhotosToAdd(photoList[..j], present)
    {
      assert photoList[..j + 1][..j] == photoList[..j];
      var monthChildren := GetChildren(service, monthFolderId, presence);
      var item := photoList[j];
      if item !in monthChildren && item.trashed == Some(false) {
        photosToAdd := photosToAdd + [item];
      }
    }
    assert photoList[..|photoList|] == photoList;
  }

  /** `files().update(fileId = photo['id'], addParents = monthFolderId)` for each photo in turn. */
  method AttachPhotos(service: Service, photosToAdd: seq<Record>, monthFolderId: Id)
    requires service.Valid() && InDrive(photosToAdd, |service.entries|)
    modifies service
    ensures service.Valid()
    ensures service.entries == Attach(old(service.entries), photosToAdd, monthFolderId)
  {
    for j := 0 to |photosToAdd|
      invariant service.Valid()
      invariant service.entries == Attach(old(service.entries), photosToAdd[..j], monthFolderId)
    {
      assert photosToAdd[..j + 1][..j] == photosToAdd[..j];
      service.AddParent(photosToAdd[j].id, monthFolderId);
    }
    assert photosToAdd[..|photosToAdd|] == photosToAdd;
  }

  /** One pass of `copyPhotosToFolders`' loop: resolve the year and month folders, then attach the missing photos. */
  method PlaceBucket(service: Service, photosFolderId: Id, key: string, photoList: seq<Record>, net: BucketNet)
    requires service.Valid() && Months.ValidStamp(net.now)
    requires Months.IsKey(key) && InDrive(photoList, |service.entries|)
    modifies service
    ensures service.Valid()
    ensures service.entries == Place(old(service.entries), photosFolderId, key, photoList, net).after
  {
    ResolvedIsNamedChild(service.entries, photosFolderId, Months.YearName(key), net.year, net.now);
    var yearFolderId := FindOrCreateFolder(service, photosFolderId, Months.YearName(key), net.year, net.now);
    var monthString := Months.MonthName(Months.MonthNumber(key));
    ResolvedIsNamedChild(service.entries, yearFolderId, monthString, net.month, net.now);
    var monthFolderId := FindOrCreateFolder(service, yearFolderId, monthString, net.month, net.now);
    var photosToAdd := SelectPhotosToAdd(service, monthFolderId, photoList, net.presence);
    PhotosToAddInDrive(photoList, Fetched(ChildrenOf(service.entries, monthFolderId, Listed), net.presence), |service.entries|);
    AttachPhotos(service, photosToAdd, monthFolderId);
  }

  /**
   * Placement only adds: the items that existed keep everything, parents
   * included, and the month folder joins the parents of exactly the photos
   * attached, which are the non-trashed bucket photos the month folder's listing
   * did not show.  The listing it consulted shows children of the month folder.
   */
  lemma PlaceEffect(es: seq<Entry>, photosFolderId: Id, key: string, photoList: seq<Record>, net: BucketNet)
    requires Months.IsKey(key) && InDrive(photoList, |es|)
    ensures var r := Place(es, photosFolderId, key, photoList, net);
      && (forall i | 0 <= i < |es| ::
            r.after[i] == es[i].(parents := es[i].parents + (if i in IdsOf(r.added) then {r.month} else {})))
      && (forall p :: p in r.added <==> p in photoList && p.trashed == Some(false) && p !in r.present)
      && (forall q | q in r.present :: q.id < |r.after| && r.month in r.after[q.id].parents)
  {
    var r := Place(es, photosFolderId, key, photoList, net);
    var (yearFolderId, es1) := Resolve(es, photosFolderId, Months.YearName(key), net.year, net.now);
    ResolvedIsNamedChild(es, photosFolderId, Months.YearName(key), net.year, net.now);
    var (monthFolderId, es2) := Resolve(es1, yearFolderId, Months.MonthFolderName(key), net.month, net.now);
    ResolvedIsNamedChild(es1, yearFolderId, Months.MonthFolderName(key), net.month, net.now);
    PhotosToAddInDrive(photoList, r.present, |es2|);
    assert r.after == Attach(es2, r.added, monthFolderId);
    AttachEffect(es2, r.added, monthFolderId);
    forall p
      ensures p in r.added <==> p in photoList && p.trashed == Some(false) && p !in r.present
    {
      PhotosToAddMembers(photoList, r.present, p);
    }
    forall q | q in r.present
      ensures q.id < |r.after| && r.month in r.after[q.id].parents
    {
      FetchedChild(es2, monthFolderId, net.presence, q);
    }
  }

  /** Every item that existed keeps its name, time, flag and type, and loses no parent. */
  ghost predicate Grows(es: seq<Entry>, es': seq<Entry>)
  {
    && |es| <= |es'|
    && forall i | 0 <= i < |es| :: es'[i] == es[i].(parents := es'[i].parents) && es[i].parents <= es'[i].parents
  }

  lemma PlaceGrows(es: seq<Entry>, photosFolderId: Id, key: string, photoList: seq<Record>, net: BucketNet)
    requires Months.IsKey(key) && InDrive(photoList, |es|)
    ensures Grows(es, Place(es, photosFolderId, key, photoList, net).after)
  {
    PlaceEffect(es, photosFolderId, key, photoList, net);
  }

  /**
   * Photo `id` sits in folder `month`, a non-trashed folder named for `key`'s
   * month inside `year`, a non-trashed folder named for `key`'s year inside the
   * Photos folder.
   */
  ghost predicate FiledUnder(es: seq<Entry>, id: Id, month: Id, year: Id, photosFolderId: Id, key: string)
    requires Months.IsKey(key)
  {
    && id < |es| && month < |es| && year < |es|
    && month in es[id].parents
    && es[month].name == Months.MonthFolderName(key) && !es[month].trashed && year in es[month].parents
    && es[year].name == Months.YearName(key) && !es[year].trashed && photosFolderId in es[year].parents
  }

  ghost predicate Filed(es: seq<Entry>, id: Id, photosFolderId: Id, key: string)
    requires Months.IsKey(key)
  {
    exists month, year :: FiledUnder(es, id, month, year, photosFolderId, key)
  }

  /** After placing a bucket every non-trashed photo of it is filed under its year and month, whether it was attached now or listed already. */
  lemma PlaceFiles(es: seq<Entry>, photosFolderId: Id, key: string, photoList: seq<Record>, net: BucketNet)
    requires Months.IsKey(key) && InDrive(photoList, |es|)
    ensures var r := Place(es, photosFolderId, key, photoList, net);
      forall i | 0 <= i < |photoList| && photoList[i].trashed == Some(false) ::
        FiledUnder(r.after, photoList[i].id, r.month, r.year, photosFolderId, key)
  {
    var r := Place(es, photosFolderId, key, photoList, net);
    var (yearFolderId, es1) := Resolve(es, photosFolderId, Months.YearName(key), net.year, net.now);
    ResolvedIsNamedChild(es, photosFolderId, Months.YearName(key), net.year, net.now);
    var (monthFolderId, es2) := Resolve(es1, yearFolderId, Months.MonthFolderName(key), net.month, net.now);
    ResolvedIsNamedChild(es1, yearFolderId, Months.MonthFolderName(key), net.month, net.now);
    assert es2[yearFolderId] == es1[yearFolderId];
    PlaceEffect(es, photosFolderId, key, photoList, net);
    PhotosToAddInDrive(photoList, r.present, |es2|);
    AttachEffect(es2, r.added, monthFolderId);
    forall i | 0 <= i < |photoList| && photoList[i].trashed == Some(false)
      ensures FiledUnder(r.after, photoList[i].id, r.month, r.year, photosFolderId, key)
    {
      var p := photoList[i];
      if p in r.present {
      } else {
        assert p in r.added;
        assert exists k | 0 <= k < |r.added| :: r.added[k] == p;
        assert p.id in IdsOf(r.added);
      }
    }
  }

  /** The photos' records are the ones the drive lists now. */
  predicate Current(photos: seq<Record>, es: seq<Entry>)
  {
    && InDrive(photos, |es|)
    && forall i | 0 <= i < |photos| :: photos[i] == Project(photos[i].id, es[photos[i].id], Listed)
  }

  lemma NothingToAdd(photos: seq<Record>, present: seq<Record>)
    requires forall i | 0 <= i < |photos| && photos[i].trashed == Some(false) :: photos[i] in present
    ensures PhotosToAdd(photos, present) == []
  {
    var add := PhotosToAdd(photos, present);
    if add != [] {
      PhotosToAddMembers(photos, present, add[0]);
      assert false;
    }
  }

  /**
   * Running a bucket a second time attaches nothing and creates nothing: the
   * second run finds the same year and month folders and every photo already
   * listed in the month folder.  This needs the folder lookups of both runs and
   * the second run's presence listing to succeed, and the three folders
   * involved to be distinct (the drive's folders form a tree).
   */
  lemma PlaceIdempotent(es: seq<Entry>, photosFolderId: Id, key: string, photoList: seq<Record>, net1: BucketNet, net2: BucketNet)
    requires Months.IsKey(key) && Current(photoList, es)
    requires Reliable(net1.year) && Reliable(net1.month)
    requires Reliable(net2.year) && Reliable(net2.month) && Reliable(net2.presence)
    requires var r := Place(es, photosFolderId, key, photoList, net1);
             r.year != photosFolderId && r.month != photosFolderId && r.month != r.year
    ensures var r := Place(es, photosFolderId, key, photoList, net1);
            var again := Place(r.after, photosFolderId, key, photoList, net2);
            again.year == r.year && again.month == r.month && again.added == [] && again.after == r.after
  {
    var r := Place(es, photosFolderId, key, photoList, net1);
    var yearName, monthName := Months.YearName(key), Months.MonthFolderName(key);
    var (yearFolderId, es1) := Resolve(es, photosFolderId, yearName, net1.year, net1.now);
    ResolvedIsNamedChild(es, photosFolderId, yearName, net1.year, net1.now);
    var (monthFolderId, es2) := Resolve(es1, yearFolderId, monthName, net1.month, net1.now);
    ResolvedIsNamedChild(es1, yearFolderId, monthName, net1.month, net1.now);
    ResolveReuses(es1, yearFolderId, monthName, net1.month, net1.now);
    PhotosToAddInDrive(photoList, r.present, |es2|);
    assert r.after == Attach(es2, r.added, monthFolderId);

    // The Photos folder lists the same children as after the first year step.
    AttachElsewhere(es2, r.added, monthFolderId, photosFolderId);
    if es2 != es1 {
      ChildrenOfSnoc(es1, NewFolder(monthName, net1.now, {yearFolderId}), photosFolderId, Listed);
    }
    ResolveAgain(es, r.after, photosFolderId, yearName, net1.year, net2.year, net1.now, net2.now);

    // The year folder lists the same children as after the first month step.
    AttachElsewhere(es2, r.added, monthFolderId, yearFolderId);
    ResolveAgain(es1, r.after, yearFolderId, monthName, net1.month, net2.month, net1.now, net2.now);

    // Every non-trashed photo is now listed in the month folder.
    var again := Place(r.after, photosFolderId, key, photoList, net2);
    FetchedAll(ChildrenOf(r.after, monthFolderId, Listed), net2.presence);
    assert again.present == ChildrenOf(r.after, monthFolderId, Listed);
    PlaceFiles(es, photosFolderId, key, photoList, net1);
    AttachEffect(es2, r.added, monthFolderId);
    forall i | 0 <= i < |photoList| && photoList[i].trashed == Some(false)
      ensures photoList[i] in again.present
    {
      var p := photoList[i];
      assert es2[p.id] == es[p.id];
      ChildrenOfMembers(r.after, monthFolderId, Listed, p);
    }
    NothingToAdd(photoList, again.present);
  }

  // ---------------------------------------------------------------------------
  // copyPhotosToFolders and main
  // ---------------------------------------------------------------------------

  /** Every key is a month key and every photo exists on a drive of `count` items. */
  predicate Placeable(buckets: map<string, seq<Record>>, count: nat)
  {
    forall key | key in buckets :: Months.IsKey(key) && InDrive(buckets[key], count)
  }

  lemma PlaceableGrows(buckets: map<string, seq<Record>>, count: nat, count': nat)
    requires Placeable(buckets, count) && count <= count'
    ensures Placeable(buckets, count')
  {
  }

  /** The drive after placing the buckets of `order`, one after the other. */
  function Copy(es: seq<Entry>, photosFolderId: Id, buckets: map<string, seq<Record>>, order: seq<string>,
                net: string -> BucketNet): (r: seq<Entry>)
    requires Placeable(buckets, |es|) && forall i | 0 <= i < |order| :: order[i] in buckets
    ensures |es| <= |r|
  {
    if order == [] then es
    else
      var n := |order| - 1;
      var before := Copy(es, photosFolderId, buckets, order[..n], net);
      PlaceableGrows(buckets, |es|, |before|);
      Place(before, photosFolderId, order[n], buckets[order[n]], net(order[n])).after
  }

  /** Copying one more bucket places it on the drive the earlier buckets left. */
  lemma CopySnoc(es: seq<Entry>, photosFolderId: Id, buckets: map<string, seq<Record>>, order: seq<string>, key: string,
                 net: string -> BucketNet)
    requires Placeable(buckets, |es|) && key in buckets && forall i | 0 <= i < |order| :: order[i] in buckets
    ensures Placeable(buckets, |Copy(es, photosFolderId, buckets, order, net)|)
    ensures Copy(es, photosFolderId, buckets, order + [key], net)
         == Place(Copy(es, photosFolderId, buckets, order, net), photosFolderId, key, buckets[key], net(key)).after
  {
    PlaceableGrows(buckets, |es|, |Copy(es, photosFolderId, buckets, order, net)|);
    assert (order + [key])[..|order|] == order;
  }

  /**
   * `copyPhotosToFolders`: place every bucket once, in the dictionary's
   * iteration order, which Python leaves unspecified; `order` records the order
   * taken.
   */
  method CopyPhotosToFolders(service: Service, allPhotosByMonth: map<string, seq<Record>>, photosFolderId: Id,
                             net: string -> BucketNet)
    returns (ghost order: seq<string>)
    requires service.Valid() && Placeable(allPhotosByMonth, |service.entries|)
    requires forall key | key in allPhotosByMonth :: Months.ValidStamp(net(key).now)
    modifies service
    ensures service.Valid()
    ensures Buckets.Distinct(order) && forall key :: key in order <==> key in allPhotosByMonth
    ensures service.entries == Copy(old(service.entries), photosFolderId, allPhotosByMonth, order, net)
  {
    var remaining := allPhotosByMonth.Keys;
    order := [];
    while remaining != {}
      invariant remaining <= allPhotosByMonth.Keys
      invariant forall key :: key in order <==> key in allPhotosByMonth && key !in remaining
      invariant Buckets.Distinct(order)
      invariant service.Valid() && |old(service.entries)| <= |service.entries|
      invariant service.entries == Copy(old(service.entries), photosFolderId, allPhotosByMonth, order, net)
      decreases remaining
    {
      var key :| key in remaining;
      CopySnoc(old(service.entries), photosFolderId, allPhotosByMonth, order, key, net);
      PlaceBucket(service, photosFolderId, key, allPhotosByMonth[key], net(key));
      order := order + [key];
      remaining := remaining - {key};
    }
  }

  lemma GrowsTransitive(a: seq<Entry>, b: seq<Entry>, c: seq<Entry>)
    requires Grows(a, b) && Grows(b, c)
    ensures Grows(a, c)
  {
  }

  /** Copying never removes a parent and never renames, trashes or retypes an item. */
  lemma {:induction false} CopyGrows(es: seq<Entry>, photosFolderId: Id, buckets: map<string, seq<Record>>, order: seq<string>,
                                     net: string -> BucketNet)
    requires Placeable(buckets, |es|) && forall i | 0 <= i < |order| :: order[i] in buckets
    ensures Grows(es, Copy(es, photosFolderId, buckets, order, net))
  {
    if order != [] {
      var n := |order| - 1;
      var before := Copy(es, photosFolderId, buckets, order[..n], net);
      CopyGrows(es, photosFolderId, buckets, order[..n], net);
      PlaceableGrows(buckets, |es|, |before|);
      PlaceGrows(before, photosFolderId, order[n], buckets[order[n]], net(order[n]));
      GrowsTransitive(es, before, Copy(es, photosFolderId, buckets, order, net));
    }
  }

  lemma FiledGrows(es: seq<Entry>, es': seq<Entry>, id: Id, photosFolderId: Id, key: string)
    requires Months.IsKey(key) && Grows(es, es') && Filed(es, id, photosFolderId, key)
    ensures Filed(es', id, photosFolderId, key)
  {
    var month, year :| FiledUnder(es, id, month, year, photosFolderId, key);
    assert FiledUnder(es', id, month, year, photosFolderId, key);
  }

  /** Placing a bucket files each of its live photos. */
  lemma PlaceFilesEach(es: seq<Entry>, photosFolderId: Id, key: string, photoList: seq<Record>, net: BucketNet, i: nat)
    requires Months.IsKey(key) && InDrive(photoList, |es|)
    requires i < |photoList| && photoList[i].trashed == Some(false)
    ensures Filed(Place(es, photosFolderId, key, photoList, net).after, photoList[i].id, photosFolderId, key)
  {
    var r := Place(es, photosFolderId, key, photoList, net);
    PlaceFiles(es, photosFolderId, key, photoList, net);
    assert FiledUnder(r.after, photoList[i].id, r.month, r.year, photosFolderId, key);
  }

  /**
   * After copying, every non-trashed photo of every bucket placed sits in a
   * month folder named for its bucket inside a year folder named for it inside
   * the Photos folder, whatever later buckets did and whichever requests failed.
   */
  lemma {:induction false} CopyFiles(es: seq<Entry>, photosFolderId: Id, buckets: map<string, seq<Record>>, order: seq<string>,
                                     net: string -> BucketNet)
    requires Placeable(buckets, |es|) && forall i | 0 <= i < |order| :: order[i] in buckets
    ensures forall k, i | 0 <= k < |order| && 0 <= i < |buckets[order[k]]| && buckets[order[k]][i].trashed == Some(false) ::
      Filed(Copy(es, photosFolderId, buckets, order, net), buckets[order[k]][i].id, photosFolderId, order[k])
  {
    if order != [] {
      var n := |order| - 1;
      var prefix, last := order[..n], order[n];
      assert order == prefix + [last];
      var before := Copy(es, photosFolderId, buckets, prefix, net);
      CopyFiles(es, photosFolderId, buckets, prefix, net);
      CopySnoc(es, photosFolderId, buckets, prefix, last, net);
      var after := Place(before, photosFolderId, last, buckets[last], net(last)).after;
      PlaceGrows(before, photosFolderId, last, buckets[last], net(last));
      forall k, i | 0 <= k < |order| && 0 <= i < |buckets[order[k]]| && buckets[order[k]][i].trashed == Some(false)
        ensures Filed(after, buckets[order[k]][i].id, photosFolderId, order[k])
      {
        if k < n {
          assert prefix[k] == order[k];
          FiledGrows(before, after, buckets[order[k]][i].id, photosFolderId, order[k]);
        } else {
          PlaceFilesEach(before, photosFolderId, last, buckets[last], net(last), i);
        }
      }
    }
  }

  /**
   * With every request answered, a lookup through `getChildren` misses no
   * folder: the match list is empty exactly when `parent` has no non-trashed
   * child named `name`, on whatever page the server would put it.
   */
  lemma LookupComplete(es: seq<Entry>, parent: Id, name: string, paging: Paging)
    requires Reliable(paging)
    ensures LiveNamed(Fetched(ChildrenOf(es, parent, Listed), paging), name) == []
        <==> forall i | 0 <= i < |es| :: !(parent in es[i].parents && es[i].name == name && !es[i].trashed)
  {
    var rs := ChildrenOf(es, parent, Listed);
    FetchedAll(rs, paging);
    LiveNamedFirst(rs, name);
    if LiveNamed(rs, name) != [] {
      var j :| 0 <= j < |rs| && LiveNamedAs(rs[j], name);
      ChildrenOfMembers(es, parent, Listed, rs[j]);
    }
    if i :| 0 <= i < |es| && parent in es[i].parents && es[i].name == name && !es[i].trashed {
      ChildrenOfMembers(es, parent, Listed, Project(i, es[i], Listed));
      var j :| 0 <= j < |rs| && rs[j] == Project(i, es[i], Listed);
      assert LiveNamedAs(rs[j], name);
    }
  }

  /** How the server answers the run's enumerations. */
  datatype RunNet = RunNet(sourceLookup: Paging, photos: Paging, photosLookup: Paging, buckets: string -> BucketNet)

  /** The photos a listing of the source folder gives can be bucketed and placed. */
  lemma ListedPhotosPlaceable(es: seq<Entry>, folder: Id, paging: Paging)
    requires Stamped(es)
    ensures var photos := Live(Fetched(ChildrenOf(es, folder, Listed), paging));
            Buckets.Dated(photos) && Placeable(Buckets.ByMonth(photos), |es|)
  {
    var photos := Live(Fetched(ChildrenOf(es, folder, Listed), paging));
    forall i | 0 <= i < |photos|
      ensures photos[i].id < |es| && photos[i] == Project(photos[i].id, es[photos[i].id], Listed)
    {
      LiveMembers(Fetched(ChildrenOf(es, folder, Listed), paging), photos[i]);
      FetchedChild(es, folder, paging, photos[i]);
    }
    var byMonth := Buckets.ByMonth(photos);
    forall key | key in byMonth
      ensures Months.IsKey(key) && InDrive(byMonth[key], |es|)
    {
      Buckets.KeysOfMembers(photos, key);
      forall j | 0 <= j < |byMonth[key]| ensures byMonth[key][j].id < |es| {
        Buckets.BucketMembers(photos, key, byMonth[key][j]);
      }
    }
  }

  /**
   * `main` without authentication and printing: list the photos, look up the
   * Photos folder, bucket, and place every bucket.  An empty match list for
   * either folder ends the run before any change.
   */
  method Organize(service: Service, net: RunNet) returns (result: Result<(), Error>, ghost order: seq<string>)
    requires service.Valid()
    requires forall key :: Months.ValidStamp(net.buckets(key).now)
    modifies service
    ensures service.Valid()
    ensures var es := old(service.entries);
            var sources := LiveNamed(Fetched(ChildrenOf(es, service.root, Listed), net.sourceLookup), SourceFolderName);
            var targets := LiveNamed(Fetched(ChildrenOf(es, service.root, Listed), net.photosLookup), PhotosFolderName);
      && (result == Failure(NoSourceFolder) <==> sources == [])
      && (result == Failure(NoPhotosFolder) <==> sources != [] && targets == [])
      && (result.Failure? ==> service.entries == es)
      && (result.Success? ==>
            var photos := Live(Fetched(ChildrenOf(es, sources[0].id, Listed), net.photos));
            && Buckets.Dated(photos) && Placeable(Buckets.ByMonth(photos), |es|)
            && Buckets.Distinct(order) && (forall key :: key in order <==> key in Buckets.ByMonth(photos))
            && service.entries == Copy(es, targets[0].id, Buckets.ByMonth(photos), order, net.buckets))
  {
    order := [];
    var allPhotos := GetAllPhotos(service, net.sourceLookup, net.photos);
    if allPhotos.Failure? {
      return Failure(allPhotos.error), order;
    }
    var rootChildren := GetChildren(service, service.root, net.photosLookup);
    var photosFolders := LiveNamed(rootChildren, PhotosFolderName);
    if photosFolders == [] {
      return Failure(NoPhotosFolder), order;
    }
    var photosFolderId := photosFolders[0].id;
    ghost var sources := LiveNamed(Fetched(ChildrenOf(service.entries, service.root, Listed), net.sourceLookup), SourceFolderName);
    ListedPhotosPlaceable(service.entries, sources[0].id, net.photos);
    var allPhotosByMonth := Buckets.SeparatePhotosByMonth(allPhotos.value);
    assert allPhotosByMonth == Buckets.ByMonth(allPhotos.value);
    order := CopyPhotosToFolders(service, allPhotosByMonth, photosFolderId, net.buckets);
    result := Success(());
  }
}
