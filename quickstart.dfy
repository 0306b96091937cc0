/**
 * quickstart.py: the earlier script.  It shares `separatePhotosByMonth` and
 * `createRemoteFolder` with organizePhotos.py (modelled once, in Buckets and
 * Organizer) and differs in the rest:
 *  - the source and Photos folders are looked up in a single list request
 *    (one page), by name only;
 *  - the photo listing is paginated but keeps trashed photos, and asks for
 *    id, name and createdTime only;
 *  - only the bucket "2007-09" is filed; its year and month folders are looked
 *    up in a single request each, by name only;
 *  - an HttpError outside the photo listing is not caught, and ends the run.
 */
module QuickStart {
  import opened Wrappers
  import opened Listing
  import opened Drive
  import Months
  import Buckets
  import Organizer

  /** The only bucket this script files. */
  const TargetKey := "2007-09"

  /** The photo listing's keys; every other request takes the server's default keys. */
  const PhotoFields := IdNameTime

  /** An uncaught HttpError, or indexing an empty match list. */
  datatype Error = RequestFailed | NoSourceFolder | NoPhotosFolder

  lemma TargetIsKey()
    ensures Months.IsKey(TargetKey)
    ensures Months.YearName(TargetKey) == "2007" && Months.MonthFolderName(TargetKey) == "September"
  {
    assert Months.MonthNumber(TargetKey) == 9;
  }

  // ---------------------------------------------------------------------------
  // Single-request lookups
  // ---------------------------------------------------------------------------

  /** `[item for item in rs if item['name'] == name]` */
  function Named(rs: seq<Record>, name: string): seq<Record>
  {
    if rs == [] then []
    else
      var n := |rs| - 1;
      Named(rs[..n], name) + (if rs[n].name == name then [rs[n]] else [])
  }

  lemma {:induction false} NamedMembers(rs: seq<Record>, name: string, r: Record)
    ensures r in Named(rs, name) <==> r in rs && r.name == name
  {
    if rs != [] {
      var n := |rs| - 1;
      NamedMembers(rs[..n], name, r);
      assert rs == rs[..n] + [rs[n]];
    }
  }

  /** The match list is empty exactly when nothing listed has the name, and otherwise starts with the first record that has it. */
  lemma {:induction false} NamedFirst(rs: seq<Record>, name: string)
    ensures Named(rs, name) == [] <==> forall i | 0 <= i < |rs| :: rs[i].name != name
    ensures Named(rs, name) != [] ==>
      exists j | 0 <= j < |rs| :: rs[j] == Named(rs, name)[0] && rs[j].name == name
                                  && forall i | 0 <= i < j :: rs[i].name != name
  {
    if rs != [] {
      var n := |rs| - 1;
      NamedFirst(rs[..n], name);
      if Named(rs[..n], name) != [] {
        var j :| 0 <= j < n && rs[..n][j] == Named(rs[..n], name)[0] && rs[..n][j].name == name
                 && forall i | 0 <= i < j :: rs[..n][i].name != name;
        assert forall i | 0 <= i < j :: rs[i] == rs[..n][i];
      }
    }
  }

  /**
   * One `files().list(q = "'<parent>' in parents")` request without a page
   * token, keeping the children named `name`.  An HttpError escapes.
   */
  function LookUp(es: seq<Entry>, parent: Id, name: string, paging: Paging): Result<seq<Record>, Error>
  {
    match FirstPage(ChildrenOf(es, parent, DefaultFields), paging)
    case None => Failure(RequestFailed)
    case Some(page) => Success(Named(page, name))
  }

  /** What a lookup returns are children of `parent` named `name`, trashed or not. */
  lemma LookUpFinds(es: seq<Entry>, parent: Id, name: string, paging: Paging, r: Record)
    requires LookUp(es, parent, name, paging).Success? && r in LookUp(es, parent, name, paging).value
    ensures r.id < |es| && parent in es[r.id].parents && es[r.id].name == name
    ensures r == Project(r.id, es[r.id], DefaultFields)
  {
    var children := ChildrenOf(es, parent, DefaultFields);
    var page := FirstPage(children, paging).value;
    NamedMembers(page, name, r);
    FirstPageIsPrefix(children, paging);
    ChildrenOfMembers(es, parent, DefaultFields, r);
  }

  /** When every child fits on the first page, a lookup sees every child named `name`. */
  lemma LookUpComplete(es: seq<Entry>, parent: Id, name: string, paging: Paging, i: nat)
    requires paging.sizes == [] && paging.failAt != Some(0)
    requires i < |es| && parent in es[i].parents && es[i].name == name
    ensures LookUp(es, parent, name, paging).Success?
    ensures Project(i, es[i], DefaultFields) in LookUp(es, parent, name, paging).value
  {
    var children := ChildrenOf(es, parent, DefaultFields);
    assert Pages(children, paging.sizes) == [children];
    ChildrenOfMembers(es, parent, DefaultFields, Project(i, es[i], DefaultFields));
    NamedMembers(children, name, Project(i, es[i], DefaultFields));
  }

  method FindNamed(service: Service, parent: Id, name: string, paging: Paging) returns (result: Result<seq<Record>, Error>)
    ensures result == LookUp(service.entries, parent, name, paging)
  {
    var response := service.List(parent, DefaultFields, paging, None);
    if response.HttpError? {
      return Failure(RequestFailed);
    }
    result := Success(Named(response.files, name));
  }

  // ---------------------------------------------------------------------------
  // getAllPhotos
  // ---------------------------------------------------------------------------

  /** The photos `getAllPhotos` returns: every child of the first source folder listed that was fetched. */
  function AllPhotos(es: seq<Entry>, root: Id, rootPaging: Paging, paging: Paging): Result<seq<Record>, Error>
  {
    match LookUp(es, root, Organizer.SourceFolderName, rootPaging)
    case Failure(e) => Failure(e)
    case Success(found) =>
      if found == [] then Failure(NoSourceFolder)
      else Success(Fetched(ChildrenOf(es, found[0].id, PhotoFields), paging))
  }

  /**
   * `getAllPhotos`: look the source folder up on the root's first page, then
   * collect all its children page by page, keeping what was collected when a
   * request fails.
   */
  method GetAllPhotos(service: Service, rootPaging: Paging, paging: Paging) returns (result: Result<seq<Record>, Error>)
    ensures result == AllPhotos(service.entries, service.root, rootPaging, paging)
  {
    var googlePhotosFolder := FindNamed(service, service.root, Organizer.SourceFolderName, rootPaging);
    if googlePhotosFolder.Failure? {
      return Failure(googlePhotosFolder.error);
    }
    if googlePhotosFolder.value == [] {
      return Failure(NoSourceFolder);
    }
    var googlePhotosFolderId := googlePhotosFolder.value[0].id;
    ghost var pages := Pages(ChildrenOf(service.entries, googlePhotosFolderId, PhotoFields), paging.sizes);
    var allPhotos := [];
    var pageToken: Option<nat> := None;
    while true
      invariant pageToken.Some? ==> 0 < pageToken.value < |pages|
      invariant allPhotos == Flatten(pages[..PageIndex(pageToken)])
      invariant paging.failAt.Some? ==> PageIndex(pageToken) <= paging.failAt.value
      decreases |pages| - PageIndex(pageToken)
    {
      var files := service.List(googlePhotosFolderId, PhotoFields, paging, pageToken);
      if files.HttpError? {
        break;
      }
      FlattenSnoc(pages, PageIndex(pageToken));
      allPhotos := allPhotos + files.files;
      if files.nextPageToken.None? {
        assert pages[..|pages|] == pages;
        break;
      }
      pageToken := files.nextPageToken;
    }
    result := Success(allPhotos);
  }

  /**
   * The photos listed are children of a folder named for the source folder in
   * the root, as the drive holds them now, trashed or not; with a reliable
   * listing they are all of its children.
   */
  lemma AllPhotosAreChildren(es: seq<Entry>, root: Id, rootPaging: Paging, paging: Paging)
    requires AllPhotos(es, root, rootPaging, paging).Success?
    ensures var found := LookUp(es, root, Organizer.SourceFolderName, rootPaging).value;
      && found != [] && found[0].id < |es| && root in es[found[0].id].parents
      && es[found[0].id].name == Organizer.SourceFolderName
      && (forall p | p in AllPhotos(es, root, rootPaging, paging).value ::
            p.id < |es| && found[0].id in es[p.id].parents && p == Project(p.id, es[p.id], PhotoFields))
      && (Reliable(paging) ==> AllPhotos(es, root, rootPaging, paging).value == ChildrenOf(es, found[0].id, PhotoFields))
  {
    var found := LookUp(es, root, Organizer.SourceFolderName, rootPaging).value;
    LookUpFinds(es, root, Organizer.SourceFolderName, rootPaging, found[0]);
    var children := ChildrenOf(es, found[0].id, PhotoFields);
    forall p | p in AllPhotos(es, root, rootPaging, paging).value
      ensures p.id < |es| && found[0].id in es[p.id].parents && p == Project(p.id, es[p.id], PhotoFields)
    {
      FetchedMember(children, paging, p);
      ChildrenOfMembers(es, found[0].id, PhotoFields, p);
    }
    if Reliable(paging) {
      FetchedAll(children, paging);
    }
  }

  /** The photos listed can be bucketed, and every bucket placed. */
  lemma AllPhotosPlaceable(es: seq<Entry>, root: Id, rootPaging: Paging, paging: Paging)
    requires Stamped(es) && AllPhotos(es, root, rootPaging, paging).Success?
    ensures var photos := AllPhotos(es, root, rootPaging, paging).value;
            Buckets.Dated(photos) && Organizer.Placeable(Buckets.ByMonth(photos), |es|)
  {
    var photos := AllPhotos(es, root, rootPaging, paging).value;
    AllPhotosAreChildren(es, root, rootPaging, paging);
    assert forall i | 0 <= i < |photos| :: photos[i] in photos;
    var byMonth := Buckets.ByMonth(photos);
    forall key | key in byMonth
      ensures Months.IsKey(key) && Organizer.InDrive(byMonth[key], |es|)
    {
      Buckets.KeysOfMembers(photos, key);
      forall j | 0 <= j < |byMonth[key]| ensures byMonth[key][j].id < |es| {
        Buckets.BucketMembers(photos, key, byMonth[key][j]);
      }
    }
  }

  // ---------------------------------------------------------------------------
  // copyPhotosToFolders
  // ---------------------------------------------------------------------------

  /** The year or month folder step: the first child listed with that name, or a new folder. */
  function Resolve(es: seq<Entry>, parent: Id, name: string, paging: Paging, now: string): (r: Result<(Id, seq<Entry>), Error>)
  {
    match LookUp(es, parent, name, paging)
    case Failure(e) => Failure(e)
    case Success(found) =>
      if found != [] then Success((found[0].id, es))
      else Success((|es|, es + [NewFolder(name, now, Organizer.ParentList(Some(parent)))]))
  }

  /**
   * A resolved folder is a child of `parent` named `name`, either one the
   * drive had (possibly trashed) or a single new folder; a failed lookup
   * creates nothing.
   */
  lemma ResolvedIsNamedChild(es: seq<Entry>, parent: Id, name: string, paging: Paging, now: string)
    requires Resolve(es, parent, name, paging, now).Success?
    ensures var (id, es') := Resolve(es, parent, name, paging, now).value;
      && (es' == es || es' == es + [NewFolder(name, now, {parent})])
      && id < |es'| && parent in es'[id].parents && es'[id].name == name
  {
    var found := LookUp(es, parent, name, paging).value;
    if found != [] {
      LookUpFinds(es, parent, name, paging, found[0]);
    }
  }

  /**
   * The step fails exactly when its single request fails.  Otherwise nothing
   * is created exactly when the first page lists a child with the name, and
   * then the first such child is returned; else one folder is created under
   * `parent` at a fresh id.
   */
  lemma ResolveReuses(es: seq<Entry>, parent: Id, name: string, paging: Paging, now: string)
    ensures var first := FirstPage(ChildrenOf(es, parent, DefaultFields), paging);
            var r := Resolve(es, parent, name, paging, now);
      && (r.Failure? <==> first.None?)
      && (first.Some? ==>
            var page := first.value;
            var (id, es') := r.value;
            && (es' == es <==> exists rec | rec in page :: rec.name == name)
            && (es' == es ==> exists j | 0 <= j < |page| :: page[j].id == id && page[j].name == name
                                                           && forall i | 0 <= i < j :: page[i].name != name)
            && (es' != es ==> id == |es| && es' == es + [NewFolder(name, now, {parent})]))
  {
    var first := FirstPage(ChildrenOf(es, parent, DefaultFields), paging);
    if first.Some? {
      var page := first.value;
      NamedFirst(page, name);
      if Named(page, name) == [] {
        forall rec | rec in page
          ensures rec.name != name
        {
          var k :| 0 <= k < |page| && page[k] == rec;
        }
      }
    }
  }

  method FindOrCreateFolder(service: Service, parent: Id, name: string, paging: Paging, now: string)
    returns (result: Result<Id, Error>)
    requires service.Valid() && Months.ValidStamp(now)
    modifies service
    ensures service.Valid()
    ensures var r := Resolve(old(service.entries), parent, name, paging, now);
      && result.Success? == r.Success?
      && (r.Failure? ==> result == Failure(r.error) && service.entries == old(service.entries))
      && (r.Success? ==> result == Success(r.value.0) && service.entries == r.value.1)
  {
    var found := FindNamed(service, parent, name, paging);
    if found.Failure? {
      return Failure(found.error);
    }
    if found.value != [] {
      return Success(found.value[0].id);
    }
    var id := Organizer.CreateRemoteFolder(service, name, Some(parent), now);
    result := Success(id);
  }

  /** `[item for item in value if item not in listing]` */
  function Missing(photos: seq<Record>, present: seq<Record>): seq<Record>
  {
    if photos == [] then []
    else
      var n := |photos| - 1;
      Missing(photos[..n], present) + (if photos[n] !in present then [photos[n]] else [])
  }

  lemma {:induction false} MissingMembers(photos: seq<Record>, present: seq<Record>, p: Record)
    ensures p in Missing(photos, present) <==> p in photos && p !in present
  {
    if photos != [] {
      var n := |photos| - 1;
      MissingMembers(photos[..n], present, p);
      assert photos == photos[..n] + [photos[n]];
    }
  }

  lemma MissingInDrive(photos: seq<Record>, present: seq<Record>, count: nat)
    requires Organizer.InDrive(photos, count)
    ensures Organizer.InDrive(Missing(photos, present), count)
  {
    var add := Missing(photos, present);
    forall i | 0 <= i < |add| ensures add[i].id < count {
      MissingMembers(photos, present, add[i]);
    }
  }

  /**
   * The month folder's listing carries the default keys and no `createdTime`,
   * so no photo record (which has one) is ever found in it: every photo of the
   * bucket is sent to the server again on every run.
   */
  lemma {:induction false} NeverSkips(photos: seq<Record>, es: seq<Entry>, monthFolderId: Id, paging: Paging)
    requires forall i | 0 <= i < |photos| :: photos[i].createdTime.Some?
    requires FirstPage(ChildrenOf(es, monthFolderId, DefaultFields), paging).Some?
    ensures Missing(photos, FirstPage(ChildrenOf(es, monthFolderId, DefaultFields), paging).value) == photos
  {
    if photos != [] {
      var children := ChildrenOf(es, monthFolderId, DefaultFields);
      var present := FirstPage(children, paging).value;
      var n := |photos| - 1;
      NeverSkips(photos[..n], es, monthFolderId, paging);
      if photos[n] in present {
        FirstPageIsPrefix(children, paging);
        ChildrenOfMembers(es, monthFolderId, DefaultFields, photos[n]);
        assert false;
      }
      assert photos == photos[..n] + [photos[n]];
    }
  }

  /** The drive after filing the target bucket, and whether a request raised on the way. */
  datatype Outcome = Outcome(after: seq<Entry>, failed: bool)

  /**
   * The body of the `if key == '2007-09'` branch: resolve the year and month
   * folders, list the month folder once per photo, and add the month folder to
   * the parents of each photo not found in it.  A failed request leaves the
   * changes made before it.
   */
  function Place(es: seq<Entry>, photosFolderId: Id, photoList: seq<Record>, net: Organizer.BucketNet): (r: Outcome)
    requires Organizer.InDrive(photoList, |es|)
    ensures |es| <= |r.after| <= |es| + 2
  {
    TargetIsKey();
    match Resolve(es, photosFolderId, Months.YearName(TargetKey), net.year, net.now)
    case Failure(_) => Outcome(es, true)
    case Success((yearFolderId, es1)) =>
      match Resolve(es1, yearFolderId, Months.MonthFolderName(TargetKey), net.month, net.now)
      case Failure(_) => Outcome(es1, true)
      case Success((monthFolderId, es2)) =>
        if photoList == [] then Outcome(es2, false)
        else
          match FirstPage(ChildrenOf(es2, monthFolderId, DefaultFields), net.presence)
          case None => Outcome(es2, true)
          case Some(present) =>
            MissingInDrive(photoList, present, |es2|);
            Outcome(Organizer.Attach(es2, Missing(photoList, present), monthFolderId), false)
  }

  /** `month` is a folder "September" in a folder "2007" in the Photos folder. */
  predicate TargetFolders(es: seq<Entry>, month: Id, year: Id, photosFolderId: Id)
  {
    && month < |es| && year < |es|
    && es[month].name == "September" && year in es[month].parents
    && es[year].name == "2007" && photosFolderId in es[year].parents
  }

  /** The items of `es` reappear in `after` with `month` added to the parents of the items in `ids`, and unchanged otherwise. */
  predicate AddedTo(es: seq<Entry>, after: seq<Entry>, ids: set<Id>, month: Id)
  {
    && |es| <= |after|
    && forall i | 0 <= i < |es| :: after[i] == es[i].(parents := es[i].parents + (if i in ids then {month} else {}))
  }

  lemma AttachAfterResolve(es: seq<Entry>, es2: seq<Entry>, photoList: seq<Record>, month: Id, year: Id, photosFolderId: Id)
    requires |es| <= |es2| && es2[..|es|] == es && Organizer.InDrive(photoList, |es|)
    requires TargetFolders(es2, month, year, photosFolderId)
    ensures TargetFolders(Organizer.Attach(es2, photoList, month), month, year, photosFolderId)
    ensures AddedTo(es, Organizer.Attach(es2, photoList, month), Organizer.IdsOf(photoList), month)
  {
    Organizer.AttachEffect(es2, photoList, month);
    forall i | 0 <= i < |es| ensures es2[i] == es[i] {
      assert es2[..|es|][i] == es2[i];
    }
  }

  /**
   * Filing the target bucket puts every photo of the bucket, trashed or not,
   * in a month folder named "September" inside a year folder named "2007"
   * inside the Photos folder, and changes nothing else about the items that
   * existed.  When a request fails, the items that existed are untouched.
   */
  lemma PlaceEffect(es: seq<Entry>, photosFolderId: Id, photoList: seq<Record>, net: Organizer.BucketNet)
    requires Organizer.InDrive(photoList, |es|)
    requires forall i | 0 <= i < |photoList| :: photoList[i].createdTime.Some?
    ensures var r := Place(es, photosFolderId, photoList, net);
      && (r.failed ==> r.after[..|es|] == es)
      && (!r.failed ==> exists month: Id, year: Id ::
            TargetFolders(r.after, month, year, photosFolderId) && AddedTo(es, r.after, Organizer.IdsOf(photoList), month))
  {
    TargetIsKey();
    var r := Place(es, photosFolderId, photoList, net);
    var yr := Resolve(es, photosFolderId, "2007", net.year, net.now);
    if yr.Failure? {
      assert r == Outcome(es, true);
    } else {
      var (year, es1) := yr.value;
      ResolvedIsNamedChild(es, photosFolderId, "2007", net.year, net.now);
      var mr := Resolve(es1, year, "September", net.month, net.now);
      if mr.Failure? {
        assert r == Outcome(es1, true);
      } else {
        var (month, es2) := mr.value;
        ResolvedIsNamedChild(es1, year, "September", net.month, net.now);
        assert es2[..|es|] == es;
        assert TargetFolders(es2, month, year, photosFolderId);
        if photoList == [] {
          assert r == Outcome(es2, false);
          AttachAfterResolve(es, es2, photoList, month, year, photosFolderId);
        } else {
          var listing := FirstPage(ChildrenOf(es2, month, DefaultFields), net.presence);
          if listing.None? {
            assert r == Outcome(es2, true);
          } else {
            NeverSkips(photoList, es2, month, net.presence);
            assert r == Outcome(Organizer.Attach(es2, photoList, month), false);
            AttachAfterResolve(es, es2, photoList, month, year, photosFolderId);
          }
        }
      }
    }
  }

  /** `photosToAdd`: one listing of the month folder per photo. */
  method SelectPhotosToAdd(service: Service, monthFolderId: Id, photoList: seq<Record>, presence: Paging)
    returns (result: Result<seq<Record>, Error>)
    ensures var listing := FirstPage(ChildrenOf(service.entries, monthFolderId, DefaultFields), presence);
      && (result.Failure? <==> photoList != [] && listing.None?)
      && (result.Failure? ==> result.error == RequestFailed)
      && (result.Success? && photoList != [] ==> result.value == Missing(photoList, listing.value))
      && (photoList == [] ==> result == Success([]))
  {
    ghost var listing := FirstPage(ChildrenOf(service.entries, monthFolderId, DefaultFields), presence);
    var photosToAdd := [];
    for i := 0 to |photoList|
      invariant 0 < i ==> listing.Some?
      invariant listing.Some? ==> photosToAdd == Missing(photoList[..i], listing.value)
      invariant listing.None? ==> photosToAdd == []
    {
      var response := service.List(monthFolderId, DefaultFields, presence, None);
      if response.HttpError? {
        return Failure(RequestFailed);
      }
      assert photoList[..i + 1][..i] == photoList[..i];
      if photoList[i] !in response.files {
        photosToAdd := photosToAdd + [photoList[i]];
      }
    }
    assert photoList[..|photoList|] == photoList;
    result := Success(photosToAdd);
  }

  method PlaceBucket(service: Service, photosFolderId: Id, photoList: seq<Record>, net: Organizer.BucketNet)
    returns (failed: bool)
    requires service.Valid() && Months.ValidStamp(net.now) && Organizer.InDrive(photoList, |service.entries|)
    modifies service
    ensures service.Valid()
    ensures Outcome(service.entries, failed) == Place(old(service.entries), photosFolderId, photoList, net)
  {
    TargetIsKey();
    var key := TargetKey;
    var yearFolderId := FindOrCreateFolder(service, photosFolderId, Months.YearName(key), net.year, net.now);
    if yearFolderId.Failure? {
      return true;
    }
    var monthString := Months.MonthFolderName(key);
    var monthFolderId := FindOrCreateFolder(service, yearFolderId.value, monthString, net.month, net.now);
    if monthFolderId.Failure? {
      return true;
    }
    var photosToAdd := SelectPhotosToAdd(service, monthFolderId.value, photoList, net.presence);
    if photosToAdd.Failure? {
      return true;
    }
    if photoList != [] {
      MissingInDrive(photoList, FirstPage(ChildrenOf(service.entries, monthFolderId.value, DefaultFields), net.presence).value, |service.entries|);
    }
    Organizer.AttachPhotos(service, photosToAdd.value, monthFolderId.value);
    failed := false;
  }

  /**
   * `copyPhotosToFolders`: walk the buckets in the dictionary's order; only the
   * target bucket acts, so the order taken does not matter.
   */
  method CopyPhotosToFolders(service: Service, allPhotosByMonth: map<string, seq<Record>>, photosFolderId: Id, net: Organizer.BucketNet)
    returns (result: Result<(), Error>)
    requires service.Valid() && Months.ValidStamp(net.now)
    requires TargetKey in allPhotosByMonth ==> Organizer.InDrive(allPhotosByMonth[TargetKey], |service.entries|)
    modifies service
    ensures service.Valid()
    ensures TargetKey !in allPhotosByMonth ==> result.Success? && service.entries == old(service.entries)
    ensures TargetKey in allPhotosByMonth ==>
      var r := Place(old(service.entries), photosFolderId, allPhotosByMonth[TargetKey], net);
      service.entries == r.after && (result.Failure? <==> r.failed) && (result.Failure? ==> result.error == RequestFailed)
  {
    var remaining := allPhotosByMonth.Keys;
    while remaining != {}
      invariant remaining <= allPhotosByMonth.Keys
      invariant service.Valid()
      invariant TargetKey in remaining || TargetKey !in allPhotosByMonth ==> service.entries == old(service.entries)
      invariant TargetKey in allPhotosByMonth && TargetKey !in remaining ==>
        var r := Place(old(service.entries), photosFolderId, allPhotosByMonth[TargetKey], net);
        service.entries == r.after && !r.failed
      decreases remaining
    {
      var key :| key in remaining;
      if key == TargetKey {
        var failed := PlaceBucket(service, photosFolderId, allPhotosByMonth[key], net);
        if failed {
          return Failure(RequestFailed);
        }
      }
      remaining := remaining - {key};
    }
    result := Success(());
  }

  // ---------------------------------------------------------------------------
  // main
  // ---------------------------------------------------------------------------

  /** The Photos folder lookup of `main`: the first page of the root's children, by name. */
  function FindPhotosFolder(es: seq<Entry>, root: Id, paging: Paging): Result<Id, Error>
  {
    match LookUp(es, root, Organizer.PhotosFolderName, paging)
    case Failure(e) => Failure(e)
    case Success(found) => if found == [] then Failure(NoPhotosFolder) else Success(found[0].id)
  }

  /**
   * The lookup reads one page only (50 items in `main`): a Photos folder that
   * the server puts on a later page is missed, and `[0]` raises although the
   * folder exists.
   */
  lemma PhotosFolderMissedOnLaterPage()
    ensures var es := [Entry("My Drive", "2016-01-01T00:00:00Z", false, FolderMimeType, {}),
                       Entry("Documents", "2016-01-02T00:00:00Z", false, FolderMimeType, {0}),
                       Entry("Photos", "2016-01-03T00:00:00Z", false, FolderMimeType, {0})];
      && es[2].name == Organizer.PhotosFolderName && 0 in es[2].parents && !es[2].trashed
      && FindPhotosFolder(es, 0, Paging([1], None)) == Failure(NoPhotosFolder)
  {
    var es := [Entry("My Drive", "2016-01-01T00:00:00Z", false, FolderMimeType, {}),
               Entry("Documents", "2016-01-02T00:00:00Z", false, FolderMimeType, {0}),
               Entry("Photos", "2016-01-03T00:00:00Z", false, FolderMimeType, {0})];
    var children := ChildrenOf(es, 0, DefaultFields);
    assert es[..2][..1] == es[..1];
    assert ChildrenOf(es[..1], 0, DefaultFields) == [];
    assert ChildrenOf(es[..2], 0, DefaultFields) == [Project(1, es[1], DefaultFields)];
    assert children == [Project(1, es[1], DefaultFields), Project(2, es[2], DefaultFields)];
    assert Pages(children, [1])[0] == [Project(1, es[1], DefaultFields)];
    assert Named([Project(1, es[1], DefaultFields)], Organizer.PhotosFolderName) == [];
  }

  /** How the server answers the run's requests. */
  datatype RunNet = RunNet(sourceLookup: Paging, photos: Paging, photosLookup: Paging, target: Organizer.BucketNet)

  /**
   * `main` without authentication and printing: list the photos, look up the
   * Photos folder, bucket, and file the target bucket.  A missing folder or a
   * failed lookup ends the run before any change.
   */
  method Run(service: Service, net: RunNet) returns (result: Result<(), Error>)
    requires service.Valid() && Months.ValidStamp(net.target.now)
    modifies service
    ensures service.Valid()
    ensures var es := old(service.entries);
            var photos := AllPhotos(es, service.root, net.sourceLookup, net.photos);
            var target := FindPhotosFolder(es, service.root, net.photosLookup);
      && (photos.Failure? ==> result == Failure(photos.error) && service.entries == es)
      && (photos.Success? && target.Failure? ==> result == Failure(target.error) && service.entries == es)
      && (photos.Success? && target.Success? ==>
            && Buckets.Dated(photos.value)
            && var byMonth := Buckets.ByMonth(photos.value);
            && (TargetKey !in byMonth ==> result.Success? && service.entries == es)
            && (TargetKey in byMonth ==>
                  && Organizer.InDrive(byMonth[TargetKey], |es|)
                  && var r := Place(es, target.value, byMonth[TargetKey], net.target);
                  service.entries == r.after && (result.Failure? <==> r.failed)))
  {
    var allPhotos := GetAllPhotos(service, net.sourceLookup, net.photos);
    if allPhotos.Failure? {
      return Failure(allPhotos.error);
    }
    var photosFolders := FindNamed(service, service.root, Organizer.PhotosFolderName, net.photosLookup);
    if photosFolders.Failure? {
      return Failure(photosFolders.error);
    }
    if photosFolders.value == [] {
      return Failure(NoPhotosFolder);
    }
    var photosFolderId := photosFolders.value[0].id;
    AllPhotosPlaceable(service.entries, service.root, net.sourceLookup, net.photos);
    var allPhotosByMonth := Buckets.SeparatePhotosByMonth(allPhotos.value);
    assert allPhotosByMonth == Buckets.ByMonth(allPhotos.value);
    result := CopyPhotosToFolders(service, allPhotosByMonth, photosFolderId, net.target);
  }
}
