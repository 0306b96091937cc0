/**
 * The Drive service as the scripts see it: items with a name, a creation time,
 * a trashed flag, a MIME type and a set of parent folders, listed page by page,
 * created, and given extra parents.  An item's id is its position in `entries`,
 * so the next id handed out is `|entries|`, and a folder lists its children in
 * creation order.
 */
module Drive {
  import opened Wrappers
  import opened Listing
  import Months

  type Id = nat

  const FolderMimeType := "application/vnd.google-apps.folder"

  /** An item as the service stores it. */
  datatype Entry = Entry(name: string, createdTime: string, trashed: bool, mimeType: string, parents: set<Id>)

  /** Which keys a listing request asks for. */
  datatype Fields =
    | IdNameTimeTrashed  // fields "files(id, name, createdTime, trashed)"
    | IdNameTime         // fields "files(id, name, createdTime)"
    | DefaultFields      // no `fields` parameter: kind, id, name and mimeType

  /**
   * An item as a listing returns it: a dictionary holding the requested keys and
   * only those, so two records are equal exactly when the dictionaries are.  The
   * default keys also include `kind`, which is the same for every file; it is
   * left out because records with the default keys already differ from every
   * other record in carrying `mimeType` and no `createdTime`.
   */
  datatype Record = Record(id: Id, name: string, createdTime: Option<string>,
                           trashed: Option<bool>, mimeType: Option<string>)

  function Project(id: Id, e: Entry, fields: Fields): Record
  {
    match fields
    case IdNameTimeTrashed => Record(id, e.name, Some(e.createdTime), Some(e.trashed), None)
    case IdNameTime => Record(id, e.name, Some(e.createdTime), None, None)
    case DefaultFields => Record(id, e.name, None, None, Some(e.mimeType))
  }

  /** The full listing of `parent`'s children (trashed ones included), in id order. */
  function ChildrenOf(es: seq<Entry>, parent: Id, fields: Fields): seq<Record>
  {
    if es == [] then []
    else
      var n := |es| - 1;
      ChildrenOf(es[..n], parent, fields) + (if parent in es[n].parents then [Project(n, es[n], fields)] else [])
  }

  function NewFolder(name: string, now: string, parents: set<Id>): Entry
  {
    Entry(name, now, false, FolderMimeType, parents)
  }

  /** `files().update(fileId = id, addParents = folder)`. */
  function WithParent(es: seq<Entry>, id: Id, folder: Id): (r: seq<Entry>)
    requires id < |es|
    ensures |r| == |es|
  {
    es[id := es[id].(parents := es[id].parents + {folder})]
  }

  ghost predicate Stamped(es: seq<Entry>)
  {
    forall i | 0 <= i < |es| :: Months.ValidStamp(es[i].createdTime)
  }

  /** A record lists as a child of `parent` exactly when it is that item's current record and the item has `parent` among its parents. */
  lemma {:induction false} ChildrenOfMembers(es: seq<Entry>, parent: Id, fields: Fields, r: Record)
    ensures r in ChildrenOf(es, parent, fields)
        <==> r.id < |es| && parent in es[r.id].parents && r == Project(r.id, es[r.id], fields)
  {
    if es != [] {
      var n := |es| - 1;
      ChildrenOfMembers(es[..n], parent, fields, r);
    }
  }

  lemma ChildrenOfSnoc(es: seq<Entry>, e: Entry, parent: Id, fields: Fields)
    ensures ChildrenOf(es + [e], parent, fields)
         == ChildrenOf(es, parent, fields) + (if parent in e.parents then [Project(|es|, e, fields)] else [])
  {
    assert (es + [e])[..|es|] == es;
  }

  /** Two drives that agree on the records and on membership in `parent` list the same children. */
  lemma {:induction false} ChildrenOfAgree(es: seq<Entry>, es': seq<Entry>, parent: Id, fields: Fields)
    requires |es| == |es'|
    requires forall i | 0 <= i < |es| :: Project(i, es[i], fields) == Project(i, es'[i], fields)
    requires forall i | 0 <= i < |es| :: parent in es[i].parents <==> parent in es'[i].parents
    ensures ChildrenOf(es, parent, fields) == ChildrenOf(es', parent, fields)
  {
    if es != [] {
      var n := |es| - 1;
      ChildrenOfAgree(es[..n], es'[..n], parent, fields);
    }
  }

  /** The service: `entries` is the whole drive and `root` the id behind the alias 'root'. */
  class Service {
    const root: Id
    var entries: seq<Entry>

    /** The service stamps every item with an RFC 3339 creation time. */
    ghost predicate Valid()
      reads this
    {
      Stamped(entries)
    }

    constructor (root: Id, entries: seq<Entry>)
      requires Stamped(entries)
      ensures Valid() && this.root == root && this.entries == entries
    {
      this.root := root;
      this.entries := entries;
    }

    /** `files().list(q = "'parent' in parents", fields = ..., pageToken = ...).execute()`. */
    method List(parent: Id, fields: Fields, paging: Paging, pageToken: Option<nat>) returns (response: Response<Record>)
      ensures response == Respond(ChildrenOf(entries, parent, fields), paging, pageToken)
    {
      response := Respond(ChildrenOf(entries, parent, fields), paging, pageToken);
    }

    /** `files().create(body = {name, mimeType: folder, parents}).execute()['id']`. */
    method Create(name: string, parents: set<Id>, now: string) returns (id: Id)
      requires Valid() && Months.ValidStamp(now)
      modifies this
      ensures Valid()
      ensures id == |old(entries)| && entries == old(entries) + [NewFolder(name, now, parents)]
    {
      id := |entries|;
      entries := entries + [NewFolder(name, now, parents)];
    }

    /** `files().update(fileId, addParents = folderId).execute()`. */
    method AddParent(fileId: Id, folderId: Id)
      requires Valid() && fileId < |entries|
      modifies this
      ensures Valid() && entries == WithParent(old(entries), fileId, folderId)
    {
      entries := WithParent(entries, fileId, folderId);
    }
  }
}
