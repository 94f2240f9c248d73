/** The Drive-facing operations of the uploader: request metadata, the file
    name sent for a local path, finding the destination folder, creating it
    when missing, and uploading one XML file. The Drive API's replies are
    inputs; each operation returns the calls it issues. */
module DriveOps {
  import opened JsonValues

  const FolderMimeType := "application/vnd.google-apps.folder"
  const XmlMimeType := "application/xml"

  /** The body of a folder `files().create` request. */
  datatype FolderMetadata = FolderMetadata(name: Value, mimeType: string, parents: Option<seq<string>>)

  /** The body of a file `files().create` request. */
  datatype FileMetadata = FileMetadata(name: string, parents: Option<seq<string>>)

  /** The calls issued to the filesystem and the Drive API. */
  datatype DriveCall =
    | ListFolders(name: Value)
    | CreateFolder(folder: FolderMetadata)
    | ReadFile(path: string)
    | CreateFile(file: FileMetadata, mimeType: string)

  /** The reply to the folder query: an error, or the ids of the matching folders in service order. */
  datatype Listing = ListFailed | Listed(ids: seq<string>)

  /** The reply to a folder creation: an error, or the reply's `id` field if it has one. */
  datatype CreateReply = CreateFailed | CreateReturned(id: Option<string>)

  /** A discovered XML file: its path, whether it can be read, and whether Drive accepts the upload. */
  datatype XmlFile = XmlFile(path: string, readable: bool, accepted: bool)

  // ---------------------------------------------------------------- metadata

  /** `folder_metadata`: the `parents` key is added only for a truthy parent id. */
  function FolderMetadataFor(name: Value, parent: Option<string>): (m: FolderMetadata)
    ensures m.name == name && m.mimeType == FolderMimeType
    ensures m.parents.Some? <==> IsSet(parent)
    ensures m.parents.Some? ==> m.parents.value == [parent.value]
  {
    FolderMetadata(name, FolderMimeType, if IsSet(parent) then Some([parent.value]) else None)
  }

  /** `file_metadata`: the base name of the path, and the folder as parent when its id is truthy. */
  function FileMetadataFor(path: string, folderId: Option<string>): (m: FileMetadata)
    ensures m.name == Basename(path)
    ensures m.parents.Some? <==> IsSet(folderId)
    ensures m.parents.Some? ==> m.parents.value == [folderId.value]
  {
    FileMetadata(Basename(path), if IsSet(folderId) then Some([folderId.value]) else None)
  }

  // ---------------------------------------------------------------- base name

  /** Path separators of Windows paths. */
  predicate IsSeparator(c: char) {
    c == '/' || c == '\\'
  }

  predicate NoSeparator(s: string) {
    forall i :: 0 <= i < |s| ==> !IsSeparator(s[i])
  }

  /** Drops a drive prefix such as `C:` from a path that does not start with a separator. */
  function StripDrive(p: string): (r: string)
    ensures |r| <= |p| && r == p[|p| - |r|..]
    ensures |p| >= 2 && !IsSeparator(p[0]) && p[1] == ':' ==> r == p[2..]
    ensures !(|p| >= 2 && !IsSeparator(p[0]) && p[1] == ':') ==> r == p
  {
    if |p| >= 2 && !IsSeparator(p[0]) && p[1] == ':' then p[2..] else p
  }

  /** The longest suffix of `p` that holds no separator. */
  function LastComponent(p: string): (r: string)
    ensures |r| <= |p| && r == p[|p| - |r|..]
    ensures NoSeparator(r)
    ensures |r| < |p| ==> IsSeparator(p[|p| - |r| - 1])
  {
    if p == [] || IsSeparator(p[|p| - 1]) then []
    else LastComponent(p[..|p| - 1]) + [p[|p| - 1]]
  }

  /** `os.path.basename` on Windows: the last component after the drive. */
  function Basename(p: string): (r: string)
    ensures NoSeparator(r)
    ensures |r| <= |p| && r == p[|p| - |r|..]
  {
    LastComponent(StripDrive(p))
  }

  /** The base name is the whole separator-free tail after the drive: it is
      preceded by a separator, or by the drive or the start of the path. */
  lemma BasenameIsWholeTail(p: string)
    ensures var q := StripDrive(p); var r := Basename(p);
      |r| <= |q| && r == q[|q| - |r|..] && (|r| < |q| ==> IsSeparator(q[|q| - |r| - 1]))
  {
  }

  /** A separator followed by a separator-free name ends in that name. */
  lemma {:induction false} LastComponentOfJoin(prefix: string, sep: char, name: string)
    requires IsSeparator(sep) && NoSeparator(name)
    ensures LastComponent(prefix + [sep] + name) == name
  {
    if name != [] {
      var p := prefix + [sep] + name;
      var init := name[..|name| - 1];
      assert p[..|p| - 1] == prefix + [sep] + init;
      LastComponentOfJoin(prefix, sep, init);
      assert name == init + [name[|name| - 1]];
    }
  }

  /** The name sent for a file found under a directory is the file's own name. */
  lemma BasenameOfJoin(dir: string, sep: char, name: string)
    requires IsSeparator(sep) && NoSeparator(name)
    ensures Basename(dir + [sep] + name) == name
  {
    var p := dir + [sep] + name;
    var q := StripDrive(p);
    var prefix := q[..|q| - |name| - 1];
    assert q == prefix + [sep] + name by {
      assert p[|p| - |name| - 1..] == [sep] + name;
    }
    LastComponentOfJoin(prefix, sep, name);
  }

  // ---------------------------------------------------------------- folders

  /** `find_folder`: the id of the first listed folder, or none. */
  function FindFolder(listing: Listing): (r: Option<string>)
    ensures r.Some? <==> listing.Listed? && listing.ids != []
    ensures r.Some? ==> r.value == listing.ids[0]
  {
    if listing.Listed? && listing.ids != [] then Some(listing.ids[0]) else None
  }

  /** `create_folder`: the new folder's id, or none when the call fails. */
  function CreatedId(reply: CreateReply): (r: Option<string>)
    ensures reply.CreateFailed? ==> r.None?
    ensures reply.CreateReturned? ==> r == reply.id
  {
    if reply.CreateReturned? then reply.id else None
  }

  /** The folder id a pass goes on with, and the Drive calls made to get it. */
  datatype Resolution = Resolution(folderId: Option<string>, calls: seq<DriveCall>)

  /** Find-or-create: look the folder up, and create it (at the root) only when the lookup yields no truthy id. */
  function ResolveFolder(name: Value, listing: Listing, reply: CreateReply): (r: Resolution)
    ensures 1 <= |r.calls| <= 2 && r.calls[0] == ListFolders(name)
    ensures |r.calls| == 2 <==> !IsSet(FindFolder(listing))
    ensures |r.calls| == 2 ==> r.calls[1] == CreateFolder(FolderMetadata(name, FolderMimeType, None))
    ensures IsSet(FindFolder(listing)) ==> r.folderId == FindFolder(listing)
    ensures !IsSet(FindFolder(listing)) ==> r.folderId == CreatedId(reply)
  {
    var found := FindFolder(listing);
    if IsSet(found) then Resolution(found, [ListFolders(name)])
    else Resolution(CreatedId(reply), [ListFolders(name), CreateFolder(FolderMetadataFor(name, None))])
  }

  /** The matching folders after a resolution: a created folder joins the end of the listing. */
  function StoreAfter(store: seq<string>, r: Resolution): seq<string>
    requires IsSet(r.folderId)
  {
    if |r.calls| == 2 then store + [r.folderId.value] else store
  }

  /** Resolving again against what the first resolution left behind yields the
      same folder and creates nothing, whatever the second create would answer. */
  lemma ResolveIsIdempotent(name: Value, store: seq<string>, reply: CreateReply, reply2: CreateReply)
    requires forall i :: 0 <= i < |store| ==> store[i] != ""
    requires IsSet(ResolveFolder(name, Listed(store), reply).folderId)
    ensures var first := ResolveFolder(name, Listed(store), reply);
      var second := ResolveFolder(name, Listed(StoreAfter(store, first)), reply2);
      second.folderId == first.folderId && second.calls == [ListFolders(name)]
  {
  }

  /** A listing that fails looks like a missing folder: the resolution creates
      another folder even when one with that name already exists. */
  lemma ListingErrorCreatesDuplicate(name: Value, store: seq<string>, reply: CreateReply, reply2: CreateReply)
    requires IsSet(ResolveFolder(name, Listed(store), reply).folderId)
    ensures var first := ResolveFolder(name, Listed(store), reply);
      var second := ResolveFolder(name, ListFailed, reply2);
      && StoreAfter(store, first) != []
      && second.calls == [ListFolders(name), CreateFolder(FolderMetadataFor(name, None))]
      && second.folderId == CreatedId(reply2)
  {
  }

  // ---------------------------------------------------------------- upload

  /** The outcome of `upload_xml_file` and the calls it made. */
  datatype UploadResult = UploadResult(ok: bool, calls: seq<DriveCall>)

  /** Whether one file's upload succeeds. */
  predicate Uploaded(file: XmlFile) {
    file.readable && file.accepted
  }

  /** `upload_xml_file`: read the file, then send it under its base name; every failure becomes `false`. */
  function UploadXmlFile(file: XmlFile, folderId: Option<string>): (r: UploadResult)
    ensures r.ok <==> file.readable && file.accepted
    ensures |r.calls| == (if file.readable then 2 else 1) && r.calls[0] == ReadFile(file.path)
    ensures file.readable ==> r.calls[1] == CreateFile(FileMetadataFor(file.path, folderId), XmlMimeType)
  {
    if !file.readable then UploadResult(false, [ReadFile(file.path)])
    else UploadResult(file.accepted, [ReadFile(file.path), CreateFile(FileMetadataFor(file.path, folderId), XmlMimeType)])
  }
}
