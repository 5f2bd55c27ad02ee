/**
 * The upload-data service of the user site: it stores an upload together
 * with its files, copying the upload's ownership fields into every file, and
 * deletes uploads with their file rows and files on disk.
 */
module UploadDataService {
  import opened Wrappers
  import opened JavaText
  import opened Persistence

  /**
   * The code `FileType.DIRECTORY` stands for. `FileType` is not part of this
   * model; the value is a stand-in, compared only for equality.
   */
  const DirectoryType: string := "DIRECTORY"

  /** A directory is deleted by its own path, a file by its directory path and stored name. */
  function PathToDelete(f: FileRecord): string {
    if f.fileType == DirectoryType then f.filePath else f.filePath + f.fileRealName
  }

  /** The deleted path always lies under the file's directory path, and names the file unless it is a directory. */
  lemma PathToDeleteSpec(f: FileRecord)
    ensures f.filePath <= PathToDelete(f)
    ensures f.fileType == DirectoryType ==> PathToDelete(f) == f.filePath
    ensures f.fileType != DirectoryType ==> PathToDelete(f)[|f.filePath|..] == f.fileRealName
  {
  }

  function PathsToDelete(files: seq<FileRecord>): (paths: seq<string>)
    ensures |paths| == |files|
  {
    if files == [] then [] else PathsToDelete(files[..|files| - 1]) + [PathToDelete(files[|files| - 1])]
  }

  lemma {:induction false} PathsToDeleteAt(files: seq<FileRecord>, i: int)
    requires 0 <= i < |files|
    ensures PathsToDelete(files)[i] == PathToDelete(files[i])
  {
    if i < |files| - 1 {
      PathsToDeleteAt(files[..|files| - 1], i);
    }
  }

  /** The order fields both delete operations put on their key, so that deeper files come first. */
  function DeepestFirst(key: UploadData): (k: UploadData)
    ensures k.orderWord == Some("depth") && k.orderValue == Some("DESC")
    ensures k.(orderWord := key.orderWord, orderValue := key.orderValue) == key
  {
    key.(orderWord := Some("depth"), orderValue := Some("DESC"))
  }

  /** The file rows the upload's own fields are copied into. */
  function WithUploadFields(f: FileRecord, upload: UploadData): FileRecord {
    f.(uploadDataId := upload.uploadDataId, projectId := upload.projectId, sharingType := upload.sharingType,
       dataType := upload.dataType, userId := upload.userId)
  }

  // --------------------------------------------------------------- insert

  /**
   * `insertUploadData`: stores the upload, then gives every file the stored
   * upload's id, project, sharing type, data type and user, stores each file,
   * and counts one more row per file.
   */
  method InsertUploadData(db: Database, uploadData: UploadData, fileList: seq<UploadDataFile>)
    returns (result: int)
    modifies db, fileList
    ensures result == 1 + |fileList|
    ensures var stored := uploadData.(uploadDataId := Some(old(db.tables.lastUploadDataId) + 1));
      db.tables.uploads == old(db.tables.uploads) + [stored] &&
      db.tables.lastUploadDataId == old(db.tables.lastUploadDataId) + 1 &&
      (forall f :: f in fileList ==> f.Record() == WithUploadFields(old(f.Record()), stored)) &&
      |db.tables.uploadFiles| == |old(db.tables.uploadFiles)| + |fileList| &&
      db.tables.uploadFiles[..|old(db.tables.uploadFiles)|] == old(db.tables.uploadFiles) &&
      (forall j :: 0 <= j < |fileList| ==>
        db.tables.uploadFiles[|old(db.tables.uploadFiles)| + j] == fileList[j].Record())
    ensures db.tables.projects == old(db.tables.projects) && db.tables.data == old(db.tables.data)
    ensures db.tables.policies == old(db.tables.policies) && db.tables.lastProjectId == old(db.tables.lastProjectId)
    ensures |db.calls| == |old(db.calls)| + 1 + |fileList| && db.calls[..|old(db.calls)|] == old(db.calls)
    ensures db.calls[|old(db.calls)|] == InsertUpload(uploadData)
    ensures forall j :: 0 <= j < |fileList| ==>
      db.calls[|old(db.calls)| + 1 + j] == InsertUploadFile(fileList[j].Record())
  {
    var id;
    result, id := db.InsertUploadData(uploadData);
    var stored := uploadData.(uploadDataId := Some(id));
    var count := StoreFiles(db, fileList, stored);
    result := result + count;
  }

  /** The loop of `insertUploadData`: copy the upload's fields into each file and store it. */
  method StoreFiles(db: Database, fileList: seq<UploadDataFile>, stored: UploadData) returns (count: int)
    modifies db, fileList
    ensures count == |fileList|
    ensures db.tables == old(db.tables).(uploadFiles := db.tables.uploadFiles)
    ensures forall f :: f in fileList ==> f.Record() == WithUploadFields(old(f.Record()), stored)
    ensures |db.tables.uploadFiles| == |old(db.tables.uploadFiles)| + |fileList|
    ensures db.tables.uploadFiles[..|old(db.tables.uploadFiles)|] == old(db.tables.uploadFiles)
    ensures forall j :: 0 <= j < |fileList| ==>
      db.tables.uploadFiles[|old(db.tables.uploadFiles)| + j] == fileList[j].Record()
    ensures |db.calls| == |old(db.calls)| + |fileList| && db.calls[..|old(db.calls)|] == old(db.calls)
    ensures forall j :: 0 <= j < |fileList| ==>
      db.calls[|old(db.calls)| + j] == InsertUploadFile(fileList[j].Record())
  {
    count := 0;
    ghost var done: set<UploadDataFile> := {};
    // The rows stored so far, as they were stored.
    ghost var rows: seq<FileRecord> := [];
    for i := 0 to |fileList|
      invariant count == i && |rows| == i
      invariant db.tables == old(db.tables).(uploadFiles := old(db.tables.uploadFiles) + rows)
      invariant db.calls == old(db.calls) + seq(i, j requires 0 <= j < i => InsertUploadFile(rows[j]))
      invariant forall j :: 0 <= j < i ==> rows[j] == WithUploadFields(old(fileList[j].Record()), stored)
      invariant forall j :: 0 <= j < i ==> fileList[j] in done
      invariant forall f :: f in fileList ==>
        f.Record() == if f in done then WithUploadFields(old(f.Record()), stored) else old(f.Record())
    {
      var f := fileList[i];
      StoreFile(db, f, stored);
      done := done + {f};
      rows := rows + [f.Record()];
      count := count + 1;
    }
  }

  /** One iteration: the file takes the upload's fields and is stored. */
  method StoreFile(db: Database, f: UploadDataFile, stored: UploadData)
    modifies db, f
    ensures f.Record() == WithUploadFields(old(f.Record()), stored)
    ensures db.tables == old(db.tables).(uploadFiles := old(db.tables.uploadFiles) + [f.Record()])
    ensures db.calls == old(db.calls) + [InsertUploadFile(f.Record())]
  {
    CopyUploadFields(f, stored);
    var fileRows := db.InsertUploadDataFile(f.Record());
  }

  /** The five assignments that give one file its upload's fields. */
  method CopyUploadFields(f: UploadDataFile, stored: UploadData)
    modifies f
    ensures f.Record() == WithUploadFields(old(f.Record()), stored)
  {
    f.uploadDataId := stored.uploadDataId;
    f.projectId := stored.projectId;
    f.sharingType := stored.sharingType;
    f.dataType := stored.dataType;
    f.userId := stored.userId;
  }

  // --------------------------------------------------------------- delete

  /**
   * The body both delete operations share: list the key's files deepest
   * first, delete the file rows, delete the upload row, then ask the disk to
   * delete every listed path in listing order.
   */
  method RemoveUpload(db: Database, disk: Disk, key: UploadData)
    modifies db, disk
    ensures db.calls == old(db.calls) + [SelectUploadFiles(key), DeleteUploadFiles(key), DeleteUpload(key)]
    ensures db.tables == old(db.tables).(uploadFiles := FilesNotOf(old(db.tables.uploadFiles), key),
                                         uploads := UploadsNotOf(old(db.tables.uploads), key))
    ensures disk.requested == old(disk.requested) + PathsToDelete(ListedFiles(old(db.tables.uploadFiles), key))
  {
    var uploadDataFileList := RemoveRows(db, key);
    DeleteFiles(disk, uploadDataFileList);
  }

  /** The three mapper calls of a removal; the listing comes back for the disk. */
  method RemoveRows(db: Database, key: UploadData) returns (files: seq<FileRecord>)
    modifies db
    ensures files == ListedFiles(old(db.tables.uploadFiles), key)
    ensures db.calls == old(db.calls) + [SelectUploadFiles(key), DeleteUploadFiles(key), DeleteUpload(key)]
    ensures db.tables == old(db.tables).(uploadFiles := FilesNotOf(old(db.tables.uploadFiles), key),
                                         uploads := UploadsNotOf(old(db.tables.uploads), key))
  {
    files := db.GetListUploadDataFile(key);
    var fileRows := db.DeleteUploadDataFile(key);
    var uploadRows := db.DeleteUploadData(key);
  }

  /** The loop that hands every listed file's path to the disk. */
  method DeleteFiles(disk: Disk, uploadDataFileList: seq<FileRecord>)
    modifies disk
    ensures disk.requested == old(disk.requested) + PathsToDelete(uploadDataFileList)
  {
    for i := 0 to |uploadDataFileList|
      invariant disk.requested == old(disk.requested) + PathsToDelete(uploadDataFileList[..i])
    {
      var f := uploadDataFileList[i];
      var fileName;
      if f.fileType == DirectoryType {
        fileName := f.filePath;
      } else {
        fileName := f.filePath + f.fileRealName;
      }
      disk.DeleteIfExists(fileName);
      assert uploadDataFileList[..i + 1][..i] == uploadDataFileList[..i];
    }
    assert uploadDataFileList[..|uploadDataFileList|] == uploadDataFileList;
  }

  /** `deleteUploadData`: the shared removal for the caller's key; the result is always 0. */
  method DeleteUploadData(db: Database, disk: Disk, uploadData: UploadData) returns (result: int)
    modifies db, disk
    ensures result == 0
    ensures var key := DeepestFirst(uploadData);
      db.calls == old(db.calls) + [SelectUploadFiles(key), DeleteUploadFiles(key), DeleteUpload(key)] &&
      db.tables == old(db.tables).(uploadFiles := FilesNotOf(old(db.tables.uploadFiles), key),
                                   uploads := UploadsNotOf(old(db.tables.uploads), key)) &&
      disk.requested == old(disk.requested) + PathsToDelete(ListedFiles(old(db.tables.uploadFiles), key))
  {
    var key := DeepestFirst(uploadData);
    RemoveUpload(db, disk, key);
    result := 0;
  }

  /** The key `deleteUploadDatas` builds for one id: a fresh object with user, id and order. */
  function KeyFor(userId: Option<string>, id: int): (key: UploadData)
    ensures key.uploadDataId == Some(id) && key.userId == userId
    ensures key.orderWord == Some("depth") && key.orderValue == Some("DESC")
  {
    DeepestFirst(BlankUpload.(userId := userId, uploadDataId := Some(id)))
  }

  /** The ids of all parts, or None when some part does not parse as a long. */
  function ParseAll(parts: seq<string>): Option<seq<int>>
    decreases |parts|
  {
    if parts == [] then Some([])
    else
      match ParseAll(parts[..|parts| - 1])
      case None => None
      case Some(ids) =>
        match ParseLong(parts[|parts| - 1])
        case None => None
        case Some(id) => Some(ids + [id])
  }

  /** The id list parses exactly when every part does, and then holds each part's value in order. */
  lemma {:induction false} ParseAllSpec(parts: seq<string>)
    ensures ParseAll(parts).Some? <==> forall k :: 0 <= k < |parts| ==> ParseLong(parts[k]).Some?
    ensures ParseAll(parts).Some? ==>
      |ParseAll(parts).value| == |parts| &&
      forall k :: 0 <= k < |parts| ==> Some(ParseAll(parts).value[k]) == ParseLong(parts[k])
    decreases |parts|
  {
    if parts != [] {
      var prior := parts[..|parts| - 1];
      ParseAllSpec(prior);
      assert forall k :: 0 <= k < |prior| ==> prior[k] == parts[k];
    }
  }

  /** A part that does not parse makes every longer list fail too. */
  lemma {:induction false} ParseAllFailsOnward(parts: seq<string>, n: nat)
    requires n <= |parts| && ParseAll(parts[..n]).None?
    ensures ParseAll(parts).None?
    decreases |parts| - n
  {
    if n < |parts| {
      assert parts[..n + 1][..n] == parts[..n];
      ParseAllFailsOnward(parts, n + 1);
    } else {
      assert parts[..n] == parts;
    }
  }

  /** The file rows left after the keys of `ids` have been removed in turn. */
  function FilesAfter(rows: seq<FileRecord>, userId: Option<string>, ids: seq<int>): seq<FileRecord>
    decreases |ids|
  {
    if ids == [] then rows
    else FilesNotOf(FilesAfter(rows, userId, ids[..|ids| - 1]), KeyFor(userId, ids[|ids| - 1]))
  }

  function UploadsAfter(rows: seq<UploadData>, userId: Option<string>, ids: seq<int>): seq<UploadData>
    decreases |ids|
  {
    if ids == [] then rows
    else UploadsNotOf(UploadsAfter(rows, userId, ids[..|ids| - 1]), KeyFor(userId, ids[|ids| - 1]))
  }

  /** The mapper calls of the removals: list, delete files, delete upload, per id. */
  function CallsFor(userId: Option<string>, ids: seq<int>): seq<Statement>
    decreases |ids|
  {
    if ids == [] then []
    else
      var key := KeyFor(userId, ids[|ids| - 1]);
      CallsFor(userId, ids[..|ids| - 1]) + [SelectUploadFiles(key), DeleteUploadFiles(key), DeleteUpload(key)]
  }

  /** The paths the removals hand to the disk, each upload's files listed when its turn came. */
  function PathsFor(rows: seq<FileRecord>, userId: Option<string>, ids: seq<int>): seq<string>
    decreases |ids|
  {
    if ids == [] then []
    else
      var before := ids[..|ids| - 1];
      PathsFor(rows, userId, before) +
      PathsToDelete(ListedFiles(FilesAfter(rows, userId, before), KeyFor(userId, ids[|ids| - 1])))
  }

  /** After the removals, a file row is left exactly when it was there and no removed key owns it. */
  lemma {:induction false} FilesAfterSpec(rows: seq<FileRecord>, userId: Option<string>, ids: seq<int>)
    ensures forall f :: f in FilesAfter(rows, userId, ids) <==>
      f in rows && forall k :: 0 <= k < |ids| ==> !OwnsFile(KeyFor(userId, ids[k]), f)
    decreases |ids|
  {
    if ids != [] {
      var prior := ids[..|ids| - 1];
      var before := FilesAfter(rows, userId, prior);
      FilesAfterSpec(rows, userId, prior);
      FilesNotOfMembers(before, KeyFor(userId, ids[|ids| - 1]));
      forall f ensures f in FilesAfter(rows, userId, ids) <==>
        f in rows && forall k :: 0 <= k < |ids| ==> !OwnsFile(KeyFor(userId, ids[k]), f)
      {
        assert forall k :: 0 <= k < |prior| ==> prior[k] == ids[k];
      }
    }
  }

  lemma {:induction false} UploadsAfterSpec(rows: seq<UploadData>, userId: Option<string>, ids: seq<int>)
    ensures forall u :: u in UploadsAfter(rows, userId, ids) <==>
      u in rows && forall k :: 0 <= k < |ids| ==> !OwnsUpload(KeyFor(userId, ids[k]), u)
    decreases |ids|
  {
    if ids != [] {
      var prior := ids[..|ids| - 1];
      var before := UploadsAfter(rows, userId, prior);
      UploadsAfterSpec(rows, userId, prior);
      UploadsNotOfSpec(before, KeyFor(userId, ids[|ids| - 1]));
      forall u ensures u in UploadsAfter(rows, userId, ids) <==>
        u in rows && forall k :: 0 <= k < |ids| ==> !OwnsUpload(KeyFor(userId, ids[k]), u)
      {
        assert forall k :: 0 <= k < |prior| ==> prior[k] == ids[k];
      }
    }
  }

  /**
   * `deleteUploadDatas`: splits `checkIds` at commas and removes the upload
   * of every part, which must parse as a long; the result is the number of
   * parts. A part that does not parse ends the operation with a
   * NumberFormatException after the parts before it have been removed.
   */
  method DeleteUploadDatas(db: Database, disk: Disk, userId: Option<string>, checkIds: string)
    returns (r: Result<int, Fault>)
    modifies db, disk
    ensures var parts := JavaSplit(checkIds, ',');
      (r.Ok? <==> ParseAll(parts).Some?) &&
      (r.Ok? ==> r.value == |parts|) &&
      (r.Err? ==> r.error == NumberFormat)
    ensures var parts := JavaSplit(checkIds, ',');
      r.Ok? ==>
        var ids := ParseAll(parts).value;
        db.tables == old(db.tables).(
          uploadFiles := FilesAfter(old(db.tables.uploadFiles), userId, ids),
          uploads := UploadsAfter(old(db.tables.uploads), userId, ids)) &&
        db.calls == old(db.calls) + CallsFor(userId, ids) &&
        disk.requested == old(disk.requested) + PathsFor(old(db.tables.uploadFiles), userId, ids)
  {
    var uploadDatas := JavaSplit(checkIds, ',');
    r := RemoveEach(db, disk, userId, uploadDatas);
  }

  /** The loop of `deleteUploadDatas` over the parts of the id list. */
  method RemoveEach(db: Database, disk: Disk, userId: Option<string>, uploadDatas: seq<string>)
    returns (r: Result<int, Fault>)
    modifies db, disk
    ensures r.Ok? <==> ParseAll(uploadDatas).Some?
    ensures r.Ok? ==> r.value == |uploadDatas|
    ensures r.Err? ==> r.error == NumberFormat
    ensures r.Ok? ==>
      var ids := ParseAll(uploadDatas).value;
      db.tables == old(db.tables).(
        uploadFiles := FilesAfter(old(db.tables.uploadFiles), userId, ids),
        uploads := UploadsAfter(old(db.tables.uploads), userId, ids)) &&
      db.calls == old(db.calls) + CallsFor(userId, ids) &&
      disk.requested == old(disk.requested) + PathsFor(old(db.tables.uploadFiles), userId, ids)
  {
    ghost var ids: seq<int> := [];
    for i := 0 to |uploadDatas|
      invariant ParseAll(uploadDatas[..i]) == Some(ids)
      invariant db.tables == old(db.tables).(
        uploadFiles := FilesAfter(old(db.tables.uploadFiles), userId, ids),
        uploads := UploadsAfter(old(db.tables.uploads), userId, ids))
      invariant db.calls == old(db.calls) + CallsFor(userId, ids)
      invariant disk.requested == old(disk.requested) + PathsFor(old(db.tables.uploadFiles), userId, ids)
    {
      var id := ParseLong(uploadDatas[i]);
      assert uploadDatas[..i + 1][..i] == uploadDatas[..i];
      if id.None? {
        ParseAllFailsOnward(uploadDatas, i + 1);
        return Err(NumberFormat);
      }
      var key := KeyFor(userId, id.value);
      RemovalStep(old(db.tables.uploadFiles), old(db.tables.uploads), userId, ids, id.value);
      ghost var requested := PathsFor(old(db.tables.uploadFiles), userId, ids);
      ghost var listed := PathsToDelete(ListedFiles(db.tables.uploadFiles, key));
      ghost var issued := CallsFor(userId, ids);
      RemoveUpload(db, disk, key);
      PathsAssoc(old(disk.requested), requested, listed);
      CallsAssoc(old(db.calls), issued, [SelectUploadFiles(key), DeleteUploadFiles(key), DeleteUpload(key)]);
      ids := ids + [id.value];
    }
    assert uploadDatas[..|uploadDatas|] == uploadDatas;
    return Ok(|uploadDatas|);
  }

  lemma PathsAssoc(a: seq<string>, b: seq<string>, c: seq<string>)
    ensures a + b + c == a + (b + c)
  {
  }

  lemma CallsAssoc(a: seq<Statement>, b: seq<Statement>, c: seq<Statement>)
    ensures a + b + c == a + (b + c)
  {
  }

  /** Extending the id list by one adds one removal at the end of every accumulated effect. */
  lemma RemovalStep(files0: seq<FileRecord>, uploads0: seq<UploadData>, userId: Option<string>, ids: seq<int>, id: int)
    ensures var ids1 := ids + [id]; var key := KeyFor(userId, id);
      FilesAfter(files0, userId, ids1) == FilesNotOf(FilesAfter(files0, userId, ids), key) &&
      UploadsAfter(uploads0, userId, ids1) == UploadsNotOf(UploadsAfter(uploads0, userId, ids), key) &&
      CallsFor(userId, ids1) == CallsFor(userId, ids) + [SelectUploadFiles(key), DeleteUploadFiles(key), DeleteUpload(key)] &&
      PathsFor(files0, userId, ids1) ==
        PathsFor(files0, userId, ids) + PathsToDelete(ListedFiles(FilesAfter(files0, userId, ids), key))
  {
    assert (ids + [id])[..|ids|] == ids;
  }

  /**
   * An id list that parses removes, for every listed id, all of a signed-in
   * user's rows of the upload (a null user id selects no row at all).
   */
  lemma DeletedUploadsAreGone(files0: seq<FileRecord>, uploads0: seq<UploadData>, userId: Option<string>,
                              ids: seq<int>, k: int)
    requires userId.Some? && 0 <= k < |ids|
    ensures forall f :: f in FilesAfter(files0, userId, ids) ==>
      !(f.uploadDataId == Some(ids[k]) && f.userId == userId)
    ensures forall u :: u in UploadsAfter(uploads0, userId, ids) ==>
      !(u.uploadDataId == Some(ids[k]) && u.userId == userId)
  {
    FilesAfterSpec(files0, userId, ids);
    UploadsAfterSpec(uploads0, userId, ids);
  }

  /** `checkIds` "7,9," removes two uploads: the trailing comma adds no part. */
  lemma TrailingCommaCountsTwo()
    ensures JavaSplit("7,9,", ',') == ["7", "9"]
  {
    var s := "7,9,";
    assert FirstIndexOfChar(s, ',') == 1;
    assert s[..1] == "7" && s[2..] == "9,";
    var t := "9,";
    assert FirstIndexOfChar(t, ',') == 1;
    assert t[..1] == "9" && t[2..] == "";
    assert SplitAll(t, ',') == ["9", ""];
    assert SplitAll(s, ',') == ["7", "9", ""];
    assert DropTrailingEmpty(["7", "9", ""]) == DropTrailingEmpty(["7", "9"]);
  }

  /** An empty `checkIds` is one empty part, which does not parse. */
  lemma EmptyIdsFail()
    ensures JavaSplit("", ',') == [""] && ParseLong("").None?
  {
  }
}
