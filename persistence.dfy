/**
 * The records the user-site services hand to their MyBatis mappers, and the
 * database behind those mappers. The SQL is not part of this model; the
 * Database class gives each mapper call the meaning its name and the
 * services' use imply: an insert stores one row and reports 1, a delete
 * removes the rows of the given key and reports how many, generated keys
 * come from a counter per table. Every call is also appended to `calls`, so
 * that the order in which a service issues them can be stated.
 */
module Persistence {
  import opened Wrappers
  import opened Data

  // ---------------------------------------------------------------- records

  /** An `UploadData` value: a row of `upload_data`, or the key of a query on it. */
  datatype UploadData = UploadData(
    uploadDataId: Option<int>,
    projectId: Option<int>,
    sharingType: Option<string>,
    dataType: Option<string>,
    userId: Option<string>,
    dataName: Option<string>,
    orderWord: Option<string>,
    orderValue: Option<string>)

  /** `new UploadData()`: every field null. */
  const BlankUpload: UploadData := UploadData(None, None, None, None, None, None, None, None)

  /** A row of `upload_data_file`. */
  datatype FileRecord = FileRecord(
    uploadDataId: Option<int>,
    projectId: Option<int>,
    sharingType: Option<string>,
    dataType: Option<string>,
    userId: Option<string>,
    fileType: string,
    filePath: string,
    fileRealName: string,
    depth: int)

  /** An `UploadDataFile` object, whose fields the upload service sets one by one. */
  class UploadDataFile {
    var uploadDataId: Option<int>
    var projectId: Option<int>
    var sharingType: Option<string>
    var dataType: Option<string>
    var userId: Option<string>
    var fileType: string
    var filePath: string
    var fileRealName: string
    var depth: int

    constructor (fileType: string, filePath: string, fileRealName: string, depth: int)
      ensures Record() == FileRecord(None, None, None, None, None, fileType, filePath, fileRealName, depth)
    {
      uploadDataId := None;
      projectId := None;
      sharingType := None;
      dataType := None;
      userId := None;
      this.fileType := fileType;
      this.filePath := filePath;
      this.fileRealName := fileRealName;
      this.depth := depth;
    }

    /** The row the mapper stores for this object as it is now. */
    function Record(): FileRecord
      reads this
    {
      FileRecord(uploadDataId, projectId, sharingType, dataType, userId, fileType, filePath, fileRealName, depth)
    }
  }

  /** A row of `project`. */
  datatype ProjectRecord = ProjectRecord(
    projectId: Option<int>,
    projectKey: Option<string>,
    projectName: Option<string>,
    sharingType: Option<string>,
    userId: Option<string>,
    attributes: Option<string>,
    projectPath: Option<string>)

  /** A `Project` object: the project service sets its path, the mapper its generated id. */
  class Project {
    var projectId: Option<int>
    var projectKey: Option<string>
    var projectName: Option<string>
    var sharingType: Option<string>
    var userId: Option<string>
    var attributes: Option<string>
    var projectPath: Option<string>

    constructor (projectKey: Option<string>, projectName: Option<string>, sharingType: Option<string>,
                 userId: Option<string>, attributes: Option<string>)
      ensures Record() == ProjectRecord(None, projectKey, projectName, sharingType, userId, attributes, None)
    {
      projectId := None;
      this.projectKey := projectKey;
      this.projectName := projectName;
      this.sharingType := sharingType;
      this.userId := userId;
      this.attributes := attributes;
      projectPath := None;
    }

    function Record(): ProjectRecord
      reads this
    {
      ProjectRecord(projectId, projectKey, projectName, sharingType, userId, attributes, projectPath)
    }
  }

  /** A user's stored policy; `settings` stands for its other columns. */
  datatype UserPolicy = UserPolicy(userId: string, settings: map<string, string>)

  /** The mapper calls, as `calls` records them. */
  datatype Statement =
    | InsertUpload(upload: UploadData)
    | InsertUploadFile(file: FileRecord)
    | SelectUploadFiles(key: UploadData)
    | DeleteUploadFiles(key: UploadData)
    | DeleteUpload(key: UploadData)
    | InsertProjectRow(project: ProjectRecord)
    | InsertDataRow(data: DataInfo)
    | DeleteDataOfProject(projectId: Option<int>)
    | DeleteProjectRow(projectId: Option<int>)
    | SelectPolicy(userId: string)
    | InsertPolicy(policy: UserPolicy)
    | UpdatePolicy(policy: UserPolicy)
    | DeletePolicy(userId: string)

  /** The tables, with the last key each sequence handed out. */
  datatype Tables = Tables(
    uploads: seq<UploadData>,
    uploadFiles: seq<FileRecord>,
    projects: seq<ProjectRecord>,
    data: seq<DataInfo>,
    policies: map<string, UserPolicy>,
    lastUploadDataId: int,
    lastProjectId: int)

  // --------------------------------------------------------- row selection

  /**
   * A `column = #{param}` condition: SQL compares nothing equal to NULL, so a
   * null parameter selects no row, whatever the column holds.
   */
  predicate SqlEquals<T(==)>(column: Option<T>, param: Option<T>) {
    param.Some? && column == param
  }

  /** The file rows an upload-data key selects: same upload id, same user. */
  predicate OwnsFile(key: UploadData, f: FileRecord) {
    SqlEquals(f.uploadDataId, key.uploadDataId) && SqlEquals(f.userId, key.userId)
  }

  predicate OwnsUpload(key: UploadData, u: UploadData) {
    SqlEquals(u.uploadDataId, key.uploadDataId) && SqlEquals(u.userId, key.userId)
  }

  function FilesOf(rows: seq<FileRecord>, key: UploadData): seq<FileRecord> {
    if rows == [] then []
    else (if OwnsFile(key, rows[0]) then [rows[0]] else []) + FilesOf(rows[1..], key)
  }

  function FilesNotOf(rows: seq<FileRecord>, key: UploadData): seq<FileRecord> {
    if rows == [] then []
    else (if OwnsFile(key, rows[0]) then [] else [rows[0]]) + FilesNotOf(rows[1..], key)
  }

  function UploadsNotOf(rows: seq<UploadData>, key: UploadData): seq<UploadData> {
    if rows == [] then []
    else (if OwnsUpload(key, rows[0]) then [] else [rows[0]]) + UploadsNotOf(rows[1..], key)
  }

  function DataNotOfProject(rows: seq<DataInfo>, projectId: Option<int>): seq<DataInfo> {
    if rows == [] then []
    else (if SqlEquals(rows[0].projectId, projectId) then [] else [rows[0]]) + DataNotOfProject(rows[1..], projectId)
  }

  function ProjectsNotWithId(rows: seq<ProjectRecord>, projectId: Option<int>): seq<ProjectRecord> {
    if rows == [] then []
    else (if SqlEquals(rows[0].projectId, projectId) then [] else [rows[0]]) + ProjectsNotWithId(rows[1..], projectId)
  }

  /** Selecting a key's files and the rest splits the table without losing or adding a row. */
  lemma {:induction false} FilesPartition(rows: seq<FileRecord>, key: UploadData)
    ensures multiset(FilesOf(rows, key)) + multiset(FilesNotOf(rows, key)) == multiset(rows)
  {
    if rows != [] {
      FilesPartition(rows[1..], key);
      assert rows == [rows[0]] + rows[1..];
    }
  }

  lemma {:induction false} FilesOfMembers(rows: seq<FileRecord>, key: UploadData)
    ensures forall f :: f in FilesOf(rows, key) <==> f in rows && OwnsFile(key, f)
  {
    if rows != [] {
      FilesOfMembers(rows[1..], key);
      assert rows == [rows[0]] + rows[1..];
    }
  }

  lemma {:induction false} FilesNotOfMembers(rows: seq<FileRecord>, key: UploadData)
    ensures forall f :: f in FilesNotOf(rows, key) <==> f in rows && !OwnsFile(key, f)
  {
    if rows != [] {
      FilesNotOfMembers(rows[1..], key);
      assert rows == [rows[0]] + rows[1..];
    }
  }

  lemma {:induction false} UploadsNotOfSpec(rows: seq<UploadData>, key: UploadData)
    ensures forall u :: u in UploadsNotOf(rows, key) <==> u in rows && !OwnsUpload(key, u)
    ensures |UploadsNotOf(rows, key)| <= |rows|
  {
    if rows != [] {
      UploadsNotOfSpec(rows[1..], key);
      assert rows == [rows[0]] + rows[1..];
    }
  }

  lemma {:induction false} DataNotOfProjectSpec(rows: seq<DataInfo>, projectId: Option<int>)
    ensures forall d :: d in DataNotOfProject(rows, projectId) <==> d in rows && !SqlEquals(d.projectId, projectId)
    ensures |DataNotOfProject(rows, projectId)| <= |rows|
  {
    if rows != [] {
      DataNotOfProjectSpec(rows[1..], projectId);
      assert rows == [rows[0]] + rows[1..];
    }
  }

  lemma {:induction false} ProjectsNotWithIdSpec(rows: seq<ProjectRecord>, projectId: Option<int>)
    ensures forall p :: p in ProjectsNotWithId(rows, projectId) <==> p in rows && !SqlEquals(p.projectId, projectId)
    ensures |ProjectsNotWithId(rows, projectId)| <= |rows|
  {
    if rows != [] {
      ProjectsNotWithIdSpec(rows[1..], projectId);
      assert rows == [rows[0]] + rows[1..];
    }
  }

  /** Deleting by project id from two tables' worth of rows is deleting from each part. */
  lemma {:induction false} DataNotOfProjectAppend(a: seq<DataInfo>, b: seq<DataInfo>, projectId: Option<int>)
    ensures DataNotOfProject(a + b, projectId) == DataNotOfProject(a, projectId) + DataNotOfProject(b, projectId)
  {
    if a != [] {
      DataNotOfProjectAppend(a[1..], b, projectId);
      assert (a + b)[1..] == a[1..] + b && (a + b)[0] == a[0];
    } else {
      assert a + b == b;
    }
  }

  /** A delete by project id that matches no row leaves the rows as they were. */
  lemma {:induction false} DataNotOfProjectNoMatch(rows: seq<DataInfo>, projectId: Option<int>)
    requires forall d :: d in rows ==> !SqlEquals(d.projectId, projectId)
    ensures DataNotOfProject(rows, projectId) == rows
  {
    if rows != [] {
      DataNotOfProjectNoMatch(rows[1..], projectId);
      assert rows == [rows[0]] + rows[1..];
    }
  }

  lemma {:induction false} ProjectsNotWithIdAppend(a: seq<ProjectRecord>, b: seq<ProjectRecord>, projectId: Option<int>)
    ensures ProjectsNotWithId(a + b, projectId) == ProjectsNotWithId(a, projectId) + ProjectsNotWithId(b, projectId)
  {
    if a != [] {
      var head := if SqlEquals(a[0].projectId, projectId) then [] else [a[0]];
      calc {
        ProjectsNotWithId(a + b, projectId);
      == { assert (a + b)[0] == a[0]; assert (a + b)[1..] == a[1..] + b; }
        head + ProjectsNotWithId(a[1..] + b, projectId);
      == { ProjectsNotWithIdAppend(a[1..], b, projectId); }
        head + (ProjectsNotWithId(a[1..], projectId) + ProjectsNotWithId(b, projectId));
      }
    } else {
      assert a + b == b;
    }
  }

  lemma {:induction false} ProjectsNotWithIdNoMatch(rows: seq<ProjectRecord>, projectId: Option<int>)
    requires forall p :: p in rows ==> !SqlEquals(p.projectId, projectId)
    ensures ProjectsNotWithId(rows, projectId) == rows
  {
    if rows != [] {
      ProjectsNotWithIdNoMatch(rows[1..], projectId);
      assert rows == [rows[0]] + rows[1..];
    }
  }

  // ------------------------------------------------------- ORDER BY depth

  /** Deeper files first. */
  predicate DeeperFirst(s: seq<FileRecord>) {
    forall i, j :: 0 <= i < j < |s| ==> s[i].depth >= s[j].depth
  }

  function InsertByDepth(f: FileRecord, s: seq<FileRecord>): seq<FileRecord> {
    if s == [] then [f]
    else if f.depth >= s[0].depth then [f] + s
    else [s[0]] + InsertByDepth(f, s[1..])
  }

  /** `ORDER BY depth DESC`, keeping table order among equal depths. */
  function SortByDepthDesc(s: seq<FileRecord>): seq<FileRecord> {
    if s == [] then [] else InsertByDepth(s[0], SortByDepthDesc(s[1..]))
  }

  lemma {:induction false} InsertByDepthElements(f: FileRecord, s: seq<FileRecord>)
    ensures multiset(InsertByDepth(f, s)) == multiset(s) + multiset{f}
  {
    if s != [] && f.depth < s[0].depth {
      InsertByDepthElements(f, s[1..]);
      assert s == [s[0]] + s[1..];
    }
  }

  /** Inserting keeps every depth under a bound both the file and the list respect. */
  lemma {:induction false} InsertByDepthBound(f: FileRecord, s: seq<FileRecord>, bound: int)
    requires f.depth <= bound && forall x :: x in s ==> x.depth <= bound
    ensures forall x :: x in InsertByDepth(f, s) ==> x.depth <= bound
  {
    if s != [] && f.depth < s[0].depth {
      InsertByDepthBound(f, s[1..], bound);
    }
  }

  lemma {:induction false} InsertByDepthSpec(f: FileRecord, s: seq<FileRecord>)
    requires DeeperFirst(s)
    ensures multiset(InsertByDepth(f, s)) == multiset(s) + multiset{f}
    ensures DeeperFirst(InsertByDepth(f, s))
  {
    InsertByDepthElements(f, s);
    if s != [] && f.depth < s[0].depth {
      var tail := s[1..];
      assert DeeperFirst(tail) by {
        forall i, j | 0 <= i < j < |tail| ensures tail[i].depth >= tail[j].depth {
          assert tail[i] == s[i + 1] && tail[j] == s[j + 1];
        }
      }
      InsertByDepthSpec(f, tail);
      forall x | x in tail ensures x.depth <= s[0].depth {
        var k :| 0 <= k < |tail| && tail[k] == x;
        assert s[k + 1] == x;
      }
      InsertByDepthBound(f, tail, s[0].depth);
      var rest := InsertByDepth(f, tail);
      var r := [s[0]] + rest;
      assert r == InsertByDepth(f, s);
      forall i, j | 0 <= i < j < |r| ensures r[i].depth >= r[j].depth {
        assert r[j] == rest[j - 1];
        if i > 0 {
          assert r[i] == rest[i - 1];
        } else {
          assert rest[j - 1] in rest;
        }
      }
    }
  }

  lemma {:induction false} SortByDepthDescSpec(s: seq<FileRecord>)
    ensures multiset(SortByDepthDesc(s)) == multiset(s)
    ensures DeeperFirst(SortByDepthDesc(s))
  {
    if s != [] {
      SortByDepthDescSpec(s[1..]);
      InsertByDepthSpec(s[0], SortByDepthDesc(s[1..]));
      assert s == [s[0]] + s[1..];
    }
  }

  /**
   * The rows `getListUploadDataFile` returns for a key: its files, ordered
   * by depth, deepest first, when the key asks for `depth DESC`, and in table
   * order otherwise.
   */
  function ListedFiles(rows: seq<FileRecord>, key: UploadData): seq<FileRecord> {
    if key.orderWord == Some("depth") && key.orderValue == Some("DESC") then SortByDepthDesc(FilesOf(rows, key))
    else FilesOf(rows, key)
  }

  /** Under `depth DESC` the listing holds exactly the key's files, deepest first. */
  lemma ListedFilesDeepestFirst(rows: seq<FileRecord>, key: UploadData)
    requires key.orderWord == Some("depth") && key.orderValue == Some("DESC")
    ensures DeeperFirst(ListedFiles(rows, key))
    ensures multiset(ListedFiles(rows, key)) == multiset(FilesOf(rows, key))
    ensures forall f :: f in ListedFiles(rows, key) <==> f in rows && OwnsFile(key, f)
  {
    SortByDepthDescSpec(FilesOf(rows, key));
    FilesOfMembers(rows, key);
    forall f ensures f in ListedFiles(rows, key) <==> f in FilesOf(rows, key) {
      assert f in ListedFiles(rows, key) <==> f in multiset(ListedFiles(rows, key));
    }
  }

  // -------------------------------------------------------------- database

  class Database {
    var tables: Tables
    var calls: seq<Statement>

    constructor (tables: Tables)
      ensures this.tables == tables && calls == []
    {
      this.tables := tables;
      calls := [];
    }

    /** Stores the upload under a fresh key, which it also reports back, as a generated key is. */
    method InsertUploadData(upload: UploadData) returns (rows: int, id: int)
      modifies this
      ensures id == old(tables.lastUploadDataId) + 1 && rows == 1
      ensures tables == old(tables).(uploads := old(tables.uploads) + [upload.(uploadDataId := Some(id))],
                                     lastUploadDataId := id)
      ensures calls == old(calls) + [InsertUpload(upload)]
    {
      id := tables.lastUploadDataId + 1;
      tables := tables.(uploads := tables.uploads + [upload.(uploadDataId := Some(id))], lastUploadDataId := id);
      calls := calls + [InsertUpload(upload)];
      rows := 1;
    }

    method InsertUploadDataFile(file: FileRecord) returns (rows: int)
      modifies this
      ensures rows == 1
      ensures tables == old(tables).(uploadFiles := old(tables.uploadFiles) + [file])
      ensures calls == old(calls) + [InsertUploadFile(file)]
    {
      tables := tables.(uploadFiles := tables.uploadFiles + [file]);
      calls := calls + [InsertUploadFile(file)];
      rows := 1;
    }

    method GetListUploadDataFile(key: UploadData) returns (files: seq<FileRecord>)
      modifies this
      ensures files == ListedFiles(tables.uploadFiles, key)
      ensures tables == old(tables)
      ensures calls == old(calls) + [SelectUploadFiles(key)]
    {
      files := ListedFiles(tables.uploadFiles, key);
      calls := calls + [SelectUploadFiles(key)];
    }

    method DeleteUploadDataFile(key: UploadData) returns (rows: int)
      modifies this
      ensures tables == old(tables).(uploadFiles := FilesNotOf(old(tables.uploadFiles), key))
      ensures rows == |FilesOf(old(tables.uploadFiles), key)|
      ensures calls == old(calls) + [DeleteUploadFiles(key)]
    {
      rows := |FilesOf(tables.uploadFiles, key)|;
      tables := tables.(uploadFiles := FilesNotOf(tables.uploadFiles, key));
      calls := calls + [DeleteUploadFiles(key)];
    }

    method DeleteUploadData(key: UploadData) returns (rows: int)
      modifies this
      ensures tables == old(tables).(uploads := UploadsNotOf(old(tables.uploads), key))
      ensures rows == |old(tables.uploads)| - |tables.uploads|
      ensures calls == old(calls) + [DeleteUpload(key)]
    {
      var kept := UploadsNotOf(tables.uploads, key);
      rows := |tables.uploads| - |kept|;
      tables := tables.(uploads := kept);
      calls := calls + [DeleteUpload(key)];
    }

    method InsertProject(project: ProjectRecord) returns (rows: int, id: int)
      modifies this
      ensures id == old(tables.lastProjectId) + 1 && rows == 1
      ensures tables == old(tables).(projects := old(tables.projects) + [project.(projectId := Some(id))],
                                     lastProjectId := id)
      ensures calls == old(calls) + [InsertProjectRow(project)]
    {
      id := tables.lastProjectId + 1;
      tables := tables.(projects := tables.projects + [project.(projectId := Some(id))], lastProjectId := id);
      calls := calls + [InsertProjectRow(project)];
      rows := 1;
    }

    method InsertData(d: DataInfo) returns (rows: int)
      modifies this
      ensures rows == 1
      ensures tables == old(tables).(data := old(tables.data) + [d])
      ensures calls == old(calls) + [InsertDataRow(d)]
    {
      tables := tables.(data := tables.data + [d]);
      calls := calls + [InsertDataRow(d)];
      rows := 1;
    }

    method DeleteDataByProjectId(projectId: Option<int>) returns (rows: int)
      modifies this
      ensures tables == old(tables).(data := DataNotOfProject(old(tables.data), projectId))
      ensures rows == |old(tables.data)| - |tables.data|
      ensures calls == old(calls) + [DeleteDataOfProject(projectId)]
    {
      var kept := DataNotOfProject(tables.data, projectId);
      rows := |tables.data| - |kept|;
      tables := tables.(data := kept);
      calls := calls + [DeleteDataOfProject(projectId)];
    }

    method DeleteProject(projectId: Option<int>) returns (rows: int)
      modifies this
      ensures tables == old(tables).(projects := ProjectsNotWithId(old(tables.projects), projectId))
      ensures rows == |old(tables.projects)| - |tables.projects|
      ensures calls == old(calls) + [DeleteProjectRow(projectId)]
    {
      var kept := ProjectsNotWithId(tables.projects, projectId);
      rows := |tables.projects| - |kept|;
      tables := tables.(projects := kept);
      calls := calls + [DeleteProjectRow(projectId)];
    }

    /** The stored policy of a user, or null. */
    method GetUserPolicy(userId: string) returns (p: Option<UserPolicy>)
      modifies this
      ensures p.Some? <==> userId in tables.policies
      ensures p.Some? ==> p.value == tables.policies[userId]
      ensures tables == old(tables)
      ensures calls == old(calls) + [SelectPolicy(userId)]
    {
      p := if userId in tables.policies then Some(tables.policies[userId]) else None;
      calls := calls + [SelectPolicy(userId)];
    }

    /** A second policy for the same user violates the table's key. */
    method InsertUserPolicy(policy: UserPolicy) returns (r: Result<int, Fault>)
      modifies this
      ensures policy.userId in old(tables.policies) ==> r == Err(DuplicateKey) && tables == old(tables)
      ensures policy.userId !in old(tables.policies) ==>
        r == Ok(1) && tables == old(tables).(policies := old(tables.policies)[policy.userId := policy])
      ensures calls == old(calls) + [InsertPolicy(policy)]
    {
      if policy.userId in tables.policies {
        r := Err(DuplicateKey);
      } else {
        tables := tables.(policies := tables.policies[policy.userId := policy]);
        r := Ok(1);
      }
      calls := calls + [InsertPolicy(policy)];
    }

    method UpdateUserPolicy(policy: UserPolicy) returns (rows: int)
      modifies this
      ensures policy.userId in old(tables.policies) ==>
        rows == 1 && tables == old(tables).(policies := old(tables.policies)[policy.userId := policy])
      ensures policy.userId !in old(tables.policies) ==> rows == 0 && tables == old(tables)
      ensures calls == old(calls) + [UpdatePolicy(policy)]
    {
      if policy.userId in tables.policies {
        tables := tables.(policies := tables.policies[policy.userId := policy]);
        rows := 1;
      } else {
        rows := 0;
      }
      calls := calls + [UpdatePolicy(policy)];
    }

    method DeleteUserPolicy(userId: string) returns (rows: int)
      modifies this
      ensures rows == (if userId in old(tables.policies) then 1 else 0)
      ensures tables == old(tables).(policies := old(tables.policies) - {userId})
      ensures calls == old(calls) + [DeletePolicy(userId)]
    {
      rows := if userId in tables.policies then 1 else 0;
      tables := tables.(policies := tables.policies - {userId});
      calls := calls + [DeletePolicy(userId)];
    }
  }

  /** The paths the services ask the file system to delete (when they exist), in order. */
  class Disk {
    var requested: seq<string>

    constructor ()
      ensures requested == []
    {
      requested := [];
    }

    method DeleteIfExists(path: string)
      modifies this
      ensures requested == old(requested) + [path]
    {
      requested := requested + [path];
    }
  }
}
