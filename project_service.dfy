/**
 * `ProjectServiceImpl`: registering a project stores the project with its
 * directory path and a root data row that stands for the project in its data
 * tree; deleting a project removes that project's data rows and then the
 * project row. The read-only queries and `updateProject` hand their argument
 * straight to the mapper and are not part of this model.
 */
module ProjectService {
  import opened Wrappers
  import opened JavaText
  import opened Data
  import opened Persistence

  /** `File.separator` on the server's file system. */
  const Separator: string := "/"

  /**
   * The project as the project table stores it: the generated id, and the
   * path `<project key>/` (Java's string concatenation writes a null key as
   * "null").
   */
  function StoredProject(p: ProjectRecord, id: int): (r: ProjectRecord)
    ensures r.projectId == Some(id) && r.projectPath.Some?
    ensures r.projectPath.value == ValueOf(p.projectKey) + Separator
    ensures r.(projectId := p.projectId, projectPath := p.projectPath) == p
  {
    p.(projectId := Some(id), projectPath := Some(ValueOf(p.projectKey) + Separator))
  }

  /**
   * The data row a new project gets: the top of the project's data tree
   * (parent 0, depth 1, first in view order), named and keyed like the
   * project and owned by the same user; every other column stays null.
   */
  function RootDataOf(p: ProjectRecord): (d: DataInfo)
    ensures d.projectId == p.projectId && d.userId == p.userId && d.sharingType == p.sharingType
    ensures d.dataKey == p.projectKey && d.dataName == p.projectName && d.attributes == p.attributes
    ensures d.parent == Some(0) && d.depth == Some(1) && d.viewOrder == Some(1)
    ensures d.dataInsertType.None? && d.insertDate.None?
  {
    Blank.(projectId := p.projectId, sharingType := p.sharingType, dataKey := p.projectKey,
           dataName := p.projectName, userId := p.userId, parent := Some(0), depth := Some(1),
           viewOrder := Some(1), attributes := p.attributes)
  }

  /** The tables after `insertProject` of `p`: its row under the next id, and its root data row. */
  function AfterInsertProject(t: Tables, p: ProjectRecord): Tables {
    var stored := StoredProject(p, t.lastProjectId + 1);
    t.(projects := t.projects + [stored], data := t.data + [RootDataOf(stored)], lastProjectId := t.lastProjectId + 1)
  }

  /** The tables after `deleteProject` of the project with id `projectId`. */
  function AfterDeleteProject(t: Tables, projectId: Option<int>): Tables {
    t.(data := DataNotOfProject(t.data, projectId), projects := ProjectsNotWithId(t.projects, projectId))
  }

  /**
   * `insertProject`: sets the project's path, stores the project (the mapper
   * writes the generated id back into it), stores the root data row built
   * from the stored project, and returns the project insert's row count.
   */
  method InsertProject(db: Database, project: Project) returns (result: int)
    modifies db, project
    ensures result == 1
    ensures project.Record() == StoredProject(old(project.Record()), old(db.tables.lastProjectId) + 1)
    ensures db.tables == AfterInsertProject(old(db.tables), old(project.Record()))
    ensures db.calls == old(db.calls) + [
      InsertProjectRow(old(project.Record()).(projectPath := project.projectPath)),
      InsertDataRow(RootDataOf(project.Record()))]
  {
    project.projectPath := Some(ValueOf(project.projectKey) + Separator);
    var id;
    result, id := db.InsertProject(project.Record());
    project.projectId := Some(id);
    var dataInfo := RootDataOf(project.Record());
    var dataRows := db.InsertData(dataInfo);
  }

  /**
   * `deleteProject`: deletes the data rows of the project's id, then the
   * project row, and returns how many project rows went.
   */
  method DeleteProject(db: Database, project: Project) returns (result: int)
    modifies db
    ensures db.tables == AfterDeleteProject(old(db.tables), project.projectId)
    ensures result == |old(db.tables.projects)| - |db.tables.projects|
    ensures db.calls == old(db.calls) + [DeleteDataOfProject(project.projectId), DeleteProjectRow(project.projectId)]
  {
    var dataRows := db.DeleteDataByProjectId(project.projectId);
    result := db.DeleteProject(project.projectId);
  }

  /**
   * A delete by a project's id leaves no data row and no project row of that
   * id, and keeps every row of any other project.
   */
  lemma DeleteProjectRemovesExactly(t: Tables, projectId: int)
    ensures forall d :: d in AfterDeleteProject(t, Some(projectId)).data <==>
      d in t.data && d.projectId != Some(projectId)
    ensures forall p :: p in AfterDeleteProject(t, Some(projectId)).projects <==>
      p in t.projects && p.projectId != Some(projectId)
  {
    DataNotOfProjectSpec(t.data, Some(projectId));
    ProjectsNotWithIdSpec(t.projects, Some(projectId));
  }

  /** The root data row of a stored project goes with the project's delete. */
  lemma RootDataGoesWithProject(t: Tables, p: ProjectRecord)
    ensures var stored := StoredProject(p, t.lastProjectId + 1);
      RootDataOf(stored) in AfterInsertProject(t, p).data &&
      RootDataOf(stored) !in AfterDeleteProject(AfterInsertProject(t, p), stored.projectId).data
  {
    var stored := StoredProject(p, t.lastProjectId + 1);
    DataNotOfProjectSpec(AfterInsertProject(t, p).data, stored.projectId);
  }

  /**
   * Registering a project and then deleting it by the id it was given
   * restores every table, provided no row already carried that id; only the
   * id sequence has moved on.
   */
  lemma {:induction false} InsertThenDeleteRestores(t: Tables, p: ProjectRecord)
    requires forall d :: d in t.data ==> d.projectId != Some(t.lastProjectId + 1)
    requires forall q :: q in t.projects ==> q.projectId != Some(t.lastProjectId + 1)
    ensures AfterDeleteProject(AfterInsertProject(t, p), Some(t.lastProjectId + 1)) ==
      t.(lastProjectId := t.lastProjectId + 1)
  {
    var id := Some(t.lastProjectId + 1);
    var stored := StoredProject(p, t.lastProjectId + 1);
    DataNotOfProjectAppend(t.data, [RootDataOf(stored)], id);
    DataNotOfProjectNoMatch(t.data, id);
    assert DataNotOfProject([RootDataOf(stored)], id) == [];
    ProjectsNotWithIdAppend(t.projects, [stored], id);
    ProjectsNotWithIdNoMatch(t.projects, id);
    assert ProjectsNotWithId([stored], id) == [];
  }

  /** A project without an id deletes nothing: SQL matches no row against NULL. */
  lemma {:induction false} DeleteWithoutIdKeepsAll(t: Tables)
    ensures AfterDeleteProject(t, None) == t
  {
    DataNotOfProjectNoMatch(t.data, None);
    ProjectsNotWithIdNoMatch(t.projects, None);
  }
}
