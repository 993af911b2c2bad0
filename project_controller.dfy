/** backend/controllers/project_controller.go: creating, listing, reading,
    updating and soft-deleting projects. The route gives creation, update
    and deletion to managers; the handlers themselves check only that the
    referenced manager is a live user, whatever that user's role. */
module ProjectController {
  import opened Wrappers
  import opened Models
  import opened Http
  import opened Strconv
  import opened Store

  // -------------------------------------------------------------- create

  /** The row `CreateProject` inserts: the payload's fields, with the
      status `active` when none is supplied. */
  function NewProject(id: nat, pc: ProjectCreate): (p: Project)
    ensures p.id == id && !p.deleted && p.managerId == pc.managerId && p.name == pc.name
    ensures p.description == pc.description && p.location == pc.location
    ensures p.startDate == pc.startDate && p.endDate == pc.endDate
    ensures pc.status == "" ==> p.status == ProjectStatusActive
    ensures pc.status != "" ==> p.status == pc.status
  {
    var project := Project(id, pc.name, pc.description, pc.location, pc.startDate, pc.endDate, pc.status, pc.managerId, false);
    if project.status == "" then project.(status := ProjectStatusActive) else project
  }

  /** The failure `CreateProject` answers with, in check order. */
  function CreateProjectFailure(users: map<nat, User>, body: Option<ProjectCreate>): Option<Status>
  {
    if body.None? || !ProjectCreateBinds(body.value) then Some(BadRequest)
    else if LiveUser(users, body.value.managerId).None? then Some(BadRequest)
    else None
  }

  /** A well-formed payload is accepted exactly when its manager id names a
      live user; an observer or engineer is accepted as manager too. */
  lemma CreateProjectFailureMeaning(users: map<nat, User>, pc: ProjectCreate)
    requires ProjectCreateBinds(pc)
    ensures CreateProjectFailure(users, Some(pc)).None? <==> pc.managerId in users && !users[pc.managerId].deleted
    ensures pc.managerId in users && !users[pc.managerId].deleted && users[pc.managerId].role == Observer ==>
              CreateProjectFailure(users, Some(pc)).None?
  {
  }

  /** `CreateProject`: inserts the project and answers 201 with it; on a
      failure nothing is stored. */
  method CreateProject(db: Database, body: Option<ProjectCreate>) returns (r: Reply<Project>)
    requires db.Valid()
    modifies db
    ensures db.Valid()
    ensures var failure := CreateProjectFailure(old(db.users), body);
            && (failure.Some? ==> r == Fail(failure.value) && unchanged(db))
            && (failure.None? ==>
                  var p := NewProject(old(db.nextProjectId), body.value);
                  && r == Ok(Created, p)
                  && db.State() == old(db.State()).(projects := old(db.projects)[p.id := p],
                                                    nextProjectId := old(db.nextProjectId) + 1))
  {
    if body.None? || !ProjectCreateBinds(body.value) {
      return Fail(BadRequest);
    }
    var pc := body.value;
    var manager := LiveUser(db.users, pc.managerId);
    if manager.None? {
      return Fail(BadRequest);
    }
    var project := Project(db.nextProjectId, pc.name, pc.description, pc.location, pc.startDate, pc.endDate,
                           pc.status, pc.managerId, false);
    if project.status == "" {
      project := project.(status := ProjectStatusActive);
    }
    db.projects := db.projects[project.id := project];
    db.nextProjectId := db.nextProjectId + 1;
    return Ok(Created, project);
  }

  // ---------------------------------------------------------------- list

  /** One `Where` clause `GetAllProjects` adds. */
  datatype ProjectCondition = StatusIs(status: string) | ManagerIs(managerId: int)

  predicate Satisfies(p: Project, c: ProjectCondition)
  {
    match c
    case StatusIs(s) => p.status == s
    case ManagerIs(m) => p.managerId == m
  }

  predicate SatisfiesAll(p: Project, conds: seq<ProjectCondition>)
  {
    forall i :: 0 <= i < |conds| ==> Satisfies(p, conds[i])
  }

  /** What the filters of `GetAllProjects` ask for, stated directly: every
      non-empty filter must hold. */
  predicate MatchesFilters(p: Project, status: string, managerID: string)
  {
    && (status != "" ==> p.status == status)
    && (managerID != "" ==> Atoi(managerID).Some? && p.managerId == Atoi(managerID).value)
  }

  /** `GetAllProjects`: builds the query one filter at a time and answers
      exactly the live projects matching every non-empty filter (listed
      in ascending key order). A `manager_id` that is not a number, or
      lies outside the `INTEGER` range of `manager_id`, makes the database
      refuse the query (500). */
  method GetAllProjects(db: Database, status: string, managerID: string) returns (r: Reply<seq<Project>>)
    requires db.Valid()
    ensures r.Fail? <==> managerID != "" && !IntegerParam(managerID)
    ensures r.Fail? ==> r.status == InternalServerError
    ensures r.Ok? ==> r.status == OK
    ensures r.Ok? ==> forall i :: 0 <= i < |r.body| ==>
              r.body[i].id in db.projects && r.body[i] == db.projects[r.body[i].id]
              && !r.body[i].deleted && MatchesFilters(r.body[i], status, managerID)
    ensures r.Ok? ==> forall k :: k in db.projects && !db.projects[k].deleted
                                  && MatchesFilters(db.projects[k], status, managerID) ==>
                        exists i :: 0 <= i < |r.body| && r.body[i].id == k
    ensures r.Ok? ==> forall i, j :: 0 <= i < j < |r.body| ==> r.body[i].id < r.body[j].id
  {
    var conds: seq<ProjectCondition> := [];
    if status != "" {
      conds := conds + [StatusIs(status)];
    }
    if managerID != "" {
      var m := Atoi(managerID);
      if m.None? || !(MinInteger <= m.value <= MaxInteger) {
        return Fail(InternalServerError);
      }
      conds := conds + [ManagerIs(m.value)];
    }
    assert forall p: Project :: SatisfiesAll(p, conds) <==> MatchesFilters(p, status, managerID) by {
      forall p: Project ensures SatisfiesAll(p, conds) <==> MatchesFilters(p, status, managerID) {
        if status != "" { assert Satisfies(p, conds[0]) <==> p.status == status; }
        if managerID != "" { assert Satisfies(p, conds[|conds| - 1]) <==> p.managerId == Atoi(managerID).value; }
      }
    }
    var ks := KeysBelow(db.projects, db.nextProjectId, (p: Project) => !p.deleted && SatisfiesAll(p, conds));
    var rows := RowsAt(db.projects, ks);
    forall k | k in db.projects && !db.projects[k].deleted && MatchesFilters(db.projects[k], status, managerID)
      ensures exists i :: 0 <= i < |rows| && rows[i].id == k
    {
      assert k in ks;
      var i :| 0 <= i < |ks| && ks[i] == k;
      assert rows[i].id == k;
    }
    return Ok(OK, rows);
  }

  // ---------------------------------------------------------------- read

  /** `GetProject`: the live project whose key the id text names; 404
      otherwise. */
  method GetProject(db: Database, idText: string) returns (r: Reply<Project>)
    requires db.Valid()
    ensures r.Ok? <==> Atoi(idText).Some? && LiveProject(db.projects, Atoi(idText).value).Some?
    ensures r.Ok? ==> r == Ok(OK, db.projects[Atoi(idText).value]) && r.body.id == Atoi(idText).value
    ensures r.Fail? ==> r.status == NotFound
  {
    var key := Atoi(idText);
    if key.None? {
      return Fail(NotFound);
    }
    var found := LiveProject(db.projects, key.value);
    if found.None? {
      return Fail(NotFound);
    }
    return Ok(OK, found.value);
  }

  // -------------------------------------------------------------- update

  /** The project after an update: each field the payload supplies (text
      not empty, a date not zero, a manager id not 0) replaces the stored
      one; the rest stay as they were. */
  function ApplyProjectUpdate(p: Project, pu: ProjectUpdate): Project
  {
    p.(name := if pu.name != "" then pu.name else p.name,
       description := if pu.description != "" then pu.description else p.description,
       location := if pu.location != "" then pu.location else p.location,
       startDate := if !pu.startDate.IsZero() then pu.startDate else p.startDate,
       endDate := if !pu.endDate.IsZero() then pu.endDate else p.endDate,
       status := if pu.status != "" then pu.status else p.status,
       managerId := if pu.managerId != 0 then pu.managerId else p.managerId)
  }

  const EmptyProjectUpdate: ProjectUpdate := ProjectUpdate("", "", "", ZeroTime, ZeroTime, "", 0)

  /** An update never changes the key or the deletion marker; an empty
      update changes nothing; applying the same update twice is the same as
      applying it once. */
  lemma ProjectUpdateLaws(p: Project, pu: ProjectUpdate)
    ensures ApplyProjectUpdate(p, pu).id == p.id && ApplyProjectUpdate(p, pu).deleted == p.deleted
    ensures ApplyProjectUpdate(p, EmptyProjectUpdate) == p
    ensures ApplyProjectUpdate(ApplyProjectUpdate(p, pu), pu) == ApplyProjectUpdate(p, pu)
  {
  }

  /** Two updates in a row act as one whose fields are the second's where
      it supplies them and the first's elsewhere. */
  lemma ProjectUpdatesCompose(p: Project, a: ProjectUpdate, b: ProjectUpdate)
    ensures ApplyProjectUpdate(ApplyProjectUpdate(p, a), b) ==
            ApplyProjectUpdate(p, ProjectUpdate(
              if b.name != "" then b.name else a.name,
              if b.description != "" then b.description else a.description,
              if b.location != "" then b.location else a.location,
              if !b.startDate.IsZero() then b.startDate else a.startDate,
              if !b.endDate.IsZero() then b.endDate else a.endDate,
              if b.status != "" then b.status else a.status,
              if b.managerId != 0 then b.managerId else a.managerId))
  {
  }

  /** The field-by-field overwrite `UpdateProject` performs on the loaded
      project, the manager id aside (it is checked first). */
  method OverwriteSuppliedFields(p: Project, pu: ProjectUpdate) returns (project: Project)
    ensures project == ApplyProjectUpdate(p, pu.(managerId := 0))
  {
    project := p;
    if pu.name != "" {
      project := project.(name := pu.name);
    }
    if pu.description != "" {
      project := project.(description := pu.description);
    }
    if pu.location != "" {
      project := project.(location := pu.location);
    }
    if !pu.startDate.IsZero() {
      project := project.(startDate := pu.startDate);
    }
    if !pu.endDate.IsZero() {
      project := project.(endDate := pu.endDate);
    }
    if pu.status != "" {
      project := project.(status := pu.status);
    }
  }

  /** The failure `UpdateProject` answers with, in check order: the id
      text, the body, the project's existence, then a supplied manager's
      existence. */
  function UpdateProjectFailure(projects: map<nat, Project>, users: map<nat, User>,
                                idText: string, body: Option<ProjectUpdate>): Option<Status>
  {
    if Atoi(idText).None? then Some(BadRequest)
    else if body.None? then Some(BadRequest)
    else if LiveProject(projects, Atoi(idText).value).None? then Some(NotFound)
    else if body.value.managerId != 0 && LiveUser(users, body.value.managerId).None? then Some(BadRequest)
    else None
  }

  /** An update goes through exactly when the id is numeric, a body was
      bound, the project is live, and a supplied manager is a live user; a
      missing project is 404, any other failure 400. */
  lemma UpdateProjectFailureMeaning(projects: map<nat, Project>, users: map<nat, User>,
                                    idText: string, pu: ProjectUpdate)
    ensures UpdateProjectFailure(projects, users, idText, Some(pu)).None? <==>
              && Atoi(idText).Some? && LiveProject(projects, Atoi(idText).value).Some?
              && (pu.managerId == 0 || LiveUser(users, pu.managerId).Some?)
    ensures Atoi(idText).Some? && LiveProject(projects, Atoi(idText).value).None? ==>
              UpdateProjectFailure(projects, users, idText, Some(pu)) == Some(NotFound)
    ensures UpdateProjectFailure(projects, users, idText, Some(pu)) in {None, Some(NotFound), Some(BadRequest)}
  {
  }

  /** `UpdateProject`: overwrites the supplied fields of the stored
      project field by field and saves it; on a failure, the manager check
      included, nothing is stored. */
  method UpdateProject(db: Database, idText: string, body: Option<ProjectUpdate>) returns (r: Reply<Project>)
    requires db.Valid()
    modifies db
    ensures db.Valid()
    ensures var failure := UpdateProjectFailure(old(db.projects), old(db.users), idText, body);
            && (failure.Some? ==> r == Fail(failure.value) && unchanged(db))
            && (failure.None? ==>
                  var id := Atoi(idText).value as nat;
                  var p := ApplyProjectUpdate(old(db.projects)[id], body.value);
                  && r == Ok(OK, p)
                  && db.State() == old(db.State()).(projects := old(db.projects)[id := p]))
  {
    var projectID := Atoi(idText);
    if projectID.None? {
      return Fail(BadRequest);
    }
    if body.None? {
      return Fail(BadRequest);
    }
    var pu := body.value;
    var found := LiveProject(db.projects, projectID.value);
    if found.None? {
      return Fail(NotFound);
    }
    var project := OverwriteSuppliedFields(found.value, pu);
    if pu.managerId != 0 {
      var manager := LiveUser(db.users, pu.managerId);
      if manager.None? {
        return Fail(BadRequest);
      }
      project := project.(managerId := pu.managerId);
    }
    db.projects := db.projects[project.id := project];
    return Ok(OK, project);
  }

  // -------------------------------------------------------------- delete

  /** `DeleteProject`: marks the live project deleted (its row stays), or
      answers 404. */
  method DeleteProject(db: Database, idText: string) returns (r: Reply<()>)
    requires db.Valid()
    modifies db
    ensures db.Valid()
    ensures var key := Atoi(idText);
            && (key.None? || LiveProject(old(db.projects), key.value).None? ==>
                  r == Fail(NotFound) && unchanged(db))
            && (key.Some? && LiveProject(old(db.projects), key.value).Some? ==>
                  && r == Ok(OK, ())
                  && db.State() == old(db.State()).(projects := old(db.projects)[key.value as nat :=
                                                      old(db.projects)[key.value].(deleted := true)])
                  && LiveProject(db.projects, key.value).None?)
  {
    var key := Atoi(idText);
    if key.None? {
      return Fail(NotFound);
    }
    var found := LiveProject(db.projects, key.value);
    if found.None? {
      return Fail(NotFound);
    }
    var project := found.value;
    db.projects := db.projects[project.id := project.(deleted := true)];
    return Ok(OK, ());
  }
}
