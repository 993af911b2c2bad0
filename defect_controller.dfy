/** backend/controllers/defect_controller.go: creating, listing, reading,
    updating and soft-deleting defects, with the one assignment rule of the
    system: an engineer may only assign a defect to an engineer. */
module DefectController {
  import opened Wrappers
  import opened Models
  import opened Http
  import opened Strconv
  import opened Store
  import opened Auth

  // -------------------------------------------------------------- policy

  /** Whether the caller may make a user of `assigneeRole` the assignee: a
      caller whose context role is engineer only an engineer, every other
      caller anyone. */
  predicate MayAssign(actorRole: Option<Role>, assigneeRole: Role)
  {
    !(actorRole == Some(Engineer) && assigneeRole != Engineer)
  }

  lemma AssignmentPolicy(actorRole: Option<Role>, assigneeRole: Role)
    ensures !MayAssign(actorRole, assigneeRole) <==> actorRole == Some(Engineer) && assigneeRole != Engineer
    ensures actorRole != Some(Engineer) ==> MayAssign(actorRole, assigneeRole)
    ensures MayAssign(actorRole, Engineer)
  {
  }

  /** The status an assignment check answers with, if it fails: 400 for a
      non-zero id that names no live user, 403 when the policy forbids it.
      Assignee 0 means unassigned and is never checked. */
  function AssigneeFailure(users: map<nat, User>, actorRole: Option<Role>, assigneeId: nat): Option<Status>
  {
    if assigneeId == 0 then None
    else if LiveUser(users, assigneeId).None? then Some(BadRequest)
    else if !MayAssign(actorRole, users[assigneeId].role) then Some(Forbidden)
    else None
  }

  // -------------------------------------------------------------- create

  /** The row `CreateDefect` inserts: status `new` and the caller as
      reporter whatever the payload holds, priority `medium` unless one is
      supplied. */
  function NewDefect(id: nat, dc: DefectCreate, reporter: nat): (d: Defect)
    ensures d.id == id && !d.deleted && d.title == dc.title && d.projectId == dc.projectId
    ensures d.status == DefectStatusNew && d.reporterId == reporter && d.assigneeId == dc.assigneeId
    ensures d.description == dc.description && d.dueDate == dc.dueDate
    ensures dc.priority == "" ==> d.priority == DefectPriorityMedium
    ensures dc.priority != "" ==> d.priority == dc.priority
  {
    var defect := Defect(id, dc.title, dc.description, dc.projectId, DefectStatusNew, "", reporter, dc.assigneeId, dc.dueDate, false);
    if dc.priority != "" then defect.(priority := dc.priority) else defect.(priority := DefectPriorityMedium)
  }

  /** The failure `CreateDefect` answers with, in check order: the body,
      the caller's id, the project, the assignee. */
  function CreateDefectFailure(projects: map<nat, Project>, users: map<nat, User>,
                               values: ContextValues, body: Option<DefectCreate>): Option<Status>
  {
    if body.None? || !DefectCreateBinds(body.value) then Some(BadRequest)
    else if values.userID.None? then Some(Unauthorized)
    else if LiveProject(projects, body.value.projectId).None? then Some(BadRequest)
    else AssigneeFailure(users, values.role, body.value.assigneeId)
  }

  /** A defect is created exactly when the payload is well formed, the
      caller is known, the project is live, and the assignee is either none
      or a live user the caller may assign. */
  lemma CreateDefectFailureMeaning(projects: map<nat, Project>, users: map<nat, User>,
                                   values: ContextValues, dc: DefectCreate)
    ensures CreateDefectFailure(projects, users, values, Some(dc)).None? <==>
              && DefectCreateBinds(dc) && values.userID.Some?
              && dc.projectId in projects && !projects[dc.projectId].deleted
              && (dc.assigneeId == 0 ||
                  (dc.assigneeId in users && !users[dc.assigneeId].deleted
                   && MayAssign(values.role, users[dc.assigneeId].role)))
    ensures DefectCreateBinds(dc) && values.userID.Some? && values.role == Some(Engineer) && dc.assigneeId != 0
            && LiveProject(projects, dc.projectId).Some?
            && LiveUser(users, dc.assigneeId).Some? && users[dc.assigneeId].role != Engineer
            ==> CreateDefectFailure(projects, users, values, Some(dc)) == Some(Forbidden)
  {
  }

  /** `CreateDefect`: inserts the defect reported by the caller and answers
      201 with it; on a failure nothing is stored. */
  method CreateDefect(db: Database, values: ContextValues, body: Option<DefectCreate>) returns (r: Reply<Defect>)
    requires db.Valid()
    modifies db
    ensures db.Valid()
    ensures var failure := CreateDefectFailure(old(db.projects), old(db.users), values, body);
            && (failure.Some? ==> r == Fail(failure.value) && unchanged(db))
            && (failure.None? ==>
                  var d := NewDefect(old(db.nextDefectId), body.value, values.userID.value);
                  && r == Ok(Created, d)
                  && db.State() == old(db.State()).(defects := old(db.defects)[d.id := d],
                                                    nextDefectId := old(db.nextDefectId) + 1))
  {
    if body.None? || !DefectCreateBinds(body.value) {
      return Fail(BadRequest);
    }
    var dc := body.value;
    if values.userID.None? {
      return Fail(Unauthorized);
    }
    var project := LiveProject(db.projects, dc.projectId);
    if project.None? {
      return Fail(BadRequest);
    }
    if dc.assigneeId != 0 {
      var assignee := LiveUser(db.users, dc.assigneeId);
      if assignee.None? {
        return Fail(BadRequest);
      }
      if values.role == Some(Engineer) && assignee.value.role != Engineer {
        return Fail(Forbidden);
      }
    }
    var defect := Defect(db.nextDefectId, dc.title, dc.description, dc.projectId, DefectStatusNew, "",
                         values.userID.value, dc.assigneeId, dc.dueDate, false);
    if dc.priority != "" {
      defect := defect.(priority := dc.priority);
    } else {
      defect := defect.(priority := DefectPriorityMedium);
    }
    db.defects := db.defects[defect.id := defect];
    db.nextDefectId := db.nextDefectId + 1;
    return Ok(Created, defect);
  }

  // ---------------------------------------------------------------- list

  /** The query filters of `GetAllDefects`, as received. */
  datatype DefectFilters = DefectFilters(
    projectID: string, status: string, priority: string, assigneeID: string, reporterID: string)

  /** The project filter comes from the `:id` path parameter when there is
      one, and from the `project_id` query parameter otherwise. */
  function EffectiveFilters(pathID: string, query: DefectFilters): (f: DefectFilters)
    ensures pathID != "" ==> f == query.(projectID := pathID)
    ensures pathID == "" ==> f == query
  {
    if pathID != "" then query.(projectID := pathID) else query
  }

  /** One `Where` clause `GetAllDefects` adds. */
  datatype DefectCondition =
    | ProjectIs(projectId: int)
    | StatusIs(status: string)
    | PriorityIs(priority: string)
    | AssigneeIs(assigneeId: int)
    | ReporterIs(reporterId: int)

  predicate Satisfies(d: Defect, c: DefectCondition)
  {
    match c
    case ProjectIs(p) => d.projectId == p
    case StatusIs(s) => d.status == s
    case PriorityIs(p) => d.priority == p
    case AssigneeIs(a) => d.assigneeId == a
    case ReporterIs(u) => d.reporterId == u
  }

  predicate SatisfiesAll(d: Defect, conds: seq<DefectCondition>)
  {
    forall i :: 0 <= i < |conds| ==> Satisfies(d, conds[i])
  }

  /** A numeric filter text: empty (no filter) or text the database reads
      as a value of its `INTEGER` column. */
  predicate NumericFilterOk(text: string)
  {
    text == "" || IntegerParam(text)
  }

  predicate FiltersOk(f: DefectFilters)
  {
    NumericFilterOk(f.projectID) && NumericFilterOk(f.assigneeID) && NumericFilterOk(f.reporterID)
  }

  predicate NumericMatch(text: string, value: nat)
  {
    text != "" ==> Atoi(text).Some? && value == Atoi(text).value
  }

  /** What the filters ask for, stated directly: every non-empty filter
      must hold. */
  predicate MatchesFilters(d: Defect, f: DefectFilters)
  {
    && NumericMatch(f.projectID, d.projectId)
    && (f.status != "" ==> d.status == f.status)
    && (f.priority != "" ==> d.priority == f.priority)
    && NumericMatch(f.assigneeID, d.assigneeId)
    && NumericMatch(f.reporterID, d.reporterId)
  }

  /** The filters among the first `stage` (in the order the handler adds
      them) that `d` meets. */
  predicate MatchesFirst(d: Defect, f: DefectFilters, stage: nat)
  {
    && (stage >= 1 ==> NumericMatch(f.projectID, d.projectId))
    && (stage >= 2 ==> (f.status != "" ==> d.status == f.status))
    && (stage >= 3 ==> (f.priority != "" ==> d.priority == f.priority))
    && (stage >= 4 ==> NumericMatch(f.assigneeID, d.assigneeId))
    && (stage >= 5 ==> NumericMatch(f.reporterID, d.reporterId))
  }

  lemma SatisfiesAllAppend(conds: seq<DefectCondition>, c: DefectCondition)
    ensures forall d: Defect :: SatisfiesAll(d, conds + [c]) <==> SatisfiesAll(d, conds) && Satisfies(d, c)
  {
    forall d: Defect
      ensures SatisfiesAll(d, conds + [c]) <==> SatisfiesAll(d, conds) && Satisfies(d, c)
    {
      if SatisfiesAll(d, conds) && Satisfies(d, c) {
        forall i | 0 <= i < |conds + [c]| ensures Satisfies(d, (conds + [c])[i]) {
          if i < |conds| { assert (conds + [c])[i] == conds[i]; }
        }
      }
      if SatisfiesAll(d, conds + [c]) {
        assert Satisfies(d, (conds + [c])[|conds|]);
        forall i | 0 <= i < |conds| ensures Satisfies(d, conds[i]) {
          assert (conds + [c])[i] == conds[i];
        }
      }
    }
  }

  /** The query-building part of `GetAllDefects`: one condition per
      non-empty filter, or none when a numeric filter is not a number or
      lies outside the `INTEGER` range (the database then refuses the query). */
  method BuildConditions(f: DefectFilters) returns (conds: Option<seq<DefectCondition>>)
    ensures conds.Some? <==> FiltersOk(f)
    ensures conds.Some? ==> forall d: Defect :: SatisfiesAll(d, conds.value) <==> MatchesFilters(d, f)
  {
    var cs: seq<DefectCondition> := [];
    if f.projectID != "" {
      var p := Atoi(f.projectID);
      if p.None? || !(MinInteger <= p.value <= MaxInteger) {
        return None;
      }
      SatisfiesAllAppend(cs, ProjectIs(p.value));
      cs := cs + [ProjectIs(p.value)];
    }
    assert forall d: Defect :: SatisfiesAll(d, cs) <==> MatchesFirst(d, f, 1);
    if f.status != "" {
      SatisfiesAllAppend(cs, StatusIs(f.status));
      cs := cs + [StatusIs(f.status)];
    }
    assert forall d: Defect :: SatisfiesAll(d, cs) <==> MatchesFirst(d, f, 2);
    if f.priority != "" {
      SatisfiesAllAppend(cs, PriorityIs(f.priority));
      cs := cs + [PriorityIs(f.priority)];
    }
    assert forall d: Defect :: SatisfiesAll(d, cs) <==> MatchesFirst(d, f, 3);
    if f.assigneeID != "" {
      var a := Atoi(f.assigneeID);
      if a.None? || !(MinInteger <= a.value <= MaxInteger) {
        return None;
      }
      SatisfiesAllAppend(cs, AssigneeIs(a.value));
      cs := cs + [AssigneeIs(a.value)];
    }
    assert forall d: Defect :: SatisfiesAll(d, cs) <==> MatchesFirst(d, f, 4);
    if f.reporterID != "" {
      var u := Atoi(f.reporterID);
      if u.None? || !(MinInteger <= u.value <= MaxInteger) {
        return None;
      }
      SatisfiesAllAppend(cs, ReporterIs(u.value));
      cs := cs + [ReporterIs(u.value)];
    }
    assert forall d: Defect :: SatisfiesAll(d, cs) <==> MatchesFirst(d, f, 5);
    return Some(cs);
  }

  /** `GetAllDefects`: exactly the live defects matching every non-empty
      filter (listed in ascending key order), with the path id taking the place of
      the `project_id` query parameter. */
  method GetAllDefects(db: Database, pathID: string, query: DefectFilters) returns (r: Reply<seq<Defect>>)
    requires db.Valid()
    ensures var f := EffectiveFilters(pathID, query);
            && (r.Fail? <==> !FiltersOk(f))
            && (r.Fail? ==> r.status == InternalServerError)
            && (r.Ok? ==> r.status == OK)
            && (r.Ok? ==> forall i :: 0 <= i < |r.body| ==>
                  r.body[i].id in db.defects && r.body[i] == db.defects[r.body[i].id]
                  && !r.body[i].deleted && MatchesFilters(r.body[i], f))
            && (r.Ok? ==> forall k :: k in db.defects && !db.defects[k].deleted
                                      && MatchesFilters(db.defects[k], f) ==>
                            exists i :: 0 <= i < |r.body| && r.body[i].id == k)
            && (r.Ok? ==> forall i, j :: 0 <= i < j < |r.body| ==> r.body[i].id < r.body[j].id)
  {
    var f := EffectiveFilters(pathID, query);
    var conds := BuildConditions(f);
    if conds.None? {
      return Fail(InternalServerError);
    }
    var cs := conds.value;
    var ks := KeysBelow(db.defects, db.nextDefectId, (d: Defect) => !d.deleted && SatisfiesAll(d, cs));
    var rows := RowsAt(db.defects, ks);
    forall k | k in db.defects && !db.defects[k].deleted && MatchesFilters(db.defects[k], f)
      ensures exists i :: 0 <= i < |rows| && rows[i].id == k
    {
      assert k in ks;
      var i :| 0 <= i < |ks| && ks[i] == k;
      assert rows[i].id == k;
    }
    return Ok(OK, rows);
  }

  // ---------------------------------------------------------------- read

  /** `GetDefect`: the live defect whose key the id text names; 404
      otherwise. */
  method GetDefect(db: Database, idText: string) returns (r: Reply<Defect>)
    requires db.Valid()
    ensures r.Ok? <==> Atoi(idText).Some? && LiveDefect(db.defects, Atoi(idText).value).Some?
    ensures r.Ok? ==> r == Ok(OK, db.defects[Atoi(idText).value]) && r.body.id == Atoi(idText).value
    ensures r.Fail? ==> r.status == NotFound
  {
    var key := Atoi(idText);
    if key.None? {
      return Fail(NotFound);
    }
    var found := LiveDefect(db.defects, key.value);
    if found.None? {
      return Fail(NotFound);
    }
    return Ok(OK, found.value);
  }

  // -------------------------------------------------------------- update

  /** The defect after an update: each field the payload supplies (text
      not empty, an assignee not 0, a date not zero) replaces the stored
      one. Status takes any non-empty text: there is no transition rule. */
  function ApplyDefectUpdate(d: Defect, du: DefectUpdate): Defect
  {
    d.(title := if du.title != "" then du.title else d.title,
       description := if du.description != "" then du.description else d.description,
       status := if du.status != "" then du.status else d.status,
       priority := if du.priority != "" then du.priority else d.priority,
       assigneeId := if du.assigneeId != 0 then du.assigneeId else d.assigneeId,
       dueDate := if !du.dueDate.IsZero() then du.dueDate else d.dueDate)
  }

  const EmptyDefectUpdate: DefectUpdate := DefectUpdate("", "", "", "", 0, ZeroTime)

  /** An update never moves a defect to another project, never changes its
      reporter, key or deletion marker; an empty update changes nothing;
      the same update twice is the same as once; and any status can follow
      any other. */
  lemma DefectUpdateLaws(d: Defect, du: DefectUpdate, s: string)
    ensures var e := ApplyDefectUpdate(d, du);
            e.id == d.id && e.projectId == d.projectId && e.reporterId == d.reporterId && e.deleted == d.deleted
    ensures ApplyDefectUpdate(d, EmptyDefectUpdate) == d
    ensures ApplyDefectUpdate(ApplyDefectUpdate(d, du), du) == ApplyDefectUpdate(d, du)
    ensures s != "" ==> ApplyDefectUpdate(d, EmptyDefectUpdate.(status := s)).status == s
  {
  }

  /** The failure `UpdateDefect` answers with, in check order: the id
      text, the body, the defect's existence, then a supplied assignee. */
  function UpdateDefectFailure(defects: map<nat, Defect>, users: map<nat, User>, values: ContextValues,
                               idText: string, body: Option<DefectUpdate>): Option<Status>
  {
    if Atoi(idText).None? then Some(BadRequest)
    else if body.None? then Some(BadRequest)
    else if LiveDefect(defects, Atoi(idText).value).None? then Some(NotFound)
    else AssigneeFailure(users, values.role, body.value.assigneeId)
  }

  /** An update goes through exactly when the id is numeric, a body was
      bound, the defect is live, and a supplied assignee is a live user the
      caller may assign; the assignment rule is the one creation applies. */
  lemma UpdateDefectFailureMeaning(defects: map<nat, Defect>, users: map<nat, User>, values: ContextValues,
                                   idText: string, du: DefectUpdate)
    ensures UpdateDefectFailure(defects, users, values, idText, Some(du)).None? <==>
              && Atoi(idText).Some? && LiveDefect(defects, Atoi(idText).value).Some?
              && (du.assigneeId == 0 ||
                  (LiveUser(users, du.assigneeId).Some? && MayAssign(values.role, users[du.assigneeId].role)))
    ensures Atoi(idText).Some? && LiveDefect(defects, Atoi(idText).value).Some?
            && values.role == Some(Engineer) && du.assigneeId != 0
            && LiveUser(users, du.assigneeId).Some? && users[du.assigneeId].role != Engineer
            ==> UpdateDefectFailure(defects, users, values, idText, Some(du)) == Some(Forbidden)
  {
  }

  /** The field-by-field overwrite `UpdateDefect` performs on the loaded
      defect before it reaches the assignee. */
  method OverwriteSuppliedFields(d: Defect, du: DefectUpdate) returns (defect: Defect)
    ensures defect == ApplyDefectUpdate(d, du.(assigneeId := 0, dueDate := ZeroTime))
  {
    defect := d;
    if du.title != "" {
      defect := defect.(title := du.title);
    }
    if du.description != "" {
      defect := defect.(description := du.description);
    }
    if du.status != "" {
      defect := defect.(status := du.status);
    }
    if du.priority != "" {
      defect := defect.(priority := du.priority);
    }
  }

  /** `UpdateDefect`: overwrites the supplied fields and saves; a refused
      assignee returns before the save, so no field change persists. */
  method UpdateDefect(db: Database, values: ContextValues, idText: string, body: Option<DefectUpdate>)
    returns (r: Reply<Defect>)
    requires db.Valid()
    modifies db
    ensures db.Valid()
    ensures var failure := UpdateDefectFailure(old(db.defects), old(db.users), values, idText, body);
            && (failure.Some? ==> r == Fail(failure.value) && unchanged(db))
            && (failure.None? ==>
                  var id := Atoi(idText).value as nat;
                  var d := ApplyDefectUpdate(old(db.defects)[id], body.value);
                  && r == Ok(OK, d)
                  && db.State() == old(db.State()).(defects := old(db.defects)[id := d]))
  {
    var defectID := Atoi(idText);
    if defectID.None? {
      return Fail(BadRequest);
    }
    if body.None? {
      return Fail(BadRequest);
    }
    var du := body.value;
    var found := LiveDefect(db.defects, defectID.value);
    if found.None? {
      return Fail(NotFound);
    }
    var defect := OverwriteSuppliedFields(found.value, du);
    if du.assigneeId != 0 {
      var assignee := LiveUser(db.users, du.assigneeId);
      if assignee.None? {
        return Fail(BadRequest);
      }
      if values.role == Some(Engineer) && assignee.value.role != Engineer {
        return Fail(Forbidden);
      }
      defect := defect.(assigneeId := du.assigneeId);
    }
    if !du.dueDate.IsZero() {
      defect := defect.(dueDate := du.dueDate);
    }
    db.defects := db.defects[defect.id := defect];
    return Ok(OK, defect);
  }

  // -------------------------------------------------------------- delete

  /** `DeleteDefect`: marks the live defect deleted (its row and its
      comments stay), or answers 404. */
  method DeleteDefect(db: Database, idText: string) returns (r: Reply<()>)
    requires db.Valid()
    modifies db
    ensures db.Valid()
    ensures var key := Atoi(idText);
            && (key.None? || LiveDefect(old(db.defects), key.value).None? ==>
                  r == Fail(NotFound) && unchanged(db))
            && (key.Some? && LiveDefect(old(db.defects), key.value).Some? ==>
                  && r == Ok(OK, ())
                  && db.State() == old(db.State()).(defects := old(db.defects)[key.value as nat :=
                                                      old(db.defects)[key.value].(deleted := true)])
                  && LiveDefect(db.defects, key.value).None?)
  {
    var key := Atoi(idText);
    if key.None? {
      return Fail(NotFound);
    }
    var found := LiveDefect(db.defects, key.value);
    if found.None? {
      return Fail(NotFound);
    }
    var defect := found.value;
    db.defects := db.defects[defect.id := defect.(deleted := true)];
    return Ok(OK, ());
  }
}
