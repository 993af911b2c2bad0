/** backend/controllers/comment_controller.go: adding a comment to a
    defect, listing a defect's comments, and deleting a comment, which only
    its author or a manager may do. */
module CommentController {
  import opened Wrappers
  import opened Models
  import opened Http
  import opened Strconv
  import opened Store
  import opened Auth

  /** The deletion rule: the comment's author, or any manager. */
  predicate MayDeleteComment(actorId: nat, actorRole: Role, authorId: nat)
  {
    authorId == actorId || actorRole == Manager
  }

  lemma DeletionRule(actorId: nat, actorRole: Role, authorId: nat)
    ensures MayDeleteComment(actorId, actorRole, authorId) <==> actorId == authorId || actorRole == Manager
    ensures actorRole != Manager && actorId != authorId ==> !MayDeleteComment(actorId, actorRole, authorId)
  {
  }

  // -------------------------------------------------------------- create

  /** The failure `CreateComment` answers with, in check order: the body,
      the caller's id, the defect. */
  function CreateCommentFailure(defects: map<nat, Defect>, values: ContextValues, body: Option<CommentCreate>): Option<Status>
  {
    if body.None? || !CommentCreateBinds(body.value) then Some(BadRequest)
    else if values.userID.None? then Some(Unauthorized)
    else if LiveDefect(defects, body.value.defectId).None? then Some(BadRequest)
    else None
  }

  /** A comment is added exactly for a well-formed payload from a known
      caller on a live defect. */
  lemma CreateCommentFailureMeaning(defects: map<nat, Defect>, values: ContextValues, cc: CommentCreate)
    ensures CreateCommentFailure(defects, values, Some(cc)).None? <==>
              cc.defectId != 0 && cc.content != "" && values.userID.Some?
              && cc.defectId in defects && !defects[cc.defectId].deleted
  {
  }

  /** `CreateComment`: inserts a comment whose author is the caller (the
      payload cannot name one) and answers 201 with it; on a failure nothing
      is stored. */
  method CreateComment(db: Database, values: ContextValues, body: Option<CommentCreate>) returns (r: Reply<Comment>)
    requires db.Valid()
    modifies db
    ensures db.Valid()
    ensures var failure := CreateCommentFailure(old(db.defects), values, body);
            && (failure.Some? ==> r == Fail(failure.value) && unchanged(db))
            && (failure.None? ==>
                  var c := Comment(old(db.nextCommentId), body.value.defectId, values.userID.value, body.value.content, false);
                  && r == Ok(Created, c)
                  && db.State() == old(db.State()).(comments := old(db.comments)[c.id := c],
                                                    nextCommentId := old(db.nextCommentId) + 1))
    ensures r.Ok? ==> Some(r.body.userId) == values.userID
  {
    if body.None? || !CommentCreateBinds(body.value) {
      return Fail(BadRequest);
    }
    var cc := body.value;
    if values.userID.None? {
      return Fail(Unauthorized);
    }
    var defect := LiveDefect(db.defects, cc.defectId);
    if defect.None? {
      return Fail(BadRequest);
    }
    var comment := Comment(db.nextCommentId, cc.defectId, values.userID.value, cc.content, false);
    db.comments := db.comments[comment.id := comment];
    db.nextCommentId := db.nextCommentId + 1;
    return Ok(Created, comment);
  }

  // ---------------------------------------------------------------- list

  /** `GetDefectComments`: exactly the live comments whose defect id is the
      path's (listed in ascending key order). The defect itself is not looked up, so
      a deleted defect's comments are still listed; an id that is not a
      number, or lies outside the `INTEGER` range of `defect_id`, makes the
      database refuse the query (500). */
  method GetDefectComments(db: Database, idText: string) returns (r: Reply<seq<Comment>>)
    requires db.Valid()
    ensures r.Fail? <==> !IntegerParam(idText)
    ensures r.Fail? ==> r.status == InternalServerError
    ensures r.Ok? ==> r.status == OK
    ensures r.Ok? ==> forall i :: 0 <= i < |r.body| ==>
              r.body[i].id in db.comments && r.body[i] == db.comments[r.body[i].id]
              && !r.body[i].deleted && r.body[i].defectId == Atoi(idText).value
    ensures r.Ok? ==> forall k :: k in db.comments && !db.comments[k].deleted
                                  && db.comments[k].defectId == Atoi(idText).value ==>
                        exists i :: 0 <= i < |r.body| && r.body[i].id == k
    ensures r.Ok? ==> forall i, j :: 0 <= i < j < |r.body| ==> r.body[i].id < r.body[j].id
  {
    var defectID := Atoi(idText);
    if defectID.None? || !(MinInteger <= defectID.value <= MaxInteger) {
      return Fail(InternalServerError);
    }
    var id := defectID.value;
    var ks := KeysBelow(db.comments, db.nextCommentId, (c: Comment) => !c.deleted && c.defectId == id);
    var rows := RowsAt(db.comments, ks);
    forall k | k in db.comments && !db.comments[k].deleted && db.comments[k].defectId == id
      ensures exists i :: 0 <= i < |rows| && rows[i].id == k
    {
      assert k in ks;
      var i :| 0 <= i < |ks| && ks[i] == k;
      assert rows[i].id == k;
    }
    return Ok(OK, rows);
  }

  // -------------------------------------------------------------- delete

  /** The failure `DeleteComment` answers with, in check order: the
      caller's id, the caller's role, the comment's existence (before the
      permission check), the deletion rule. */
  function DeleteCommentFailure(comments: map<nat, Comment>, values: ContextValues, idText: string): Option<Status>
  {
    if values.userID.None? then Some(Unauthorized)
    else if values.role.None? then Some(Unauthorized)
    else if Atoi(idText).None? || LiveComment(comments, Atoi(idText).value).None? then Some(NotFound)
    else if !MayDeleteComment(values.userID.value, values.role.value, comments[Atoi(idText).value].userId) then Some(Forbidden)
    else None
  }

  /** A missing comment is 404 for everyone, a manager included; an
      existing one is deleted exactly when the caller wrote it or is a
      manager. */
  lemma DeleteCommentFailureMeaning(comments: map<nat, Comment>, actorId: nat, role: Role, idText: string)
    ensures var values := ContextValues(Some(actorId), None, Some(role));
            && (Atoi(idText).None? || LiveComment(comments, Atoi(idText).value).None? ==>
                  DeleteCommentFailure(comments, values, idText) == Some(NotFound))
            && (Atoi(idText).Some? && LiveComment(comments, Atoi(idText).value).Some? ==>
                  (DeleteCommentFailure(comments, values, idText).None? <==>
                     comments[Atoi(idText).value].userId == actorId || role == Manager))
  {
  }

  /** `DeleteComment`: marks the comment deleted, or answers the failure
      with nothing changed. */
  method DeleteComment(db: Database, values: ContextValues, idText: string) returns (r: Reply<()>)
    requires db.Valid()
    modifies db
    ensures db.Valid()
    ensures var failure := DeleteCommentFailure(old(db.comments), values, idText);
            && (failure.Some? ==> r == Fail(failure.value) && unchanged(db))
            && (failure.None? ==>
                  var id := Atoi(idText).value as nat;
                  && r == Ok(OK, ())
                  && db.State() == old(db.State()).(comments := old(db.comments)[id := old(db.comments)[id].(deleted := true)])
                  && LiveComment(db.comments, id).None?)
  {
    if values.userID.None? {
      return Fail(Unauthorized);
    }
    if values.role.None? {
      return Fail(Unauthorized);
    }
    var key := Atoi(idText);
    if key.None? {
      return Fail(NotFound);
    }
    var found := LiveComment(db.comments, key.value);
    if found.None? {
      return Fail(NotFound);
    }
    var comment := found.value;
    if comment.userId != values.userID.value && values.role.value != Manager {
      return Fail(Forbidden);
    }
    db.comments := db.comments[comment.id := comment.(deleted := true)];
    return Ok(OK, ());
  }
}
