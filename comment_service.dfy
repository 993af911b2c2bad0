/** frontend/src/services/commentService.ts, `canDeleteComment`: whether the
    browser offers the delete action on a comment. The signed-in user comes
    from local storage as a record whose role is a plain string. */
module CommentService {
  import opened Wrappers
  import opened Models
  import CommentController

  /** The stored current user, as far as `canDeleteComment` reads it. */
  datatype FrontUser = FrontUser(id: int, role: string)

  /** The comment, as far as `canDeleteComment` reads it: its author's id. */
  datatype FrontComment = FrontComment(id: int, userId: int)

  function CanDeleteComment(currentUser: Option<FrontUser>, comment: FrontComment): (allowed: bool)
    ensures currentUser.None? ==> !allowed
    ensures currentUser.Some? && currentUser.value.role == "manager" ==> allowed
    ensures currentUser.Some? && currentUser.value.role != "manager" ==>
              (allowed <==> comment.userId == currentUser.value.id)
  {
    match currentUser
    case None => false
    case Some(user) => user.role == "manager" || comment.userId == user.id
  }

  /** The user record the back end sends for `u`, as the front end stores it. */
  function FrontUserOf(u: User): FrontUser
  {
    FrontUser(u.id, RoleName(u.role))
  }

  /** Signed in as a back-end user, the browser offers deletion exactly
      when the back end's `DeleteComment` permits it. */
  lemma AgreesWithBackEnd(u: User, c: Comment)
    ensures CanDeleteComment(Some(FrontUserOf(u)), FrontComment(c.id, c.userId))
            == CommentController.MayDeleteComment(u.id, u.role, c.userId)
  {
    RoleNameRoundTrip(u.role);
    assert RoleName(u.role) == "manager" <==> u.role == Manager by {
      if RoleName(u.role) == "manager" {
        assert ParseRole(RoleName(u.role)) == ParseRole("manager");
      }
    }
  }
}
