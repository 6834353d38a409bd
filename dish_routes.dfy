/**
 * The route table of src/routes/DishRouter.js: three reads registered before
 * `router.use(authMiddleware)`, three dish mutations behind `authorize(['admin'])`
 * and three comment mutations behind `authorize(['user'])`.
 */
module DishRoutes {
  import opened Common
  import opened Gate

  datatype Route =
    | ListDishes     // GET /
    | ReadDish       // GET /:dishId
    | ReadComments   // GET /:dishId/comments
    | CreateDish     // POST /
    | ReplaceDish    // PUT /:dishId
    | RemoveDish     // DELETE /:dishId
    | AddComment     // POST /:dishId/comments
    | EditComment    // PUT /:dishId/comments/:commentId
    | RemoveComment  // DELETE /:dishId/comments/:commentId

  predicate IsRead(route: Route)
  {
    route.ListDishes? || route.ReadDish? || route.ReadComments?
  }

  predicate IsDishMutation(route: Route)
  {
    route.CreateDish? || route.ReplaceDish? || route.RemoveDish?
  }

  predicate IsCommentMutation(route: Route)
  {
    route.AddComment? || route.EditComment? || route.RemoveComment?
  }

  /** The gates each route is registered behind. */
  function AccessOf(route: Route): (a: Access)
    ensures a.Public? <==> IsRead(route)
    ensures IsDishMutation(route) ==> a == Protected(["admin"])
    ensures IsCommentMutation(route) ==> a == Protected(["user"])
  {
    match route
    case ListDishes => Public
    case ReadDish => Public
    case ReadComments => Public
    case CreateDish => Protected(["admin"])
    case ReplaceDish => Protected(["admin"])
    case RemoveDish => Protected(["admin"])
    case AddComment => Protected(["user"])
    case EditComment => Protected(["user"])
    case RemoveComment => Protected(["user"])
  }

  /** The reads need no token: any header, or none, reaches the handler. */
  lemma ReadsArePublic(route: Route, header: Option<string>, verify: string -> Verified)
    requires IsRead(route)
    ensures Admit(AccessOf(route), header, verify) == Admitted(None)
  {
  }

  /**
   * A mutation is admitted exactly when the token verifies and its role is the
   * one the route names: `admin` for dishes, `user` for comments.
   */
  lemma MutationNeedsItsRole(route: Route, header: Option<string>, verify: string -> Verified)
    requires !IsRead(route)
    ensures var role := if IsDishMutation(route) then "admin" else "user";
      Admit(AccessOf(route), header, verify).Admitted? <==>
        Authenticate(header, verify).Authenticated? && Authenticate(header, verify).claims.role == Some(role)
  {
  }

  /** An administrator's valid token is refused with 403 on every comment route. */
  lemma AdminCannotComment(route: Route, header: Option<string>, verify: string -> Verified)
    requires IsCommentMutation(route)
    requires Authenticate(header, verify).Authenticated?
    requires Authenticate(header, verify).claims.role == Some("admin")
    ensures Admit(AccessOf(route), header, verify) == Refused(FORBIDDEN, INSUFFICIENT)
  {
  }

  /** A token failure is answered 401 or 500 on every mutation, before the role is looked at. */
  lemma TokenDecidedFirst(route: Route, header: Option<string>, verify: string -> Verified)
    requires !IsRead(route)
    requires Authenticate(header, verify).Rejected?
    ensures Admit(AccessOf(route), header, verify)
      == Refused(Authenticate(header, verify).status, Authenticate(header, verify).message)
    ensures Admit(AccessOf(route), header, verify).status in {UNAUTHORIZED, INTERNAL_ERROR}
  {
  }
}
