/** The client's route guard (client/src/components/routes/ProtectedRoute.js):
    what a protected route shows for a given authentication state. */
module ProtectedRoute {

  /** The JavaScript values the guard compares with `===`. */
  datatype JsValue = Undefined | Null | Bool(b: bool) | Number(n: real) | Str(s: string) | Object

  /** The `user` of the auth state: null or undefined, or an object whose
      `role` property holds some value (undefined when it has none). */
  datatype AuthUser = NoUser | User(role: JsValue)

  /** What the guard renders: nothing, a redirect, the wrapped component, or a
      render that throws because `user.role` is read on a missing user. */
  datatype View = Nothing | Redirect(to: string) | Component | Throws

  /** The guard. Every comparison is strict, so only the literal `false` and the
      literal `true` take the branches that compare with them. */
  function Render(loading: JsValue, isAuthanticated: JsValue, isAdmin: JsValue, user: AuthUser): (v: View)
    ensures loading != Bool(false) ==> v == Nothing
    ensures v == Redirect("/login") <==> loading == Bool(false) && isAuthanticated == Bool(false)
    ensures v == Redirect("/") <==>
      loading == Bool(false) && isAuthanticated != Bool(false) && isAdmin == Bool(true) &&
      user.User? && user.role != Str("admin")
    ensures v == Throws <==>
      loading == Bool(false) && isAuthanticated != Bool(false) && isAdmin == Bool(true) && user.NoUser?
    ensures v == Component <==>
      loading == Bool(false) && isAuthanticated != Bool(false) &&
      (isAdmin != Bool(true) || user == User(Str("admin")))
  {
    if loading != Bool(false) then Nothing
    else if isAuthanticated == Bool(false) then Redirect("/login")
    else if isAdmin == Bool(true) && (user.NoUser? || user.role != Str("admin")) then
      (if user.NoUser? then Throws else Redirect("/"))
    else Component
  }

  /** The login redirect comes before the admin check: it does not depend on
      the route's admin flag or on the user. */
  lemma LoginRedirectFirst(isAdmin: JsValue, isAdmin': JsValue, user: AuthUser, user': AuthUser)
    ensures Render(Bool(false), Bool(false), isAdmin, user) == Render(Bool(false), Bool(false), isAdmin', user')
  {
  }

  /** On a route that is not an admin route, a loaded guard shows the component
      to everyone who is not literally unauthenticated: `undefined`, `null` or
      any other value than `false` lets the user through. */
  lemma NonAdminRouteAdmitsAllButFalse(isAuthanticated: JsValue, isAdmin: JsValue, user: AuthUser)
    requires isAdmin != Bool(true) && isAuthanticated != Bool(false)
    ensures Render(Bool(false), isAuthanticated, isAdmin, user) == Component
  {
  }

  /** Making a route an admin route only ever takes the component away. */
  lemma AdminRouteNarrows(loading: JsValue, isAuthanticated: JsValue, isAdmin: JsValue, user: AuthUser)
    requires Render(loading, isAuthanticated, Bool(true), user) == Component
    ensures Render(loading, isAuthanticated, isAdmin, user) == Component
  {
  }
}
