/**
 * The `role_required` view decorator: an allow/deny decision on the requesting
 * user, taken before the wrapped view runs.
 */
module Permissions {
  import opened Accounts

  /** Who sent the request: nobody signed in, or a signed-in user. */
  datatype Requester = Anonymous | SignedIn(user: User)

  datatype Request<B> = Request(requester: Requester, body: B)

  /** Why a request was turned away (HTTP 403). */
  datatype Denial = LoginRequired | InsufficientRights

  datatype Response<R> = Forbidden(denial: Denial) | Passed(result: R)

  /** The allow/deny part of the decorator. */
  predicate Allows(allowed: set<Role>, who: Requester)
  {
    who.SignedIn? && (who.user.role in allowed || who.user.isSuperuser)
  }

  /**
   * A view wrapped by `role_required(*allowed)`: anonymous requests are
   * refused first, then signed-in users whose role is not allowed and who are
   * not superusers; every other request reaches the view unchanged.
   */
  function RoleRequired<B, A, R>(allowed: set<Role>, view: (Request<B>, A) -> R, request: Request<B>, args: A): (r: Response<R>)
    ensures request.requester.Anonymous? ==> r == Forbidden(LoginRequired)
    ensures (request.requester.SignedIn? && request.requester.user.role !in allowed && !request.requester.user.isSuperuser)
      ==> r == Forbidden(InsufficientRights)
    ensures r.Passed? <==> Allows(allowed, request.requester)
    ensures r.Passed? ==> r.result == view(request, args)
  {
    if request.requester.Anonymous? then Forbidden(LoginRequired)
    else if request.requester.user.role !in allowed && !request.requester.user.isSuperuser then Forbidden(InsufficientRights)
    else Passed(view(request, args))
  }

  /** Allowing more roles never turns away a request that was let through. */
  lemma AllowsMonotone(allowed: set<Role>, more: set<Role>, who: Requester)
    requires allowed <= more
    ensures Allows(allowed, who) ==> Allows(more, who)
  {
  }

  /** A signed-in superuser passes every `role_required`, even with no role allowed. */
  lemma SuperuserAlwaysPasses<B, A, R>(allowed: set<Role>, view: (Request<B>, A) -> R, u: User, body: B, args: A)
    requires u.isSuperuser
    ensures RoleRequired(allowed, view, Request(SignedIn(u), body), args) == Passed(view(Request(SignedIn(u), body), args))
  {
  }
}
