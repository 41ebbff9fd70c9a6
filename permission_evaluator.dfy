/** The authorization hook: a user may act only on their own account, and the
    identifier-and-type entry point denies everything. */
module PermissionEvaluator {
  import opened Wrappers

  /** `authentication.getPrincipal()`: a username string, or some other object
      (whose `equals` is false against any string). */
  datatype Principal = Text(value: string) | NonText

  /** The target domain object handed to the hook; a User's username may be null. */
  datatype DomainObject = Null | UserObject(username: Option<string>) | OtherObject

  /** The exceptions the object entry point lets escape. */
  datatype Fault =
    | NullPointer  // getUsername() on a null target
    | ClassCast    // (User) cast of a target of another class

  /** `hasPermission(authentication, targetId, targetType, permission)`. */
  function HasPermissionById<I, P>(principal: Principal, targetId: I, targetType: string, permission: P): (granted: bool)
    ensures !granted
  {
    false
  }

  /** `Object.equals(String)` of the principal against a possibly null username. */
  predicate PrincipalEquals(principal: Principal, username: Option<string>)
  {
    match principal
    case Text(s) => username == Some(s)
    case NonText => false
  }

  /** `hasPermission(authentication, targetDomainObject, permission)`. */
  function HasPermission<P>(principal: Principal, target: DomainObject, permission: P): (r: Result<bool, Fault>)
    ensures target.Null? <==> r == Err(NullPointer)
    ensures target.OtherObject? <==> r == Err(ClassCast)
    ensures target.UserObject? ==> r == Ok(principal.Text? && target.username == Some(principal.value))
  {
    match target
    case Null => Err(NullPointer)
    case OtherObject => Err(ClassCast)
    case UserObject(username) => Ok(PrincipalEquals(principal, username))
  }

  /** The `permission` argument never influences the answer. */
  lemma PermissionArgumentIgnored<P>(principal: Principal, target: DomainObject, p1: P, p2: P)
    ensures HasPermission(principal, target, p1) == HasPermission(principal, target, p2)
  {
  }

  /** Self-access only: one principal is granted access to at most one username. */
  lemma GrantedOnlyToSelf<P>(principal: Principal, u1: Option<string>, u2: Option<string>, permission: P)
    requires HasPermission(principal, UserObject(u1), permission) == Ok(true)
    requires HasPermission(principal, UserObject(u2), permission) == Ok(true)
    ensures u1 == u2 && u1.Some?
  {
  }
}
