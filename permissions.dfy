/**
 * The requesting user as the backend sees it, and the two custom DRF permission
 * classes of the authentication app.
 */
module Permissions {
  import opened Wrappers

  /** `User.role`; the backend compares it with the literal 'admin'. */
  datatype Role = Admin | Customer

  /** The fields of a user record that the views and permissions read. */
  datatype User = User(id: nat, username: string, role: Role)

  /** `request.user`: Django's anonymous user, or an authenticated account. */
  datatype Principal = Anonymous | Member(user: User) {
    predicate IsAuthenticated() { Member? }
  }

  /** What `IsOwnerOrAdmin` can see of an object: the owner's id when it has a `user` field. */
  datatype Owned = Owned(owner: Option<nat>)

  /** `IsAdminUser.has_permission`: a present, authenticated user whose role is admin. */
  predicate IsAdminUser(p: Principal) {
    p.IsAuthenticated() && p.user.role == Admin
  }

  /**
   * `IsOwnerOrAdmin.has_object_permission`. Models compare by primary key, so
   * `obj.user == request.user` is a comparison of ids.
   */
  function IsOwnerOrAdmin(requester: User, obj: Owned): (granted: bool)
    ensures requester.role == Admin ==> granted
    ensures requester.role != Admin && obj.owner.Some? ==> (granted <==> obj.owner.value == requester.id)
    ensures requester.role != Admin && obj.owner.None? ==> !granted
  {
    if requester.role == Admin then true
    else if obj.owner.Some? then obj.owner.value == requester.id
    else false
  }

  /** A user who passes the admin check also passes the object check on every object. */
  lemma {:induction false} AdminPassesObjectCheck(u: User, obj: Owned)
    requires IsAdminUser(Member(u))
    ensures IsOwnerOrAdmin(u, obj)
  {
  }
}
