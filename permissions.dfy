/** `IsAuthorOrReadOnly` (backend/foodgram/permissions.py). */
module Permissions {
  import opened Models

  datatype HttpMethod = Get | Head | Options | Post | Put | Patch | Delete

  /** DRF's SAFE_METHODS: GET, HEAD and OPTIONS. */
  predicate IsSafe(m: HttpMethod) {
    m == Get || m == Head || m == Options
  }

  /** View-level check: reads are open; anything else needs an authenticated caller. */
  predicate HasPermission(m: HttpMethod, caller: Identity) {
    IsSafe(m) || caller.User?
  }

  /** Object-level check: reads are open; anything else only for the object's author. */
  predicate HasObjectPermission(m: HttpMethod, caller: Identity, author: int) {
    IsSafe(m) || caller == User(author)
  }

  /** Safe methods pass both checks for anyone, anonymous callers included. */
  lemma SafeMethodsAlwaysAllowed(m: HttpMethod, caller: Identity, author: int)
    requires IsSafe(m)
    ensures HasPermission(m, caller) && HasObjectPermission(m, caller, author)
  {
  }

  /** A write passes the view check exactly for an authenticated caller. */
  lemma WritesNeedAuthentication(m: HttpMethod, caller: Identity)
    requires !IsSafe(m)
    ensures HasPermission(m, caller) <==> caller.User?
  {
  }

  /** A write passes the object check exactly for the author; so it implies the view check. */
  lemma WritesOnlyByAuthor(m: HttpMethod, caller: Identity, author: int)
    requires !IsSafe(m)
    ensures HasObjectPermission(m, caller, author) <==> caller.User? && caller.id == author
    ensures HasObjectPermission(m, caller, author) ==> HasPermission(m, caller)
  {
  }
}
