/** The two custom permission classes: a staff user may do anything, other
    users only read (`IsAdminUserOrReadOnly`) or only create
    (`IsAdminUserorWriteOnly`). */
module Permissions {
  /** DRF's `SAFE_METHODS`. */
  const SafeMethods: set<string> := {"GET", "HEAD", "OPTIONS"}

  /** `IsAdminUserOrReadOnly.has_permission`. */
  predicate IsAdminUserOrReadOnly(isStaff: bool, verb: string) {
    if isStaff then true else verb in SafeMethods
  }

  /** `IsAdminUserorWriteOnly.has_permission`. */
  predicate IsAdminUserOrWriteOnly(isStaff: bool, verb: string) {
    if isStaff then true else verb == "POST"
  }

  /** A staff user passes both checks for every method. */
  lemma StaffPassesBoth(verb: string)
    ensures IsAdminUserOrReadOnly(true, verb) && IsAdminUserOrWriteOnly(true, verb)
  {
  }

  /** For other users the read-only check grants exactly GET, HEAD and
      OPTIONS, the write-only check exactly POST, so no method passes both. */
  lemma NonStaffGrants(verb: string)
    ensures IsAdminUserOrReadOnly(false, verb) <==> verb == "GET" || verb == "HEAD" || verb == "OPTIONS"
    ensures IsAdminUserOrWriteOnly(false, verb) <==> verb == "POST"
    ensures !(IsAdminUserOrReadOnly(false, verb) && IsAdminUserOrWriteOnly(false, verb))
  {
  }
}
