/**
 `checkIfAdmin`, the guard of the security settings pages. It takes no
 continuation: it can only redirect.
 */
module Admin {
  import opened Navigation

  const AccessDeniedTarget: string := "api/security/access_denied"

  /** The guard applies: outside `pro-lite` consoles (which admit only
      admin-secret logins), a project member without the `admin` privilege. */
  predicate NotAdmin(g: Globals, privileges: seq<string>) {
    g.consoleType != "pro-lite" && "admin" !in privileges
  }

  /** `checkIfAdmin` with `mainData.project.privileges` as `privileges`. */
  function CheckIfAdmin(g: Globals, privileges: seq<string>): (e: Effect)
    ensures e.cbCalls == 0 && e.alert.None?
    ensures e.redirects == [ReplaceState(AccessDeniedTarget)] <==> NotAdmin(g, privileges)
    ensures e.redirects == [] <==> !NotAdmin(g, privileges)
  {
    if NotAdmin(g, privileges) then Effect([ReplaceState(AccessDeniedTarget)], 0, None)
    else NoEffect()
  }

  /** The gate reads the privileges only through whether they contain
      `admin`: two lists that agree on that get the same effect. */
  lemma OnlyAdminPrivilegeMatters(g: Globals, p1: seq<string>, p2: seq<string>)
    requires "admin" in p1 <==> "admin" in p2
    ensures CheckIfAdmin(g, p1) == CheckIfAdmin(g, p2)
  {
  }

  /** A `pro-lite` console never redirects, whatever the privileges. */
  lemma ProLiteNeverRedirects(g: Globals, privileges: seq<string>)
    requires g.consoleType == "pro-lite"
    ensures CheckIfAdmin(g, privileges) == NoEffect()
  {
  }

  /** Granting `admin` never adds a redirect, whatever else the privileges
      hold. */
  lemma AdminPrivilegeAdmits(g: Globals, privileges: seq<string>, more: seq<string>)
    requires "admin" in privileges
    ensures CheckIfAdmin(g, more + privileges).redirects == []
    ensures CheckIfAdmin(g, privileges + more).redirects == []
  {
  }
}
