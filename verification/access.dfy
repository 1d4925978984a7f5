/**
 The access-control guard `validateAccessToRoute` and the restricted-path
 scan `accessDeniedRedirects` it calls.

 The access state is what `checkAccess` derives from the token's
 `collaborator_privileges`: a map from flag name to boolean, in which a
 missing flag reads as `undefined`, that is, falsy.
 */
module Access {
  import opened Navigation
  import opened Paths

  type AccessState = map<string, bool>

  /** JavaScript truthiness of `accessState[key]`. */
  predicate Truthy(a: AccessState, key: string) {
    key in a && a[key]
  }

  /** One entry of `restrictedPathsMetadata`: its key (the path prefix),
      `keyInAccessState` and `replace`. */
  datatype RestrictedPath = RestrictedPath(prefix: string, keyInAccessState: string, replace: string)

  /** Entry `rp` stops the navigation to `pathname`: its prefix matches and
      the flag it requires is falsy. */
  predicate Denies(a: AccessState, pathname: string, rp: RestrictedPath) {
    StartsWith(pathname, rp.prefix) && !Truthy(a, rp.keyInAccessState)
  }

  ghost predicate AnyDenied(a: AccessState, pathname: string, rps: seq<RestrictedPath>) {
    exists j :: 0 <= j < |rps| && Denies(a, pathname, rps[j])
  }

  /** Entry `i` denies and no entry declared after it does. */
  ghost predicate IsLastDenied(a: AccessState, pathname: string, rps: seq<RestrictedPath>, i: int) {
    && 0 <= i < |rps|
    && Denies(a, pathname, rps[i])
    && forall j :: i < j < |rps| ==> !Denies(a, pathname, rps[j])
  }

  /** The index the reverse scan stops at, if any: the last-declared entry
      that denies. */
  function LastDenied(a: AccessState, pathname: string, rps: seq<RestrictedPath>): (r: Option<nat>)
    ensures r.Some? ==> IsLastDenied(a, pathname, rps, r.value)
    ensures r.None? <==> !AnyDenied(a, pathname, rps)
    decreases |rps|
  {
    if |rps| == 0 then None
    else if Denies(a, pathname, rps[|rps| - 1]) then Some(|rps| - 1)
    else LastDenied(a, pathname, rps[..|rps| - 1])
  }

  /** `accessDeniedRedirects`: on a denial it calls `replaceState` with the
      entry's `replace` target, calls `cb` once and stops the scan. */
  function AccessDeniedRedirects(a: AccessState, pathname: string, rps: seq<RestrictedPath>): (e: Effect)
    ensures e.alert.None? && |e.redirects| <= 1 && e.cbCalls == |e.redirects|
    ensures e.redirects == [] <==> !AnyDenied(a, pathname, rps)
    ensures e.redirects != [] ==>
              exists i :: IsLastDenied(a, pathname, rps, i) && e.redirects[0] == ReplaceState(rps[i].replace)
  {
    match LastDenied(a, pathname, rps)
    case None => NoEffect()
    case Some(i) => Effect([ReplaceState(rps[i].replace)], 1, None)
  }

  /** The scan as the source writes it: a loop from the last key down to the
      first that breaks at the first denial. */
  method ScanRestrictedPaths(a: AccessState, pathname: string, rps: seq<RestrictedPath>) returns (e: Effect)
    ensures e == AccessDeniedRedirects(a, pathname, rps)
  {
    e := NoEffect();
    var i := |rps| - 1;
    while i >= 0
      invariant -1 <= i < |rps|
      invariant e == NoEffect()
      invariant forall j :: i < j < |rps| ==> !Denies(a, pathname, rps[j])
    {
      if Denies(a, pathname, rps[i]) {
        e := Effect([ReplaceState(rps[i].replace)], 1, None);
        break;
      }
      i := i - 1;
    }
  }

  /** Appending entries none of which denies leaves the outcome unchanged: a
      matching prefix whose flag is truthy does not stop the scan, and the
      entries declared before it are still checked. */
  lemma {:induction false} AllowedEntriesAreTransparent(
    a: AccessState, pathname: string, front: seq<RestrictedPath>, back: seq<RestrictedPath>)
    requires forall j :: 0 <= j < |back| ==> !Denies(a, pathname, back[j])
    ensures AccessDeniedRedirects(a, pathname, front + back) == AccessDeniedRedirects(a, pathname, front)
    decreases |back|
  {
    if |back| > 0 {
      var init := back[..|back| - 1];
      assert (front + back)[..|front + back| - 1] == front + init;
      assert forall j :: 0 <= j < |init| ==> init[j] == back[j];
      AllowedEntriesAreTransparent(a, pathname, front, init);
    } else {
      assert front + back == front;
    }
  }

  /** Entries declared after `front` take precedence: once one of them
      denies, nothing declared in `front` changes the outcome. */
  lemma {:induction false} LaterDeclaredWins(
    a: AccessState, pathname: string, front: seq<RestrictedPath>, back: seq<RestrictedPath>)
    requires AnyDenied(a, pathname, back)
    ensures AccessDeniedRedirects(a, pathname, front + back) == AccessDeniedRedirects(a, pathname, back)
    decreases |back|
  {
    var last := back[|back| - 1];
    var init := back[..|back| - 1];
    assert (front + back)[..|front + back| - 1] == front + init;
    if !Denies(a, pathname, last) {
      var j :| 0 <= j < |back| && Denies(a, pathname, back[j]);
      assert init[j] == back[j];
      LaterDeclaredWins(a, pathname, front, init);
    }
  }

  /** The token in `oAuthResponse`: either `decodeToken` fails on it, or it
      decodes and `checkAccess` yields an access state. */
  datatype IdToken = Undecodable | Decoded(access: AccessState)

  /** `store.getState().main.oAuthResponse`; `idToken` is absent when the
      response has no `id_token` key. */
  datatype OAuthResponse = OAuthResponse(idToken: Option<IdToken>)

  /** The guards dereference the decoded token unconditionally, so an
      undecodable token is outside what they handle. */
  predicate Decodes(o: OAuthResponse) {
    o.idToken.Some? ==> o.idToken.value.Decoded?
  }

  /** The access state of a session with a token. */
  function AccessOf(o: OAuthResponse): AccessState
    requires Decodes(o) && o.idToken.Some?
  {
    o.idToken.value.access
  }

  /** The session may see metrics and nothing else. */
  predicate MetricsOnly(a: AccessState) {
    && Truthy(a, "hasMetricAccess")
    && !Truthy(a, "hasDataAccess")
    && !Truthy(a, "hasGraphQLAccess")
  }

  /** The metrics-only rule sends `pathname` to the metrics module: the path
      contains neither the module path nor `/access-denied` anywhere. */
  predicate NeedsMetricsRedirect(pathname: string, relativeModulePath: string) {
    !Contains(pathname, relativeModulePath) && !Contains(pathname, "/access-denied")
  }

  /** `validateAccessToRoute`. The restricted-path scan runs first; the
      metrics-only rule then tests the same, unchanged pathname, and each
      calls `cb` independently. */
  function ValidateAccessToRoute(
    o: OAuthResponse, pathname: string, rps: seq<RestrictedPath>, relativeModulePath: string): (e: Effect)
    requires Decodes(o)
    ensures e.alert.None?
    ensures o.idToken.None? ==> e == Continue()
    ensures o.idToken.Some? ==>
              e.cbCalls == (if AnyDenied(AccessOf(o), pathname, rps) then 2 else 1)
    ensures o.idToken.Some? ==>
              |e.redirects| == (if AnyDenied(AccessOf(o), pathname, rps) then 1 else 0)
                              + (if MetricsOnly(AccessOf(o)) && NeedsMetricsRedirect(pathname, relativeModulePath)
                                 then 1 else 0)
    ensures o.idToken.Some? && AnyDenied(AccessOf(o), pathname, rps) ==>
              exists i :: IsLastDenied(AccessOf(o), pathname, rps, i) && e.redirects[0] == ReplaceState(rps[i].replace)
    ensures o.idToken.Some? && MetricsOnly(AccessOf(o)) && NeedsMetricsRedirect(pathname, relativeModulePath) ==>
              e.redirects[|e.redirects| - 1] == ReplaceState(relativeModulePath)
  {
    if o.idToken.None? then Continue()
    else
      var access := AccessOf(o);
      var denial := AccessDeniedRedirects(access, pathname, rps);
      var metrics :=
        if MetricsOnly(access) && NeedsMetricsRedirect(pathname, relativeModulePath)
        then [ReplaceState(relativeModulePath)] else [];
      Effect(denial.redirects + metrics, denial.cbCalls + 1, None)
  }

  /** The metrics-only redirect settles: validating the metrics module path
      itself issues no second metrics redirect. */
  lemma MetricsRedirectSettles(o: OAuthResponse, rps: seq<RestrictedPath>, relativeModulePath: string)
    requires Decodes(o) && o.idToken.Some?
    ensures |ValidateAccessToRoute(o, relativeModulePath, rps, relativeModulePath).redirects|
            == (if AnyDenied(AccessOf(o), relativeModulePath, rps) then 1 else 0)
  {
  }

  /** A metrics-only session bound for a page outside the metrics module,
      that no restricted prefix denies, is sent to the metrics module and
      continues once. */
  lemma MetricsOnlyRedirect(o: OAuthResponse, pathname: string, rps: seq<RestrictedPath>, relativeModulePath: string)
    requires Decodes(o) && o.idToken.Some? && MetricsOnly(AccessOf(o))
    requires NeedsMetricsRedirect(pathname, relativeModulePath) && !AnyDenied(AccessOf(o), pathname, rps)
    ensures ValidateAccessToRoute(o, pathname, rps, relativeModulePath) == Effect([ReplaceState(relativeModulePath)], 1, None)
  {
  }
}
