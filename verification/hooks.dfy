/**
 The on-enter hooks of the authenticated area: `shouldLoadAsyncGlobals`
 decides which globals to fetch, and `generateOnEnterHooks` lists the hooks
 that `composeOnEnterHooks` will chain. The hooks are named, not run.
 */
module Hooks {
  import opened Navigation
  import Access

  /** `{ shouldLoadOpts, shouldLoadServer }`. */
  datatype LoadPlan = LoadPlan(loadOpts: bool, loadServer: bool)

  /** `shouldLoadAsyncGlobals`: without a token both loads run; with one,
      each load follows its access flag. */
  function ShouldLoadAsyncGlobals(o: Access.OAuthResponse): (p: LoadPlan)
    requires Access.Decodes(o)
    ensures o.idToken.None? ==> p.loadOpts && p.loadServer
    ensures o.idToken.Some? ==> (p.loadOpts <==> Access.Truthy(Access.AccessOf(o), "hasDataAccess"))
    ensures o.idToken.Some? ==> (p.loadServer <==> Access.Truthy(Access.AccessOf(o), "hasGraphQLAccess"))
  {
    if o.idToken.None? then LoadPlan(true, true)
    else
      var access := Access.AccessOf(o);
      LoadPlan(Access.Truthy(access, "hasDataAccess"), Access.Truthy(access, "hasGraphQLAccess"))
  }

  datatype Hook =
    | ValidateAccessToRoute
    | RequireAsyncGlobals(loadOpts: bool, loadServer: bool)
    | RequireSource

  /** `generateOnEnterHooks`, up to the hand-off to `composeOnEnterHooks`. */
  function GenerateOnEnterHooks(o: Access.OAuthResponse): (hooks: seq<Hook>)
    requires Access.Decodes(o)
    ensures 1 <= |hooks| <= 3
    ensures var p := ShouldLoadAsyncGlobals(o);
            |hooks| == 1 + (if p.loadOpts || p.loadServer then 1 else 0) + (if p.loadOpts then 1 else 0)
    ensures hooks[0] == ValidateAccessToRoute
    ensures var p := ShouldLoadAsyncGlobals(o);
            (p.loadOpts || p.loadServer) <==> |hooks| >= 2 && hooks[1] == RequireAsyncGlobals(p.loadOpts, p.loadServer)
    ensures RequireSource in hooks <==> ShouldLoadAsyncGlobals(o).loadOpts
    ensures RequireSource in hooks ==> hooks == [hooks[0], hooks[1], RequireSource] && hooks[1].RequireAsyncGlobals?
  {
    var p := ShouldLoadAsyncGlobals(o);
    if p.loadOpts || p.loadServer then
      [ValidateAccessToRoute, RequireAsyncGlobals(p.loadOpts, p.loadServer)]
      + (if p.loadOpts then [RequireSource] else [])
    else [ValidateAccessToRoute]
  }

  /** With a token, nothing is loaded exactly when neither the data flag nor
      the GraphQL flag is truthy, and then the chain is the access check alone. */
  lemma LoadsNothingIff(o: Access.OAuthResponse)
    requires Access.Decodes(o) && o.idToken.Some?
    ensures var p := ShouldLoadAsyncGlobals(o);
            (!p.loadOpts && !p.loadServer)
            <==> !Access.Truthy(Access.AccessOf(o), "hasDataAccess") && !Access.Truthy(Access.AccessOf(o), "hasGraphQLAccess")
    ensures GenerateOnEnterHooks(o) == [ValidateAccessToRoute]
            <==> !Access.Truthy(Access.AccessOf(o), "hasDataAccess") && !Access.Truthy(Access.AccessOf(o), "hasGraphQLAccess")
  {
  }

  /** Granting more flags never loads less: if every flag truthy in `a` is
      truthy in `b`, then `b`'s session loads whatever `a`'s loads, and its
      chain is at least as long. */
  lemma MoreAccessLoadsMore(a: Access.AccessState, b: Access.AccessState)
    requires forall k :: Access.Truthy(a, k) ==> Access.Truthy(b, k)
    ensures var pa := ShouldLoadAsyncGlobals(Access.OAuthResponse(Some(Access.Decoded(a))));
            var pb := ShouldLoadAsyncGlobals(Access.OAuthResponse(Some(Access.Decoded(b))));
            (pa.loadOpts ==> pb.loadOpts) && (pa.loadServer ==> pb.loadServer)
    ensures |GenerateOnEnterHooks(Access.OAuthResponse(Some(Access.Decoded(a))))|
            <= |GenerateOnEnterHooks(Access.OAuthResponse(Some(Access.Decoded(b))))|
  {
  }

  /** A session without a token gets the full chain. */
  lemma NoTokenRunsEveryHook(o: Access.OAuthResponse)
    requires o.idToken.None?
    ensures GenerateOnEnterHooks(o) == [ValidateAccessToRoute, RequireAsyncGlobals(true, true), RequireSource]
  {
  }

  /** A metrics-only session loads no globals: its chain is the access check
      alone, which then sends it to the metrics module. */
  lemma MetricsOnlyLoadsNothing(o: Access.OAuthResponse)
    requires Access.Decodes(o) && o.idToken.Some? && Access.MetricsOnly(Access.AccessOf(o))
    ensures GenerateOnEnterHooks(o) == [ValidateAccessToRoute]
  {
  }
}
