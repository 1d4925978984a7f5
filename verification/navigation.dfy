/**
 The vocabulary shared by the navigation guards: what a guard can do to a
 pending navigation, and the console's global configuration.

 A guard of the router receives `(nextState, replaceState, cb)`. Here it is a
 pure function returning an `Effect`: the navigations it asked for, in order,
 how many times it called the continuation `cb`, and the alert it raised.
 */
module Navigation {

  datatype Option<+T> = None | Some(value: T)

  /** One navigation a guard requests: `replaceState(target)`, or the
      dispatched `redirectToMetadataStatus()` action. */
  datatype Redirect = ReplaceState(target: string) | ToMetadataStatus

  datatype Effect = Effect(redirects: seq<Redirect>, cbCalls: nat, alert: Option<string>)

  /** The effect of a guard that calls `cb` once and does nothing else. */
  function Continue(): Effect {
    Effect([], 1, None)
  }

  /** The effect of a guard that does nothing at all. */
  function NoEffect(): Effect {
    Effect([], 0, None)
  }

  /** The read-only `globals` the guards consult. `adminSecret` is absent when
      the console was started without one. */
  datatype Globals = Globals(
    consoleMode: string,
    consoleType: string,
    adminSecret: Option<string>,
    adminSecretLabel: string)

  /** JavaScript truthiness of `globals.adminSecret`: set and non-empty. */
  predicate AdminSecretSet(g: Globals) {
    g.adminSecret.Some? && |g.adminSecret.value| > 0
  }
}
