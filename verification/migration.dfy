/**
 `requireMigrationStatus`: in CLI mode the guard waits for the migration
 status and continues only if it loads; a failure raises one of three alerts
 and leaves the navigation suspended.
 */
module Migration {
  import opened Navigation

  /** How `loadMigrationStatus()` settles. A rejection carries the error's
      `code` (absent when the error has none) and `message`. */
  datatype MigrationStatus = Loaded | LoadFailed(code: Option<string>, message: string)

  /** The three alerts a failed load can raise. */
  datatype MigrationAlert =
    | CliError(message: string)
    | CliNotConfigured(adminSecretLabel: string)
    | EngineUnreachable

  const CliErrorPrefix: string := "Hasura CLI: "
  const NotConfiguredPrefix: string := "Looks like CLI is not configured with the "
  const NotConfiguredSuffix: string := ". Please configure and try again"
  /** The source breaks this literal after "Please ensure that your ". It is
      split here after "Hasura console" instead, so that `AlertSignature` can
      read its characters 0 and 7; those tell the three openings "Hasura CLI",
      "Looks" and "Hasura console" apart. */
  const UnreachableText: string :=
    "Hasura console" + " is not able to reach your Hasura GraphQL engine instance. Please ensure that your instance is running and the endpoint is configured correctly."

  /** The text `alert` shows for each kind. */
  function AlertText(a: MigrationAlert): string {
    match a
    case CliError(m) => CliErrorPrefix + m
    case CliNotConfigured(secretLabel) => NotConfiguredPrefix + secretLabel + NotConfiguredSuffix
    case EngineUnreachable => UnreachableText
  }

  /** The alert for a rejection: a `data_api_error` is reported as the CLI's
      own message when an admin secret is set and as a configuration prompt
      otherwise; any other error is reported as an unreachable engine. */
  function FailureAlert(g: Globals, code: Option<string>, message: string): (a: MigrationAlert)
    ensures a.CliError? <==> code == Some("data_api_error") && AdminSecretSet(g)
    ensures a.CliNotConfigured? <==> code == Some("data_api_error") && !AdminSecretSet(g)
    ensures a.EngineUnreachable? <==> code != Some("data_api_error")
    ensures a.CliError? ==> a.message == message
    ensures a.CliNotConfigured? ==> a.adminSecretLabel == g.adminSecretLabel
  {
    if code == Some("data_api_error") then
      if AdminSecretSet(g) then CliError(message) else CliNotConfigured(g.adminSecretLabel)
    else EngineUnreachable
  }

  /** `requireMigrationStatus`, given how the status load settles (consulted
      only in CLI mode, the only mode that loads it). */
  function RequireMigrationStatus(g: Globals, status: MigrationStatus): (e: Effect)
    ensures e.redirects == []
    ensures e.cbCalls <= 1
    ensures e.cbCalls == 1 <==> g.consoleMode != "cli" || status.Loaded?
    ensures e.alert.None? <==> e.cbCalls == 1
    ensures e.alert.Some? ==> status.LoadFailed? && e.alert.value == AlertText(FailureAlert(g, status.code, status.message))
  {
    if g.consoleMode == "cli" then
      match status
      case Loaded => Continue()
      case LoadFailed(code, message) => Effect([], 0, Some(AlertText(FailureAlert(g, code, message))))
    else Continue()
  }

  /** The characters at positions 0 and 7 tell the three kinds apart. */
  lemma AlertSignature(a: MigrationAlert)
    ensures |AlertText(a)| > 7
    ensures AlertText(a)[0] == (if a.CliNotConfigured? then 'L' else 'H')
    ensures a.CliError? ==> AlertText(a)[7] == 'C'
    ensures a.EngineUnreachable? ==> AlertText(a)[7] == 'c'
  {
    match a
    case CliError(m) =>
      assert CliErrorPrefix[0] == 'H' && CliErrorPrefix[7] == 'C';
    case CliNotConfigured(secretLabel) =>
      assert NotConfiguredPrefix[0] == 'L';
    case EngineUnreachable =>
      var opening := "Hasura console";
      assert opening[0] == 'H' && opening[7] == 'c';
  }

  /** The three alerts are told apart by their text: the alert shown names
      the branch taken, and the message or label it carries. */
  lemma AlertTextInjective(a: MigrationAlert, b: MigrationAlert)
    requires AlertText(a) == AlertText(b)
    ensures a == b
  {
    AlertSignature(a);
    AlertSignature(b);
    var t := AlertText(a);
    if a.CliError? && b.CliError? {
      assert t[|CliErrorPrefix|..] == a.message;
      assert t[|CliErrorPrefix|..] == b.message;
    } else if a.CliNotConfigured? && b.CliNotConfigured? {
      var n := |t| - |NotConfiguredSuffix|;
      assert t[|NotConfiguredPrefix|..n] == a.adminSecretLabel;
      assert t[|NotConfiguredPrefix|..n] == b.adminSecretLabel;
    }
  }
}
