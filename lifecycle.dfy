/**
 * The arguments of the lifecycle verbs of the generic unit facade
 * (`start` … `unref`): the job modes, the kill targets and the requests sent
 * to the manager. The verbs themselves are functions of `Units.Unit`, which
 * fill in the facade's own name; the job path the manager answers with is not
 * part of this model.
 */
module Lifecycle {
  import opened Wrappers

  /** `Unit.Mode`: how a job is queued. */
  datatype Mode = Replace | Fail | Isolate | IgnoreDependencies | IgnoreRequirements {
    /** `Mode.getValue()`: distinct modes are sent as distinct strings. */
    function Value(): (v: string)
      ensures ModeOf(v) == Some(this)
    {
      match this
      case Replace => "replace"
      case Fail => "fail"
      case Isolate => "isolate"
      case IgnoreDependencies => "ignore-dependencies"
      case IgnoreRequirements => "ignore-requirements"
    }
  }

  /** `Unit.Who`: which processes of the unit a signal is sent to. */
  datatype Who = Main | Control | All {
    /** `Who.getValue()`: distinct targets are sent as distinct strings. */
    function Value(): (v: string)
      ensures WhoOf(v) == Some(this)
    {
      match this
      case Main => "main"
      case Control => "control"
      case All => "all"
    }
  }

  /** The job-producing verbs, each forwarded as `Manager.<verb>Unit(name, mode)`. */
  datatype JobVerb = Start | Stop | Reload | Restart | TryRestart | ReloadOrRestart | ReloadOrTryRestart

  /** One request sent to the manager. */
  datatype ManagerCall =
    | JobCall(verb: JobVerb, unitName: string, mode: string)
    | KillUnit(unitName: string, who: string, signal: Int32)
    | ResetFailedUnit(unitName: string)
    | UnrefUnit(unitName: string)

  /** The mode a string value stands for, if any. */
  function ModeOf(s: string): Option<Mode> {
    if s == "replace" then Some(Replace)
    else if s == "fail" then Some(Fail)
    else if s == "isolate" then Some(Isolate)
    else if s == "ignore-dependencies" then Some(IgnoreDependencies)
    else if s == "ignore-requirements" then Some(IgnoreRequirements)
    else None
  }

  /** The target a string value stands for, if any. */
  function WhoOf(s: string): Option<Who> {
    if s == "main" then Some(Main)
    else if s == "control" then Some(Control)
    else if s == "all" then Some(All)
    else None
  }

  /** `ModeOf` is the inverse of `Mode.getValue()` on the strings it accepts. */
  lemma ModeOfInvertsValue(s: string)
    ensures ModeOf(s).Some? ==> ModeOf(s).value.Value() == s
  {
  }

  /** `WhoOf` is the inverse of `Who.getValue()` on the strings it accepts. */
  lemma WhoOfInvertsValue(s: string)
    ensures WhoOf(s).Some? ==> WhoOf(s).value.Value() == s
  {
  }
}
