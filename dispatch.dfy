/** The entry point `buildJavascript(subtype)`: the subtype named on the command
    line is looked up in the `runBuild` table; an unknown one is reported with
    the list of available ones and ends the process with exit code 1, a known
    one starts its build step. */
module Dispatch {

  /** The build steps of the `runBuild` table. */
  datatype Step = Full | Types | Api | Vetur | WebTypes | Transforms

  /** `Object.keys(runBuild)`, in declaration order. */
  const RunBuildKeys: seq<string> := ["full", "types", "api", "vetur", "webtypes", "transforms"]

  /** The key under which `runBuild` holds a step. */
  function Key(step: Step): (r: string)
    ensures r in RunBuildKeys
  {
    match step
    case Full => "full"
    case Types => "types"
    case Api => "api"
    case Vetur => "vetur"
    case WebTypes => "webtypes"
    case Transforms => "transforms"
  }

  /** The step `runBuild` holds as its own property `key`. */
  function StepOf(key: string): (r: Step)
    requires key in RunBuildKeys
    ensures Key(r) == key
  {
    if key == "full" then Full
    else if key == "types" then Types
    else if key == "api" then Api
    else if key == "vetur" then Vetur
    else if key == "webtypes" then WebTypes
    else Transforms
  }

  /** The properties every plain object inherits from `Object.prototype`, so
      that reading them on `runBuild` does not give `undefined`. */
  const ObjectPrototypeMembers: set<string> := {
    "constructor", "__defineGetter__", "__defineSetter__", "hasOwnProperty",
    "__lookupGetter__", "__lookupSetter__", "isPrototypeOf", "propertyIsEnumerable",
    "toString", "valueOf", "__proto__", "toLocaleString"
  }

  /** What `buildJavascript` does with a subtype. */
  datatype Outcome =
    | Run(step: Step)
      // `runBuild[subtype]()` starts a build step
    | CallInherited(member: string)
      // the check passes and an inherited `Object.prototype` member is called instead
    | Rejected(exitCode: int, subtype: string, available: seq<string>)
      // the subtype and the available keys are reported, then the process exits

  /** `buildJavascript(subtype)` as written: the table lookup
      `runBuild[subtype] === void 0` also finds inherited properties. */
  function BuildJavascriptAsWritten(subtype: string): (r: Outcome)
    ensures r.Rejected? <==> subtype !in RunBuildKeys && subtype !in ObjectPrototypeMembers
    ensures r.Rejected? ==> r == Rejected(1, subtype, RunBuildKeys)
    ensures r.Run? ==> Key(r.step) == subtype
    ensures r.CallInherited? ==> r.member == subtype && subtype in ObjectPrototypeMembers
  {
    if subtype in RunBuildKeys then Run(StepOf(subtype))
    else if subtype in ObjectPrototypeMembers then CallInherited(subtype)
    else Rejected(1, subtype, RunBuildKeys)
  }

  /** The subtype `toString` is no key of `runBuild`, yet it passes the check:
      `runBuild.toString` is inherited, so instead of the error report the
      process calls it and runs no build at all. */
  lemma ToStringPassesCheck()
    ensures "toString" !in RunBuildKeys
    ensures BuildJavascriptAsWritten("toString") == CallInherited("toString")
  {
  }

  /** `buildJavascript(subtype)` with the check the messages describe: only
      the table's own keys are accepted (`Object.hasOwn(runBuild, subtype)`). */
  function BuildJavascript(subtype: string): (r: Outcome)
    ensures r.Rejected? <==> subtype !in RunBuildKeys
    ensures r.Rejected? ==> r.exitCode == 1 && r.subtype == subtype && r.available == RunBuildKeys
    ensures r.Run? ==> Key(r.step) == subtype
    ensures !r.CallInherited?
  {
    if subtype in RunBuildKeys then Run(StepOf(subtype)) else Rejected(1, subtype, RunBuildKeys)
  }

  /** Every step is reached by its own key, and by no other. */
  lemma RunsExactlyItsKey(step: Step, subtype: string)
    ensures BuildJavascript(subtype) == Run(step) <==> subtype == Key(step)
  {
    if subtype == Key(step) {
      KeyInjective(StepOf(subtype), step);
    }
  }

  /** Distinct steps have distinct keys. */
  lemma KeyInjective(a: Step, b: Step)
    requires Key(a) == Key(b)
    ensures a == b
  {
  }

  /** The check as written and the corrected one differ only on the inherited
      member names, none of which is a key of the table. */
  lemma AsWrittenAgreesOutsidePrototype(subtype: string)
    ensures subtype !in ObjectPrototypeMembers ==> BuildJavascriptAsWritten(subtype) == BuildJavascript(subtype)
    ensures subtype in ObjectPrototypeMembers ==>
      subtype !in RunBuildKeys && BuildJavascriptAsWritten(subtype) != BuildJavascript(subtype)
  {
  }
}
