/**
 * The order in which `main` acts on the parsed flags: the tool check comes
 * first, `--list-interfaces` wins over `--analyze`, and the root check guards
 * listing and capturing but not analysing.
 */
module Dispatch {

  /** What a run of the script ends up doing. */
  datatype Action = ToolMissing | NotRoot | ListInterfaces | Analyze | Capture

  /**
   * `main` after argument parsing, given whether `tshark --version` succeeds,
   * the two flags, and whether the effective user is root.
   */
  function Decide(toolInstalled: bool, listInterfaces: bool, analyze: bool, isRoot: bool): (a: Action)
    ensures a == ToolMissing <==> !toolInstalled
    ensures a == NotRoot <==> toolInstalled && !isRoot && (listInterfaces || !analyze)
    ensures a == ListInterfaces <==> toolInstalled && listInterfaces && isRoot
    ensures a == Analyze <==> toolInstalled && !listInterfaces && analyze
    ensures a == Capture <==> toolInstalled && !listInterfaces && !analyze && isRoot
  {
    if !toolInstalled then ToolMissing
    else if listInterfaces then (if isRoot then ListInterfaces else NotRoot)
    else if analyze then Analyze
    else if isRoot then Capture
    else NotRoot
  }

  /** `sys.exit(1)` when a check fails; every other path leaves `main` normally. */
  function ExitStatus(a: Action): (status: int)
    ensures status == 1 <==> a == ToolMissing || a == NotRoot
    ensures status == 0 <==> !(a == ToolMissing || a == NotRoot)
  {
    if a == ToolMissing || a == NotRoot then 1 else 0
  }

  /**
   * A run ends with status 1 exactly when the tool is missing (`sys.exit(1)`
   * after the tool check) or when it lists or captures without root
   * (`sys.exit(1)` in `check_permissions`).
   */
  lemma ExitCode(toolInstalled: bool, listInterfaces: bool, analyze: bool, isRoot: bool)
    ensures ExitStatus(Decide(toolInstalled, listInterfaces, analyze, isRoot)) == 1 <==>
              !toolInstalled || (!isRoot && (listInterfaces || !analyze))
    ensures ExitStatus(Decide(toolInstalled, listInterfaces, analyze, isRoot)) == 0 <==>
              toolInstalled && (isRoot || (!listInterfaces && analyze))
  {
  }

  /** Root is demanded exactly of the runs that go past the tool check and do not only analyse. */
  lemma RootNeeded(toolInstalled: bool, listInterfaces: bool, analyze: bool)
    ensures Decide(toolInstalled, listInterfaces, analyze, false) == NotRoot <==>
              toolInstalled && (listInterfaces || !analyze)
    ensures toolInstalled && !listInterfaces && analyze ==>
              Decide(toolInstalled, listInterfaces, analyze, true) == Decide(toolInstalled, listInterfaces, analyze, false)
  {
  }
}
