/**
 * The decisions the build tool takes around one build request: whether the
 * execution phase is needed, how the phases' exceptions and late failures
 * end `buildTargets`, which exit code and catastrophe flag `processRequest`
 * records for each way `buildTargets` can end, the consistency check of
 * `stopRequest`, and the target counts `reportTargets` announces.
 *
 * The phases themselves (loading, configuration creation, analysis,
 * execution) are not modelled: each is given by how it ended.
 */
module BuildTool {
  import opened Wrappers

  /* ---------------------------------------------------------------------- */
  /* Options                                                                 */
  /* ---------------------------------------------------------------------- */

  /** The options `needsExecutionPhase` reads; `dumpTargets` may be null. */
  datatype BuildRequestOptions = BuildRequestOptions(
    performAnalysisPhase: bool,
    performExecutionPhase: bool,
    dumpTargets: Option<string>,
    dumpMakefile: bool,
    dumpActionGraph: bool)

  /**
   * `needsExecutionPhase`: never without the analysis phase; otherwise when
   * something is to be executed or dumped.
   */
  function NeedsExecutionPhase(options: BuildRequestOptions): (r: bool)
    ensures !options.performAnalysisPhase ==> !r
    ensures options.performAnalysisPhase ==>
              (r <==> options.performExecutionPhase || options.dumpTargets.Some? ||
                      options.dumpMakefile || options.dumpActionGraph)
  {
    if !options.performAnalysisPhase then false
    else options.performExecutionPhase || options.dumpTargets.Some? || options.dumpMakefile || options.dumpActionGraph
  }

  /* ---------------------------------------------------------------------- */
  /* Exit codes and exceptions                                               */
  /* ---------------------------------------------------------------------- */

  /** The exit codes `processRequest` chooses, and any other an exception carries. */
  datatype ExitCode =
    | Success
    | BuildFailure
    | ParsingFailure
    | CommandLineError
    | Interrupted
    | BlazeInternalError
    | OtherExitCode(name: string)

  /** The ways `buildTargets` can end abruptly; a message may be null. */
  datatype BuildException =
    | BuildFailedException(message: Option<string>, errorAlreadyShown: bool, catastrophic: bool)
    | InterruptedException
    | TargetParsingException(message: Option<string>)
    | LoadingFailedException(message: Option<string>)
    | ViewCreationFailedException(message: Option<string>)
    | TestExecException(message: Option<string>)
    | InvalidConfigurationException(message: Option<string>)
    | ExitCausingException(message: Option<string>, exitCode: ExitCode)
      /** Any other throwable: an unchecked exception or an error. */
    | UnexpectedThrowable

  const MULTI_CPU_MESSAGE := "The experimental setting to select multiple CPUs is only supported for 'build' and 'test' right now!"
  const TARGET_PATTERN_MESSAGE := "execution phase successful, but there were errors parsing the target pattern"
  const INTERRUPTED_MESSAGE := "build interrupted"

  /** A build failure raised by the build tool itself, with its message. */
  function Failure(message: string): BuildException {
    BuildFailedException(Some(message), false, false)
  }

  /* ---------------------------------------------------------------------- */
  /* buildTargets                                                            */
  /* ---------------------------------------------------------------------- */

  /** What the loading phase returns that the build tool inspects. */
  datatype LoadingResult = LoadingResult(hasTargetPatternError: bool)

  /** What the analysis phase returns that the build tool inspects; `error` may be null. */
  datatype AnalysisResult = AnalysisResult(targetsToBuild: nat, targetsToTest: Option<nat>, error: Option<string>)

  /** The multi-CPU setting is only for the "build" and "test" commands. */
  predicate MultiCpuRejected(multiCpus: seq<string>, commandName: string) {
    |multiCpus| > 0 && commandName != "build" && commandName != "test"
  }

  /**
   * How `buildTargets` ends, given how each step ended: the steps before the
   * `try` (option validation, build-options creation and package-cache
   * setup), the execution tool's early initialisation (only attempted when the execution phase is needed),
   * the loading phase, the multi-CPU check, configuration creation together
   * with the analysis phase, and the execution phase. After them, a delayed
   * analysis error and then a target-pattern error of the loading phase still
   * fail the build.
   */
  function BuildTargets(options: BuildRequestOptions, setup: Result<(), BuildException>,
                        init: Result<(), BuildException>,
                        loading: Result<LoadingResult, BuildException>,
                        multiCpus: seq<string>, commandName: string,
                        analysis: Result<AnalysisResult, BuildException>,
                        execution: Result<(), BuildException>): (r: Result<(), BuildException>)
    // it returns normally exactly when every step did and there is no late failure
    ensures r.Ok? <==>
              && setup.Ok?
              && (NeedsExecutionPhase(options) ==> init.Ok?)
              && loading.Ok?
              && !MultiCpuRejected(multiCpus, commandName)
              && analysis.Ok?
              && (NeedsExecutionPhase(options) ==> execution.Ok?)
              && analysis.value.error.None?
              && !loading.value.hasTargetPatternError
    // an exception of a step that ran is the exception of the build
    ensures setup.Err? ==> r == setup
    ensures setup.Ok? && NeedsExecutionPhase(options) && init.Err? ==> r == init
    ensures setup.Ok? && (!NeedsExecutionPhase(options) || init.Ok?) && loading.Err? ==> r == Err(loading.error)
    ensures setup.Ok? && (!NeedsExecutionPhase(options) || init.Ok?) && loading.Ok? && MultiCpuRejected(multiCpus, commandName) ==>
              r == Err(InvalidConfigurationException(Some(MULTI_CPU_MESSAGE)))
    ensures && setup.Ok? && (!NeedsExecutionPhase(options) || init.Ok?) && loading.Ok?
            && !MultiCpuRejected(multiCpus, commandName) && analysis.Err?
            ==> r == Err(analysis.error)
    ensures && setup.Ok? && (!NeedsExecutionPhase(options) || init.Ok?) && loading.Ok?
            && !MultiCpuRejected(multiCpus, commandName) && analysis.Ok?
            && NeedsExecutionPhase(options) && execution.Err?
            ==> r == execution
  {
    if setup.Err? then setup
    else if NeedsExecutionPhase(options) && init.Err? then init
    else if loading.Err? then Err(loading.error)
    else if MultiCpuRejected(multiCpus, commandName) then Err(InvalidConfigurationException(Some(MULTI_CPU_MESSAGE)))
    else if analysis.Err? then Err(analysis.error)
    else if NeedsExecutionPhase(options) && execution.Err? then execution
    else if analysis.value.error.Some? then Err(Failure(analysis.value.error.value))
    else if loading.value.hasTargetPatternError then Err(Failure(TARGET_PATTERN_MESSAGE))
    else Ok(())
  }

  /** Multi-CPU builds under any command other than build or test end with a command-line error. */
  lemma MultiCpuOnlyForBuildAndTest(options: BuildRequestOptions, setup: Result<(), BuildException>,
                                    init: Result<(), BuildException>,
                                    loading: Result<LoadingResult, BuildException>,
                                    multiCpus: seq<string>, commandName: string,
                                    analysis: Result<AnalysisResult, BuildException>,
                                    execution: Result<(), BuildException>)
    requires setup.Ok? && (!NeedsExecutionPhase(options) || init.Ok?)
    requires loading.Ok? && |multiCpus| > 0 && commandName != "build" && commandName != "test"
    ensures var r := BuildTargets(options, setup, init, loading, multiCpus, commandName, analysis, execution);
            r == Err(InvalidConfigurationException(Some(MULTI_CPU_MESSAGE))) &&
            ExitCodeFor(r) == CommandLineError
  {
  }

  /**
   * Once the phases have run, a delayed analysis error fails the build with
   * its message, and otherwise a target-pattern error fails it.
   */
  lemma LateFailures(options: BuildRequestOptions, setup: Result<(), BuildException>,
                     init: Result<(), BuildException>,
                     loading: Result<LoadingResult, BuildException>,
                     multiCpus: seq<string>, commandName: string,
                     analysis: Result<AnalysisResult, BuildException>,
                     execution: Result<(), BuildException>)
    requires setup.Ok? && (!NeedsExecutionPhase(options) || init.Ok?)
    requires loading.Ok? && !MultiCpuRejected(multiCpus, commandName) && analysis.Ok?
    requires NeedsExecutionPhase(options) ==> execution.Ok?
    ensures var r := BuildTargets(options, setup, init, loading, multiCpus, commandName, analysis, execution);
            && (analysis.value.error.Some? ==> r == Err(Failure(analysis.value.error.value)))
            && (analysis.value.error.None? && loading.value.hasTargetPatternError ==> r == Err(Failure(TARGET_PATTERN_MESSAGE)))
            && (r.Err? ==> ExitCodeFor(r) == BuildFailure && !IsCatastrophe(r))
  {
  }

  /* ---------------------------------------------------------------------- */
  /* processRequest                                                          */
  /* ---------------------------------------------------------------------- */

  /**
   * The exit code `processRequest` records for the way `buildTargets` ended.
   * An unexpected throwable leaves the initial internal-error code in place.
   */
  function ExitCodeFor(outcome: Result<(), BuildException>): (code: ExitCode)
    ensures code == Success <==>
              || outcome.Ok?
              || (outcome.Err? && outcome.error.TestExecException?)
              || (outcome.Err? && outcome.error.ExitCausingException? && outcome.error.exitCode == Success)
    ensures code == BlazeInternalError <==>
              || (outcome.Err? && outcome.error.UnexpectedThrowable?)
              || (outcome.Err? && outcome.error.ExitCausingException? && outcome.error.exitCode == BlazeInternalError)
  {
    match outcome
    case Ok(_) => Success
    case Err(e) =>
      match e
      case BuildFailedException(_, _, _) => BuildFailure
      case InterruptedException => Interrupted
      case TargetParsingException(_) => ParsingFailure
      case LoadingFailedException(_) => ParsingFailure
      case ViewCreationFailedException(_) => ParsingFailure
      case TestExecException(_) => Success
      case InvalidConfigurationException(_) => CommandLineError
      case ExitCausingException(_, code) => code
      case UnexpectedThrowable => BlazeInternalError
  }

  /** Whether `processRequest` marks the result as a catastrophe. */
  predicate IsCatastrophe(outcome: Result<(), BuildException>) {
    outcome.Err? &&
    match outcome.error
    case BuildFailedException(_, _, catastrophic) => catastrophic
    case ExitCausingException(_, _) => true
    case _ => false
  }

  /** `reportExceptionError`: the message, when there is one. */
  function ExceptionError(message: Option<string>): (errors: seq<string>)
    ensures |errors| <= 1
    ensures errors == [] <==> message.None?
  {
    match message
    case Some(m) => [m]
    case None => []
  }

  /** The errors `processRequest` reports for the way `buildTargets` ended. */
  function ReportedErrors(outcome: Result<(), BuildException>): (errors: seq<string>)
    ensures |errors| <= 1
    ensures outcome.Ok? || outcome.error.UnexpectedThrowable? ==> errors == []
  {
    match outcome
    case Ok(_) => []
    case Err(e) =>
      match e
      case BuildFailedException(m, shown, _) => if shown then [] else ExceptionError(m)
      case InterruptedException => [INTERRUPTED_MESSAGE]
      case TargetParsingException(m) => ExceptionError(m)
      case LoadingFailedException(m) => ExceptionError(m)
      case ViewCreationFailedException(m) => ExceptionError(m)
      case TestExecException(m) => ExceptionError(m)
      case InvalidConfigurationException(m) => ExceptionError(m)
      case ExitCausingException(m, _) => ExceptionError(m)
      case UnexpectedThrowable => []
  }

  /** The mutable result of one build; the exit condition and stop time are unset until the request stops. */
  class BuildResult {
    const startTime: int
    var catastrophe: bool
    /** Whether an unexpected throwable (a non-null crash) was recorded. */
    var unhandledThrowable: bool
    var exitCondition: Option<ExitCode>
    var stopTime: Option<int>

    constructor (startTime: int)
      ensures this.startTime == startTime
      ensures !catastrophe && !unhandledThrowable && exitCondition.None? && stopTime.None?
    {
      this.startTime := startTime;
      catastrophe := false;
      unhandledThrowable := false;
      exitCondition := None;
      stopTime := None;
    }

    method SetCatastrophe()
      modifies this
      ensures catastrophe
      ensures unhandledThrowable == old(unhandledThrowable) && exitCondition == old(exitCondition)
      ensures stopTime == old(stopTime)
    {
      catastrophe := true;
    }
  }

  /**
   * `stopRequest`: a crash must never come with a successful exit condition
   * (the state check throws, leaving the result untouched); otherwise the
   * crash, the exit condition and the stop time are recorded.
   */
  method StopRequest(result: BuildResult, crash: bool, exitCondition: ExitCode, now: int)
    returns (r: Result<(), string>)
    modifies result
    ensures r.Err? <==> crash && exitCondition == Success
    ensures r.Err? ==>
              && result.unhandledThrowable == old(result.unhandledThrowable)
              && result.exitCondition == old(result.exitCondition)
              && result.stopTime == old(result.stopTime)
    ensures r.Ok? ==>
              result.unhandledThrowable == crash && result.exitCondition == Some(exitCondition) &&
              result.stopTime == Some(now)
    ensures result.catastrophe == old(result.catastrophe)
  {
    if crash && exitCondition == Success {
      return Err("IllegalStateException");
    }
    result.unhandledThrowable := crash;
    result.exitCondition := Some(exitCondition);
    result.stopTime := Some(now);
    r := Ok(());
  }

  /**
   * `processRequest`: runs the build (given here by how `buildTargets`
   * ended), reports the exception's error, chooses the exit code, marks
   * catastrophes and stops the request. An unexpected throwable is recorded
   * as the crash and then propagated (`rethrown`). Because the recorded exit
   * condition is the chosen one, the check of `stopRequest` never fails here.
   */
  method ProcessRequest(outcome: Result<(), BuildException>, startTime: int, now: int)
    returns (result: BuildResult, errors: seq<string>, rethrown: bool)
    ensures fresh(result) && result.startTime == startTime
    ensures result.exitCondition == Some(ExitCodeFor(outcome))
    ensures result.catastrophe == IsCatastrophe(outcome)
    ensures result.unhandledThrowable == rethrown
    ensures rethrown <==> outcome.Err? && outcome.error.UnexpectedThrowable?
    ensures result.stopTime == Some(now)
    ensures errors == ReportedErrors(outcome)
  {
    result := new BuildResult(startTime);
    var crash := false;
    var exitCode := BlazeInternalError;
    errors := [];
    match outcome {
      case Ok(_) =>
        exitCode := Success;
      case Err(e) =>
        match e {
          case BuildFailedException(m, shown, catastrophic) =>
            if !shown {
              errors := ExceptionError(m);
            }
            if catastrophic {
              result.SetCatastrophe();
            }
            exitCode := BuildFailure;
          case InterruptedException =>
            exitCode := Interrupted;
            errors := [INTERRUPTED_MESSAGE];
          case TargetParsingException(m) =>
            exitCode := ParsingFailure;
            errors := ExceptionError(m);
          case LoadingFailedException(m) =>
            exitCode := ParsingFailure;
            errors := ExceptionError(m);
          case ViewCreationFailedException(m) =>
            exitCode := ParsingFailure;
            errors := ExceptionError(m);
          case TestExecException(m) =>
            exitCode := Success;
            errors := ExceptionError(m);
          case InvalidConfigurationException(m) =>
            exitCode := CommandLineError;
            errors := ExceptionError(m);
          case ExitCausingException(m, code) =>
            exitCode := code;
            errors := ExceptionError(m);
            result.SetCatastrophe();
          case UnexpectedThrowable =>
            crash := true;
        }
    }
    var stopped := StopRequest(result, crash, exitCode, now);
    assert stopped.Ok?;
    rethrown := crash;
  }

  /* ---------------------------------------------------------------------- */
  /* reportTargets                                                           */
  /* ---------------------------------------------------------------------- */

  datatype Noun = Target | TestTarget

  /** One count of the "Found ..." message; `plural` selects the plural wording. */
  datatype Counted = Counted(count: int, noun: Noun, plural: bool)

  /**
   * `reportTargets`: without test targets, the number of targets; with them,
   * the non-test targets (left out when there are none) and the tests.
   */
  function ReportTargets(targetsToBuild: nat, targetsToTest: Option<nat>): (found: seq<Counted>)
    // the wording is singular exactly for a count of one
    ensures forall i :: 0 <= i < |found| ==> (found[i].plural <==> found[i].count != 1)
    // the counts add up to the targets to build
    ensures 1 <= |found| <= 2 && found[0].count + (if |found| == 2 then found[1].count else 0) == targetsToBuild
    ensures targetsToTest.None? ==> found == [Counted(targetsToBuild, Target, targetsToBuild != 1)]
    ensures targetsToTest.Some? ==>
              && found[|found| - 1] == Counted(targetsToTest.value, TestTarget, targetsToTest.value != 1)
              && (|found| == 2 <==> targetsToBuild != targetsToTest.value)
              && (|found| == 2 ==> found[0].noun == Target)
  {
    match targetsToTest
    case None => [Counted(targetsToBuild, Target, targetsToBuild != 1)]
    case Some(testCount) =>
      var targetCount := targetsToBuild - testCount;
      var tests := Counted(testCount, TestTarget, testCount != 1);
      if targetCount == 0 then [tests]
      else [Counted(targetCount, Target, targetCount != 1), tests]
  }
}
