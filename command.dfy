/** The base command: argument validation in the constructor, then a chain
    of four lifecycle steps run strictly in order, where the first step that
    fails stops the chain and its error is logged rather than re-thrown.
    The base `init` and `exec` must be overridden (here: by the tagged
    variant in CommandInit); reaching them throws. */
module CommandBase {
  import opened Wrappers
  import opened Js
  import opened Semver

  /** LOWEST_NODE_VERSION */
  const LowestNodeVersion: Version := Version(12, 0, 0)

  datatype Step = CheckNodeVersion | InitArgs | Init | Exec

  /** The order in which the chain runs the steps. */
  const Lifecycle: seq<Step> := [CheckNodeVersion, InitArgs, Init, Exec]

  /** How a step's promise ends: fulfilled, rejected, or never settled
      (its error escapes elsewhere as an unhandled rejection). */
  datatype StepOutcome = Done | Threw(error: Error) | Stalled(unhandled: Error)

  /** A run of the chain: `trace` lists the steps started, `outcomes` how
      each ended. Steps start in lifecycle order, each only after all
      earlier ones were fulfilled, and the run stops early only at a step
      that was not fulfilled. */
  predicate IsChainRun(trace: seq<Step>, outcomes: seq<StepOutcome>) {
    && 1 <= |trace| == |outcomes| <= |Lifecycle|
    && trace == Lifecycle[..|trace|]
    && (forall i :: 0 <= i < |outcomes| - 1 ==> outcomes[i].Done?)
    && (|trace| < |Lifecycle| ==> !outcomes[|outcomes| - 1].Done?)
  }

  /** What the chain's catch handler logs: the error of a rejected step. */
  function ChainLog(outcomes: seq<StepOutcome>): seq<Error>
    requires outcomes != []
  {
    if outcomes[|outcomes| - 1].Threw? then [outcomes[|outcomes| - 1].error] else []
  }

  /** The chain that results when each step, if started, would end as
      `results` says: the results up to and including the first one that is
      not fulfilled. */
  function ChainOf(results: seq<StepOutcome>): (r: seq<StepOutcome>)
    requires |results| == |Lifecycle|
    ensures 1 <= |r| <= |Lifecycle|
    ensures r == results[..|r|]
    ensures forall i :: 0 <= i < |r| - 1 ==> results[i].Done?
    ensures |r| < |Lifecycle| ==> !results[|r| - 1].Done?
    ensures IsChainRun(Lifecycle[..|r|], r)
  {
    ChainPrefixIsRun(results, 0);
    ChainPrefix(results, 0)
  }

  function ChainPrefix(results: seq<StepOutcome>, from: nat): seq<StepOutcome>
    requires from < |results|
    decreases |results| - from
  {
    if results[from].Done? && from + 1 < |results| then [results[from]] + ChainPrefix(results, from + 1)
    else [results[from]]
  }

  lemma {:induction false} ChainPrefixIsRun(results: seq<StepOutcome>, from: nat)
    requires from < |results|
    ensures var p := ChainPrefix(results, from);
      && 1 <= |p| <= |results| - from
      && p == results[from..from + |p|]
      && (forall i :: 0 <= i < |p| - 1 ==> p[i].Done?)
      && (|p| < |results| - from ==> !p[|p| - 1].Done?)
    decreases |results| - from
  {
    if results[from].Done? && from + 1 < |results| {
      ChainPrefixIsRun(results, from + 1);
    }
  }

  /** The constructor's checks on argv. */
  function CheckArgv(argv: Value): (r: Result<seq<Value>, Error>)
    ensures r.Success? <==> argv.Arr? && |argv.items| >= 1
    ensures r.Success? ==> r.value == argv.items
    ensures !Truthy(argv) ==> r == Failure(ArgvMissing)
    ensures Truthy(argv) && !argv.Arr? ==> r == Failure(ArgvNotArray)
    ensures argv.Arr? && argv.items == [] ==> r == Failure(ArgvEmpty)
  {
    if !Truthy(argv) then Failure(ArgvMissing)
    else if !argv.Arr? then Failure(ArgvNotArray)
    else if |argv.items| < 1 then Failure(ArgvEmpty)
    else Success(argv.items)
  }

  /** checkNodeVersion: throws exactly when the runtime is below the lowest
      supported version. */
  function NodeVersionCheck(runtime: Version): (r: StepOutcome)
    ensures r.Done? <==> Gte(runtime, LowestNodeVersion)
    ensures !r.Done? ==> r == Threw(NodeTooOld)
  {
    if !Gte(runtime, LowestNodeVersion) then Threw(NodeTooOld) else Done
  }

  class Command {
    /** _argv */
    const argv: seq<Value>
    /** _options: read by subclasses, never assigned by the base class. */
    var options: Value
    /** Steps the chain started, and how each ended. */
    var trace: seq<Step>
    var outcomes: seq<StepOutcome>
    /** Errors logged with npmlog.error, in order. */
    var logged: seq<Error>

    /** The constructor once CheckArgv has accepted argv. */
    constructor(argv: seq<Value>)
      requires |argv| >= 1
      ensures this.argv == argv && options == Undefined
      ensures trace == [] && outcomes == [] && logged == []
    {
      this.argv := argv;
      this.options := Undefined;
      this.trace := [];
      this.outcomes := [];
      this.logged := [];
    }

    /** initArgs: only prints the first three arguments; changes nothing. */
    method InitArgs() returns (out: StepOutcome)
      ensures out == Done
    {
      out := Done;
    }

    /** The base init, reached only when a subclass does not override it. */
    method Init() returns (out: StepOutcome)
      ensures out == Threw(InitNotImplemented)
    {
      out := Threw(InitNotImplemented);
    }

    /** The base exec, reached only when a subclass does not override it. */
    method Exec() returns (out: StepOutcome)
      ensures out == Threw(ExecNotImplemented)
    {
      out := Threw(ExecNotImplemented);
    }

    /** Records that a step started and how it ended. */
    method Record(step: Step, out: StepOutcome)
      modifies this`trace, this`outcomes
      ensures trace == old(trace) + [step] && outcomes == old(outcomes) + [out]
    {
      trace := trace + [step];
      outcomes := outcomes + [out];
    }

    /** The chain of a plain Command: with a supported runtime it reaches
        the base init, which throws; either failure is logged. */
    method Run(runtime: Version)
      requires trace == [] && outcomes == []
      modifies this`trace, this`outcomes, this`logged
      ensures IsChainRun(trace, outcomes)
      ensures outcomes == ChainOf([NodeVersionCheck(runtime), Done, Threw(InitNotImplemented), Threw(ExecNotImplemented)])
      ensures logged == old(logged) + ChainLog(outcomes)
      ensures Gte(runtime, LowestNodeVersion) ==>
        trace == [CheckNodeVersion, Step.InitArgs, Step.Init] && logged == old(logged) + [InitNotImplemented]
      ensures !Gte(runtime, LowestNodeVersion) ==>
        trace == [CheckNodeVersion] && logged == old(logged) + [NodeTooOld]
    {
      ghost var results := [NodeVersionCheck(runtime), Done, Threw(InitNotImplemented), Threw(ExecNotImplemented)];
      assert ChainPrefix(results, 1) == [Done] + ChainPrefix(results, 2) == [Done, Threw(InitNotImplemented)];
      var out := NodeVersionCheck(runtime);
      Record(CheckNodeVersion, out);
      if out.Done? {
        out := InitArgs();
        Record(Step.InitArgs, out);
        if out.Done? {
          // The base init always throws, so the chain never reaches exec.
          out := Init();
          Record(Step.Init, out);
        }
      }
      if out.Threw? {
        logged := logged + [out.error];
      }
    }
  }
}
