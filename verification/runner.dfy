/**
 * The benchmark runner: the stages of a run (download, preparation, data
 * verification, benchmark and any custom stage) are entered in
 * `stageOrder` for every scenario. Two callbacks steer it: the enter
 * callback may refuse a stage, and the failure callback decides whether a
 * failed stage may be tolerated. A refused stage, or an intolerable
 * failure, ends that scenario and makes the run fail; the next scenario
 * still runs.
 */
module BenchmarkRunning {
  import opened Wrappers
  import opened Utils

  /** The stage order a new runner starts with. */
  const DefaultStageOrder: seq<string> := ["Download", "Preparation", "DataVerification", "Benchmark"]

  /** Which of the constructor's required collaborators were supplied. */
  datatype Params = Params(
    hasLogger: bool, hasConfig: bool, hasUnpacker: bool, hasDependenciesManager: bool,
    enumerateOnly: bool)

  /** The `invalid_argument` the constructor throws, in the order it checks. */
  datatype ConstructError = NoLogger | NoConfig | NoUnpacker | NoDependenciesManager

  /** The stages the constructor creates objects for; enumeration needs only the first two. */
  function BuiltInStages(enumerateOnly: bool): (r: set<string>)
    ensures r <= set n | n in DefaultStageOrder
    ensures "Download" in r && "Preparation" in r
    ensures "Benchmark" in r <==> !enumerateOnly
    ensures "DataVerification" in r <==> !enumerateOnly
  {
    if enumerateOnly then {"Download", "Preparation"}
    else {"Download", "Preparation", "DataVerification", "Benchmark"}
  }

  /** How one scenario ends: all stages passed, or stopped at position `at`. */
  datatype ScenarioEnd =
    | Done
      /** refused by the enter callback, or failed without the failure callback's tolerance */
    | Stopped(at: nat)
      /** entered a stage the runner has no object for: a null stage pointer is called */
    | NullStage(at: nat)

  /**
   * One scenario, from position `k` of the stage order: `run(name, i)` is
   * whether stage `name` succeeds on scenario `i`.
   */
  function ScenarioFrom(order: seq<string>, stages: set<string>, enter: (string, nat) -> bool,
                        run: (string, nat) -> bool, failed: (string, nat) -> bool, i: nat, k: nat): ScenarioEnd
    decreases |order| - k
  {
    if k >= |order| then Done
    else if !enter(order[k], i) then Stopped(k)
    else if order[k] !in stages then NullStage(k)
    else if !run(order[k], i) && !failed(order[k], i) then Stopped(k)
    else ScenarioFrom(order, stages, enter, run, failed, i, k + 1)
  }

  /** The outcome of `Run`: whether every scenario completed, or the stage and scenario that hit a null stage. */
  datatype RunResult = Finished(ok: bool) | Crashed(stage: string, scenario: nat)

  /** Scenarios `i` and on, with `wasError` carried from the earlier ones. */
  function RunFrom(order: seq<string>, stages: set<string>, enter: (string, nat) -> bool,
                   run: (string, nat) -> bool, failed: (string, nat) -> bool,
                   scenarios: nat, i: nat, wasError: bool): RunResult
    decreases scenarios - i
  {
    if i >= scenarios then Finished(!wasError)
    else match ScenarioFrom(order, stages, enter, run, failed, i, 0)
      case NullStage(k) => if k < |order| then Crashed(order[k], i) else Crashed("", i)
      case Stopped(_) => RunFrom(order, stages, enter, run, failed, scenarios, i + 1, true)
      case Done => RunFrom(order, stages, enter, run, failed, scenarios, i + 1, wasError)
  }

  /** A scenario that stops or crashes does so at a real position of the order. */
  lemma {:induction false} ScenarioEndInRange(order: seq<string>, stages: set<string>, enter: (string, nat) -> bool,
                                              run: (string, nat) -> bool, failed: (string, nat) -> bool, i: nat, k: nat)
    ensures var e := ScenarioFrom(order, stages, enter, run, failed, i, k);
      (e.Stopped? ==> k <= e.at < |order| && !(enter(order[e.at], i) && order[e.at] in stages && run(order[e.at], i))) &&
      (e.NullStage? ==> k <= e.at < |order| && enter(order[e.at], i) && order[e.at] !in stages)
    decreases |order| - k
  {
    if k < |order| && enter(order[k], i) && order[k] in stages && (run(order[k], i) || failed(order[k], i)) {
      ScenarioEndInRange(order, stages, enter, run, failed, i, k + 1);
    }
  }

  /**
   * `Run` returns true exactly when no scenario was stopped, provided none
   * entered a missing stage.
   */
  lemma {:induction false} RunSucceedsIff(order: seq<string>, stages: set<string>, enter: (string, nat) -> bool,
                                          run: (string, nat) -> bool, failed: (string, nat) -> bool,
                                          scenarios: nat, i: nat, wasError: bool)
    requires i <= scenarios
    ensures var r := RunFrom(order, stages, enter, run, failed, scenarios, i, wasError);
      r.Finished? ==> (r.ok <==> !wasError && forall j :: i <= j < scenarios ==> ScenarioFrom(order, stages, enter, run, failed, j, 0).Done?)
    ensures (forall j :: i <= j < scenarios ==> !ScenarioFrom(order, stages, enter, run, failed, j, 0).NullStage?) ==>
      RunFrom(order, stages, enter, run, failed, scenarios, i, wasError).Finished?
    decreases scenarios - i
  {
    if i < scenarios {
      var e := ScenarioFrom(order, stages, enter, run, failed, i, 0);
      if !e.NullStage? {
        RunSucceedsIff(order, stages, enter, run, failed, scenarios, i + 1, wasError || e.Stopped?);
        if e.Stopped? {
          assert !ScenarioFrom(order, stages, enter, run, failed, i, 0).Done?;
        }
      }
    }
  }

  /**
   * With the default callbacks (enter everything, tolerate nothing) and an
   * object for every stage, a scenario completes exactly when every stage
   * in the order succeeds on it.
   */
  lemma {:induction false} DefaultCallbacksNeedEveryStage(order: seq<string>, stages: set<string>,
                                                          run: (string, nat) -> bool, i: nat, k: nat)
    requires forall j :: k <= j < |order| ==> order[j] in stages
    ensures ScenarioFrom(order, stages, (n, s) => true, run, (n, s) => false, i, k).Done? <==>
      forall j :: k <= j < |order| ==> run(order[j], i)
    decreases |order| - k
  {
    if k < |order| {
      DefaultCallbacksNeedEveryStage(order, stages, run, i, k + 1);
    }
  }

  /** A failure callback that tolerates every failure lets every entered stage through. */
  lemma {:induction false} ToleratedFailuresNeverStop(order: seq<string>, stages: set<string>, enter: (string, nat) -> bool,
                                                      run: (string, nat) -> bool, i: nat, k: nat)
    requires forall j :: k <= j < |order| ==> order[j] in stages && enter(order[j], i)
    ensures ScenarioFrom(order, stages, enter, run, (n, s) => true, i, k) == Done
    decreases |order| - k
  {
    if k < |order| {
      ToleratedFailuresNeverStop(order, stages, enter, run, i, k + 1);
    }
  }

  /**
   * The stage order after a custom stage `name` is added after
   * `lastStage` (its first occurrence), or at the end when `lastStage` is
   * empty.
   */
  function InsertAfter(order: seq<string>, lastStage: string, name: string): (r: seq<string>)
    requires lastStage == "" || lastStage in order
  {
    if lastStage == "" then order + [name]
    else
      var k := FirstIndex(order, lastStage);
      order[..k + 1] + [name] + order[k + 1..]
  }

  /**
   * The new stage is the only addition, and it comes directly after the
   * first occurrence of `lastStage`, or last.
   */
  lemma InsertAfterPlacesStage(order: seq<string>, lastStage: string, name: string)
    requires lastStage == "" || lastStage in order
    ensures var r := InsertAfter(order, lastStage, name);
      |r| == |order| + 1 && multiset(r) == multiset(order) + multiset{name} &&
      (lastStage == "" ==> r[|order|] == name && r[..|order|] == order) &&
      (lastStage != "" ==> exists k :: 0 <= k < |order| && r[k] == lastStage && lastStage !in r[..k] && r[k + 1] == name && r[..k + 1] + r[k + 2..] == order)
  {
    var r := InsertAfter(order, lastStage, name);
    if lastStage == "" {
      assert r[..|order|] == order;
    } else {
      var k := FirstIndex(order, lastStage);
      assert r[..k] == order[..k];
      assert r[..k + 1] + r[k + 2..] == order by {
        assert r[..k + 1] == order[..k + 1];
        assert r[k + 2..] == order[k + 1..];
        assert order[..k + 1] + order[k + 1..] == order;
      }
      assert order == order[..k + 1] + order[k + 1..];
      assert multiset(r) == multiset(order[..k + 1]) + multiset{name} + multiset(order[k + 1..]);
    }
  }

  class BenchmarkRunner {
    /** The names `stages_` holds a stage object for. */
    var stages: set<string>
    var stageOrder: seq<string>
    var onEnterStage: (string, nat) -> bool
    var onFailedStage: (string, nat) -> bool
    /** The download behaviour of the system configuration, which enumeration overrides. */
    var downloadBehavior: string

    /** The member initialisers and the body after the null checks. */
    constructor(params: Params, configDownloadBehavior: string)
      ensures stages == BuiltInStages(params.enumerateOnly)
      ensures stageOrder == DefaultStageOrder
      ensures forall n, i :: onEnterStage(n, i) && !onFailedStage(n, i)
      ensures downloadBehavior == if params.enumerateOnly then "deps_only_enumeration" else configDownloadBehavior
    {
      stages := BuiltInStages(params.enumerateOnly);
      stageOrder := DefaultStageOrder;
      onEnterStage := (n: string, i: nat) => true;
      onFailedStage := (n: string, i: nat) => false;
      downloadBehavior := if params.enumerateOnly then "deps_only_enumeration" else configDownloadBehavior;
    }

    /**
     * The constructor's null checks, in order, as an error result instead
     * of an exception.
     */
    static method Create(params: Params, configDownloadBehavior: string) returns (r: Result<BenchmarkRunner, ConstructError>)
      ensures r.Ok? <==> params.hasLogger && params.hasConfig && params.hasUnpacker && params.hasDependenciesManager
      ensures !params.hasLogger ==> r == Err(NoLogger)
      ensures params.hasLogger && !params.hasConfig ==> r == Err(NoConfig)
      ensures params.hasLogger && params.hasConfig && !params.hasUnpacker ==> r == Err(NoUnpacker)
      ensures params.hasLogger && params.hasConfig && params.hasUnpacker && !params.hasDependenciesManager ==>
        r == Err(NoDependenciesManager)
      ensures r.Ok? ==> (fresh(r.value) && r.value.stageOrder == DefaultStageOrder &&
        r.value.stages == BuiltInStages(params.enumerateOnly))
      ensures r.Ok? ==> forall n, i :: r.value.onEnterStage(n, i) && !r.value.onFailedStage(n, i)
      ensures r.Ok? ==>
        r.value.downloadBehavior == if params.enumerateOnly then "deps_only_enumeration" else configDownloadBehavior
    {
      if !params.hasLogger {
        return Err(NoLogger);
      }
      if !params.hasConfig {
        return Err(NoConfig);
      }
      if !params.hasUnpacker {
        return Err(NoUnpacker);
      }
      if !params.hasDependenciesManager {
        return Err(NoDependenciesManager);
      }
      var runner := new BenchmarkRunner(params, configDownloadBehavior);
      return Ok(runner);
    }

    method SetOnFailedStageCallback(onFailed: (string, nat) -> bool)
      modifies this`onFailedStage
      ensures onFailedStage == onFailed
    {
      onFailedStage := onFailed;
    }

    method SetOnEnterStageCallback(onEnter: (string, nat) -> bool)
      modifies this`onEnterStage
      ensures onEnterStage == onEnter
    {
      onEnterStage := onEnter;
    }

    /**
     * `AddCustomStage`: registers the stage object and places its name in
     * the order. `lastStage`, when given, must be in the order: the source
     * inserts after the end of the vector otherwise.
     */
    method AddCustomStage(name: string, lastStage: string)
      requires lastStage == "" || lastStage in stageOrder
      modifies this`stages, this`stageOrder
      ensures stages == old(stages) + {name}
      ensures stageOrder == InsertAfter(old(stageOrder), lastStage, name)
    {
      stages := stages + {name};
      if lastStage != "" {
        var k := FirstIndex(stageOrder, lastStage);
        stageOrder := stageOrder[..k + 1] + [name] + stageOrder[k + 1..];
      } else {
        stageOrder := stageOrder + [name];
      }
    }

    /**
     * `Run`: for every scenario, the stages in order until one is refused
     * or fails intolerably; `runStage` stands for the stages' own work.
     */
    method Run(scenarios: nat, runStage: (string, nat) -> bool) returns (r: RunResult)
      ensures r == RunFrom(stageOrder, stages, onEnterStage, runStage, onFailedStage, scenarios, 0, false)
    {
      var wasError := false;
      for i := 0 to scenarios
        invariant RunFrom(stageOrder, stages, onEnterStage, runStage, onFailedStage, scenarios, i, wasError) ==
          RunFrom(stageOrder, stages, onEnterStage, runStage, onFailedStage, scenarios, 0, false)
      {
        var e := RunScenario(i, runStage);
        if e.NullStage? {
          ScenarioEndInRange(stageOrder, stages, onEnterStage, runStage, onFailedStage, i, 0);
          return Crashed(stageOrder[e.at], i);
        }
        if e.Stopped? {
          wasError := true;
        }
      }
      return Finished(!wasError);
    }

    /** The inner loop of `Run`: one scenario through the stage order. */
    method RunScenario(i: nat, runStage: (string, nat) -> bool) returns (e: ScenarioEnd)
      ensures e == ScenarioFrom(stageOrder, stages, onEnterStage, runStage, onFailedStage, i, 0)
    {
      for k := 0 to |stageOrder|
        invariant ScenarioFrom(stageOrder, stages, onEnterStage, runStage, onFailedStage, i, k) ==
          ScenarioFrom(stageOrder, stages, onEnterStage, runStage, onFailedStage, i, 0)
      {
        var stageName := stageOrder[k];
        if !onEnterStage(stageName, i) {
          return Stopped(k);
        }
        if stageName !in stages {
          return NullStage(k);
        }
        if !runStage(stageName, i) && !onFailedStage(stageName, i) {
          return Stopped(k);
        }
      }
      return Done;
    }
  }
}
