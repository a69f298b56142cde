/**
 * The main-branch bot of tools/main_branch_bot.py (`main`, line 40-125):
 * for every (repository, branch) target it updates the addons table,
 * regenerates the READMEs and the default setup, optionally pushes, and
 * publishes sdists and wheels; a target whose steps raise is abandoned and
 * marks the run failed, and the run goes on with the next target. The
 * enumeration and each target's clone are outside the try: when one of them
 * raises, the exception leaves `main` and no later target is attempted.
 *
 * External commands are not run: whether a step raises is decided by the
 * oracle `fails(pos, step)`, where `pos` is the target's position in the
 * enumeration; whether a clone raises, by `cloneFails(pos)`.
 */
module Bot {
  import opened Wrappers
  import opened Branch
  import opened Runtime

  /** The steps of the try body, in source order. */
  datatype Step = Table | Readme | Setup | Push | Dist

  /** One (repository, branch) pair of the enumeration. */
  datatype Target = Target(repo: string, branch: string)

  /** What a step runs: an external command's argv, or the in-process `dist_to_simple_index` call. */
  datatype Command =
    | Exec(argv: seq<string>)
    | PublishDists(index: string, setupDirs: seq<string>, python: string)

  /** One attempted step: the target's position in the enumeration, the target, the step and what it ran. */
  datatype Invocation = Invocation(pos: nat, target: Target, step: Step, command: Command)

  /**
   * The command-line options. `repo` and `branch` are "" when not given:
   * the source tests them for truth, so an empty value counts as absent.
   * `index` is the (absolute) `--target` directory.
   */
  datatype Options = Options(index: string, repo: string, branch: string, push: bool, python2: string)

  /**
   * What the run learns from outside: the running interpreter, the
   * entries of `setup/` in each target's clone, which steps raise, and
   * which targets' clones raise when entered.
   */
  datatype World = World(host: Host, setupNames: nat -> seq<string>, fails: (nat, Step) -> bool,
                         cloneFails: nat -> bool)

  /** What the enumeration yields, and whether it raises after the last target it yields. */
  datatype Enumeration = Enumeration(targets: seq<Target>, raises: bool)

  /**
   * How a run of `main` ends: `sys.exit(code)`, or an exception that leaves
   * `main` uncaught (the interpreter then exits with status 1).
   */
  datatype RunEnd = Exit(code: int) | Uncaught

  /** The steps a target attempted and whether its try body raised. */
  datatype TargetResult = TargetResult(calls: seq<Invocation>, raised: bool)

  /** Branches the bot never processes, even when asked for explicitly. */
  predicate Skipped(branch: string)
  {
    branch == "6.1" || branch == "7.0"
  }

  /** The skipped branches are older than 8.0, the first branch the bot works on. */
  lemma SkippedPredateEight(branch: string)
    requires Skipped(branch)
    ensures ParseBranch(branch).Some? && TupleLess(ParseBranch(branch).value, [8, 0])
  {
    if branch == "6.1" {
      ParseTwoPieces("6", "1");
      assert "6" + "." + "1" == "6.1";
    } else {
      ParseTwoPieces("7", "0");
      assert "7" + "." + "0" == "7.0";
    }
  }

  // ---------------------------------------------------------------------
  // Target selection (line 52-58)

  /** The repository filter handed to the enumeration: the one given, or none. */
  function RepoFilter(repo: string): (r: seq<string>)
    ensures repo == "" ==> r == []
    ensures repo != "" ==> r == [repo]
  {
    if repo != "" then [repo] else []
  }

  /** The branch filter handed to the enumeration: the one given, or the main branches. */
  function BranchFilter(branch: string, mainBranches: seq<string>): (r: seq<string>)
    ensures branch == "" ==> r == mainBranches
    ensures branch != "" ==> r == [branch]
  {
    if branch != "" then [branch] else mainBranches
  }

  // ---------------------------------------------------------------------
  // The steps of one target (line 62-117)

  /** The steps attempted for a target, in order; the push only with `--push`. */
  function Plan(push: bool): (plan: seq<Step>)
    ensures |plan| == if push then 5 else 4
    ensures plan[0] == Table && plan[1] == Readme && plan[2] == Setup && plan[|plan| - 1] == Dist
    ensures Push in plan <==> push
    ensures forall i, j :: 0 <= i < j < |plan| ==> plan[i] != plan[j]
  {
    [Table, Readme, Setup] + (if push then [Push] else []) + [Dist]
  }

  /** `[opj('setup', d) for d in os.listdir('setup')]`, given the directory entries. */
  function SetupDirs(names: seq<string>): (dirs: seq<string>)
    ensures |dirs| == |names|
    ensures forall k :: 0 <= k < |names| ==> dirs[k] == "setup/" + names[k]
  {
    seq(|names|, k requires 0 <= k < |names| => "setup/" + names[k])
  }

  /** The values one target's steps are built from. `python` is None when `_get_python` raises. */
  datatype Context = Context(push: bool, index: string, setupDirs: seq<string>, python: Option<string>)

  function ContextFor(pos: nat, t: Target, opts: Options, world: World): Context
  {
    Context(opts.push, opts.index, SetupDirs(world.setupNames(pos)),
            GetPython(t.branch, opts.python2, world.host))
  }

  /** An argv with `--commit` appended when pushing. */
  function WithCommit(argv: seq<string>, push: bool): (r: seq<string>)
    ensures |r| == |argv| + (if push then 1 else 0)
    ensures r[..|argv|] == argv
    ensures push ==> r[|argv|] == "--commit"
  {
    if push then argv + ["--commit"] else argv
  }

  /** What a step runs for a target; None for the publishing step when its interpreter cannot be chosen. */
  function CommandFor(step: Step, t: Target, ctx: Context): (c: Option<Command>)
    ensures c.None? <==> step == Dist && ctx.python.None?
    ensures c.Some? ==> (c.value.PublishDists? <==> step == Dist)
  {
    match step
    case Table => Some(Exec(["oca-gen-addons-table", "--commit"]))
    case Readme =>
      Some(Exec(WithCommit(["oca-gen-addon-readme", "--repo-name", t.repo, "--branch", t.branch, "--addons-dir", "."],
                           ctx.push)))
    case Setup =>
      Some(Exec(WithCommit(["setuptools-odoo-make-default", "--addons-dir", ".", "--metapackage", "oca-" + t.repo, "--clean"],
                           ctx.push)))
    case Push => Some(Exec(["git", "push", "origin", t.branch]))
    case Dist =>
      if ctx.python.None? then None else Some(PublishDists(ctx.index, ctx.setupDirs, ctx.python.value))
  }

  /** A step raises: its command raises, or (for publishing) choosing the interpreter does. */
  predicate Breaks(pos: nat, step: Step, t: Target, ctx: Context, fails: (nat, Step) -> bool)
  {
    CommandFor(step, t, ctx).None? || fails(pos, step)
  }

  /** The try body over the remaining steps `plan`: each step runs until one raises. */
  function Attempt(pos: nat, t: Target, plan: seq<Step>, ctx: Context, fails: (nat, Step) -> bool): TargetResult
  {
    if plan == [] then TargetResult([], false)
    else match CommandFor(plan[0], t, ctx)
      case None => TargetResult([], true)
      case Some(cmd) =>
        var call := Invocation(pos, t, plan[0], cmd);
        if fails(pos, plan[0]) then TargetResult([call], true)
        else
          var rest := Attempt(pos, t, plan[1..], ctx, fails);
          TargetResult([call] + rest.calls, rest.raised)
  }

  /** What processing the target at `pos` does: nothing for a skipped branch, else the try body. */
  function Outcome(pos: nat, t: Target, opts: Options, world: World): (r: TargetResult)
    ensures Skipped(t.branch) ==> r.calls == [] && !r.raised
    ensures !Skipped(t.branch) ==> 1 <= |r.calls| || r.raised
  {
    if Skipped(t.branch) then TargetResult([], false)
    else Attempt(pos, t, Plan(opts.push), ContextFor(pos, t, opts, world), world.fails)
  }

  /** The invocations of each of the first `n` targets. */
  function CallsPerTarget(targets: seq<Target>, n: nat, opts: Options, world: World): (parts: seq<seq<Invocation>>)
    requires n <= |targets|
    ensures |parts| == n
  {
    seq(n, k requires 0 <= k < n => Outcome(k, targets[k], opts, world).calls)
  }

  /** The given pieces one after the other. */
  function Flatten(parts: seq<seq<Invocation>>): seq<Invocation>
  {
    if parts == [] then [] else Flatten(parts[..|parts| - 1]) + parts[|parts| - 1]
  }

  /** The invocations of the first `n` targets, in order. */
  function LogUpTo(targets: seq<Target>, n: nat, opts: Options, world: World): seq<Invocation>
    requires n <= |targets|
  {
    Flatten(CallsPerTarget(targets, n, opts, world))
  }

  /** Processing one more target appends its invocations to the log. */
  lemma LogUpToStep(targets: seq<Target>, n: nat, opts: Options, world: World)
    requires n < |targets|
    ensures LogUpTo(targets, n + 1, opts, world) ==
      LogUpTo(targets, n, opts, world) + Outcome(n, targets[n], opts, world).calls
  {
    assert CallsPerTarget(targets, n + 1, opts, world)[..n] == CallsPerTarget(targets, n, opts, world);
  }

  /** Some target among the first `n` raised. */
  predicate AnyRaised(targets: seq<Target>, n: nat, opts: Options, world: World)
    requires n <= |targets|
  {
    exists j :: 0 <= j < n && Outcome(j, targets[j], opts, world).raised
  }

  /**
   * Entering the clone of target `k` raises. `temporary_clone` is entered
   * outside the try (line 61), so nothing in `main` catches it.
   */
  predicate CloneAborts(targets: seq<Target>, k: nat, world: World)
    requires k < |targets|
  {
    !Skipped(targets[k].branch) && world.cloneFails(k)
  }

  /** The first position from `i` on whose clone raises, or `|targets|` when none does. */
  function ReachedFrom(targets: seq<Target>, i: nat, world: World): (n: nat)
    requires i <= |targets|
    ensures i <= n <= |targets|
    ensures forall k :: i <= k < n ==> !CloneAborts(targets, k, world)
    ensures n < |targets| ==> CloneAborts(targets, n, world)
    decreases |targets| - i
  {
    if i == |targets| || CloneAborts(targets, i, world) then i else ReachedFrom(targets, i + 1, world)
  }

  /** How many targets the run gets through: all of them, or those before the first clone that raises. */
  function Reached(targets: seq<Target>, world: World): (n: nat)
    ensures n <= |targets|
  {
    ReachedFrom(targets, 0, world)
  }

  /** `Reached` is the position of the first clone that raises, or the number of targets. */
  lemma ReachedIs(targets: seq<Target>, world: World, n: nat)
    requires n <= |targets|
    requires forall k :: 0 <= k < n ==> !CloneAborts(targets, k, world)
    requires n < |targets| ==> CloneAborts(targets, n, world)
    ensures Reached(targets, world) == n
  {
  }

  /** A run that has got to target `i` gets past it unless its clone raises, and stops at it if it does. */
  lemma ReachedStep(targets: seq<Target>, world: World, i: nat)
    requires i < |targets| && i <= Reached(targets, world)
    ensures CloneAborts(targets, i, world) ==> Reached(targets, world) == i
    ensures !CloneAborts(targets, i, world) ==> i + 1 <= Reached(targets, world)
  {
  }

  /** The invocations of a run over `targets`: those of every target before the first clone that raises. */
  function RunLog(targets: seq<Target>, opts: Options, world: World): seq<Invocation>
  {
    LogUpTo(targets, Reached(targets, world), opts, world)
  }

  /** How a run over `targets` ends: uncaught at a clone that raises, else exit 1 when a target raised, else 0. */
  function RunEndOf(targets: seq<Target>, opts: Options, world: World): RunEnd
  {
    if Reached(targets, world) < |targets| then Uncaught
    else Exit(if AnyRaised(targets, |targets|, opts, world) then 1 else 0)
  }

  /** How `main` ends: an enumeration that raises is not caught either. */
  function BotEnd(e: Enumeration, opts: Options, world: World): RunEnd
  {
    if e.raises then Uncaught else RunEndOf(e.targets, opts, world)
  }

  /** The process's exit status: the code given to `sys.exit`, or 1 for an uncaught exception. */
  function ExitStatus(end: RunEnd): (status: int)
    ensures status == 0 <==> end == Exit(0)
    ensures end.Uncaught? ==> status == 1
  {
    match end
    case Exit(code) => code
    case Uncaught => 1
  }

  /** One more target leaves the run failed exactly when it was already, or when that target raised. */
  lemma AnyRaisedStep(targets: seq<Target>, n: nat, opts: Options, world: World)
    requires n < |targets|
    ensures AnyRaised(targets, n + 1, opts, world) <==>
      AnyRaised(targets, n, opts, world) || Outcome(n, targets[n], opts, world).raised
  {
    if AnyRaised(targets, n + 1, opts, world) && !Outcome(n, targets[n], opts, world).raised {
      var j :| 0 <= j < n + 1 && Outcome(j, targets[j], opts, world).raised;
      assert j < n;
    }
  }

  // ---------------------------------------------------------------------
  // The imperative run

  /**
   * The try body for one target (line 62-117): it builds each argv,
   * appending `--commit` when pushing, and stops at the first step that raises.
   */
  method RunTarget(pos: nat, t: Target, opts: Options, world: World) returns (calls: seq<Invocation>, raised: bool)
    ensures TargetResult(calls, raised) == Attempt(pos, t, Plan(opts.push), ContextFor(pos, t, opts, world), world.fails)
  {
    ghost var ctx := ContextFor(pos, t, opts, world);
    ghost var plan := Plan(opts.push);
    ghost var fails := world.fails;
    assert plan[0..] == plan;
    calls := [Invocation(pos, t, Table, Exec(["oca-gen-addons-table", "--commit"]))];
    AttemptStep(pos, t, plan, 0, ctx, fails, []);
    if world.fails(pos, Table) {
      return calls, true;
    }
    var readmeCmd := ["oca-gen-addon-readme", "--repo-name", t.repo, "--branch", t.branch, "--addons-dir", "."];
    if opts.push {
      readmeCmd := readmeCmd + ["--commit"];
    }
    AttemptStep(pos, t, plan, 1, ctx, fails, calls);
    calls := calls + [Invocation(pos, t, Readme, Exec(readmeCmd))];
    if world.fails(pos, Readme) {
      return calls, true;
    }
    var setupCmd := ["setuptools-odoo-make-default", "--addons-dir", ".", "--metapackage", "oca-" + t.repo, "--clean"];
    if opts.push {
      setupCmd := setupCmd + ["--commit"];
    }
    AttemptStep(pos, t, plan, 2, ctx, fails, calls);
    calls := calls + [Invocation(pos, t, Setup, Exec(setupCmd))];
    if world.fails(pos, Setup) {
      return calls, true;
    }
    if opts.push {
      AttemptStep(pos, t, plan, 3, ctx, fails, calls);
      calls := calls + [Invocation(pos, t, Push, Exec(["git", "push", "origin", t.branch]))];
      if world.fails(pos, Push) {
        return calls, true;
      }
    }
    var setupDirs := SetupDirs(world.setupNames(pos));
    var python := GetPython(t.branch, opts.python2, world.host);
    AttemptStep(pos, t, plan, |plan| - 1, ctx, fails, calls);
    if python.None? {
      return calls, true;
    }
    calls := calls + [Invocation(pos, t, Dist, PublishDists(opts.index, setupDirs, python.value))];
    raised := world.fails(pos, Dist);
  }

  /** Prefixes a target's result with invocations made before it. */
  function Prepend(calls: seq<Invocation>, r: TargetResult): TargetResult
  {
    TargetResult(calls + r.calls, r.raised)
  }

  /**
   * One step of the try body: having made `calls` before step `k`, the step
   * either raises (before or after its invocation) or is appended to `calls`.
   */
  lemma AttemptStep(pos: nat, t: Target, plan: seq<Step>, k: nat, ctx: Context, fails: (nat, Step) -> bool,
                    calls: seq<Invocation>)
    requires k < |plan|
    requires Attempt(pos, t, plan, ctx, fails) == Prepend(calls, Attempt(pos, t, plan[k..], ctx, fails))
    ensures CommandFor(plan[k], t, ctx).None? ==> Attempt(pos, t, plan, ctx, fails) == TargetResult(calls, true)
    ensures CommandFor(plan[k], t, ctx).Some? ==>
      var call := Invocation(pos, t, plan[k], CommandFor(plan[k], t, ctx).value);
      Attempt(pos, t, plan, ctx, fails) ==
        if fails(pos, plan[k]) then TargetResult(calls + [call], true)
        else Prepend(calls + [call], Attempt(pos, t, plan[k + 1..], ctx, fails))
  {
    assert plan[k..][1..] == plan[k + 1..];
    assert calls + [] == calls;
  }

  /**
   * The try body runs the planned steps in order with their commands, stops
   * at the first step that raises (running none after it), raises exactly
   * when some planned step raises, and otherwise runs them all.
   */
  lemma {:induction false} AttemptShape(pos: nat, t: Target, plan: seq<Step>, ctx: Context, fails: (nat, Step) -> bool)
    ensures |Attempt(pos, t, plan, ctx, fails).calls| <= |plan|
    ensures forall j :: 0 <= j < |Attempt(pos, t, plan, ctx, fails).calls| ==>
      CommandFor(plan[j], t, ctx).Some? &&
      Attempt(pos, t, plan, ctx, fails).calls[j] == Invocation(pos, t, plan[j], CommandFor(plan[j], t, ctx).value)
    ensures forall j :: 0 <= j < |plan| && Breaks(pos, plan[j], t, ctx, fails) ==>
      |Attempt(pos, t, plan, ctx, fails).calls| <= j + 1
    ensures Attempt(pos, t, plan, ctx, fails).raised <==>
      exists j :: 0 <= j < |plan| && Breaks(pos, plan[j], t, ctx, fails)
    ensures !Attempt(pos, t, plan, ctx, fails).raised ==> |Attempt(pos, t, plan, ctx, fails).calls| == |plan|
    ensures var n := |Attempt(pos, t, plan, ctx, fails).calls|;
      Attempt(pos, t, plan, ctx, fails).raised ==>
        (n > 0 && fails(pos, plan[n - 1])) || (n < |plan| && CommandFor(plan[n], t, ctx).None?)
  {
    if plan != [] {
      var r := Attempt(pos, t, plan, ctx, fails);
      var rest := Attempt(pos, t, plan[1..], ctx, fails);
      AttemptShape(pos, t, plan[1..], ctx, fails);
      if Breaks(pos, plan[0], t, ctx, fails) {
        assert r.raised;
      } else {
        assert r.calls == [r.calls[0]] + rest.calls;
        forall j | 1 <= j < |plan| && Breaks(pos, plan[j], t, ctx, fails)
          ensures |r.calls| <= j + 1
        {
          assert plan[1..][j - 1] == plan[j];
        }
        if rest.raised {
          var j :| 0 <= j < |plan[1..]| && Breaks(pos, plan[1..][j], t, ctx, fails);
          assert Breaks(pos, plan[j + 1], t, ctx, fails);
        }
        if r.raised {
          var j :| 0 <= j < |plan| && Breaks(pos, plan[j], t, ctx, fails);
          assert j > 0 && Breaks(pos, plan[1..][j - 1], t, ctx, fails);
        }
      }
    }
  }

  /** The steps of a sequence of invocations. */
  function StepsOf(calls: seq<Invocation>): (steps: seq<Step>)
    ensures |steps| == |calls|
    ensures forall j :: 0 <= j < |calls| ==> steps[j] == calls[j].step
  {
    seq(|calls|, j requires 0 <= j < |calls| => calls[j].step)
  }

  /**
   * A target is processed by attempting a prefix of the plan in order, up to
   * and including the first step that raises, with the commands of
   * `CommandFor`; it fails exactly when some planned step raises.
   */
  lemma TargetSteps(pos: nat, t: Target, opts: Options, world: World)
    requires !Skipped(t.branch)
    ensures var r := Outcome(pos, t, opts, world);
      var ctx := ContextFor(pos, t, opts, world);
      |r.calls| <= |Plan(opts.push)| && StepsOf(r.calls) == Plan(opts.push)[..|r.calls|] &&
      (forall j :: 0 <= j < |r.calls| ==> Some(r.calls[j].command) == CommandFor(r.calls[j].step, t, ctx)) &&
      (forall j :: 0 <= j < |r.calls| - 1 ==> !world.fails(pos, r.calls[j].step)) &&
      (r.raised <==> exists s :: s in Plan(opts.push) && Breaks(pos, s, t, ctx, world.fails))
  {
    var ctx := ContextFor(pos, t, opts, world);
    var plan := Plan(opts.push);
    var r := Outcome(pos, t, opts, world);
    AttemptShape(pos, t, plan, ctx, world.fails);
    assert StepsOf(r.calls) == plan[..|r.calls|];
    if r.raised {
      var j :| 0 <= j < |plan| && Breaks(pos, plan[j], t, ctx, world.fails);
      assert plan[j] in plan;
    }
  }

  /**
   * A branch name int() rejects fails its target only at the publishing
   * step: the table, README and setup steps, and the push when pushing,
   * have all run by then.
   */
  lemma MalformedBranchFailsLate(pos: nat, t: Target, opts: Options, world: World)
    requires !Skipped(t.branch) && !WellFormedBranch(t.branch)
    requires forall s :: !world.fails(pos, s)
    ensures Outcome(pos, t, opts, world).raised
    ensures StepsOf(Outcome(pos, t, opts, world).calls) ==
      [Table, Readme, Setup] + (if opts.push then [Push] else [])
  {
    var ctx := ContextFor(pos, t, opts, world);
    var plan := Plan(opts.push);
    var r := Outcome(pos, t, opts, world);
    AttemptShape(pos, t, plan, ctx, world.fails);
    assert Breaks(pos, plan[|plan| - 1], t, ctx, world.fails);
    assert |r.calls| == |plan| - 1;
    assert StepsOf(r.calls) == plan[..|plan| - 1];
  }

  /**
   * The argv of each external command: the table update always commits,
   * the README and setup generators commit exactly when pushing, and the
   * push names the target's branch.
   */
  lemma ArgvShapes(t: Target, ctx: Context)
    ensures CommandFor(Table, t, ctx) == Some(Exec(["oca-gen-addons-table", "--commit"]))
    ensures var a := CommandFor(Readme, t, ctx).value.argv;
      a[..7] == ["oca-gen-addon-readme", "--repo-name", t.repo, "--branch", t.branch, "--addons-dir", "."] &&
      (|a| == 8 <==> ctx.push) && (ctx.push ==> a[7] == "--commit") && (!ctx.push ==> |a| == 7)
    ensures var a := CommandFor(Setup, t, ctx).value.argv;
      a[..6] == ["setuptools-odoo-make-default", "--addons-dir", ".", "--metapackage", "oca-" + t.repo, "--clean"] &&
      (|a| == 7 <==> ctx.push) && (ctx.push ==> a[6] == "--commit") && (!ctx.push ==> |a| == 6)
    ensures CommandFor(Push, t, ctx) == Some(Exec(["git", "push", "origin", t.branch]))
    ensures ctx.python.Some? ==>
      CommandFor(Dist, t, ctx) == Some(PublishDists(ctx.index, ctx.setupDirs, ctx.python.value))
  {
  }

  /**
   * Every publishing invocation a target makes writes to the `--target`
   * index, builds the target's own `setup/` entries, and uses the
   * interpreter `_get_python` chose for the target's branch (line 112-116).
   */
  lemma DistCarriesChoice(pos: nat, t: Target, opts: Options, world: World, c: Invocation)
    requires c in Outcome(pos, t, opts, world).calls && c.step == Dist
    ensures GetPython(t.branch, opts.python2, world.host).Some?
    ensures c.command == PublishDists(opts.index, SetupDirs(world.setupNames(pos)),
                                      GetPython(t.branch, opts.python2, world.host).value)
  {
    var ctx := ContextFor(pos, t, opts, world);
    var plan := Plan(opts.push);
    AttemptShape(pos, t, plan, ctx, world.fails);
    var calls := Outcome(pos, t, opts, world).calls;
    var j :| 0 <= j < |calls| && calls[j] == c;
    assert plan[j] == Dist;
  }

  // ---------------------------------------------------------------------
  // The run over all targets (line 50-125)

  /**
   * The target loop of `main` (line 58-124): skipped branches are passed
   * over; a clone that raises ends the loop uncaught; every other target
   * runs its try body, and a target that raised sets the exit code to 1
   * while the loop goes on.
   */
  method ProcessTargets(targets: seq<Target>, opts: Options, world: World) returns (end: RunEnd, log: seq<Invocation>)
    ensures log == RunLog(targets, opts, world)
    ensures end == RunEndOf(targets, opts, world)
  {
    var exitCode := 0;
    log := [];
    for i := 0 to |targets|
      invariant log == LogUpTo(targets, i, opts, world)
      invariant exitCode == (if AnyRaised(targets, i, opts, world) then 1 else 0)
      invariant i <= Reached(targets, world)
    {
      var t := targets[i];
      ReachedStep(targets, world, i);
      if t.branch == "6.1" || t.branch == "7.0" {
        LogUpToStep(targets, i, opts, world);
        AnyRaisedStep(targets, i, opts, world);
        assert log + [] == log;
        continue;
      }
      if world.cloneFails(i) {
        end := Uncaught;
        return;
      }
      LogUpToStep(targets, i, opts, world);
      AnyRaisedStep(targets, i, opts, world);
      var calls, raised := RunTarget(i, t, opts, world);
      assert TargetResult(calls, raised) == Outcome(i, t, opts, world);
      log := log + calls;
      if raised {
        exitCode := 1;
      }
    }
    end := Exit(exitCode);
  }

  /**
   * `main` (line 50-125): builds the repository and branch filters from the
   * options, enumerates the targets with them, and processes the targets;
   * an enumeration that raises after its last target leaves `main` uncaught.
   */
  method RunBot(opts: Options, mainBranches: seq<string>,
                enumerate: (seq<string>, seq<string>) -> Enumeration, world: World)
    returns (end: RunEnd, log: seq<Invocation>)
    ensures var e := enumerate(RepoFilter(opts.repo), BranchFilter(opts.branch, mainBranches));
      log == RunLog(e.targets, opts, world) && end == BotEnd(e, opts, world)
  {
    var repos: seq<string> := [];
    if opts.repo != "" {
      repos := [opts.repo];
    }
    var branches := mainBranches;
    if opts.branch != "" {
      branches := [opts.branch];
    }
    var e := enumerate(repos, branches);
    end, log := ProcessTargets(e.targets, opts, world);
    if e.raises {
      end := Uncaught;
    }
  }

  // ---------------------------------------------------------------------
  // What the run does

  /** The invocations of `log` made for the target at position `pos`, in order. */
  function CallsAt(log: seq<Invocation>, pos: nat): seq<Invocation>
  {
    if log == [] then []
    else CallsAt(log[..|log| - 1], pos) + (if log[|log| - 1].pos == pos then [log[|log| - 1]] else [])
  }

  lemma {:induction false} CallsAtAppend(a: seq<Invocation>, b: seq<Invocation>, pos: nat)
    ensures CallsAt(a + b, pos) == CallsAt(a, pos) + CallsAt(b, pos)
  {
    if b != [] {
      CallsAtAppend(a, b[..|b| - 1], pos);
      assert (a + b)[..|a + b| - 1] == a + b[..|b| - 1];
    } else {
      assert a + b == a;
    }
  }

  lemma {:induction false} CallsAtWithin(log: seq<Invocation>, pos: nat, c: Invocation)
    requires c in CallsAt(log, pos)
    ensures c in log && c.pos == pos
  {
    if c !in CallsAt(log[..|log| - 1], pos) {
      assert c == log[|log| - 1];
    } else {
      CallsAtWithin(log[..|log| - 1], pos, c);
    }
  }

  lemma {:induction false} CallsAtOnly(log: seq<Invocation>, pos: nat)
    requires forall c :: c in log ==> c.pos == pos
    ensures CallsAt(log, pos) == log
  {
    if log != [] {
      CallsAtOnly(log[..|log| - 1], pos);
      assert log[..|log| - 1] + [log[|log| - 1]] == log;
    }
  }

  lemma {:induction false} CallsAtNone(log: seq<Invocation>, pos: nat)
    requires forall c :: c in log ==> c.pos != pos
    ensures CallsAt(log, pos) == []
  {
    if log != [] {
      CallsAtNone(log[..|log| - 1], pos);
    }
  }

  /** Each piece holds only invocations made at its own position. */
  predicate TaggedByPosition(parts: seq<seq<Invocation>>)
  {
    forall k, c: Invocation :: 0 <= k < |parts| && c in parts[k] ==> c.pos == k
  }

  /** Every invocation of a flattened sequence comes from one of its pieces. */
  lemma {:induction false} FlattenMember(parts: seq<seq<Invocation>>, c: Invocation)
    requires c in Flatten(parts)
    ensures exists k :: 0 <= k < |parts| && c in parts[k]
  {
    var n := |parts|;
    if c !in parts[n - 1] {
      FlattenMember(parts[..n - 1], c);
      var k :| 0 <= k < n - 1 && c in parts[..n - 1][k];
      assert c in parts[k];
    }
  }

  /** Flattening pieces tagged by position keeps each position's invocations apart. */
  lemma {:induction false} FlattenIsolation(parts: seq<seq<Invocation>>, j: nat)
    requires TaggedByPosition(parts) && j < |parts|
    ensures CallsAt(Flatten(parts), j) == parts[j]
  {
    var n := |parts|;
    var init := parts[..n - 1];
    assert TaggedByPosition(init) by {
      forall k, c: Invocation | 0 <= k < |init| && c in init[k] ensures c.pos == k {
        assert init[k] == parts[k];
      }
    }
    CallsAtAppend(Flatten(init), parts[n - 1], j);
    if j == n - 1 {
      forall c | c in Flatten(init) ensures c.pos != j {
        FlattenMember(init, c);
      }
      CallsAtNone(Flatten(init), j);
      CallsAtOnly(parts[n - 1], j);
    } else {
      FlattenIsolation(init, j);
      CallsAtNone(parts[n - 1], j);
    }
  }

  /** Every invocation a target makes carries its own position and target, and no skipped branch makes one. */
  lemma OutcomeCallsAt(pos: nat, t: Target, opts: Options, world: World)
    ensures forall c :: c in Outcome(pos, t, opts, world).calls ==>
      c.pos == pos && c.target == t && !Skipped(t.branch)
  {
    if !Skipped(t.branch) {
      AttemptShape(pos, t, Plan(opts.push), ContextFor(pos, t, opts, world), world.fails);
    }
  }

  /** The run's invocations, split by target, are tagged by position. */
  lemma CallsPerTargetTagged(targets: seq<Target>, n: nat, opts: Options, world: World)
    requires n <= |targets|
    ensures TaggedByPosition(CallsPerTarget(targets, n, opts, world))
  {
    var parts := CallsPerTarget(targets, n, opts, world);
    forall k, c: Invocation | 0 <= k < n && c in parts[k] ensures c.pos == k {
      OutcomeCallsAt(k, targets[k], opts, world);
    }
  }

  /**
   * Isolation: within the run's log, the invocations made for target `j`
   * are exactly what that target does on its own.
   */
  lemma LogIsolation(targets: seq<Target>, n: nat, opts: Options, world: World, j: nat)
    requires j < n <= |targets|
    ensures CallsAt(LogUpTo(targets, n, opts, world), j) == Outcome(j, targets[j], opts, world).calls
  {
    CallsPerTargetTagged(targets, n, opts, world);
    FlattenIsolation(CallsPerTarget(targets, n, opts, world), j);
  }

  /** The log only holds invocations of the targets at their positions, and none of a skipped branch. */
  lemma LogTargets(targets: seq<Target>, n: nat, opts: Options, world: World, c: Invocation)
    requires n <= |targets| && c in LogUpTo(targets, n, opts, world)
    ensures c.pos < n && c.target == targets[c.pos] && !Skipped(c.target.branch)
  {
    var parts := CallsPerTarget(targets, n, opts, world);
    FlattenMember(parts, c);
    var k :| 0 <= k < n && c in parts[k];
    OutcomeCallsAt(k, targets[k], opts, world);
  }

  /**
   * A target whose oracle entries are the same in two worlds behaves the
   * same in both, whatever the other targets' steps do.
   */
  lemma {:induction false} AttemptOwnOracle(pos: nat, t: Target, plan: seq<Step>, ctx: Context,
                                            f1: (nat, Step) -> bool, f2: (nat, Step) -> bool)
    requires forall s :: f1(pos, s) == f2(pos, s)
    ensures Attempt(pos, t, plan, ctx, f1) == Attempt(pos, t, plan, ctx, f2)
  {
    if plan != [] {
      AttemptOwnOracle(pos, t, plan[1..], ctx, f1, f2);
    }
  }

  /** A target's outcome depends only on its own step outcomes and its own clone, not on other targets'. */
  lemma OutcomeOwnWorld(pos: nat, t: Target, opts: Options, w1: World, w2: World)
    requires w1.host == w2.host && w1.setupNames(pos) == w2.setupNames(pos)
    requires forall s :: w1.fails(pos, s) == w2.fails(pos, s)
    ensures Outcome(pos, t, opts, w1) == Outcome(pos, t, opts, w2)
  {
    assert ContextFor(pos, t, opts, w1) == ContextFor(pos, t, opts, w2);
    AttemptOwnOracle(pos, t, Plan(opts.push), ContextFor(pos, t, opts, w1), w1.fails, w2.fails);
  }

  /**
   * A target that is not skipped is attempted whatever earlier targets' try
   * bodies did, as long as no clone up to its own raised: its addons-table
   * update is in the log.
   */
  lemma EveryTargetAttempted(targets: seq<Target>, opts: Options, world: World, j: nat)
    requires j < |targets| && !Skipped(targets[j].branch)
    requires forall k :: 0 <= k <= j ==> !CloneAborts(targets, k, world)
    ensures Invocation(j, targets[j], Table, Exec(["oca-gen-addons-table", "--commit"]))
      in RunLog(targets, opts, world)
  {
    var n := Reached(targets, world);
    LogIsolation(targets, n, opts, world, j);
    var calls := Outcome(j, targets[j], opts, world).calls;
    AttemptShape(j, targets[j], Plan(opts.push), ContextFor(j, targets[j], opts, world), world.fails);
    CallsAtWithin(RunLog(targets, opts, world), j, calls[0]);
  }

  /**
   * The first clone that raises ends the run uncaught: the log holds the
   * invocations of the targets before it, and of no target from it on.
   */
  lemma CloneFailureEndsRun(targets: seq<Target>, opts: Options, world: World, k: nat)
    requires k < |targets| && CloneAborts(targets, k, world)
    requires forall i :: 0 <= i < k ==> !CloneAborts(targets, i, world)
    ensures RunLog(targets, opts, world) == LogUpTo(targets, k, opts, world)
    ensures RunEndOf(targets, opts, world) == Uncaught
    ensures forall c :: c in RunLog(targets, opts, world) ==> c.pos < k
  {
    ReachedIs(targets, world, k);
    forall c | c in RunLog(targets, opts, world) ensures c.pos < k {
      LogTargets(targets, k, opts, world, c);
    }
  }

  /** A skipped target runs no step and does not fail the run. */
  lemma SkippedTargetIsInert(targets: seq<Target>, opts: Options, world: World, j: nat)
    requires j < |targets| && Skipped(targets[j].branch)
    ensures CallsAt(RunLog(targets, opts, world), j) == []
    ensures !Outcome(j, targets[j], opts, world).raised
    ensures !CloneAborts(targets, j, world)
  {
    var n := Reached(targets, world);
    forall c | c in RunLog(targets, opts, world) ensures c.pos != j {
      LogTargets(targets, n, opts, world, c);
    }
    CallsAtNone(RunLog(targets, opts, world), j);
  }

  /**
   * The run reaches `sys.exit` exactly when no clone raised; it exits with 1
   * exactly when, besides, some target that was not skipped raised in its try body.
   */
  lemma ExitCodeMeaning(targets: seq<Target>, opts: Options, world: World)
    ensures RunEndOf(targets, opts, world).Exit? <==>
      forall k :: 0 <= k < |targets| ==> !CloneAborts(targets, k, world)
    ensures RunEndOf(targets, opts, world) == Exit(1) <==>
      (forall k :: 0 <= k < |targets| ==> !CloneAborts(targets, k, world)) &&
      exists j :: 0 <= j < |targets| && !Skipped(targets[j].branch) &&
        Attempt(j, targets[j], Plan(opts.push), ContextFor(j, targets[j], opts, world), world.fails).raised
    ensures RunEndOf(targets, opts, world).Exit? ==> RunEndOf(targets, opts, world).code in {0, 1}
  {
    if forall k :: 0 <= k < |targets| ==> !CloneAborts(targets, k, world) {
      ReachedIs(targets, world, |targets|);
    }
  }

  /**
   * The process exits with status 0 exactly when the enumeration does not
   * raise, no clone raises and no target's try body raises.
   */
  lemma ExitStatusMeaning(e: Enumeration, opts: Options, world: World)
    ensures ExitStatus(BotEnd(e, opts, world)) == 0 <==>
      !e.raises &&
      (forall k :: 0 <= k < |e.targets| ==> !CloneAborts(e.targets, k, world)) &&
      !AnyRaised(e.targets, |e.targets|, opts, world)
  {
    ExitCodeMeaning(e.targets, opts, world);
  }

  /** Once some target has raised, every longer prefix of the run has too: the exit code never returns to 0. */
  lemma RaisedStaysRaised(targets: seq<Target>, m: nat, n: nat, opts: Options, world: World)
    requires m <= n <= |targets| && AnyRaised(targets, m, opts, world)
    ensures AnyRaised(targets, n, opts, world)
  {
    var j :| 0 <= j < m && Outcome(j, targets[j], opts, world).raised;
    assert j < n;
  }

  /**
   * Asking for branch "6.1" or "7.0" explicitly runs nothing and exits 0,
   * provided the enumeration keeps to the branch filter it is given.
   */
  lemma ExplicitLegacyBranchRunsNothing(opts: Options, mainBranches: seq<string>, targets: seq<Target>, world: World)
    requires Skipped(opts.branch)
    requires forall k :: 0 <= k < |targets| ==> targets[k].branch in BranchFilter(opts.branch, mainBranches)
    ensures RunLog(targets, opts, world) == []
    ensures RunEndOf(targets, opts, world) == Exit(0)
  {
    ReachedIs(targets, world, |targets|);
    NothingRunsWhenAllSkipped(targets, |targets|, opts, world);
  }

  lemma NothingRunsWhenAllSkipped(targets: seq<Target>, n: nat, opts: Options, world: World)
    requires n <= |targets|
    requires forall k :: 0 <= k < n ==> Skipped(targets[k].branch)
    ensures LogUpTo(targets, n, opts, world) == []
  {
    var log := LogUpTo(targets, n, opts, world);
    if log != [] {
      LogTargets(targets, n, opts, world, log[0]);
    }
  }

  /** Without pushing, a target whose README generation raises stops after two steps. */
  lemma StopsAtReadme(pos: nat, t: Target, opts: Options, world: World)
    requires !Skipped(t.branch) && !opts.push
    requires !world.fails(pos, Table) && world.fails(pos, Readme)
    ensures StepsOf(Outcome(pos, t, opts, world).calls) == [Table, Readme]
    ensures Outcome(pos, t, opts, world).raised
  {
    var ctx := ContextFor(pos, t, opts, world);
    var plan := Plan(false);
    assert plan[0..] == plan;
    AttemptStep(pos, t, plan, 0, ctx, world.fails, []);
    AttemptStep(pos, t, plan, 1, ctx, world.fails, [Invocation(pos, t, Table, CommandFor(Table, t, ctx).value)]);
  }

  /** Without pushing, a target whose steps all succeed and whose branch parses runs four steps. */
  lemma RunsAllFour(pos: nat, t: Target, opts: Options, world: World)
    requires !Skipped(t.branch) && !opts.push && WellFormedBranch(t.branch)
    requires forall s :: !world.fails(pos, s)
    ensures StepsOf(Outcome(pos, t, opts, world).calls) == [Table, Readme, Setup, Dist]
    ensures !Outcome(pos, t, opts, world).raised
  {
    var ctx := ContextFor(pos, t, opts, world);
    AttemptShape(pos, t, Plan(false), ctx, world.fails);
  }

  /**
   * Two targets, A@8.0 and B@11.0, without pushing: A's README generation
   * raises, so A stops after two steps; B still runs all four; the run exits 1.
   */
  lemma TwoTargetRun(opts: Options, world: World)
    requires !opts.push
    requires forall p: nat, s :: world.fails(p, s) <==> p == 0 && s == Readme
    requires forall p: nat :: !world.cloneFails(p)
    ensures var targets := [Target("A", "8.0"), Target("B", "11.0")];
      StepsOf(RunLog(targets, opts, world)) == [Table, Readme, Table, Readme, Setup, Dist] &&
      RunEndOf(targets, opts, world) == Exit(1)
  {
    var targets := [Target("A", "8.0"), Target("B", "11.0")];
    ReachedIs(targets, world, 2);
    assert WellFormedBranch("11.0");
    TwoTargetSteps(targets, opts, world);
  }

  /**
   * Two targets without pushing, neither skipped: the first stops at its
   * README step, the second has a parsable branch and runs every step.
   */
  lemma TwoTargetSteps(targets: seq<Target>, opts: Options, world: World)
    requires |targets| == 2 && !Skipped(targets[0].branch) && !Skipped(targets[1].branch)
    requires WellFormedBranch(targets[1].branch)
    requires !opts.push
    requires !world.fails(0, Table) && world.fails(0, Readme)
    requires forall s :: !world.fails(1, s)
    ensures StepsOf(LogUpTo(targets, 2, opts, world)) == [Table, Readme, Table, Readme, Setup, Dist]
    ensures AnyRaised(targets, 2, opts, world)
  {
    StopsAtReadme(0, targets[0], opts, world);
    RunsAllFour(1, targets[1], opts, world);
    LogOfTwo(targets, opts, world);
    StepsOfAppend(Outcome(0, targets[0], opts, world).calls, Outcome(1, targets[1], opts, world).calls);
  }

  lemma LogOfTwo(targets: seq<Target>, opts: Options, world: World)
    requires |targets| == 2
    ensures LogUpTo(targets, 2, opts, world) ==
      Outcome(0, targets[0], opts, world).calls + Outcome(1, targets[1], opts, world).calls
  {
    LogUpToStep(targets, 0, opts, world);
    LogUpToStep(targets, 1, opts, world);
    assert LogUpTo(targets, 0, opts, world) == [];
  }

  lemma StepsOfAppend(a: seq<Invocation>, b: seq<Invocation>)
    ensures StepsOf(a + b) == StepsOf(a) + StepsOf(b)
  {
  }
}
