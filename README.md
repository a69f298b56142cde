# Main-branch bot: a Dafny model

This project models the decision logic of the OCA main-branch bot
(`tools/main_branch_bot.py`). For every (repository, branch) target, the bot:

1. updates the addons table in README.md;
2. regenerates the addon READMEs;
3. regenerates the default `setup/` tree;
4. pushes, when `--push` is given;
5. builds sdists and wheels into a PEP 503 index.

It skips the legacy branches 6.1 and 7.0. When a target's steps raise, the bot
abandons that target, remembers the failure and goes on with the next target.
The enumeration of targets and the clone of each target are outside that
`try`. When either raises, the exception leaves `main`, no later target is
attempted, and the process exits with status 1. Otherwise the run exits with 1
if any target failed, and with 0 if none did. To build wheels,
`_get_python` chooses an interpreter by comparing the branch's version tuple
with (11, 0).

Modules:

- `Wrappers` (wrappers.dfy): `Option`. `None` stands for a call that raises.
- `Branch` (branch.dfy): `str.split('.')`, `int()` on the digit strings it
  accepts, and Python's lexicographic tuple order `<`. Also a formatter
  `FormatBranch`, a right inverse of the parse: parsing its output gives back
  the tuple (`Branch.FormatParse`). It is not a left inverse, because "08.0"
  also parses to (8, 0). And the character-level grammar of the names that parse.
- `Runtime` (runtime.dfy): `_get_python`. The running interpreter
  (`sys.version_info[0]` and `sys.executable`) is a `Host` parameter.
- `Bot` (bot.dfy): the body of `main`.
  - `RunTarget` is the imperative try body. It builds each argv and appends
    `--commit` when pushing.
  - `ProcessTargets` is the target loop. It keeps the `exitCode` variable and a
    log of invocations.
  - `RunBot` builds the repository and branch filters, then enumerates and
    processes the targets.
  - Each method is proved against the specification functions `Attempt`,
    `Outcome` and `LogUpTo`. The lemmas state what the source promises about
    those functions.

Whether an external command raises is decided by an oracle,
`fails(pos, step)`, where `pos` is the target's position in the enumeration.
Whether entering a target's clone raises is decided by `cloneFails(pos)`.
The enumeration itself (`get_repositories_and_branches`) is a function
parameter of `RunBot`. It gives the targets it yields and whether it raises
after the last of them. The entries of each clone's `setup/` directory are a
parameter too.

`_get_python` is called inside the per-target `try` (line 116). So, on the
modelled `int()` domain, a malformed branch fails only its own target. It fails
after the table, README and setup steps, and the push when `--push` is given,
have run without raising (`Bot.MalformedBranchFailsLate`).

## How a run ends

`Bot.RunEnd` is `Exit(code)`, for `sys.exit(code)`, or `Uncaught`, for an
exception leaving `main`. `Bot.ExitStatus` maps each to the process's exit
status.

## Model

| member | source | states |
|---|---|---|
| `Branch.JoinSplit` | tools/main_branch_bot.py:18 | joining the pieces of `branch.split('.')` with '.' gives back the branch string |
| `Branch.SplitJoin` | tools/main_branch_bot.py:18 | splitting a '.'-join of dot-free pieces gives back exactly those pieces |
| `Branch.Split` | tools/main_branch_bot.py:18 | `str.split` always yields at least one piece, and no piece contains the separator |
| `Branch.DigitsValue` | tools/main_branch_bot.py:18 | the value `int()` gives a digit string; a string of `k` digits reads below `10^k` |
| `Branch.DecimalValue` | tools/main_branch_bot.py:18 | `int(str(n)) == n` for every natural number |
| `Branch.ParseInt` | tools/main_branch_bot.py:18 | `int(p)` succeeds exactly on non-empty digit strings |
| `Branch.ParseAll` | tools/main_branch_bot.py:18 | `map(int, parts)` succeeds exactly when every part parses; then it keeps the length and parses each part in place |
| `Branch.ParseBranch` | tools/main_branch_bot.py:18 | the parse succeeds exactly on names made of digit groups separated by single dots, and then gives at least one component |
| `Branch.ParseBranchDefined` | tools/main_branch_bot.py:18 | the same equivalence between the split-then-int parse and the character-level grammar of branch names |
| `Branch.SplitShape` | tools/main_branch_bot.py:18 | the pieces of a split are digit strings (all but the first non-empty) exactly when the string has only digits and single dots and does not end in a dot |
| `Branch.ParseTwoPieces` | tools/main_branch_bot.py:18 | a name "a.b" of two digit strings reads as the tuple (int(a), int(b)) |
| `Branch.FormatParse` | tools/main_branch_bot.py:18 | reading the canonical name of any version tuple gives back that tuple |
| `Branch.TupleLess` | tools/main_branch_bot.py:19 | Python's tuple `<`: the first differing component decides, and a proper prefix is smaller; no tuple is below an equal one |
| `Branch.TupleLessIff` | tools/main_branch_bot.py:19 | Python's tuple `<` holds exactly when the tuples agree up to some position and the left one is smaller there or ends there while the right one goes on |
| `Branch.TupleLessIrreflexive` | tools/main_branch_bot.py:19 | no tuple is smaller than itself |
| `Branch.TupleLessTransitive` | tools/main_branch_bot.py:19 | tuple `<` is transitive |
| `Branch.TupleLessTotal` | tools/main_branch_bot.py:19 | of two different tuples, one is smaller |
| `Runtime.CurrentInterpreter` | tools/main_branch_bot.py:21-24 | at or after 11.0: the running executable when the major version is 3, else the literal "python3" |
| `Runtime.GetPython` | tools/main_branch_bot.py:17-24 | on the modelled `int()` domain (see `Branch.ParseInt` under Left out), `_get_python` raises exactly for branch names that are not dot-separated digit groups |
| `Runtime.NeedsLegacy` | tools/main_branch_bot.py:19 | `version < (11, 0)`: a major component below 11 always needs the legacy interpreter, and one above 11 never does |
| `Runtime.NeedsLegacyIff` | tools/main_branch_bot.py:19 | a parsed version is below (11, 0) exactly when its major component is below 11 or it is (11,) alone |
| `Runtime.GetPythonChoice` | tools/main_branch_bot.py:17-24 | for a well-formed branch, `_get_python` returns the legacy interpreter exactly when the major version is below 11 or the name is "11" alone, and the running interpreter's choice otherwise |
| `Runtime.ModernBranchIgnoresLegacy` | tools/main_branch_bot.py:21-24 | at or after (11, 0), the result depends neither on the branch nor on the `--python2` value |
| `Runtime.LegacyEight` | tools/main_branch_bot.py:17-20 | "8.0" gives the legacy interpreter |
| `Runtime.LegacyTen` | tools/main_branch_bot.py:17-20 | "10.0" and "10.99" give the legacy interpreter: the minor component does not carry into the major one |
| `Runtime.LegacyEleven` | tools/main_branch_bot.py:17-20 | "11" gives the legacy interpreter, because (11,) is a proper prefix of (11, 0) |
| `Runtime.ModernExamples` | tools/main_branch_bot.py:21-24 | "11.0" and "12.0" give the running interpreter's choice |
| `Runtime.MalformedExamples` | tools/main_branch_bot.py:18 | "", "8.x", "8..0" and "12." make `_get_python` raise: each has a component `int()` rejects |
| `Bot.Skipped` | tools/main_branch_bot.py:59 | the branches 6.1 and 7.0, passed over before their clone |
| `Bot.SkippedPredateEight` | tools/main_branch_bot.py:48 | both skipped branches parse to versions below (8, 0); the converse does not hold: only 6.1 and 7.0 are skipped (line 59), so another branch below 8.0, such as 6.0, is processed like any other (`Bot.EveryTargetAttempted` applies to it) |
| `Bot.RepoFilter` | tools/main_branch_bot.py:52-54 | an explicit `--repo` becomes a one-element filter; when it is absent or empty, the filter is empty |
| `Bot.BranchFilter` | tools/main_branch_bot.py:55-57 | an explicit `--branch` becomes a one-element filter; when it is absent or empty, the main branches are used |
| `Bot.Plan` | tools/main_branch_bot.py:62-117 | the steps are table, README, setup, then push only with `--push`, then dist; all distinct, table first and dist last |
| `Bot.SetupDirs` | tools/main_branch_bot.py:112 | each entry `d` of `setup/` becomes `setup/d`, in order |
| `Bot.WithCommit` | tools/main_branch_bot.py:80-95 | with `--push`, the argv gains exactly one trailing `--commit`; without it, the argv is unchanged |
| `Bot.ContextFor` | tools/main_branch_bot.py:112-116 | the values a target's publishing step is built from: the `--target` index, the target's own `setup/` entries as `setup_dirs`, and `_get_python` on the target's branch |
| `Bot.CommandFor` | tools/main_branch_bot.py:68-117 | every step has a command except dist when the interpreter choice raises; only dist is the in-process publishing call |
| `Bot.ArgvShapes` | tools/main_branch_bot.py:68-105 | table argv always ends in `--commit`; README and setup argv have their fixed prefix and end in `--commit` exactly when pushing; push argv is `git push origin <branch>`; when the interpreter choice succeeds, dist publishes to the index with the setup dirs and that interpreter |
| `Bot.DistCarriesChoice` | tools/main_branch_bot.py:112-116 | every publishing invocation a target makes uses the `--target` index, the target's own `setup/` entries and the interpreter `_get_python` chose for its branch, which therefore did not raise |
| `Bot.Attempt` | tools/main_branch_bot.py:62-119 | the try body over a plan: each step's invocation in turn until one raises; what it promises is stated by `Bot.AttemptShape` and checked against `Bot.RunTarget` |
| `Bot.Outcome` | tools/main_branch_bot.py:59-119 | what one target does: nothing for a skipped branch, otherwise its try body, which makes an invocation or raises |
| `Bot.RunTarget` | tools/main_branch_bot.py:62-119 | the imperative try body makes exactly the invocations of `Attempt` over `Plan(push)` and raises exactly when `Attempt` does |
| `Bot.AttemptShape` | tools/main_branch_bot.py:62-119 | steps run in plan order with their commands; none runs after the first step that raises; the target fails exactly when some planned step raises, otherwise all steps run; a failing target stops at the step that raised |
| `Bot.TargetSteps` | tools/main_branch_bot.py:62-119 | for a target that is not skipped, the steps run are a prefix of the plan, each with its own command; all but the last succeeded; the target fails exactly when a planned step raises |
| `Bot.MalformedBranchFailsLate` | tools/main_branch_bot.py:98-119 | on the modelled `int()` domain (see `Branch.ParseInt` under Left out): with a branch name int() rejects and no failing command, the target fails after exactly table, README, setup and (with `--push`) push have run, and dist never runs |
| `Bot.StopsAtReadme` | tools/main_branch_bot.py:68-82 | without `--push`, a target whose README generation raises runs exactly the table and README steps and fails |
| `Bot.RunsAllFour` | tools/main_branch_bot.py:62-117 | without `--push`, a target with a parsable branch and no failing step runs table, README, setup and dist and does not fail |
| `Bot.AnyRaised` | tools/main_branch_bot.py:118-119 | some target among the first `n` raised in its try body, which is what sets `exit_code` to 1 |
| `Bot.CloneAborts` | tools/main_branch_bot.py:59-61 | a target not on a skipped branch whose clone raises when entered, outside the try |
| `Bot.ReachedFrom` | tools/main_branch_bot.py:58-61 | the run gets past every target before the first non-skipped one whose clone raises, and stops at that one |
| `Bot.RunLog` | tools/main_branch_bot.py:58-124 | the invocations of a run: those of every target before the first clone that raises, in order |
| `Bot.RunEndOf` | tools/main_branch_bot.py:58-125 | how the target loop ends: uncaught at a clone that raises, else `sys.exit(1)` when some try body raised, else `sys.exit(0)` |
| `Bot.BotEnd` | tools/main_branch_bot.py:58 | an enumeration that raises also leaves `main` uncaught |
| `Bot.ExitStatus` | tools/main_branch_bot.py:125 | the process's exit status: the code given to `sys.exit`, or 1 for an uncaught exception; 0 only for `sys.exit(0)` |
| `Bot.ProcessTargets` | tools/main_branch_bot.py:58-124 | the loop's log holds the invocations of every target before the first clone that raises, in enumeration order; the loop ends uncaught at that clone, and otherwise with exit code 1 exactly when some target raised, else 0 |
| `Bot.RunBot` | tools/main_branch_bot.py:50-125 | `main` enumerates with the filters built from the options, ends with that log, and ends uncaught also when the enumeration raises |
| `Bot.LogUpToStep` | tools/main_branch_bot.py:58-124 | processing one more target appends exactly its invocations to the log |
| `Bot.LogIsolation` | tools/main_branch_bot.py:58-124 | inside the run's log, the invocations tagged with a target's position are exactly what that target does on its own |
| `Bot.LogTargets` | tools/main_branch_bot.py:58-60 | every logged invocation belongs to an enumerated target at its position, and never to a 6.1 or 7.0 branch |
| `Bot.OutcomeCallsAt` | tools/main_branch_bot.py:58-119 | every invocation a target makes carries its position and target; skipped targets make none |
| `Bot.AttemptOwnOracle` | tools/main_branch_bot.py:62-119 | a target's try body depends only on that target's own step outcomes |
| `Bot.OutcomeOwnWorld` | tools/main_branch_bot.py:58-124 | a target's outcome depends only on its own step outcomes and its own clone, not on other targets |
| `Bot.EveryTargetAttempted` | tools/main_branch_bot.py:58-124 | a non-skipped target is attempted whatever earlier try bodies did, as long as no clone up to its own raised: its addons-table update is in the log |
| `Bot.CloneFailureEndsRun` | tools/main_branch_bot.py:58-61 | the first clone that raises ends the run uncaught; the log then holds the targets before it and nothing from it on |
| `Bot.SkippedTargetIsInert` | tools/main_branch_bot.py:59-60 | a 6.1 or 7.0 target makes no invocation, does not affect the exit code and is never cloned |
| `Bot.ExitCodeMeaning` | tools/main_branch_bot.py:58-125 | the run reaches `sys.exit` exactly when no clone raised; it exits with 1 exactly when, besides, some non-skipped target's try body raised; the code is 0 or 1 |
| `Bot.ExitStatusMeaning` | tools/main_branch_bot.py:50-125 | the process exits with 0 exactly when the enumeration does not raise, no clone raises and no try body raises |
| `Bot.RaisedStaysRaised` | tools/main_branch_bot.py:50-125 | once a target has raised, the exit code stays 1 for the rest of the run |
| `Bot.ExplicitLegacyBranchRunsNothing` | tools/main_branch_bot.py:55-60 | an explicit `--branch 6.1` or `--branch 7.0` runs nothing, clones nothing and exits 0, provided the enumeration keeps to its branch filter |
| `Bot.NothingRunsWhenAllSkipped` | tools/main_branch_bot.py:59-60 | when every target is on a skipped branch, the log is empty |
| `Bot.TwoTargetRun` | tools/main_branch_bot.py:58-124 | A@8.0 and B@11.0 without `--push`, where both clones succeed and only A's README step raises: A runs table and README, B runs all four steps, and the run exits 1 |

## Left out

- Running the external commands (`subprocess.check_call`, lines 68, 82, 96 and 103) and `dist_to_simple_index` (line 113): each is an invocation in the log, and an oracle decides whether it raises.
- `get_repositories_and_branches` and `MAIN_BRANCHES` (lines 11-13) are not part of this model. The enumeration is a function parameter of `RunBot`, given as the targets it yields and whether it raises after them, and the main branches are a parameter too.
- `temporary_clone` (line 61) is not part of this model. Entering the clone either raises, which `cloneFails` decides, or gives the target its own `setup/` entries. A failure while leaving the clone, after the try body has run, is not modelled, because what the clone does on exit is not part of this model.
- `os.listdir('setup')` (line 112) is I/O. The entries are a parameter per target, and a failing listdir is not modelled.
- `os.path.abspath(target)` (line 51): the index directory is taken as already absolute.
- `Bot.SetupDirs`: it writes `opj('setup', d)` as `"setup/" + d`. That is POSIX `os.path.join` for the relative names that `listdir` returns.
- stderr progress lines and `traceback.print_exc` (lines 64-124): diagnostics only.
- `click` option parsing (lines 27-40) and `sys.exit` (line 125): `RunBot` takes the options as a value and returns how the run ends.
- `Branch.ParseInt`: it models `int()` only on non-empty ASCII digit strings. Python also accepts surrounding whitespace, a sign, underscores between digits and non-ASCII digits. Such branch names are outside the model and count as raising. Python, for example, reads "-8.0" as (-8, 0) and picks the legacy interpreter. In the other direction, Python 3.11 and later `int()` raises `ValueError` on a digit string longer than 4300 digits (the integer string conversion limit), while the model reads digit strings of any length.
- `Runtime.MalformedExamples`: it gives no example of a name that Python's `int()` accepts but the model rejects, such as a signed name like "-8.0"; those lie outside the modelled `int()` domain (see `Branch.ParseInt`).
- No rollback after a push when publishing later fails (lines 98-117). The source has none either, and the model keeps that gap.
