# Gust menus, modelled in Dafny

Gust is a terminal front end for `git`. Each of its menus reads some `git`
output, shows the operator a prompt built from it, and forwards the answer to
the next `git` call. This project models the decision logic between those
steps for every menu:

- add, reset, commit, branches, undo-commit and remove (`src/menus/`);
- the older copies of add, reset, commit and branches, and the checkout menu
  (`src/cli_menus.rs`);
- the `Commands` name parser (`src/commands.rs`);
- `strip_vec_colors` (`src/utils.rs`).

How the model talks to the outside world:

- **Queries** are inputs, already split into lines. These are `git status --short`,
  the branch list, `git log` and `git ls-tree`. Each is a
  `Result<Option<seq<string>>>`, so an error and an empty answer are both represented.
- **Fixed prompts** are inputs too. These are the yes/no questions, typed names and
  the convention picks. Each is a `Result`, so that Rust's `?` on a failing
  prompt is modelled.
- **Computed prompts** are functions of the list they are shown. These are the
  prompts whose choices the menu builds itself (`Select`, `Pick`). A
  lemma can therefore state exactly what the operator was offered.
- **`git` side effects** are `Action` values: add, reset, checkout, fetch, create
  branch, revert, rm and commit. Each menu returns its result together with the
  ordered trace of actions it issued. The repository is an oracle
  `Vcs = Action -> Result<()>`. A failing action ends the menu with its error,
  and that action stays in the trace.
- **Colouring and `console::strip_ansi_codes`** are uninterpreted functions
  bundled in `Styling`. The round-trip lemmas assume `StripUndoesPaint`: stripping
  a painted text gives back the text.

How each menu is modelled:

- Every menu has a specification function (`AddRun`, `CommitRun`, …) returning
  `Run(result, trace)`.
- Every menu also has an imperative method (`GitAddCli`, …) whose loops mirror the
  source's loops. Its `ensures` ties the method to the specification function.
- Lemmas state the menu's promises about the specification function.
- Panicking `unwrap`s and indexing are preconditions. Examples are a status line
  too short to slice, an index outside the list, and `All` where the code panics.

The older copies share the line folds of `Choices` through an `unquote` flag
(false: paths are taken verbatim), and the older branches menu is
`BranchesRun` with `askBase` false.

## Model

| member | source | states |
|---|---|---|
| Utils.StripAll | src/utils.rs:7-16 | stripping a list keeps its length |
| Utils.StripAllAt | src/utils.rs:12-14 | element `i` of the stripped list is `strip_colors` of input element `i`, and no other element |
| Utils.StripAllEach | src/utils.rs:12-14 | every element of the stripped list is `strip_colors` of the input element at its place |
| Utils.StripAllAppend | src/utils.rs:12-15 | stripping works element by element and preserves order: the strip of a concatenation is the concatenation of the strips |
| Utils.StripAllPainted | src/utils.rs:3-16 | when stripping undoes painting, stripping a list painted element-wise gives the unpainted list back |
| Utils.StripVecColors | src/utils.rs:7-16 | the in-place loop leaves exactly `StripAll` of its input, the empty list for the empty list |
| Commands.ToLower | src/commands.rs:9 | lower-casing keeps the length and maps every character by itself |
| Commands.GetFromString | src/commands.rs:8-15 | a command comes back exactly when the lower-cased input is "add", "reset" or "commit", and its name is that lower-cased input |
| Commands.ToLowerOfLower | src/commands.rs:9 | lower-casing leaves lower-case text unchanged |
| Commands.ToLowerIdempotent | src/commands.rs:9 | lower-casing twice is lower-casing once |
| Commands.ToString | src/commands.rs:17-23 | every command is named by one of "add", "reset" and "commit" |
| Commands.ToStringIsLower | src/commands.rs:17-23 | every command name is lower case |
| Commands.ToStringInjective | src/commands.rs:17-23 | distinct commands have distinct names |
| Commands.RoundTrip | src/commands.rs:8-23 | parsing a command's name gives the command |
| Commands.CaseInsensitive | src/commands.rs:9 | an input and its lower-case form parse alike |
| Commands.ParseIff | src/commands.rs:8-15 | an input parses to `c` if and only if its lower-case form is `c`'s name (every other input parses to `None`) |
| Choices.PathOfQuoted | src/menus/add_cli.rs:30-31 | a quoted name (char 3 is `"`) is taken as `line[4..len-1]`, exactly the name without quotes |
| Choices.PathOfPlain | src/menus/add_cli.rs:32-34 | an unquoted name is taken as `line[3..]`, with or without quote stripping |
| Choices.ClassifyUnstaged | src/menus/add_cli.rs:22-88 | second char `' '` or any unlisted char: no choice; `?` bright green, `D`/`R` bright yellow, `A` bright red; `M` is green under `' '`/`A`, yellow under M/D/R/U, and an error under any other first char (both directions) |
| Choices.AddChoicesOkIff | src/menus/add_cli.rs:19-89 | the add loop succeeds if and only if no line is rejected |
| Choices.AddChoicesRejects | src/menus/add_cli.rs:58-64 | the loop fails with the message naming the first rejected line |
| Choices.AddChoicesLength | src/menus/add_cli.rs:19-89 | there are never more choices than lines |
| Choices.AddLinesReadableAppend | src/menus/add_cli.rs:19-89 | a concatenation can be read if and only if its first part can and, when that part has no rejected line, so can the rest |
| Choices.PrependPrepend | src/menus/add_cli.rs:19-89 | pushing two runs of choices is pushing their concatenation |
| Choices.AddChoicesAppend | src/menus/add_cli.rs:19-89 | without rejections, the choices of a concatenation are the concatenation of the choices (input order is kept) |
| Choices.AddChoicesAppendRejected | src/menus/add_cli.rs:58-64 | a rejection in the first part decides the outcome, whatever follows |
| Choices.AddChoicesSkip | src/menus/add_cli.rs:22-26 | a skipped line (second char `' '` or unlisted) contributes no choice |
| Choices.AddChoicesOffer | src/menus/add_cli.rs:28-84 | an offered line contributes exactly its painted path, in place |
| Choices.AllAddLinesReadable | src/menus/add_cli.rs:19-89 | without rejections every line is readable |
| Choices.AddChoicesRoundTrip | src/menus/add_cli.rs:19-89 | stripping the choices gives exactly the offered paths, in line order |
| Choices.CollectAddChoices | src/menus/add_cli.rs:19-89 | the loop, with its early `return Err`, computes exactly `AddChoices` |
| Choices.StagedLinesReadableAppend | src/menus/reset_cli.rs:24-36 | the staged loop can read a concatenation if and only if it can read both parts |
| Choices.StagedChoicesAppend | src/menus/reset_cli.rs:24-36 | the staged choices of a concatenation are the concatenation of the choices |
| Choices.StagedChoicesDrop | src/menus/reset_cli.rs:25-34 | a line whose first char is not M, A, C or D is dropped |
| Choices.StagedChoicesKeep | src/menus/reset_cli.rs:26-33 | a staged line contributes its yellow path, in place |
| Choices.StagedChoicesEmptyIff | src/menus/commit_cli.rs:27-40 | there are no staged choices if and only if no line is staged |
| Choices.StagedChoicesLength | src/menus/reset_cli.rs:24-36 | there are never more staged choices than lines |
| Choices.CollectStaged | src/menus/commit_cli.rs:26-38 | the staged loop computes exactly `StagedChoices`, and so does the loop in src/menus/reset_cli.rs:23-36 |
| Choices.UnstagedChoicesEmptyIff | src/cli_menus.rs:306-314 | there are no checkout choices if and only if every line has second char `' '` |
| Choices.CollectUnstaged | src/cli_menus.rs:303-311 | the loop skips lines with second char `' '` and pushes every other line's `line[3..]`, yellow |
| Choices.PaintAll | src/menus/remove_cli.rs:15-18 | one painted choice per line |
| Choices.PaintAllAt | src/menus/remove_cli.rs:15-18 | choice `i` is line `i`, painted |
| Choices.PaintAllRoundTrip | src/menus/remove_cli.rs:15-27 | stripping the painted lines gives the lines back |
| Choices.CollectPainted | src/menus/remove_cli.rs:15-18 | the ls-tree loop computes exactly the painted lines, in order |
| Choices.RawPaths | src/cli_menus.rs:319-321 | one path per line: path `i` is `line[3..]` of line `i`, quotes kept |
| Choices.CollectAllPaths | src/cli_menus.rs:319-321 | the refill loop offers every line's `line[3..]`, yellow, in order |
| Choices.CollectLines | src/menus/undo_commit_cli.rs:18-21 | the choices are exactly the log lines, in order |
| Choices.ShortHash | src/menus/undo_commit_cli.rs:32 | the hash is the first seven characters of the line |
| AddCli.GitAddCli | src/menus/add_cli.rs:7-117 | the menu computes exactly `AddRun` |
| AddCli.AddRunNothingToDo | src/menus/add_cli.rs:11-17 | no `git add` for a clean tree, an empty choice list, `None`, or `Some([])` (lines 91-94, 103-110) |
| AddCli.AddRunRejects | src/menus/add_cli.rs:58-64 | a rejected line fails the menu with its message; nothing is staged and no prompt is shown |
| AddCli.AddRunSome | src/menus/add_cli.rs:107-113 | a non-empty `Some(xs)` adds exactly `xs`, with one `git add` |
| AddCli.AddRunAll | src/menus/add_cli.rs:115 | `All` adds every offered path unstyled: exactly the paths the lines name, quotes removed |
| AddCli.AddRunAtMostOneAdd | src/menus/add_cli.rs:7-117 | the menu issues at most one action, and it is a `git add` |
| ResetCli.GitResetCli | src/menus/reset_cli.rs:6-47 | the menu computes `ResetRun`, and the older copy (src/cli_menus.rs:89-123) does too, for `unquote` false |
| ResetCli.ResetOffersStaged | src/menus/reset_cli.rs:23-37 | the prompt is shown exactly the staged paths, in order; an unstaged line changes nothing |
| ResetCli.ResetRunNothingToDo | src/menus/reset_cli.rs:17-41 | a `None` status or a `None` answer resets nothing and returns `Ok` |
| ResetCli.ResetRunSome | src/menus/reset_cli.rs:42 | `Some(xs)` resets exactly `xs` |
| ResetCli.ResetRunAll | src/menus/reset_cli.rs:43 | `All` is an error with the fixed message, and nothing is reset; also for the older copy (src/cli_menus.rs:113-120) |
| CommitCli.JoinAppend | src/menus/commit_cli.rs:111 | joining with no separator distributes over concatenation |
| CommitCli.FilterNone | src/menus/commit_cli.rs:103-107 | the filter leaves no "None" fragment and never adds one |
| CommitCli.FilterNoneSingle | src/menus/commit_cli.rs:103-107 | a single fragment is dropped exactly when it is "None" |
| CommitCli.FilterNoneAppend | src/menus/commit_cli.rs:103-107 | filtering a concatenation concatenates the filtered parts, so every fragment other than "None" is kept, in order |
| CommitCli.FilterNoneKeeps | src/menus/commit_cli.rs:103-107 | a list without "None" comes back unchanged |
| CommitCli.FilterNoneIdempotent | src/menus/commit_cli.rs:103-107 | filtering twice is filtering once |
| CommitCli.AssemblePrefix | src/menus/commit_cli.rs:72-111 | the successive pushes, the filter and the join compute exactly `Prefix` |
| CommitCli.PrefixWithoutTypes | src/menus/commit_cli.rs:74 | with `use_types` off the initial text is empty |
| CommitCli.PrefixBypass | src/menus/commit_cli.rs:79 | type "None" pushes nothing more, asks no further prompt, and filters to the empty text |
| CommitCli.PrefixMissingType | src/menus/commit_cli.rs:76-79 | a missing type becomes "" and is not the bypass: the separator and space are still pushed |
| CommitCli.PrefixLayout | src/menus/commit_cli.rs:80-99 | for a real type the text is type, then `opening scope closing` (scopes on and scope not "None"), then the marker (on and confirmed), then separator and one space |
| CommitCli.CommitArgs | src/menus/commit_cli.rs:124-131 | the arguments are four: "-m", the subject, "-m", the description, never concatenated |
| CommitCli.CommitMessage | src/menus/commit_cli.rs:62-133 | the commit step computes exactly `CommitMessageRun` |
| CommitCli.GitCommitCli | src/menus/commit_cli.rs:10-137 | the menu computes exactly `CommitRun` |
| CommitCli.CommitRunDeclined | src/menus/commit_cli.rs:19-62 | a clean tree, declining to add when nothing is staged, or declining the staged files, commits nothing |
| CommitCli.CommitRunAddsFirst | src/menus/commit_cli.rs:40-44 | with nothing staged and adding accepted, the add menu runs first; its error ends the menu, otherwise the commit follows |
| CommitCli.CommitRunCommits | src/menus/commit_cli.rs:62-133 | a confirmed commit is `Commit(None)` with git's dialog, else one commit with `["-m", edit(prefix), "-m", description]`, in both cases handed `verbose_commit`; a failing convention prompt commits nothing |
| BranchesCli.RemoteNames | src/menus/branches_cli.rs:50 | a name containing "remotes/" anywhere is remote |
| BranchesCli.RemoteNamesOnly | src/menus/branches_cli.rs:50 | conversely, a remote name has "remotes/" somewhere inside it |
| BranchesCli.FetchBranch | src/menus/branches_cli.rs:50-52 | a fetch is issued exactly for a remote name |
| BranchesCli.CreateOnCommit | src/menus/branches_cli.rs:103-140 | the log, commit pick and creation compute exactly `BaseRun` |
| BranchesCli.GitBranchesCli | src/menus/branches_cli.rs:8-152 | the menu computes `BranchesRun`, and the older copy (src/cli_menus.rs:237-281) does too, for `askBase` false |
| BranchesCli.SwitchChecksOut | src/menus/branches_cli.rs:49-57 | a switch checks out exactly `[stripped name]`, preceded by a fetch when remote; a failed fetch checks out nothing |
| BranchesCli.SwitchFetchesIffRemote | src/menus/branches_cli.rs:50-52 | a switch fetches if and only if the stripped name contains "remotes/"; also in the older copy (src/cli_menus.rs:256-263) |
| BranchesCli.BranchesRunStops | src/menus/branches_cli.rs:34-36 | no branches: nothing happens; a non-index switch answer, an unknown action index and an indexless action answer are errors with their fixed messages and no action (lines 59, 146-148) |
| BranchesCli.CreateAtHead | src/menus/branches_cli.rs:141-143 | declining a base commit creates the named branch with no start point, and nothing else |
| BranchesCli.CreateOnPickedCommit | src/menus/branches_cli.rs:71-135 | the base branch is fetched iff remote, its own log is offered, and the branch starts at the picked line's first seven characters |
| BranchesCli.CreateAbandoned | src/menus/branches_cli.rs:104-126 | an empty log or the "None" commit creates nothing and returns `Ok` |
| UndoCommitCli.GitUndoCommitCli | src/menus/undo_commit_cli.rs:6-44 | the menu computes exactly `UndoRun` |
| UndoCommitCli.UndoRunNothingToDo | src/menus/undo_commit_cli.rs:10-29 | an empty log or the "None" entry reverts nothing and returns `Ok` |
| UndoCommitCli.UndoRunRevert | src/menus/undo_commit_cli.rs:30-34 | picking line `i` reverts exactly its first seven characters, with one `git revert` |
| RemoveCli.SelectedPaths | src/menus/remove_cli.rs:25-30 | `All` stands for all choices, `Some(xs)` for `xs`, each element stripped at its own place; `None` for nothing |
| RemoveCli.GitRemoveCli | src/menus/remove_cli.rs:6-41 | the menu computes exactly `RemoveRun` |
| RemoveCli.RemoveChoices | src/menus/remove_cli.rs:15-27 | one choice per ls-tree line in order; `All` names exactly the listed files |
| RemoveCli.RemoveAsksDiskFirst | src/menus/remove_cli.rs:20-26 | the disk question comes before the selection: its error ends the menu |
| RemoveCli.RemoveRunNothingToDo | src/menus/remove_cli.rs:10-33 | an empty listing or an empty path list removes nothing |
| RemoveCli.RemoveRunRm | src/menus/remove_cli.rs:34-35 | a non-empty path list is removed by one `git rm` carrying the disk answer |
| LegacyMenus.LegacyGitAddCli | src/cli_menus.rs:9-87 | the older add menu computes exactly `LegacyAddRun` |
| LegacyMenus.LegacyAddRunSome | src/cli_menus.rs:84 | any `Some(xs)`, the empty one included, adds exactly `xs` |
| LegacyMenus.LegacyAddRunAll | src/cli_menus.rs:85 | `All` adds exactly the listed paths, verbatim (`line[3..]`) |
| LegacyMenus.LegacyAddRunStops | src/cli_menus.rs:13-82 | a clean tree, no choice or `None` adds nothing; a rejected line is an error |
| LegacyMenus.VerbatimKeepsQuotes | src/cli_menus.rs:31 | without quote stripping, a quoted name is taken with its quotes |
| LegacyMenus.LegacyResetRunSome | src/cli_menus.rs:106-118 | the older reset offers verbatim staged paths and resets `Some(xs)` exactly |
| LegacyMenus.LegacyAssemblePrefix | src/cli_menus.rs:181-209 | the older pushes compute exactly `LegacyPrefix` |
| LegacyMenus.LegacyPrefixKeepsNone | src/cli_menus.rs:183-205 | picking "None" for the type and the scope puts "None" into the initial text, where the newer menu gives "" |
| LegacyMenus.LegacyPrefixLayout | src/cli_menus.rs:183-205 | older text: type, then both delimiters around the scope whenever scopes are on, then the marker, then separator and one space |
| LegacyMenus.LegacyGitCommitCli | src/cli_menus.rs:125-235 | the older commit menu computes exactly `LegacyCommitRun` |
| LegacyMenus.LegacyCommitRunCommits | src/cli_menus.rs:171-231 | a confirmed older commit is `Commit(None)` with git's dialog, else one commit with subject `edit(LegacyPrefix)` and the description, in both cases handed `verbose_commit`; a failing convention prompt commits nothing |
| LegacyMenus.LegacyCreateIgnoresBase | src/cli_menus.rs:271-274 | the older menu creates at HEAD; no base question, branch or log plays a role |
| LegacyMenus.UnstagedChoicesPainted | src/cli_menus.rs:306-311 | the checkout choices are the unstaged paths painted yellow |
| LegacyMenus.GitCheckoutCli | src/cli_menus.rs:293-358 | the checkout menu computes exactly `CheckoutRun` |
| LegacyMenus.CheckoutAllUnstaged | src/cli_menus.rs:341-353 | `All` checks out exactly the unstaged paths, unstyled, with no reset |
| LegacyMenus.CheckoutSomeUnstaged | src/cli_menus.rs:341-353 | `Some(xs)` checks out `xs` stripped, with no emptiness check; `None` checks out nothing |
| LegacyMenus.CheckoutAllStaged | src/cli_menus.rs:314-335 | all staged and confirmed: a non-empty selection is reset, then checked out, same list; `All` means every listed path |
| LegacyMenus.CheckoutRunNothing | src/cli_menus.rs:297-338 | a clean tree, an empty listing or declining checks out nothing |

## Left out

- Subprocess and terminal I/O are not modelled. This covers `src/cli.rs`, which runs the external `gum` binary with a stdin writer thread, plus every `println!`, `clear_last_lines` and colour rendering. Each `cli::` query or prompt is an input, and each `git` call is an `Action`. The error of a failing `clear_last_lines` in the branches menu is not modelled.
- Splitting `git` output with `str::lines()` is not modelled: queries arrive as lines. In the checkout menu, the source tests `status_output.len() != 0` as a string. The model tests for a non-empty line list.
- Prompt flags are not modelled. These are the `has_none` and `show_all` arguments and `config.show_all_in_add_menu`. The prompt oracle decides what it answers. `All` is excluded only where the source panics on it.
- Operator editing is not modelled. The subject edit is an oracle `edit` on the initial text, and the description is a given string. The panics of their `unwrap`s are not modelled. The subject prompt refuses an empty answer (`allow_empty(false)`), but `edit` may return the empty text, so the model admits more subjects than the prompt does.
- `load_convention`, `load_config` and `save_config` are file I/O. `ConventionSettings` is a parameter, and `Config` is a plain record. `Config::default` only seeds a new settings file and is not modelled. The fields the core never reads are carried but unused: `show_welcome`, `use_commit_convention`, `use_footers`, `allow_none_convention` and the footers.
- The menu dispatch in `src/menus/cli_menus.rs`, `main.rs`, `main_menu.rs` and `mod.rs` is argument parsing and wiring, so it is not modelled. `git_pull_cli` and `git_push_cli` are one-call wrappers and are not modelled either.
- `git_commit` receives the whole `Config`; the model hands it `verbose_commit` in the `Commit` action. That the flag becomes git's own `-v` option is assumed from the tool's interface and not seen in the source, because `git_commit` is not visible; what `git_commit` does with the rest of `Config` is not modelled.
- What `git rm` does with the `as_cached` answer is not modelled, because `git_rm` is not visible. The model carries the answer into the `Rm` action.
- Characters are assumed ASCII, so Rust's byte offsets (`[3..]`, `[..7]`) are character offsets.
- Commands.ToLower: lower-cases the ASCII letters only, while Rust's `to_lowercase` follows Unicode. The command names are ASCII, so parsing agrees on every input whose non-ASCII letters would not lower-case into "add", "reset" or "commit".
- Utils.StripAllPainted: `strip_ansi_codes` is uninterpreted, so a round trip holds only under the `StripUndoesPaint` hypothesis.

## Findings

| source | as written | input that shows it | evidently intended | confidence | as-written member | corrected member |
|---|---|---|---|---|---|---|
| src/cli_menus.rs:183-205 | The older commit menu pushes whatever the type and scope prompts return, including their "None" entries. | `use_types` and `use_scope` on, `use_important` off, and "None" picked for both prompts. With delimiters `(`, `)` and separator `:`, the initial text is `None(None): `. | Picking "None" should skip the convention fragments, as the newer menu does with its bypass and filter (src/menus/commit_cli.rs:79, 103-107). | medium, not executed | LegacyMenus.LegacyPrefixKeepsNone | CommitCli.PrefixBypass |
