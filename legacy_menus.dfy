/** The older copies of the menus (src/cli_menus.rs), which the program keeps
    beside the newer ones: an add menu without quote stripping, a reset menu
    and a commit menu reading paths verbatim, a commit prefix without the
    "None" bypass, a branches menu without base commits, and the checkout
    menu, which has no newer copy. */
module LegacyMenus {

  import opened Cli
  import opened Utils
  import opened Choices
  import opened Settings
  import AddCli
  import ResetCli
  import CommitCli
  import BranchesCli
  import RemoveCli

  // ---------------------------------------------------------------------------
  // The older add menu (src/cli_menus.rs:9-87)

  /** The status lines are ones the older add loop can read without a panic. */
  predicate LegacyAddReadable(a: AddCli.AddAnswers) {
    a.status.Ok? && a.status.value.Some? ==> AddLinesReadable(a.status.value.value, false)
  }

  /** The outcome of the older `git_add_cli`: paths are taken verbatim, and a
      selection is staged even when it is empty. */
  function LegacyAddRun(a: AddCli.AddAnswers, st: Styling, vcs: Vcs): Run
    requires LegacyAddReadable(a)
  {
    match a.status
    case Err(e) => Stop(e)
    case Ok(None) => Done
    case Ok(Some(lines)) =>
      match AddChoices(st, lines, false)
      case Err(e) => Stop(e)
      case Ok(choices) =>
        if choices == [] then Done
        else
          match a.select(choices)
          case Err(e) => Stop(e)
          case Ok(None) => Done
          case Ok(Some(xs)) => Issue(vcs, Add(xs))
          case Ok(All) => Issue(vcs, Add(StripAll(st, choices)))
  }

  /** The older `git_add_cli` (src/cli_menus.rs:9-87). */
  method LegacyGitAddCli(a: AddCli.AddAnswers, st: Styling, vcs: Vcs) returns (result: Result<()>, trace: seq<Action>)
    requires LegacyAddReadable(a)
    ensures Run(result, trace) == LegacyAddRun(a, st, vcs)
  {
    trace := [];
    if a.status.Err? {
      return Err(a.status.msg), [];
    }
    if a.status.value.None? {
      return Ok(()), [];
    }
    var collected := CollectAddChoices(st, a.status.value.value, false);
    if collected.Err? {
      return Err(collected.msg), [];
    }
    var choices := collected.value;
    if |choices| == 0 {
      return Ok(()), [];
    }
    var usrSelected := a.select(choices);
    if usrSelected.Err? {
      return Err(usrSelected.msg), [];
    }
    match usrSelected.value {
      case None =>
        result := Ok(());
      case Some(choice) =>
        trace := [Add(choice)];
        result := vcs(Add(choice));
      case All =>
        var paths := StripVecColors(st, choices);
        trace := [Add(paths)];
        result := vcs(Add(paths));
    }
  }

  /** Any selection, the empty one included, is passed to one `git add` as
      returned; the newer menu stages nothing for an empty one. */
  lemma LegacyAddRunSome(a: AddCli.AddAnswers, st: Styling, vcs: Vcs, xs: seq<string>)
    requires LegacyAddReadable(a) && a.status.Ok? && a.status.value.Some?
    requires var r := AddChoices(st, a.status.value.value, false);
      r.Ok? && r.value != [] && a.select(r.value) == Ok(UserResponse.Some(xs))
    ensures LegacyAddRun(a, st, vcs) == Issue(vcs, Add(xs))
  {
  }

  /** "All" stages every offered path, unstyled: when stripping undoes
      painting, exactly the paths the status lines name, quotes included. */
  lemma LegacyAddRunAll(a: AddCli.AddAnswers, st: Styling, vcs: Vcs)
    requires LegacyAddReadable(a) && a.status.Ok? && a.status.value.Some?
    requires var r := AddChoices(st, a.status.value.value, false);
      r.Ok? && r.value != [] && a.select(r.value) == Ok(UserResponse.All)
    requires StripUndoesPaint(st)
    ensures NoRejects(a.status.value.value)
    ensures (AllAddLinesReadable(a.status.value.value, false);
             LegacyAddRun(a, st, vcs) == Issue(vcs, Add(OfferedPaths(a.status.value.value, false))))
  {
    var lines := a.status.value.value;
    AddChoicesOkIff(st, lines, false);
    AddChoicesRoundTrip(st, lines, false);
  }

  /** A clean work tree, no offered line, and the "None" entry stage nothing;
      a rejected line is an error naming it. */
  lemma LegacyAddRunStops(a: AddCli.AddAnswers, st: Styling, vcs: Vcs)
    requires LegacyAddReadable(a) && a.status.Ok?
    ensures a.status.value.None? ==> LegacyAddRun(a, st, vcs) == Done
    ensures a.status.value.Some? && AddChoices(st, a.status.value.value, false) == Ok([]) ==>
      LegacyAddRun(a, st, vcs) == Done
    ensures a.status.value.Some? && AddChoices(st, a.status.value.value, false).Ok? &&
            a.select(AddChoices(st, a.status.value.value, false).value) == Ok(UserResponse.None) ==>
      LegacyAddRun(a, st, vcs) == Done
    ensures a.status.value.Some? && AddChoices(st, a.status.value.value, false).Err? ==>
      LegacyAddRun(a, st, vcs) == Stop(AddChoices(st, a.status.value.value, false).msg)
  {
  }

  // ---------------------------------------------------------------------------
  // The older reset menu (src/cli_menus.rs:89-123): `ResetCli.ResetRun` without
  // quote stripping

  /** Without quote stripping a quoted name reaches the prompt, and so the
      `git reset` of the older reset and commit menus, with its quotes. */
  lemma VerbatimKeepsQuotes(code: string, sep: char, name: string)
    requires |code| == 2
    ensures PathReadable(code + [sep] + "\"" + name + "\"", false)
    ensures PathOf(code + [sep] + "\"" + name + "\"", false) == "\"" + name + "\""
  {
    var line := code + [sep] + "\"" + name + "\"";
    assert line[3..] == "\"" + name + "\"";
  }

  /** The older reset offers the staged lines' paths verbatim, and unstages a
      selection exactly as returned. */
  lemma LegacyResetRunSome(a: ResetCli.ResetAnswers, st: Styling, vcs: Vcs, xs: seq<string>)
    requires ResetCli.ResetReadable(a, false) && a.status.Ok? && a.status.value.Some?
    requires a.select(StagedChoices(st, a.status.value.value, false)) == Ok(UserResponse.Some(xs))
    ensures ResetCli.ResetRun(a, st, vcs, false) == Issue(vcs, Reset(xs))
  {
  }

  // ---------------------------------------------------------------------------
  // The older commit menu (src/cli_menus.rs:125-235)

  /** The older scope fragments: when scopes are used, both delimiters are
      pushed around whatever was picked, "None" or nothing included
      (src/cli_menus.rs:187-194). */
  function LegacyScopeFragments(config: Config, conv: ConventionSettings, p: CommitCli.PrefixAnswers): Result<seq<string>> {
    if !config.useScope then Ok([])
    else
      match p.scopeChoice
      case Err(e) => Err(e)
      case Ok(s) =>
        Ok([conv.scopeDelimeters.opening, CommitCli.UnwrapOr(s, ""), conv.scopeDelimeters.closing])
  }

  /** The older fragments (src/cli_menus.rs:182-205): no bypass, no filter. */
  function LegacyFragments(config: Config, conv: ConventionSettings, p: CommitCli.PrefixAnswers): Result<seq<string>> {
    if !config.useTypes then Ok([])
    else
      match p.typeChoice
      case Err(e) => Err(e)
      case Ok(t) =>
        match LegacyScopeFragments(config, conv, p)
        case Err(e) => Err(e)
        case Ok(scope) =>
          match CommitCli.ImportantFragments(config, conv, p)
          case Err(e) => Err(e)
          case Ok(marker) => Ok([CommitCli.UnwrapOr(t, "")] + scope + marker + [conv.separator, " "])
  }

  /** The older initial text of the subject prompt: the fragments, joined. */
  function LegacyPrefix(config: Config, conv: ConventionSettings, p: CommitCli.PrefixAnswers): Result<string> {
    match LegacyFragments(config, conv, p)
    case Err(e) => Err(e)
    case Ok(frags) => Ok(CommitCli.Join(frags, ""))
  }

  /** The older assembly, by successive pushes (src/cli_menus.rs:181-209). */
  method LegacyAssemblePrefix(config: Config, conv: ConventionSettings, p: CommitCli.PrefixAnswers) returns (r: Result<string>)
    ensures r == LegacyPrefix(config, conv, p)
  {
    var commitMsg: seq<string> := [];
    if config.useTypes {
      if p.typeChoice.Err? {
        return Err(p.typeChoice.msg);
      }
      var ty := CommitCli.UnwrapOr(p.typeChoice.value, "");
      commitMsg := commitMsg + [ty];
      if config.useScope {
        commitMsg := commitMsg + [conv.scopeDelimeters.opening];
        if p.scopeChoice.Err? {
          return Err(p.scopeChoice.msg);
        }
        commitMsg := commitMsg + [CommitCli.UnwrapOr(p.scopeChoice.value, "")];
        commitMsg := commitMsg + [conv.scopeDelimeters.closing];
      }
      ghost var scope := LegacyScopeFragments(config, conv, p).value;
      assert commitMsg == [ty] + scope;
      if config.useImportant {
        if p.important.Err? {
          return Err(p.important.msg);
        }
        if p.important.value {
          commitMsg := commitMsg + [conv.importantSymbol];
        }
      }
      ghost var marker := CommitCli.ImportantFragments(config, conv, p).value;
      assert commitMsg == [ty] + scope + marker;
      commitMsg := commitMsg + [conv.separator];
      commitMsg := commitMsg + [" "];
      assert commitMsg == [ty] + scope + marker + [conv.separator, " "];
    }
    return Ok(CommitCli.Join(commitMsg, ""));
  }

  /** As written, the "None" entries of the older type and scope prompts end
      up in the subject line: picking "None" for both gives, for instance,
      "None(None): " where the newer menu gives the empty text. */
  lemma LegacyPrefixKeepsNone(config: Config, conv: ConventionSettings, p: CommitCli.PrefixAnswers)
    requires config.useTypes && config.useScope && !config.useImportant
    requires p.typeChoice == Ok(Option.Some(CommitCli.Bypass)) && p.scopeChoice == Ok(Option.Some(CommitCli.Bypass))
    ensures LegacyPrefix(config, conv, p) == Ok(
      "None" + conv.scopeDelimeters.opening + "None" + conv.scopeDelimeters.closing + conv.separator + " ")
    ensures CommitCli.Prefix(config, conv, p) == Ok("")
  {
    var open, close := conv.scopeDelimeters.opening, conv.scopeDelimeters.closing;
    var frags := ["None", open, "None", close, conv.separator, " "];
    assert LegacyScopeFragments(config, conv, p) == Ok([open, "None", close]);
    assert CommitCli.ImportantFragments(config, conv, p) == Ok([]);
    assert ["None"] + [open, "None", close] + [] + [conv.separator, " "] == frags;
    assert LegacyFragments(config, conv, p) == Ok(frags);
    assert CommitCli.Join(frags[4..], "") == conv.separator + " ";
    assert CommitCli.Join(frags[3..], "") == close + (conv.separator + " ");
    assert CommitCli.Join(frags[2..], "") == "None" + (close + (conv.separator + " "));
    assert CommitCli.Join(frags[1..], "") == open + ("None" + (close + (conv.separator + " ")));
    assert CommitCli.Join(frags, "") == "None" + (open + ("None" + (close + (conv.separator + " "))));
    assert "None" + (open + ("None" + (close + (conv.separator + " ")))) ==
      "None" + open + "None" + close + conv.separator + " ";
    CommitCli.PrefixBypass(config, conv, p);
  }

  /** The older prefix is always the type, the scope between its delimiters
      when scopes are used, the marker when confirmed, the separator and a
      space. */
  lemma LegacyPrefixLayout(config: Config, conv: ConventionSettings, p: CommitCli.PrefixAnswers, ty: string, scope: string, important: bool)
    requires config.useTypes && p.typeChoice.Ok? && CommitCli.UnwrapOr(p.typeChoice.value, "") == ty
    requires config.useScope ==> p.scopeChoice.Ok? && CommitCli.UnwrapOr(p.scopeChoice.value, "") == scope
    requires config.useImportant ==> p.important == Ok(important)
    ensures LegacyPrefix(config, conv, p) == Ok(
      ty +
      (if config.useScope then conv.scopeDelimeters.opening + scope + conv.scopeDelimeters.closing else "") +
      (if config.useImportant && important then conv.importantSymbol else "") +
      conv.separator + " ")
  {
    var sf := LegacyScopeFragments(config, conv, p).value;
    var mf := CommitCli.ImportantFragments(config, conv, p).value;
    var frags := [ty] + sf + mf + [conv.separator, " "];
    assert LegacyFragments(config, conv, p) == Ok(frags);
    CommitCli.JoinAppend([ty] + sf + mf, [conv.separator, " "]);
    CommitCli.JoinAppend([ty] + sf, mf);
    CommitCli.JoinAppend([ty], sf);
    assert CommitCli.Join(frags, "") ==
      CommitCli.Join([ty], "") + CommitCli.Join(sf, "") + CommitCli.Join(mf, "") + CommitCli.Join([conv.separator, " "], "");
    assert CommitCli.Join([ty], "") == ty;
    assert CommitCli.Join([conv.separator, " "], "") == conv.separator + " ";
    if config.useScope {
      var open, close := conv.scopeDelimeters.opening, conv.scopeDelimeters.closing;
      assert sf == [open, scope, close];
      assert CommitCli.Join([scope, close], "") == scope + close;
      assert CommitCli.Join(sf, "") == open + scope + close;
    } else {
      assert sf == [];
      assert CommitCli.Join(sf, "") == "";
    }
    if config.useImportant && important {
      assert mf == [conv.importantSymbol];
      assert CommitCli.Join(mf, "") == conv.importantSymbol;
    } else {
      assert mf == [];
      assert CommitCli.Join(mf, "") == "";
    }
    ghost var scopeText := CommitCli.Join(sf, "");
    ghost var markerText := CommitCli.Join(mf, "");
    assert CommitCli.Join(frags, "") == ty + scopeText + markerText + (conv.separator + " ");
    assert ty + scopeText + markerText + (conv.separator + " ") == ty + scopeText + markerText + conv.separator + " ";
  }

  /** The status lines, and those of the older add menu, can be read without a panic. */
  predicate LegacyCommitReadable(a: CommitCli.CommitAnswers) {
    (a.status.Ok? && a.status.value.Some? ==> StagedLinesReadable(a.status.value.value, false)) &&
    LegacyAddReadable(a.add)
  }

  /** The outcome of the older `git_commit_cli` (src/cli_menus.rs:125-235). */
  function LegacyCommitRun(config: Config, conv: ConventionSettings, a: CommitCli.CommitAnswers, st: Styling, vcs: Vcs): Run
    requires LegacyCommitReadable(a)
  {
    match a.status
    case Err(e) => Stop(e)
    case Ok(None) => Done
    case Ok(Some(lines)) =>
      var choices := StagedChoices(st, lines, false);
      var commit := CommitCli.CommitMessageRun(config, LegacyPrefix(config, conv, a.prefix), a, vcs);
      if choices == [] then
        match a.addSome
        case Err(e) => Stop(e)
        case Ok(yes) => if yes then Then(LegacyAddRun(a.add, st, vcs), commit) else Done
      else
        match a.confirm(CommitCli.CommitQuestion(choices))
        case Err(e) => Stop(e)
        case Ok(yes) => if yes then commit else Done
  }

  /** The older `git_commit_cli` (src/cli_menus.rs:125-235). */
  method LegacyGitCommitCli(config: Config, conv: ConventionSettings, a: CommitCli.CommitAnswers, st: Styling, vcs: Vcs)
    returns (result: Result<()>, trace: seq<Action>)
    requires LegacyCommitReadable(a)
    ensures Run(result, trace) == LegacyCommitRun(config, conv, a, st, vcs)
  {
    trace := [];
    if a.status.Err? {
      return Err(a.status.msg), [];
    }
    var doCommit := false;
    if a.status.value.Some? {
      var choices := CollectStaged(st, a.status.value.value, false);
      if |choices| == 0 {
        if a.addSome.Err? {
          return Err(a.addSome.msg), [];
        }
        if a.addSome.value {
          var added;
          added, trace := LegacyGitAddCli(a.add, st, vcs);
          if added.Err? {
            return added, trace;
          }
          doCommit := true;
        }
      } else {
        var answer := a.confirm(CommitCli.CommitQuestion(choices));
        if answer.Err? {
          return Err(answer.msg), [];
        }
        doCommit := answer.value;
        assert trace == [];
      }
    }
    if doCommit {
      var initial: Result<string> := Ok("");
      if !config.useGitCommitMessageDialog {
        initial := LegacyAssemblePrefix(config, conv, a.prefix);
      }
      var committed, commitTrace := CommitCli.CommitMessage(config, initial, a, vcs);
      result, trace := committed, trace + commitTrace;
    } else {
      result := Ok(());
    }
  }

  /** A confirmed older commit issues one `git commit`, handed the configured
      `verbose_commit` flag: with git's own dialog it carries no arguments;
      otherwise its subject is the older prefix, edited, followed by the
      description. A failing convention prompt commits nothing. */
  lemma LegacyCommitRunCommits(config: Config, conv: ConventionSettings, a: CommitCli.CommitAnswers, st: Styling, vcs: Vcs)
    requires LegacyCommitReadable(a) && a.status.Ok? && a.status.value.Some?
    requires var choices := StagedChoices(st, a.status.value.value, false);
      choices != [] && a.confirm(CommitCli.CommitQuestion(choices)) == Ok(true)
    ensures config.useGitCommitMessageDialog ==>
      LegacyCommitRun(config, conv, a, st, vcs) == Issue(vcs, Commit(Option.None, config.verboseCommit))
    ensures !config.useGitCommitMessageDialog && LegacyPrefix(config, conv, a.prefix).Ok? ==>
      LegacyCommitRun(config, conv, a, st, vcs) ==
        Issue(vcs, Commit(Option.Some(["-m", a.edit(LegacyPrefix(config, conv, a.prefix).value), "-m", a.description]), config.verboseCommit))
    ensures !config.useGitCommitMessageDialog && LegacyPrefix(config, conv, a.prefix).Err? ==>
      LegacyCommitRun(config, conv, a, st, vcs) == Stop(LegacyPrefix(config, conv, a.prefix).msg)
  {
  }

  // ---------------------------------------------------------------------------
  // The older branches menu (src/cli_menus.rs:237-281): `BranchesCli.BranchesRun`
  // with `askBase` false

  /** The older menu creates every branch at HEAD: the base-commit question,
      the branch and commit prompts and the log play no role in a creation. */
  lemma LegacyCreateIgnoresBase(a: BranchesCli.BranchAnswers, b: BranchesCli.BranchAnswers, st: Styling, vcs: Vcs)
    requires BranchesCli.BranchesDefined(a, st, false) && BranchesCli.BranchesDefined(b, st, false)
    requires a.action == b.action == Ok(UserResponse.Some(1)) && a.name == b.name
    ensures BranchesCli.BranchesRun(a, st, vcs, false) == BranchesCli.BranchesRun(b, st, vcs, false)
    ensures a.name.Ok? ==>
      BranchesCli.BranchesRun(a, st, vcs, false) == Issue(vcs, CreateBranch(a.name.value, Option.None))
  {
  }

  // ---------------------------------------------------------------------------
  // The checkout menu (src/cli_menus.rs:293-358)

  /** What the checkout menu is told: the status query, whether to check out
      anyway when every change is staged, and the file multi-select. */
  datatype CheckoutAnswers = CheckoutAnswers(
    status: Result<Option<seq<string>>>,
    anyway: Result<bool>,
    select: Select)

  /** The status lines can be read without a panic, including by the loop
      offering every line when all changes are staged. */
  predicate CheckoutReadable(a: CheckoutAnswers, st: Styling) {
    a.status.Ok? && a.status.value.Some? ==>
      var lines := a.status.value.value;
      UnstagedLinesReadable(lines) &&
      (UnstagedChoices(st, lines) == [] && a.anyway == Ok(true) ==> PathsReadable(lines))
  }

  /** The path of every line whose work tree differs, in order. */
  function UnstagedPaths(lines: seq<string>): seq<string>
    requires UnstagedLinesReadable(lines)
  {
    if lines == [] then []
    else if lines[0][1] == ' ' then UnstagedPaths(lines[1..])
    else [lines[0][3..]] + UnstagedPaths(lines[1..])
  }

  /** The unstaged choices are those paths, painted yellow. */
  lemma {:induction false} UnstagedChoicesPainted(st: Styling, lines: seq<string>)
    requires UnstagedLinesReadable(lines)
    ensures UnstagedChoices(st, lines) == PaintAll(st, Yellow, UnstagedPaths(lines))
  {
    if lines != [] {
      assert UnstagedLinesReadable(lines[1..]) by {
        assert forall i :: 0 <= i < |lines[1..]| ==> lines[1..][i] == lines[i + 1];
      }
      UnstagedChoicesPainted(st, lines[1..]);
    }
  }

  /** The outcome of `git_checkout_cli` (src/cli_menus.rs:293-358). */
  function CheckoutRun(a: CheckoutAnswers, st: Styling, vcs: Vcs): Run
    requires CheckoutReadable(a, st)
  {
    match a.status
    case Err(e) => Stop(e)
    case Ok(None) => Done
    case Ok(Some(lines)) =>
      var choices := UnstagedChoices(st, lines);
      if choices == [] then
        if lines == [] then Done
        else
          match a.anyway
          case Err(e) => Stop(e)
          case Ok(yes) =>
            if !yes then Done
            else
              var offered := PaintAll(st, Yellow, RawPaths(lines));
              match a.select(offered)
              case Err(e) => Stop(e)
              case Ok(r) =>
                var paths := RemoveCli.SelectedPaths(st, offered, r);
                if paths == [] then Done
                else Then(Issue(vcs, Reset(paths)), Issue(vcs, Checkout(paths)))
      else
        match a.select(choices)
        case Err(e) => Stop(e)
        case Ok(r) =>
          if r.None? then Done else Issue(vcs, Checkout(RemoveCli.SelectedPaths(st, choices, r)))
  }

  /** `git_checkout_cli` (src/cli_menus.rs:293-358). */
  method GitCheckoutCli(a: CheckoutAnswers, st: Styling, vcs: Vcs) returns (result: Result<()>, trace: seq<Action>)
    requires CheckoutReadable(a, st)
    ensures Run(result, trace) == CheckoutRun(a, st, vcs)
  {
    result, trace := Ok(()), [];
    if a.status.Err? {
      return Err(a.status.msg), [];
    }
    if a.status.value.None? {
      return;
    }
    var statusOutput := a.status.value.value;
    var choices := CollectUnstaged(st, statusOutput);
    if |choices| == 0 {
      if |statusOutput| != 0 {
        if a.anyway.Err? {
          return Err(a.anyway.msg), [];
        }
        if a.anyway.value {
          choices := CollectAllPaths(st, statusOutput);
          var answer := a.select(choices);
          if answer.Err? {
            return Err(answer.msg), [];
          }
          var paths: seq<string> := [];
          match answer.value {
            case All =>
              paths := StripVecColors(st, choices);
            case Some(selected) =>
              paths := StripVecColors(st, selected);
            case None =>
          }
          if |paths| != 0 {
            result, trace := vcs(Reset(paths)), [Reset(paths)];
            if result.Err? {
              return;
            }
            result, trace := vcs(Checkout(paths)), trace + [Checkout(paths)];
          }
        }
      }
    } else {
      var answer := a.select(choices);
      if answer.Err? {
        return Err(answer.msg), [];
      }
      match answer.value {
        case All =>
          var paths := StripVecColors(st, choices);
          result, trace := vcs(Checkout(paths)), [Checkout(paths)];
        case Some(selected) =>
          var paths := StripVecColors(st, selected);
          result, trace := vcs(Checkout(paths)), [Checkout(paths)];
        case None =>
      }
    }
  }

  /** With unstaged changes, the prompt offers exactly their paths, and
      "All" checks out exactly those paths, unstyled, with one `git checkout`
      and no reset. */
  lemma CheckoutAllUnstaged(a: CheckoutAnswers, st: Styling, vcs: Vcs)
    requires CheckoutReadable(a, st) && a.status.Ok? && a.status.value.Some?
    requires var choices := UnstagedChoices(st, a.status.value.value);
      choices != [] && a.select(choices) == Ok(UserResponse.All)
    requires StripUndoesPaint(st)
    ensures CheckoutRun(a, st, vcs) == Issue(vcs, Checkout(UnstagedPaths(a.status.value.value)))
  {
    var lines := a.status.value.value;
    UnstagedChoicesPainted(st, lines);
    PaintAllRoundTrip(st, Yellow, UnstagedPaths(lines));
  }

  /** With unstaged changes, a selection is checked out unstyled, with no check
      for an empty selection; the "None" entry checks out nothing. */
  lemma CheckoutSomeUnstaged(a: CheckoutAnswers, st: Styling, vcs: Vcs)
    requires CheckoutReadable(a, st) && a.status.Ok? && a.status.value.Some?
    requires var choices := UnstagedChoices(st, a.status.value.value);
      choices != [] && a.select(choices).Ok? && !a.select(choices).value.All?
    ensures var r := a.select(UnstagedChoices(st, a.status.value.value)).value;
      CheckoutRun(a, st, vcs) == if r.None? then Done else Issue(vcs, Checkout(StripAll(st, r.items)))
  {
  }

  /** When every change is staged and the operator goes on, staged files are
      first reset and then checked out, both with the same unstyled paths, and
      only when the selection is not empty; "All" means every listed path. */
  lemma CheckoutAllStaged(a: CheckoutAnswers, st: Styling, vcs: Vcs)
    requires CheckoutReadable(a, st) && a.status.Ok? && a.status.value.Some?
    requires var lines := a.status.value.value;
      lines != [] && UnstagedChoices(st, lines) == [] && a.anyway == Ok(true)
    requires a.select(PaintAll(st, Yellow, RawPaths(a.status.value.value))).Ok?
    ensures var lines := a.status.value.value;
      var offered := PaintAll(st, Yellow, RawPaths(lines));
      var paths := RemoveCli.SelectedPaths(st, offered, a.select(offered).value);
      var run := CheckoutRun(a, st, vcs);
      (paths == [] ==> run == Done) &&
      (paths != [] && vcs(Reset(paths)).Err? ==> run == Run(vcs(Reset(paths)), [Reset(paths)])) &&
      (paths != [] && vcs(Reset(paths)).Ok? ==> run == Run(vcs(Checkout(paths)), [Reset(paths), Checkout(paths)]))
    ensures var lines := a.status.value.value;
      var offered := PaintAll(st, Yellow, RawPaths(lines));
      StripUndoesPaint(st) && a.select(offered) == Ok(UserResponse.All) ==>
        RemoveCli.SelectedPaths(st, offered, UserResponse.All) == RawPaths(lines)
  {
    var lines := a.status.value.value;
    if StripUndoesPaint(st) {
      PaintAllRoundTrip(st, Yellow, RawPaths(lines));
    }
  }

  /** A clean work tree, an empty listing, declining to go on, and a failing
      status query or prompt check out nothing. */
  lemma CheckoutRunNothing(a: CheckoutAnswers, st: Styling, vcs: Vcs)
    requires CheckoutReadable(a, st)
    requires a.status.Err? || a.status == Ok(Option.None) || a.status == Ok(Option.Some([])) ||
             (a.status.Ok? && a.status.value.Some? && UnstagedChoices(st, a.status.value.value) == [] &&
              a.anyway.Ok? && !a.anyway.value)
    ensures CheckoutRun(a, st, vcs).trace == []
    ensures a.status.Ok? ==> CheckoutRun(a, st, vcs) == Done
  {
  }
}
