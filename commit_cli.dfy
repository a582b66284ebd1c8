/** The commit menu (src/menus/commit_cli.rs): checks that something is
    staged, assembles the structured prefix of the subject line from the
    commit convention, and commits with a subject and a description. */
module CommitCli {

  import opened Cli
  import opened Utils
  import opened Choices
  import opened Settings
  import AddCli

  /** The entry of every convention prompt that skips the fragment. */
  const Bypass: string := "None"

  /** The answers of the convention prompts, in the order they are asked:
      the type filter and the scope filter (each offering a "None" entry, and
      answering `None` when nothing was picked), and the yes/no question
      whether to mark the commit important. */
  datatype PrefixAnswers = PrefixAnswers(
    typeChoice: Result<Option<string>>,
    scopeChoice: Result<Option<string>>,
    important: Result<bool>)

  /** Rust's `unwrap_or`. */
  function UnwrapOr(o: Option<string>, default: string): string {
    match o
    case Some(v) => v
    case None => default
  }

  /** Texts joined with a separator between neighbours (`[String]::join`). */
  function Join(xs: seq<string>, sep: string): string {
    if xs == [] then ""
    else if |xs| == 1 then xs[0]
    else xs[0] + sep + Join(xs[1..], sep)
  }

  /** Joining a concatenation with no separator is concatenating the joins. */
  lemma {:induction false} JoinAppend(xs: seq<string>, ys: seq<string>)
    ensures Join(xs + ys, "") == Join(xs, "") + Join(ys, "")
  {
    if xs == [] {
      assert xs + ys == ys;
    } else if |xs| == 1 {
      if ys != [] {
        assert (xs + ys)[1..] == ys;
      }
    } else {
      assert (xs + ys)[1..] == xs[1..] + ys;
      JoinAppend(xs[1..], ys);
    }
  }

  /** The fragments without the ones equal to "None"
      (src/menus/commit_cli.rs:103-107). */
  function FilterNone(xs: seq<string>): (r: seq<string>)
    ensures |r| <= |xs|
    ensures forall i :: 0 <= i < |r| ==> r[i] != Bypass
  {
    if xs == [] then []
    else if xs[0] == Bypass then FilterNone(xs[1..])
    else [xs[0]] + FilterNone(xs[1..])
  }

  /** A single fragment is dropped exactly when it is "None". */
  lemma FilterNoneSingle(x: string)
    ensures FilterNone([x]) == (if x == Bypass then [] else [x])
  {
    assert [x][1..] == [];
  }

  /** The filter works fragment by fragment: filtering a concatenation
      concatenates the filtered parts, so every other fragment is kept, in
      order. */
  lemma {:induction false} FilterNoneAppend(xs: seq<string>, ys: seq<string>)
    ensures FilterNone(xs + ys) == FilterNone(xs) + FilterNone(ys)
  {
    if xs == [] {
      assert xs + ys == ys;
    } else {
      assert (xs + ys)[0] == xs[0];
      assert (xs + ys)[1..] == xs[1..] + ys;
      FilterNoneAppend(xs[1..], ys);
    }
  }

  /** A list without "None" is left unchanged. */
  lemma {:induction false} FilterNoneKeeps(xs: seq<string>)
    requires forall i :: 0 <= i < |xs| ==> xs[i] != Bypass
    ensures FilterNone(xs) == xs
  {
    if xs != [] {
      FilterNoneKeeps(xs[1..]);
    }
  }

  /** Filtering twice is filtering once. */
  lemma FilterNoneIdempotent(xs: seq<string>)
    ensures FilterNone(FilterNone(xs)) == FilterNone(xs)
  {
    FilterNoneKeeps(FilterNone(xs));
  }

  /** The scope fragments: the scope between its delimiters, when scopes are
      used and the "None" entry was not picked (src/menus/commit_cli.rs:80-88). */
  function ScopeFragments(config: Config, conv: ConventionSettings, p: PrefixAnswers): Result<seq<string>> {
    if !config.useScope then Ok([])
    else
      match p.scopeChoice
      case Err(e) => Err(e)
      case Ok(s) =>
        var scope := UnwrapOr(s, "");
        if scope == Bypass then Ok([])
        else Ok([conv.scopeDelimeters.opening, scope, conv.scopeDelimeters.closing])
  }

  /** The important marker, when it is used and confirmed (src/menus/commit_cli.rs:89-96). */
  function ImportantFragments(config: Config, conv: ConventionSettings, p: PrefixAnswers): Result<seq<string>> {
    if !config.useImportant then Ok([])
    else
      match p.important
      case Err(e) => Err(e)
      case Ok(b) => if b then Ok([conv.importantSymbol]) else Ok([])
  }

  /** The fragments pushed before the filter (src/menus/commit_cli.rs:73-101):
      none without types; the type alone when it is "None"; otherwise the type,
      the scope fragments, the important marker, the separator and a space. A
      prompt that fails makes the whole assembly fail. */
  function Fragments(config: Config, conv: ConventionSettings, p: PrefixAnswers): Result<seq<string>> {
    if !config.useTypes then Ok([])
    else
      match p.typeChoice
      case Err(e) => Err(e)
      case Ok(t) =>
        var ty := UnwrapOr(t, "");
        if ty == Bypass then Ok([ty])
        else
          match ScopeFragments(config, conv, p)
          case Err(e) => Err(e)
          case Ok(scope) =>
            match ImportantFragments(config, conv, p)
            case Err(e) => Err(e)
            case Ok(marker) => Ok([ty] + scope + marker + [conv.separator, " "])
  }

  /** The initial text of the subject prompt: the filtered fragments, joined. */
  function Prefix(config: Config, conv: ConventionSettings, p: PrefixAnswers): Result<string> {
    match Fragments(config, conv, p)
    case Err(e) => Err(e)
    case Ok(frags) => Ok(Join(FilterNone(frags), ""))
  }

  /** The assembly of the prefix: successive pushes onto the fragment list,
      the filter, and the join (src/menus/commit_cli.rs:72-111). */
  method AssemblePrefix(config: Config, conv: ConventionSettings, p: PrefixAnswers) returns (r: Result<string>)
    ensures r == Prefix(config, conv, p)
  {
    var commitMsg: seq<string> := [];
    if config.useTypes {
      if p.typeChoice.Err? {
        return Err(p.typeChoice.msg);
      }
      var ty := UnwrapOr(p.typeChoice.value, "");
      commitMsg := commitMsg + [ty];
      if commitMsg[0] != Bypass {
        if config.useScope {
          if p.scopeChoice.Err? {
            return Err(p.scopeChoice.msg);
          }
          var conventionScope := UnwrapOr(p.scopeChoice.value, "");
          if conventionScope != Bypass {
            commitMsg := commitMsg + [conv.scopeDelimeters.opening];
            commitMsg := commitMsg + [conventionScope];
            commitMsg := commitMsg + [conv.scopeDelimeters.closing];
          }
        }
        ghost var scope := ScopeFragments(config, conv, p).value;
        assert commitMsg == [ty] + scope;
        if config.useImportant {
          if p.important.Err? {
            return Err(p.important.msg);
          }
          if p.important.value {
            commitMsg := commitMsg + [conv.importantSymbol];
          }
        }
        ghost var marker := ImportantFragments(config, conv, p).value;
        assert commitMsg == [ty] + scope + marker;
        commitMsg := commitMsg + [conv.separator];
        commitMsg := commitMsg + [" "];
        assert commitMsg == [ty] + scope + marker + [conv.separator, " "];
      } else {
        assert commitMsg == [ty];
      }
      assert Fragments(config, conv, p) == Ok(commitMsg);
    }
    commitMsg := FilterNone(commitMsg);
    return Ok(Join(commitMsg, ""));
  }

  /** Without types the prefix is empty, whatever the other flags. */
  lemma PrefixWithoutTypes(config: Config, conv: ConventionSettings, p: PrefixAnswers)
    requires !config.useTypes
    ensures Prefix(config, conv, p) == Ok("")
  {
  }

  /** Picking the "None" type collapses the whole prefix: no scope, marker or
      separator, and neither the scope prompt nor the important question is
      asked, so their answers play no role. */
  lemma PrefixBypass(config: Config, conv: ConventionSettings, p: PrefixAnswers)
    requires config.useTypes && p.typeChoice == Ok(Option.Some(Bypass))
    ensures Fragments(config, conv, p) == Ok([Bypass])
    ensures Prefix(config, conv, p) == Ok("")
  {
  }

  /** A type that is missing (nothing picked) becomes "" and is not the
      bypass: the scope, marker and separator are still appended. */
  lemma PrefixMissingType(config: Config, conv: ConventionSettings, p: PrefixAnswers)
    requires config.useTypes && p.typeChoice == Ok(Option.None)
    requires Fragments(config, conv, p).Ok?
    ensures var frags := Fragments(config, conv, p).value;
      |frags| >= 3 && frags[0] == "" && frags[|frags| - 2..] == [conv.separator, " "]
  {
  }

  /** For a real type, the prefix is the type, then the scope between its
      delimiters (when scopes are used and one was picked), then the marker
      (when confirmed), then the separator and one space, provided none of
      these texts is itself "None". */
  lemma PrefixLayout(config: Config, conv: ConventionSettings, p: PrefixAnswers, ty: string, scope: string, important: bool)
    requires config.useTypes && p.typeChoice.Ok? && UnwrapOr(p.typeChoice.value, "") == ty && ty != Bypass
    requires config.useScope ==> p.scopeChoice.Ok? && UnwrapOr(p.scopeChoice.value, "") == scope
    requires config.useImportant ==> p.important == Ok(important)
    requires conv.scopeDelimeters.opening != Bypass && conv.scopeDelimeters.closing != Bypass
    requires conv.importantSymbol != Bypass && conv.separator != Bypass
    ensures Prefix(config, conv, p) == Ok(
      ty +
      (if config.useScope && scope != Bypass
       then conv.scopeDelimeters.opening + scope + conv.scopeDelimeters.closing else "") +
      (if config.useImportant && important then conv.importantSymbol else "") +
      conv.separator + " ")
  {
    var sf := ScopeFragments(config, conv, p).value;
    var mf := ImportantFragments(config, conv, p).value;
    var frags := [ty] + sf + mf + [conv.separator, " "];
    assert Fragments(config, conv, p) == Ok(frags);
    assert forall i :: 0 <= i < |frags| ==> frags[i] != Bypass;
    FilterNoneKeeps(frags);
    JoinAppend([ty] + sf + mf, [conv.separator, " "]);
    JoinAppend([ty] + sf, mf);
    JoinAppend([ty], sf);
    assert Join(frags, "") == Join([ty], "") + Join(sf, "") + Join(mf, "") + Join([conv.separator, " "], "");
    assert Join([ty], "") == ty;
    assert Join([conv.separator, " "], "") == conv.separator + " ";
    if config.useScope && scope != Bypass {
      var open, close := conv.scopeDelimeters.opening, conv.scopeDelimeters.closing;
      assert sf == [open, scope, close];
      assert Join([scope, close], "") == scope + close;
      assert Join(sf, "") == open + scope + close;
    } else {
      assert sf == [];
      assert Join(sf, "") == "";
    }
    if config.useImportant && important {
      assert mf == [conv.importantSymbol];
      assert Join(mf, "") == conv.importantSymbol;
    } else {
      assert mf == [];
      assert Join(mf, "") == "";
    }
    ghost var scopeText := Join(sf, "");
    ghost var markerText := Join(mf, "");
    assert Join(FilterNone(frags), "") == ty + scopeText + markerText + (conv.separator + " ");
    assert ty + scopeText + markerText + (conv.separator + " ") == ty + scopeText + markerText + conv.separator + " ";
  }

  /** The question asking to confirm the staged files
      (src/menus/commit_cli.rs:50-54). */
  function CommitQuestion(choices: seq<string>): string {
    "Commit the following files?" + ":\n" + Join(choices, "\n")
  }

  /** The argument list of the commit: the subject and the description as two
      separate message segments (src/menus/commit_cli.rs:124-131). */
  function CommitArgs(subject: string, description: string): (args: seq<string>)
    ensures |args| == 4 && args[0] == args[2] == "-m"
    ensures args[1] == subject && args[3] == description
  {
    ["-m", subject, "-m", description]
  }

  /** What the commit menu is told: the status query; the answer whether to
      add files when none is staged and, in that case, what the add menu is
      told; the confirmation of the staged files, as a function of the
      question; the convention prompts; the operator's edit of the initial
      subject text; and the description written in the editor. */
  datatype CommitAnswers = CommitAnswers(
    status: Result<Option<seq<string>>>,
    addSome: Result<bool>,
    add: AddCli.AddAnswers,
    confirm: string -> Result<bool>,
    prefix: PrefixAnswers,
    edit: string -> string,
    description: string)

  /** The status lines, and those of the add menu, can be read without a panic. */
  predicate CommitReadable(a: CommitAnswers) {
    (a.status.Ok? && a.status.value.Some? ==> StagedLinesReadable(a.status.value.value, true)) &&
    AddCli.AddReadable(a.add)
  }

  /** The commit itself (src/menus/commit_cli.rs:62-133): through git's own
      message dialog, or with the operator's edit of the initial subject text
      and the description; a failure while assembling that text commits
      nothing. The older menu shares this step with its own initial text. */
  function CommitMessageRun(config: Config, initial: Result<string>, a: CommitAnswers, vcs: Vcs): Run {
    if config.useGitCommitMessageDialog then Issue(vcs, Commit(Option.None, config.verboseCommit))
    else
      match initial
      case Err(e) => Stop(e)
      case Ok(text) => Issue(vcs, Commit(Option.Some(CommitArgs(a.edit(text), a.description)), config.verboseCommit))
  }

  /** The commit step, imperatively; `initial` is only consulted when git's
      own dialog is not used. */
  method CommitMessage(config: Config, initial: Result<string>, a: CommitAnswers, vcs: Vcs)
    returns (result: Result<()>, trace: seq<Action>)
    ensures Run(result, trace) == CommitMessageRun(config, initial, a, vcs)
  {
    var action;
    if config.useGitCommitMessageDialog {
      action := Commit(Option.None, config.verboseCommit);
    } else {
      if initial.Err? {
        return Err(initial.msg), [];
      }
      var shortForm := a.edit(initial.value);
      action := Commit(Option.Some(["-m", shortForm, "-m", a.description]), config.verboseCommit);
    }
    result, trace := vcs(action), [action];
  }

  /** The outcome of `git_commit_cli` (src/menus/commit_cli.rs:9-137). */
  function CommitRun(config: Config, conv: ConventionSettings, a: CommitAnswers, st: Styling, vcs: Vcs): Run
    requires CommitReadable(a)
  {
    match a.status
    case Err(e) => Stop(e)
    case Ok(None) => Done
    case Ok(Some(lines)) =>
      var choices := StagedChoices(st, lines, true);
      if choices == [] then
        match a.addSome
        case Err(e) => Stop(e)
        case Ok(yes) =>
          if yes then Then(AddCli.AddRun(a.add, st, vcs), CommitMessageRun(config, Prefix(config, conv, a.prefix), a, vcs))
          else Done
      else
        match a.confirm(CommitQuestion(choices))
        case Err(e) => Stop(e)
        case Ok(yes) => if yes then CommitMessageRun(config, Prefix(config, conv, a.prefix), a, vcs) else Done
  }

  /** `git_commit_cli` (src/menus/commit_cli.rs:9-137). */
  method GitCommitCli(config: Config, conv: ConventionSettings, a: CommitAnswers, st: Styling, vcs: Vcs)
    returns (result: Result<()>, trace: seq<Action>)
    requires CommitReadable(a)
    ensures Run(result, trace) == CommitRun(config, conv, a, st, vcs)
  {
    trace := [];
    if a.status.Err? {
      return Err(a.status.msg), [];
    }
    var doCommit := false;
    if a.status.value.Some? {
      var choices := CollectStaged(st, a.status.value.value, true);
      if |choices| == 0 {
        if a.addSome.Err? {
          return Err(a.addSome.msg), [];
        }
        if a.addSome.value {
          var added;
          added, trace := AddCli.GitAddCli(a.add, st, vcs);
          if added.Err? {
            return added, trace;
          }
          doCommit := true;
        }
      } else {
        var answer := a.confirm(CommitQuestion(choices));
        if answer.Err? {
          return Err(answer.msg), [];
        }
        doCommit := answer.value;
        assert trace == [];
      }
    }
    if doCommit {
      var initial: Result<string> := Ok("");
      if !config.useGitCommitMessageDialog {
        initial := AssemblePrefix(config, conv, a.prefix);
      }
      var committed, commitTrace := CommitMessage(config, initial, a, vcs);
      result, trace := committed, trace + commitTrace;
    } else {
      result := Ok(());
    }
  }

  /** A clean work tree commits nothing; so does declining to add files when
      none is staged, and declining to commit the staged files. */
  lemma CommitRunDeclined(config: Config, conv: ConventionSettings, a: CommitAnswers, st: Styling, vcs: Vcs)
    requires CommitReadable(a) && a.status.Ok?
    requires a.status.value.None? ||
             (StagedChoices(st, a.status.value.value, true) == [] && a.addSome == Ok(false)) ||
             (StagedChoices(st, a.status.value.value, true) != [] &&
              a.confirm(CommitQuestion(StagedChoices(st, a.status.value.value, true))) == Ok(false))
    ensures CommitRun(config, conv, a, st, vcs) == Done
  {
  }

  /** With nothing staged and the offer to add accepted, the add menu runs
      first; unless it fails, the commit follows, whatever it staged. */
  lemma CommitRunAddsFirst(config: Config, conv: ConventionSettings, a: CommitAnswers, st: Styling, vcs: Vcs)
    requires CommitReadable(a) && a.status.Ok? && a.status.value.Some?
    requires StagedChoices(st, a.status.value.value, true) == [] && a.addSome == Ok(true)
    ensures var added := AddCli.AddRun(a.add, st, vcs);
      var run := CommitRun(config, conv, a, st, vcs);
      if added.result.Err? then run == added
      else run.trace == added.trace + CommitMessageRun(config, Prefix(config, conv, a.prefix), a, vcs).trace &&
           run.result == CommitMessageRun(config, Prefix(config, conv, a.prefix), a, vcs).result
  {
  }

  /** A confirmed commit issues exactly one `git commit`: with git's own dialog
      it carries no arguments; otherwise its arguments are exactly "-m", the
      operator's edit of the assembled prefix, "-m", the description. Either
      way it is handed the configured `verbose_commit` flag. A failing
      convention prompt commits nothing. */
  lemma CommitRunCommits(config: Config, conv: ConventionSettings, a: CommitAnswers, st: Styling, vcs: Vcs)
    requires CommitReadable(a) && a.status.Ok? && a.status.value.Some?
    requires var choices := StagedChoices(st, a.status.value.value, true);
      choices != [] && a.confirm(CommitQuestion(choices)) == Ok(true)
    ensures config.useGitCommitMessageDialog ==>
      CommitRun(config, conv, a, st, vcs) == Issue(vcs, Commit(Option.None, config.verboseCommit))
    ensures !config.useGitCommitMessageDialog && Prefix(config, conv, a.prefix).Ok? ==>
      CommitRun(config, conv, a, st, vcs) ==
        Issue(vcs, Commit(Option.Some(["-m", a.edit(Prefix(config, conv, a.prefix).value), "-m", a.description]), config.verboseCommit))
    ensures !config.useGitCommitMessageDialog && Prefix(config, conv, a.prefix).Err? ==>
      CommitRun(config, conv, a, st, vcs) == Stop(Prefix(config, conv, a.prefix).msg)
  {
  }
}
