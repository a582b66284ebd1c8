/** The configuration records of src/settings.rs, as plain values (loading and
    saving them is file I/O and not part of this model). */
module Settings {

  /** `Config` (src/settings.rs:17-32). */
  datatype Config = Config(
    showWelcome: bool,
    showAllInAddMenu: bool,
    verboseCommit: bool,
    useGitCommitMessageDialog: bool,
    useCommitConvention: bool,
    convention: string,
    useTypes: bool,
    useScope: bool,
    useImportant: bool,
    useFooters: bool,
    allowNoneConvention: bool)

  /** `ScopeDelims` (src/settings.rs:69-73): the text around a scope. */
  datatype ScopeDelims = ScopeDelims(opening: string, closing: string)

  /** `ConventionSettings` (src/settings.rs:75-83): a commit convention document. */
  datatype ConventionSettings = ConventionSettings(
    types: seq<string>,
    scopes: seq<string>,
    scopeDelimeters: ScopeDelims,
    importantSymbol: string,
    separator: string,
    footers: seq<string>)
}
