/**
  * The application shell's state: the editor's code, the package list it shows,
  * the console log, and whether the terminal has the focus. Each handler maps
  * the state before an event to the state after it.
  */
module App {
  import opened Wrappers
  import opened Packages

  /** The `type` of a console entry. */
  datatype LogKind = Log | Warn | Error

  datatype ConsoleEntry = ConsoleEntry(kind: LogKind, content: string)

  datatype AppState = AppState(code: string, packages: seq<Package>, console: seq<ConsoleEntry>, terminalFocused: bool)

  /** The state on first render: no code, no packages, an empty console, the editor focused. */
  const Start: AppState := AppState("", [], [], false)

  /** The console line for a package added to the list. */
  function InstalledMessage(name: string, version: string): string {
    "Package " + name + "@" + version + " installed successfully"
  }

  /** The console line for a package whose name is already listed. */
  function AlreadyInstalledMessage(name: string): string {
    "Package " + name + " is already installed"
  }

  /**
    * `handlePackageInstall`: a name not yet listed is appended with its version
    * and logged; a listed name leaves the list as it is and is warned about.
    * Exactly one console entry is added either way, after the earlier ones, and
    * the code and focus are untouched.
    */
  function HandlePackageInstall(st: AppState, name: string, version: string): (r: AppState)
    ensures r.code == st.code && r.terminalFocused == st.terminalFocused
    ensures !HasName(st.packages, name) ==>
      r.packages == st.packages + [Package(name, version)]
      && r.console == st.console + [ConsoleEntry(Log, InstalledMessage(name, version))]
    ensures HasName(st.packages, name) ==>
      r.packages == st.packages
      && r.console == st.console + [ConsoleEntry(Warn, AlreadyInstalledMessage(name))]
    ensures HasName(r.packages, name)
  {
    if !HasName(st.packages, name) then
      var added := st.packages + [Package(name, version)];
      assert added[|st.packages|].name == name;
      st.(packages := added, console := st.console + [ConsoleEntry(Log, InstalledMessage(name, version))])
    else
      st.(console := st.console + [ConsoleEntry(Warn, AlreadyInstalledMessage(name))])
  }

  /** The de-duplicating insert keeps the names in the list distinct. */
  lemma InstallKeepsNamesUnique(st: AppState, name: string, version: string)
    requires UniqueNames(st.packages)
    ensures UniqueNames(HandlePackageInstall(st, name, version).packages)
  {
  }

  /** Installing a name a second time changes the list no further and only adds a warning. */
  lemma InstallTwiceWarns(st: AppState, name: string, v1: string, v2: string)
    ensures var once := HandlePackageInstall(st, name, v1);
      var twice := HandlePackageInstall(once, name, v2);
      twice.packages == once.packages
      && twice.console == once.console + [ConsoleEntry(Warn, AlreadyInstalledMessage(name))]
  {
  }

  /** `handleCodeUpdate`: the code is replaced and one log entry records it. */
  function HandleCodeUpdate(st: AppState, updated: string): (r: AppState)
    ensures r.code == updated && r.packages == st.packages && r.terminalFocused == st.terminalFocused
    ensures r.console == st.console + [ConsoleEntry(Log, "Code updated with AI suggestions")]
  {
    st.(code := updated, console := st.console + [ConsoleEntry(Log, "Code updated with AI suggestions")])
  }

  /**
    * A thrown value: `null` or `undefined`, or any other value with its
    * `message` property, if it has a string one, and its string form.
    */
  datatype Thrown = Nullish | Value(message: Option<string>, text: string)

  /**
    * `error.message || error`: a non-empty message, otherwise the value's string
    * form; nothing for `null` or `undefined`, whose `message` cannot be read.
    */
  function ErrorText(err: Thrown): (t: Option<string>)
    ensures t.None? <==> err.Nullish?
    ensures err.Value? && err.message.Some? && err.message.value != "" ==> t == Some(err.message.value)
    ensures err.Value? && (err.message.None? || err.message.value == "") ==> t == Some(err.text)
  {
    match err
    case Nullish => None
    case Value(message, text) => if message.Some? && message.value != "" then Some(message.value) else Some(text)
  }

  /**
    * `handleError`: one error entry, `Error: ` and the error's text, after the
    * earlier ones; for `null` or `undefined` the update throws before adding
    * anything, and the state stays as it was.
    */
  function HandleError(st: AppState, err: Thrown): (r: AppState)
    ensures err.Nullish? ==> r == st
    ensures err.Value? ==>
      r.code == st.code && r.packages == st.packages && r.terminalFocused == st.terminalFocused
      && r.console == st.console + [ConsoleEntry(Error, "Error: " + ErrorText(err).value)]
  {
    match ErrorText(err)
    case None => st
    case Some(text) => st.(console := st.console + [ConsoleEntry(Error, "Error: " + text)])
  }

  /**
    * `handleKeyDown`: Ctrl with the backquote focuses the terminal, Escape gives
    * the focus back to the editor only when the terminal has it, and every
    * other key leaves the focus alone.
    */
  function FocusOnKey(focused: bool, key: string, ctrl: bool): (r: bool)
    ensures ctrl && key == "`" ==> r
    ensures key == "Escape" ==> !r
    ensures !(ctrl && key == "`") && key != "Escape" ==> r == focused
  {
    if ctrl && key == "`" then true
    else if key == "Escape" && focused then false
    else focused
  }

  /** The events the shell reacts to. */
  datatype AppEvent =
    | Install(name: string, version: string)
    | CodeUpdate(code: string)
    | Failure(err: Thrown)
    | KeyDown(key: string, ctrl: bool)

  /** Whether an event writes to the console: all but key presses and `null` or `undefined` errors. */
  predicate Logs(ev: AppEvent) {
    !ev.KeyDown? && !(ev.Failure? && ev.err.Nullish?)
  }

  /** One event applied to the state. */
  function Apply(st: AppState, ev: AppEvent): (r: AppState)
    ensures ev.KeyDown? ==> r == st.(terminalFocused := FocusOnKey(st.terminalFocused, ev.key, ev.ctrl))
    ensures Logs(ev) ==> |r.console| == |st.console| + 1 && r.console[..|st.console|] == st.console
    ensures !Logs(ev) ==> r.console == st.console
    ensures |st.packages| <= |r.packages| && r.packages[..|st.packages|] == st.packages
  {
    match ev
    case Install(name, version) => HandlePackageInstall(st, name, version)
    case CodeUpdate(code) => HandleCodeUpdate(st, code)
    case Failure(err) => HandleError(st, err)
    case KeyDown(key, ctrl) => st.(terminalFocused := FocusOnKey(st.terminalFocused, key, ctrl))
  }

  /** How many of the events write to the console. */
  function Logged(evs: seq<AppEvent>): nat {
    if evs == [] then 0 else (if Logs(evs[0]) then 1 else 0) + Logged(evs[1..])
  }

  /** Events applied in order. */
  function ApplyAll(st: AppState, evs: seq<AppEvent>): AppState
    decreases |evs|
  {
    if evs == [] then st else ApplyAll(Apply(st, evs[0]), evs[1..])
  }

  /**
    * Over any run of events the console only grows at its end, by one entry
    * per event that logs, and the package list only grows at its
    * end while its names stay distinct.
    */
  lemma {:induction false} RunIsAppendOnly(st: AppState, evs: seq<AppEvent>)
    requires UniqueNames(st.packages)
    ensures var r := ApplyAll(st, evs);
      |r.console| == |st.console| + Logged(evs) && r.console[..|st.console|] == st.console
      && |st.packages| <= |r.packages| && r.packages[..|st.packages|] == st.packages
      && UniqueNames(r.packages)
    decreases |evs|
  {
    if evs != [] {
      var next := Apply(st, evs[0]);
      if evs[0].Install? {
        InstallKeepsNamesUnique(st, evs[0].name, evs[0].version);
      }
      RunIsAppendOnly(next, evs[1..]);
      var r := ApplyAll(st, evs);
      assert r.console[..|next.console|] == next.console;
      assert next.console[..|st.console|] == st.console;
      assert r.console[..|st.console|] == next.console[..|st.console|];
      assert r.packages[..|next.packages|] == next.packages;
      assert r.packages[..|st.packages|] == next.packages[..|st.packages|];
    }
  }

  /**
    * From the first render, any run of events leaves one console entry per
    * event that logs, and a package list without repeated names.
    */
  lemma RunFromStart(evs: seq<AppEvent>)
    ensures var r := ApplyAll(Start, evs);
      |r.console| == Logged(evs) && UniqueNames(r.packages)
  {
    RunIsAppendOnly(Start, evs);
  }
}
