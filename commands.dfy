/**
  * The terminal's command interpreter: a committed line and the installed-package
  * registry give the display calls to make and, for `npm install <pkg>`, the
  * package whose simulated installation starts.
  */
module Commands {
  import opened Wrappers
  import opened Text
  import opened Packages

  /** One call on the terminal display: `write(text)`, `writeln(text)` or `clear()`. */
  datatype Output = Write(text: string) | WriteLine(text: string) | Clear

  /** What interpreting one line produces: the display calls, and the package an install was started for. */
  datatype Reply = Reply(out: seq<Output>, install: Option<string>)

  /** The prompt written whenever the terminal is ready for a new line. */
  const Prompt: Output := Write("$ ")

  /** The command names the interpreter recognises. */
  const Vocabulary: set<string> := {"help", "clear", "npm", "ls", "pwd", "echo", "installed-packages"}

  /** The lines `help` writes: a header, then one line per command. */
  const HelpOutput: seq<Output> := [
    WriteLine("\U{1B}[1mAvailable commands:\U{1B}[0m"),
    WriteLine("  help                 Show this help message"),
    WriteLine("  clear                Clear the terminal"),
    WriteLine("  npm install <pkg>    Install a package"),
    WriteLine("  ls                   List files"),
    WriteLine("  pwd                  Print working directory"),
    WriteLine("  echo <message>       Display a message"),
    WriteLine("  installed-packages   Show installed packages")
  ]
  const LsText: string := "index.js  package.json  node_modules/  src/  public/"
  const PwdText: string := "/home/user/project"
  const NoPackagesText: string := "No packages installed yet."
  const PackagesHeader: string := "\U{1B}[1mInstalled packages:\U{1B}[0m"
  const NpmUsageText: string := "Usage: npm <command> [options]"

  /** The welcome banner written when the terminal opens, before the first prompt. */
  const Banner: seq<Output> := [
    WriteLine("\U{1B}[1;34m=== Web-based Code Editor Terminal ===\U{1B}[0m"),
    WriteLine("Type 'help' to see available commands."),
    WriteLine("")
  ]

  /** `command.trim().split(" ")`: the words of a line, empty words kept. */
  function Args(line: string): (args: seq<string>)
    ensures |args| >= 1
  {
    Split(Trim(line), ' ')
  }

  /** `args[0].toLowerCase()`: the name a line dispatches on. */
  function CommandName(line: string): string {
    ToLower(Args(line)[0])
  }

  /** The `forEach` over the registry: one indented `name@version` line per record, in registry order. */
  function PackageLines(registry: seq<Package>): (out: seq<Output>)
    ensures |out| == |registry|
    ensures forall k :: 0 <= k < |registry| ==> out[k] == WriteLine("  " + Describe(registry[k]))
  {
    if registry == [] then []
    else [WriteLine("  " + Describe(registry[0]))] + PackageLines(registry[1..])
  }

  /**
    * `installed-packages`: the one "none yet" line for an empty registry, otherwise a
    * header followed by one line per record.
    */
  function InstalledPackages(registry: seq<Package>): (out: seq<Output>)
    ensures registry == [] ==> out == [WriteLine(NoPackagesText)]
    ensures registry != [] ==> |out| == |registry| + 1 && out[0] == WriteLine(PackagesHeader)
    ensures forall k :: 0 <= k < |registry| ==> out[k + 1] == WriteLine("  " + Describe(registry[k]))
  {
    if registry == [] then [WriteLine(NoPackagesText)]
    else [WriteLine(PackagesHeader)] + PackageLines(registry)
  }

  /** The line written when a simulated installation starts. */
  function InstallingLine(name: string): Output {
    WriteLine("\U{1B}[33mInstalling " + name + "...\U{1B}[0m")
  }

  /** The lines written when a simulated installation completes, ending with a fresh prompt. */
  function CompletionOutput(p: Package): seq<Output> {
    [WriteLine("+ " + Describe(p)), WriteLine("\U{1B}[32mAdded " + Describe(p) + "\U{1B}[0m"), Prompt]
  }

  /** Whether the words of a line ask npm to install a package. */
  predicate IsInstallRequest(args: seq<string>) {
    |args| >= 3 && ToLower(args[1]) == "install"
  }

  /**
    * `processNpmCommand`: usage for a bare `npm`, an install of the third word
    * for `npm install <pkg>`, and an "unsupported" line for anything else.
    */
  function Npm(args: seq<string>): (r: Reply)
    ensures r.install.Some? <==> IsInstallRequest(args)
    ensures r.install.Some? ==> r.install.value == args[2] && r.out == [InstallingLine(args[2])]
    ensures |args| < 2 ==> r.out == [WriteLine(NpmUsageText)]
    ensures |args| >= 2 && !IsInstallRequest(args) ==>
      r.out == [WriteLine("Unsupported npm command: " + ToLower(args[1]))]
  {
    if |args| < 2 then Reply([WriteLine(NpmUsageText)], None)
    else
      var sub := ToLower(args[1]);
      if sub == "install" && |args| >= 3 then Reply([InstallingLine(args[2])], Some(args[2]))
      else Reply([WriteLine("Unsupported npm command: " + sub)], None)
  }

  /** The `switch` on the command name, before the closing prompt. */
  function Dispatch(cmd: string, args: seq<string>, registry: seq<Package>): Reply
    requires |args| >= 1
  {
    if cmd == "help" then Reply(HelpOutput, None)
    else if cmd == "clear" then Reply([Clear], None)
    else if cmd == "npm" then Npm(args)
    else if cmd == "ls" then Reply([WriteLine(LsText)], None)
    else if cmd == "pwd" then Reply([WriteLine(PwdText)], None)
    else if cmd == "echo" then Reply([WriteLine(Join(args[1..], ' '))], None)
    else if cmd == "installed-packages" then Reply(InstalledPackages(registry), None)
    else Reply([WriteLine("Command not found: " + cmd)], None)
  }

  /**
    * `processCommand`: every line ends with a prompt; only an npm install request
    * starts an installation, of the third word; each known name writes its own
    * output; an unknown name gives exactly one "Command not found" line, with the
    * name lowercased.
    */
  function ProcessCommand(line: string, registry: seq<Package>): (r: Reply)
    ensures |r.out| >= 1 && r.out[|r.out| - 1] == Prompt
    ensures r.install.Some? <==> CommandName(line) == "npm" && IsInstallRequest(Args(line))
    ensures r.install.Some? ==> r.install.value == Args(line)[2]
    ensures CommandName(line) == "help" ==> r.out == HelpOutput + [Prompt]
    ensures CommandName(line) == "clear" ==> r.out == [Clear, Prompt]
    ensures CommandName(line) == "npm" ==> r.out == Npm(Args(line)).out + [Prompt]
    ensures CommandName(line) == "ls" ==> r.out == [WriteLine(LsText), Prompt]
    ensures CommandName(line) == "pwd" ==> r.out == [WriteLine(PwdText), Prompt]
    ensures CommandName(line) == "installed-packages" ==> r.out == InstalledPackages(registry) + [Prompt]
    ensures CommandName(line) !in Vocabulary ==>
      r == Reply([WriteLine("Command not found: " + CommandName(line)), Prompt], None)
  {
    var args := Args(line);
    var reply := Dispatch(ToLower(args[0]), args, registry);
    Reply(reply.out + [Prompt], reply.install)
  }

  /** The words of a line whose ends are not blank are the pieces that join back to it. */
  lemma ArgsOfWords(line: string, words: seq<string>)
    requires line != [] && !IsWhitespace(line[0]) && !IsWhitespace(line[|line| - 1])
    requires |words| >= 1 && forall k :: 0 <= k < |words| ==> ' ' !in words[k]
    requires Join(words, ' ') == line
    ensures Args(line) == words
  {
    TrimUnchanged(line);
    SplitJoin(words, ' ');
  }

  /**
    * `echo` writes one line, the trimmed input after its first word and the one
    * space that follows it (nothing when the line is the word alone): runs of
    * spaces inside the message are kept, because the words are rejoined with the
    * separator they were split on.
    */
  lemma EchoWritesRestOfLine(line: string, registry: seq<Package>)
    requires CommandName(line) == "echo"
    ensures var out := ProcessCommand(line, registry).out;
      |out| == 2 && out[0].WriteLine? && out[1] == Prompt
      && ' ' !in Args(line)[0]
      && (if ' ' in Trim(line) then Trim(line) == Args(line)[0] + " " + out[0].text else out[0].text == "")
  {
    SplitFirst(Trim(line), ' ');
    SplitPiecesOmitSeparator(Trim(line), ' ');
  }

  /** `echo a  b` writes `a  b`, keeping both spaces. */
  lemma EchoKeepsDoubleSpace(line: string, registry: seq<Package>)
    requires line == "echo a  b"
    ensures ProcessCommand(line, registry).out == [WriteLine("a  b"), Prompt]
  {
    var words := ["echo", "a", "", "b"];
    assert Join(words[3..], ' ') == "b";
    assert Join(words[2..], ' ') == " b";
    assert Join(words[1..], ' ') == "a  b";
    assert Join(words, ' ') == line;
    ArgsOfWords(line, words);
    ToLowerUnchanged("echo");
  }

  /** A bare `npm install` is not an install: it is reported as an unsupported subcommand. */
  lemma BareNpmInstallUnsupported(args: seq<string>)
    requires args == ["npm", "install"]
    ensures Npm(args) == Reply([WriteLine("Unsupported npm command: install")], None)
  {
    ToLowerUnchanged("install");
    assert "Unsupported npm command: " + "install" == "Unsupported npm command: install";
  }

  /**
    * Two spaces after `install` make the third word empty, so
    * `npm install  left-pad` starts an installation of the empty name.
    */
  lemma DoubleSpaceInstallsEmptyName(line: string, registry: seq<Package>)
    requires line == "npm install  left-pad"
    ensures Args(line) == ["npm", "install", "", "left-pad"]
    ensures ProcessCommand(line, registry).install == Some("")
  {
    var words := ["npm", "install", "", "left-pad"];
    assert Join(words[3..], ' ') == "left-pad";
    assert Join(words[2..], ' ') == " left-pad";
    assert Join(words[1..], ' ') == "install  left-pad";
    assert Join(words, ' ') == line;
    ArgsOfWords(line, words);
    StartsInstall(line, registry);
  }

  /** A line whose words are `npm`, `install` and more starts an install of the third word. */
  lemma StartsInstall(line: string, registry: seq<Package>)
    requires |Args(line)| >= 3 && Args(line)[0] == "npm" && Args(line)[1] == "install"
    ensures ProcessCommand(line, registry).install == Some(Args(line)[2])
  {
  }

  /**
    * After a record is appended to the registry, `installed-packages` lists the
    * old lines unchanged and one more, for the new record, at the end.
    */
  lemma ListingAfterAppend(registry: seq<Package>, p: Package)
    ensures InstalledPackages(registry + [p])
      == [WriteLine(PackagesHeader)] + PackageLines(registry) + [WriteLine("  " + Describe(p))]
  {
  }
}
