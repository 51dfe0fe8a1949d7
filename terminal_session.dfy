/**
  * The terminal component as an object: the editor's variables, the package
  * registry, the installs waiting for their completion, and everything written
  * to the display so far. Each method handles one event and updates the
  * fields in place.
  */
module Session {
  import opened Wrappers
  import opened Text
  import opened Packages
  import opened Commands
  import opened LineEditor

  class Terminal {
    /** `currentInput`. */
    var input: string
    /** `commandHistory`, pushed to in place. */
    var history: seq<string>
    /** `historyIndex`. */
    var index: int
    /** `installedPackages`. */
    var registry: seq<Package>
    /** Names whose install started and has not completed yet, oldest first. */
    var pending: seq<string>
    /** Every display call made, in order. */
    var display: seq<Output>

    /** The editor's part of the state. */
    function Line(): LineState
      reads this
    {
      LineState(input, history, index)
    }

    ghost predicate Valid()
      reads this
    {
      IndexInRange(Line())
    }

    /** Opening the terminal writes the banner and the first prompt; nothing is typed or installed yet. */
    constructor ()
      ensures Valid()
      ensures Line() == Initial && registry == [] && pending == []
      ensures display == Banner + [Prompt]
    {
      input := "";
      history := [];
      index := -1;
      registry := [];
      pending := [];
      display := Banner + [Prompt];
    }

    /**
      * One key handled as `KeyStep` says: the editor moves to the next state,
      * the key's display calls follow the earlier ones, an install it starts
      * joins the waiting ones, and the registry is not touched.
      */
    twostate predicate StepsBy(k: Key)
      reads this
      requires old(Valid())
    {
      var e := KeyStep(old(Line()), k, old(registry));
      Line() == e.next && display == old(display) + e.out
      && pending == old(pending) + Installs(e.install) && registry == old(registry)
    }

    /** `handleKeyEvent`: the branch on the key code. */
    method HandleKey(k: Key)
      requires Valid()
      modifies this
      ensures Valid() && StepsBy(k)
    {
      match k {
        case Enter => EnterLine();
        case Backspace => EraseLast();
        case Up => HistoryBack();
        case Down => HistoryForward();
        case Other(key, alt, ctrl, meta) => TypeKey(key, alt, ctrl, meta);
      }
    }

    /** Enter: a non-blank line is run and pushed as typed; the buffer is emptied either way. */
    method EnterLine()
      requires Valid()
      modifies this
      ensures Valid() && StepsBy(Enter)
    {
      var line := input;
      EnterCommits(Line(), registry);
      if !IsBlank(line) {
        var reply := ProcessCommand(line, registry);
        history := history + [line];
        index := |history|;
        display := display + ([WriteLine("")] + reply.out);
        pending := pending + Installs(reply.install);
      } else {
        display := display + [WriteLine(""), Prompt];
        assert pending + [] == pending;
      }
      input := "";
    }

    /** Backspace: the last character is dropped and erased on the display. */
    method EraseLast()
      requires Valid()
      modifies this
      ensures Valid() && StepsBy(Backspace)
    {
      if |input| > 0 {
        input := input[..|input| - 1];
        display := display + [Erase];
      } else {
        assert display + [] == display && pending + [] == pending;
      }
    }

    /** Up: the entry before the cursor is recalled, if there is one. */
    method HistoryBack()
      requires Valid()
      modifies this
      ensures Valid() && StepsBy(Up)
    {
      if index > 0 {
        index := index - 1;
        display := display + [Redraw];
        input := history[index];
        display := display + [Write(input)];
      } else {
        assert display + [] == display && pending + [] == pending;
      }
    }

    /** Down: the entry after the cursor is recalled, or the buffer emptied past the newest entry. */
    method HistoryForward()
      requires Valid()
      modifies this
      ensures Valid() && StepsBy(Down)
    {
      if index < |history| - 1 {
        index := index + 1;
        display := display + [Redraw];
        input := history[index];
        display := display + [Write(input)];
      } else if index == |history| - 1 {
        index := |history|;
        display := display + [Redraw];
        input := "";
      } else {
        assert display + [] == display && pending + [] == pending;
      }
    }

    /** Any other key: typed and echoed when no modifier is held. */
    method TypeKey(key: string, alt: bool, ctrl: bool, meta: bool)
      requires Valid()
      modifies this
      ensures Valid() && StepsBy(Other(key, alt, ctrl, meta))
    {
      if !alt && !ctrl && !meta {
        input := input + key;
        display := display + [Write(key)];
      } else {
        assert display + [] == display && pending + [] == pending;
      }
    }

    /**
      * The completion of the oldest waiting install, with the three digits its
      * version is made of: exactly one record is appended to the registry, with
      * no check for a record of the same name, the two completion lines and a
      * prompt are written, and the editor is left as it was.
      */
    method CompleteInstall(major: Digit, minor: Digit, patch: Digit)
      requires pending != []
      modifies this
      ensures registry == old(registry) + [Package(old(pending)[0], Version(major, minor, patch))]
      ensures Split(registry[|registry| - 1].version, '.')
        == [[DigitChar(major)], [DigitChar(minor)], [DigitChar(patch)]]
      ensures pending == old(pending)[1..]
      ensures display == old(display) + CompletionOutput(registry[|registry| - 1])
      ensures Line() == old(Line())
    {
      var p := Package(pending[0], Version(major, minor, patch));
      display := display + [WriteLine("+ " + Describe(p))];
      display := display + [WriteLine("\U{1B}[32mAdded " + Describe(p) + "\U{1B}[0m")];
      registry := registry + [p];
      pending := pending[1..];
      display := display + [Prompt];
    }
  }
}
