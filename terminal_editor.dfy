/**
  * The terminal's line editor and history navigator, as a function of its state
  * and one key: the input buffer, the command history and the history cursor
  * change, display calls are made, and a committed line may start an install.
  */
module LineEditor {
  import opened Wrappers
  import opened Text
  import opened Packages
  import opened Commands

  /**
    * A key event. Enter, Backspace and the two arrows are recognised by key
    * code whatever the modifiers; any other key carries the text it types and
    * its Alt, Ctrl and Meta flags.
    */
  datatype Key = Enter | Backspace | Up | Down | Other(key: string, alt: bool, ctrl: bool, meta: bool)

  /** A key with no Alt, Ctrl or Meta held types its text. */
  predicate Printable(k: Key)
    requires k.Other?
  {
    !k.alt && !k.ctrl && !k.meta
  }

  /** The editor's variables: `currentInput`, `commandHistory` and `historyIndex`. */
  datatype LineState = LineState(input: string, history: seq<string>, index: int)

  /** The state before the first key. */
  const Initial: LineState := LineState("", [], -1)

  /**
    * The cursor stays between -1 and the history length, and is -1 only while
    * the history is empty.
    */
  predicate IndexInRange(s: LineState) {
    -1 <= s.index <= |s.history| && (s.index == -1 ==> s.history == [])
  }

  /** Carriage return, erase to end of line, and a new prompt: the redraw before a recalled line. */
  const Redraw: Output := Write("\r\U{1B}[K$ ")

  /** Backspace, space, backspace: erases the last character on the display. */
  const Erase: Output := Write("\U{08} \U{08}")

  /** What one key does: the next state, the display calls, and the install a committed line started. */
  datatype KeyEffect = KeyEffect(next: LineState, out: seq<Output>, install: Option<string>)

  /**
    * `handleKeyEvent`. The history changes only on Enter with a non-blank
    * line, which is pushed as typed; only such a line can start an install.
    */
  function KeyStep(s: LineState, k: Key, registry: seq<Package>): (e: KeyEffect)
    requires IndexInRange(s)
    ensures IndexInRange(e.next)
    ensures e.next.history == s.history
      || (k == Enter && !IsBlank(s.input) && e.next.history == s.history + [s.input])
    ensures e.install.Some? ==> k == Enter && e.install == ProcessCommand(s.input, registry).install
  {
    match k
    case Enter =>
      if !IsBlank(s.input) then
        var reply := ProcessCommand(s.input, registry);
        KeyEffect(LineState("", s.history + [s.input], |s.history| + 1), [WriteLine("")] + reply.out, reply.install)
      else
        KeyEffect(LineState("", s.history, s.index), [WriteLine(""), Prompt], None)
    case Backspace =>
      if |s.input| > 0 then
        KeyEffect(s.(input := s.input[..|s.input| - 1]), [Erase], None)
      else
        KeyEffect(s, [], None)
    case Up =>
      if s.index > 0 then
        var i := s.index - 1;
        KeyEffect(LineState(s.history[i], s.history, i), [Redraw, Write(s.history[i])], None)
      else
        KeyEffect(s, [], None)
    case Down =>
      if s.index < |s.history| - 1 then
        var i := s.index + 1;
        KeyEffect(LineState(s.history[i], s.history, i), [Redraw, Write(s.history[i])], None)
      else if s.index == |s.history| - 1 then
        KeyEffect(LineState("", s.history, |s.history|), [Redraw], None)
      else
        KeyEffect(s, [], None)
    case Other(key, alt, ctrl, meta) =>
      if !alt && !ctrl && !meta then
        KeyEffect(s.(input := s.input + key), [Write(key)], None)
      else
        KeyEffect(s, [], None)
  }

  /** A key with no modifier types its text and echoes it; with a modifier it does nothing. */
  lemma OtherKey(s: LineState, k: Key, registry: seq<Package>)
    requires IndexInRange(s) && k.Other?
    ensures Printable(k) ==>
      KeyStep(s, k, registry) == KeyEffect(LineState(s.input + k.key, s.history, s.index), [Write(k.key)], None)
    ensures !Printable(k) ==> KeyStep(s, k, registry) == KeyEffect(s, [], None)
  {
  }

  /** Backspace drops exactly the last character and erases it, and does nothing on an empty buffer. */
  lemma BackspaceDropsLast(s: LineState, registry: seq<Package>)
    requires IndexInRange(s)
    ensures var e := KeyStep(s, Backspace, registry);
      (s.input != [] ==>
         e.next.input + [Last(s.input)] == s.input && e.next.history == s.history
         && e.next.index == s.index && e.out == [Erase] && e.install == None)
      && (s.input == [] ==> e == KeyEffect(s, [], None))
  {
  }

  /**
    * Enter on a non-blank line runs it, pushes it as typed and points the cursor
    * past the newest entry; on a blank line it only writes a new prompt. Either
    * way the buffer is emptied.
    */
  lemma EnterCommits(s: LineState, registry: seq<Package>)
    requires IndexInRange(s)
    ensures var e := KeyStep(s, Enter, registry);
      var reply := ProcessCommand(s.input, registry);
      (!IsBlank(s.input) ==>
         e == KeyEffect(LineState("", s.history + [s.input], |s.history| + 1), [WriteLine("")] + reply.out, reply.install))
      && (IsBlank(s.input) ==>
         e == KeyEffect(LineState("", s.history, s.index), [WriteLine(""), Prompt], None))
  {
  }

  /** Up recalls the entry before the cursor when there is one, and otherwise does nothing. */
  lemma UpRecalls(s: LineState, registry: seq<Package>)
    requires IndexInRange(s)
    ensures var e := KeyStep(s, Up, registry);
      (s.index > 0 ==>
         e == KeyEffect(LineState(s.history[s.index - 1], s.history, s.index - 1),
                        [Redraw, Write(s.history[s.index - 1])], None))
      && (s.index <= 0 ==> e == KeyEffect(s, [], None))
  {
  }

  /**
    * Down recalls the entry after the cursor, steps from the newest entry to an
    * empty buffer past the end, and does nothing at the end.
    */
  lemma DownRecalls(s: LineState, registry: seq<Package>)
    requires IndexInRange(s)
    ensures var e := KeyStep(s, Down, registry);
      (s.index < |s.history| - 1 ==>
         e == KeyEffect(LineState(s.history[s.index + 1], s.history, s.index + 1),
                        [Redraw, Write(s.history[s.index + 1])], None))
      && (s.index == |s.history| - 1 ==> e == KeyEffect(LineState("", s.history, |s.history|), [Redraw], None))
      && (s.index == |s.history| ==> e == KeyEffect(s, [], None))
  {
  }

  /** The install of one step as a list: empty, or the one name. */
  function Installs(install: Option<string>): seq<string> {
    if install.Some? then [install.value] else []
  }

  /** What a run of keys does: the final state, every display call, and the installs in order. */
  datatype Trace = Trace(last: LineState, out: seq<Output>, installs: seq<string>)

  /**
    * A sequence of key events handled one after another. The history only
    * grows, at its end, and the cursor stays in range.
    */
  function Run(s: LineState, keys: seq<Key>, registry: seq<Package>): (t: Trace)
    requires IndexInRange(s)
    ensures IndexInRange(t.last)
    ensures |s.history| <= |t.last.history| && t.last.history[..|s.history|] == s.history
    decreases |keys|
  {
    if keys == [] then Trace(s, [], [])
    else
      var e := KeyStep(s, keys[0], registry);
      var t := Run(e.next, keys[1..], registry);
      assert t.last.history[..|e.next.history|] == e.next.history;
      assert e.next.history[..|s.history|] == s.history;
      Trace(t.last, e.out + t.out, Installs(e.install) + t.installs)
  }

  /** The key events of typing `text` one character at a time with no modifier. */
  function Typed(text: string): (keys: seq<Key>)
    ensures |keys| == |text|
    ensures forall k :: 0 <= k < |text| ==> keys[k] == Other([text[k]], false, false, false)
  {
    if text == [] then [] else [Other([text[0]], false, false, false)] + Typed(text[1..])
  }

  /** The display calls that echo a text one character at a time. */
  function Echoes(text: string): (out: seq<Output>)
    ensures |out| == |text|
    ensures forall k :: 0 <= k < |text| ==> out[k] == Write([text[k]])
  {
    if text == [] then [] else [Write([text[0]])] + Echoes(text[1..])
  }

  /** `n` presses of the same key. */
  function Repeat(k: Key, n: nat): (keys: seq<Key>)
    ensures |keys| == n
    ensures forall i :: 0 <= i < n ==> keys[i] == k
  {
    if n == 0 then [] else [k] + Repeat(k, n - 1)
  }

  /**
    * Typing a text appends it to the buffer and echoes it character by
    * character; the history and the cursor are untouched and nothing is installed.
    */
  lemma {:induction false} TypingAppends(s: LineState, text: string, registry: seq<Package>)
    requires IndexInRange(s)
    ensures var t := Run(s, Typed(text), registry);
      t.last == LineState(s.input + text, s.history, s.index) && t.installs == [] && t.out == Echoes(text)
    decreases |text|
  {
    if text != [] {
      var s' := LineState(s.input + [text[0]], s.history, s.index);
      assert Typed(text)[1..] == Typed(text[1..]);
      TypingAppends(s', text[1..], registry);
      assert s.input + [text[0]] + text[1..] == s.input + text;
    }
  }

  /** Every history entry was non-blank when it was committed. */
  predicate NoBlankEntries(history: seq<string>) {
    forall k :: 0 <= k < |history| ==> !IsBlank(history[k])
  }

  lemma NoBlankAppend(history: seq<string>, line: string)
    requires NoBlankEntries(history) && !IsBlank(line)
    ensures NoBlankEntries(history + [line])
  {
  }

  /** Blank lines never reach the history: a run keeps it free of them. */
  lemma {:induction false} RunKeepsHistoryNonBlank(s: LineState, keys: seq<Key>, registry: seq<Package>)
    requires IndexInRange(s) && NoBlankEntries(s.history)
    ensures NoBlankEntries(Run(s, keys, registry).last.history)
    decreases |keys|
  {
    if keys != [] {
      var e := KeyStep(s, keys[0], registry);
      if e.next.history != s.history {
        NoBlankAppend(s.history, s.input);
      }
      RunKeepsHistoryNonBlank(e.next, keys[1..], registry);
    }
  }

  /** Up right after a command was entered brings that command back, untrimmed. */
  lemma UpRecallsLastCommand(s: LineState, registry: seq<Package>)
    requires IndexInRange(s) && !IsBlank(s.input)
    ensures var after := KeyStep(s, Enter, registry).next;
      KeyStep(after, Up, registry).next == LineState(s.input, s.history + [s.input], |s.history|)
  {
    EnterCommits(s, registry);
    var after := LineState("", s.history + [s.input], |s.history| + 1);
    UpRecalls(after, registry);
  }

  /**
    * Pressing Up walks back one entry at a time, newest first, and stops at
    * the oldest entry; from index 0 or -1 it does nothing.
    */
  lemma {:induction false} UpStopsAtOldest(s: LineState, n: nat, registry: seq<Package>)
    requires IndexInRange(s)
    ensures var t := Run(s, Repeat(Up, n), registry);
      t.installs == [] && t.last.history == s.history
      && (s.index <= 0 || n == 0 ==> t.last == s)
      && (s.index > 0 && n > 0 ==>
            t.last.index == (if n < s.index then s.index - n else 0)
            && t.last.input == s.history[t.last.index])
    decreases n
  {
    if n > 0 {
      assert Repeat(Up, n)[1..] == Repeat(Up, n - 1);
      var e := KeyStep(s, Up, registry);
      UpStopsAtOldest(e.next, n - 1, registry);
    }
  }

  /**
    * Pressing Down enough times from anywhere before the end leaves the cursor
    * just past the newest entry with an empty buffer, and further Downs keep it there.
    */
  lemma {:induction false} DownReachesEmptyEnd(s: LineState, n: nat, registry: seq<Package>)
    requires IndexInRange(s)
    requires s.index < |s.history| || s.input == ""
    requires n >= |s.history| - s.index
    ensures var t := Run(s, Repeat(Down, n), registry);
      t.last == LineState("", s.history, |s.history|) && t.installs == []
    decreases n
  {
    if n > 0 {
      assert Repeat(Down, n)[1..] == Repeat(Down, n - 1);
      var e := KeyStep(s, Down, registry);
      DownReachesEmptyEnd(e.next, n - 1, registry);
    }
  }

  /**
    * Before anything is entered the cursor is -1, which counts as "on the
    * newest entry": Down clears the buffer and moves the cursor to 0.
    */
  lemma DownWithEmptyHistoryClearsInput(text: string, registry: seq<Package>)
    ensures KeyStep(LineState(text, [], -1), Down, registry) == KeyEffect(LineState("", [], 0), [Redraw], None)
  {
  }
}
