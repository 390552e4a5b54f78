/** The terminal session as a value: the transcript, the input line, the
    recall cursor and the recall list, and how submitting, the arrow keys,
    editing and mounting change them. The class in terminal.dfy updates its
    fields exactly as these functions say. */
module Session {
  import opened Strings
  import opened Commands

  /** One transcript entry: the line as typed and what it produced. */
  datatype Entry = Entry(command: string, output: Output)

  datatype State = State(
    history: seq<Entry>,
    currentInput: string,
    historyIndex: int,
    commandHistory: seq<string>)

  /** The recall cursor is -1 ("not recalling") or an offset from the newest
      recalled line, so `commandHistory[|commandHistory| - 1 - historyIndex]`
      is an element whenever the cursor is not -1. */
  predicate CursorInRange(s: State) {
    -1 <= s.historyIndex <= |s.commandHistory| - 1
  }

  /** The values the component's state starts from. */
  function Initial(): (s: State)
    ensures CursorInRange(s)
  {
    State([], "", -1, [])
  }

  /** The mount effect: the transcript shows `help`, as if it had been
      typed, but nothing is added to the recall list. */
  function MountEffect(c: Content, s: State): (t: State)
    ensures CursorInRange(s) ==> CursorInRange(t)
  {
    s.(history := [Entry("help", Registry(c)["help"])])
  }

  /** Enter: a blank line is ignored; otherwise the line is resolved, the
      transcript gains its entry (or is emptied by `clear`), the line joins
      the recall list, and the input and cursor are reset. */
  function Submit(c: Content, s: State): (t: State)
    ensures CursorInRange(s) ==> CursorInRange(t)
    ensures t.commandHistory == s.commandHistory || t.commandHistory == s.commandHistory + [s.currentInput]
    ensures t.history == s.history || t.history == []
         || (|t.history| == |s.history| + 1 && t.history[..|s.history|] == s.history
             && t.history[|s.history|].command == s.currentInput)
  {
    if Trim(s.currentInput) == "" then
      s
    else
      match ProcessCommand(c, s.currentInput)
      case None => s
      case Some(output) => Record(s, output)
  }

  /** The state after the typed line produced `output`. */
  function Record(s: State, output: Output): (t: State)
    ensures CursorInRange(t) && t.currentInput == "" && t.historyIndex == -1
    ensures t.commandHistory == s.commandHistory + [s.currentInput]
    ensures t.history == (if output.Clear? then [] else s.history + [Entry(s.currentInput, output)])
  {
    var history := if output.Clear? then [] else s.history + [Entry(s.currentInput, output)];
    State(history, "", -1, s.commandHistory + [s.currentInput])
  }

  /** ArrowUp: one line further back, unless the oldest is already shown. */
  function ArrowUp(s: State): (t: State)
    requires CursorInRange(s)
    ensures CursorInRange(t)
    ensures t.history == s.history && t.commandHistory == s.commandHistory
    ensures t.historyIndex == s.historyIndex || t.historyIndex == s.historyIndex + 1
  {
    if s.historyIndex < |s.commandHistory| - 1 then
      var newIndex := s.historyIndex + 1;
      s.(historyIndex := newIndex,
         currentInput := s.commandHistory[|s.commandHistory| - 1 - newIndex])
    else
      s
  }

  /** ArrowDown: one line forward; from the newest back to an empty line;
      nothing when not recalling. */
  function ArrowDown(s: State): (t: State)
    requires CursorInRange(s)
    ensures CursorInRange(t)
    ensures t.history == s.history && t.commandHistory == s.commandHistory
    ensures t.historyIndex == s.historyIndex - 1 || (t.historyIndex == -1 && t == s)
  {
    if s.historyIndex > 0 then
      var newIndex := s.historyIndex - 1;
      s.(historyIndex := newIndex,
         currentInput := s.commandHistory[|s.commandHistory| - 1 - newIndex])
    else if s.historyIndex == 0 then
      s.(historyIndex := -1, currentInput := "")
    else
      s
  }

  /** `handleKeyDown`: the two recall keys; any other key does nothing. */
  function RecallKey(s: State, key: string): (t: State)
    requires CursorInRange(s)
    ensures CursorInRange(t)
    ensures t.history == s.history && t.commandHistory == s.commandHistory
  {
    if key == "ArrowUp" then ArrowUp(s)
    else if key == "ArrowDown" then ArrowDown(s)
    else s
  }

  /** The input's change handler: the buffer takes the edited text; the
      cursor is left where it is. */
  function Edit(s: State, value: string): (t: State)
    ensures CursorInRange(s) ==> CursorInRange(t)
    ensures t.currentInput == value && t.historyIndex == s.historyIndex
    ensures t.history == s.history && t.commandHistory == s.commandHistory
  {
    s.(currentInput := value)
  }

  /** The input's key handler: Enter submits, every other key goes to
      `handleKeyDown`. */
  function KeyDown(c: Content, s: State, key: string): (t: State)
    requires CursorInRange(s)
    ensures CursorInRange(t)
    ensures t.commandHistory == s.commandHistory || t.commandHistory == s.commandHistory + [s.currentInput]
  {
    if key == "Enter" then Submit(c, s) else RecallKey(s, key)
  }

  /** What the user can do to the input field. */
  datatype Event = Key(key: string) | Change(value: string)

  function Step(c: Content, s: State, e: Event): (t: State)
    requires CursorInRange(s)
    ensures CursorInRange(t)
    ensures |s.commandHistory| <= |t.commandHistory| && t.commandHistory[..|s.commandHistory|] == s.commandHistory
  {
    match e
    case Key(key) => KeyDown(c, s, key)
    case Change(value) => Edit(s, value)
  }

  /** A sequence of events, in order. The recall list only ever grows, and
      the cursor stays in range whatever the user does. */
  function Run(c: Content, s: State, events: seq<Event>): (t: State)
    requires CursorInRange(s)
    ensures CursorInRange(t)
    ensures |s.commandHistory| <= |t.commandHistory|
    ensures t.commandHistory[..|s.commandHistory|] == s.commandHistory
    decreases |events|
  {
    if events == [] then s
    else
      var next := Step(c, s, events[0]);
      Run(c, next, events[1..])
  }

  /** The state once the component has mounted. */
  function Mounted(c: Content): (s: State)
    ensures CursorInRange(s)
    ensures s.history == [Entry("help", Text(c.help))]
    ensures s.commandHistory == [] && s.historyIndex == -1 && s.currentInput == ""
  {
    MountEffect(c, Initial())
  }

  /** From the mounted state, every reachable cursor indexes the recall list
      safely. */
  lemma ReachableCursorInRange(c: Content, events: seq<Event>)
    ensures CursorInRange(Run(c, Mounted(c), events))
  {
  }

  /** Only two things ever happen to the transcript: one entry is appended
      at the end (holding the line as typed) or everything is cleared. The
      recall list is never cut. */
  lemma StepTranscript(c: Content, s: State, e: Event)
    requires CursorInRange(s)
    ensures var t := Step(c, s, e);
      || t.history == s.history
      || t.history == []
      || (|t.history| == |s.history| + 1 && t.history[..|s.history|] == s.history
          && t.history[|s.history|].command == s.currentInput)
    ensures Step(c, s, e).commandHistory[..|s.commandHistory|] == s.commandHistory
  {
  }

  // ---------------------------------------------------------------------
  // Submitting

  /** A blank or whitespace-only line changes nothing at all. */
  lemma SubmitBlank(c: Content, s: State)
    requires AllWhitespace(s.currentInput)
    ensures Submit(c, s) == s
  {
  }

  /** A line that is not blank always has an output, and submitting it
      records that output. */
  lemma SubmitNonBlank(c: Content, s: State)
    requires Trim(s.currentInput) != ""
    ensures ProcessCommand(c, s.currentInput).Some?
    ensures Submit(c, s) == Record(s, ProcessCommand(c, s.currentInput).value)
  {
  }

  /** A non-blank line whose command is `clear` empties the transcript but is
      still recorded for recall. */
  lemma SubmitClear(c: Content, s: State)
    requires !AllWhitespace(s.currentInput) && Tokens(s.currentInput)[0] == "clear"
    ensures Submit(c, s) == State([], "", -1, s.commandHistory + [s.currentInput])
  {
    OnlyClearClears(c, s.currentInput);
  }

  /** Any other non-blank line appends exactly one entry, holding the line as
      typed (not trimmed or lower-cased) and its output, after the untouched
      earlier entries; the line is recorded for recall and the input and
      cursor are reset. */
  lemma SubmitAppends(c: Content, s: State)
    requires !AllWhitespace(s.currentInput) && Tokens(s.currentInput)[0] != "clear"
    ensures var t := Submit(c, s);
      && t.history == s.history + [Entry(s.currentInput, ProcessCommand(c, s.currentInput).value)]
      && !ProcessCommand(c, s.currentInput).value.Clear?
      && t.commandHistory == s.commandHistory + [s.currentInput]
      && t.currentInput == "" && t.historyIndex == -1
  {
    OnlyClearClears(c, s.currentInput);
  }

  /** Typing `clear` (in any letter case) clears the screen and keeps the
      line for recall. */
  lemma SubmitClearWord(c: Content, s: State)
    requires IsWord(s.currentInput) && ToLower(s.currentInput) == "clear"
    ensures Submit(c, s).history == []
    ensures Submit(c, s).commandHistory == s.commandHistory + [s.currentInput]
  {
    LeadingWord(s.currentInput, []);
    assert Join([s.currentInput] + []) == s.currentInput;
    SubmitClear(c, s);
  }

  // ---------------------------------------------------------------------
  // Recall

  /** ArrowUp pressed `k` times. */
  function UpTimes(s: State, k: nat): (t: State)
    requires CursorInRange(s)
    ensures CursorInRange(t)
  {
    if k == 0 then s else ArrowUp(UpTimes(s, k - 1))
  }

  /** ArrowDown pressed `k` times. */
  function DownTimes(s: State, k: nat): (t: State)
    requires CursorInRange(s)
    ensures CursorInRange(t)
  {
    if k == 0 then s else ArrowDown(DownTimes(s, k - 1))
  }

  /** From a fresh line, the k-th ArrowUp shows the k-th most recent line
      and leaves the cursor at k - 1; the transcript and recall list are
      untouched. */
  lemma {:induction false} RecallOlder(s: State, k: nat)
    requires CursorInRange(s) && s.historyIndex == -1
    requires 1 <= k <= |s.commandHistory|
    ensures UpTimes(s, k).historyIndex == k - 1
    ensures UpTimes(s, k).currentInput == s.commandHistory[|s.commandHistory| - k]
    ensures UpTimes(s, k).history == s.history
    ensures UpTimes(s, k).commandHistory == s.commandHistory
  {
    if k > 1 {
      RecallOlder(s, k - 1);
    }
  }

  /** At the oldest line ArrowUp does nothing. */
  lemma ArrowUpAtOldest(s: State)
    requires CursorInRange(s) && s.historyIndex == |s.commandHistory| - 1
    ensures ArrowUp(s) == s
  {
  }

  /** Pressing ArrowUp more often than there are lines stays on the oldest. */
  lemma {:induction false} RecallSaturates(s: State, k: nat)
    requires CursorInRange(s) && s.historyIndex == -1
    requires 1 <= |s.commandHistory| <= k
    ensures UpTimes(s, k) == UpTimes(s, |s.commandHistory|)
    ensures UpTimes(s, k).currentInput == s.commandHistory[0]
    decreases k
  {
    var n := |s.commandHistory|;
    RecallOlder(s, n);
    if k > n {
      RecallSaturates(s, k - 1);
      ArrowUpAtOldest(UpTimes(s, k - 1));
    }
  }

  /** ArrowDown from the newest recalled line returns to an empty line. */
  lemma ArrowDownFromNewest(s: State)
    requires CursorInRange(s) && s.historyIndex == 0
    ensures ArrowDown(s) == s.(historyIndex := -1, currentInput := "")
  {
  }

  /** ArrowDown when not recalling does nothing. */
  lemma ArrowDownAtRest(s: State)
    requires CursorInRange(s) && s.historyIndex == -1
    ensures ArrowDown(s) == s
  {
  }

  /** ArrowDown retraces ArrowUp: after k presses of ArrowUp, j < k presses
      of ArrowDown lead to the very state k - j presses of ArrowUp give. */
  lemma {:induction false} RecallNewerRetraces(s: State, k: nat, j: nat)
    requires CursorInRange(s) && s.historyIndex == -1
    requires j < k <= |s.commandHistory|
    ensures DownTimes(UpTimes(s, k), j) == UpTimes(s, k - j)
    decreases j
  {
    if j > 0 {
      RecallNewerRetraces(s, k, j - 1);
      RecallOlder(s, k - j + 1);
      RecallOlder(s, k - j);
    }
  }

  /** k presses of ArrowUp followed by k of ArrowDown end on an empty line
      with the cursor back at -1 and nothing else changed, for any k once a
      line has been submitted: ArrowUp stops at the oldest line, and the
      ArrowDown presses beyond the newest one do nothing. */
  lemma RecallRoundTrip(s: State, k: nat)
    requires CursorInRange(s) && s.historyIndex == -1
    requires 1 <= |s.commandHistory| && 1 <= k
    ensures DownTimes(UpTimes(s, k), k) == s.(currentInput := "")
  {
    var n := |s.commandHistory|;
    if k <= n {
      RecallNewerRetraces(s, k, k - 1);
      RecallOlder(s, 1);
    } else {
      RecallSaturates(s, k);
      DownPastRest(s, k);
    }
  }

  /** From the oldest line, k >= n presses of ArrowDown reach the empty line
      after n of them and then stay there. */
  lemma {:induction false} DownPastRest(s: State, k: nat)
    requires CursorInRange(s) && s.historyIndex == -1
    requires 1 <= |s.commandHistory| <= k
    ensures DownTimes(UpTimes(s, |s.commandHistory|), k) == s.(currentInput := "")
    decreases k
  {
    var n := |s.commandHistory|;
    if k == n {
      RecallNewerRetraces(s, n, n - 1);
      RecallOlder(s, 1);
    } else {
      DownPastRest(s, k - 1);
      ArrowDownAtRest(s.(currentInput := ""));
    }
  }
}
