/** The `TerminalPortfolio` component's session state and its handlers: the
    four state variables become fields, each state setter an assignment, and
    each handler a method whose effect is the matching function of Session. */
module Terminal {
  import opened Strings
  import opened Commands
  import opened Session

  class TerminalPortfolio {
    /** The producers' fixed prose, shared by every command. */
    const content: Content

    var history: seq<Entry>
    var currentInput: string
    var historyIndex: int
    var commandHistory: seq<string>

    /** The four fields as one value. */
    function Snapshot(): State
      reads this
    {
      State(history, currentInput, historyIndex, commandHistory)
    }

    predicate Valid()
      reads this
    {
      CursorInRange(Snapshot())
    }

    /** The initial values of the four state variables. */
    constructor (content: Content)
      ensures this.content == content
      ensures Snapshot() == Initial() && Valid()
    {
      this.content := content;
      history := [];
      currentInput := "";
      historyIndex := -1;
      commandHistory := [];
    }

    /** The mount effect: the transcript becomes the single `help` entry. */
    method Mount()
      modifies this
      ensures Snapshot() == MountEffect(content, old(Snapshot()))
      ensures old(Valid()) ==> Valid()
    {
      var helpOutput := Registry(content)["help"];
      history := [Entry("help", helpOutput)];
    }

    /** `handleSubmit` for the Enter key. */
    method HandleSubmit()
      requires Valid()
      modifies this
      ensures Valid()
      ensures Snapshot() == Submit(content, old(Snapshot()))
    {
      if Trim(currentInput) == "" {
        SubmitBlank(content, Snapshot());
        return;
      }
      // `processCommand` has an output for every line that is not blank, so
      // the null check on its result never returns here.
      SubmitNonBlank(content, Snapshot());
      var output := ProcessCommand(content, currentInput).value;
      RecordOutput(output);
    }

    /** The four state setters of `handleSubmit` once the typed line has
        produced `output`: `clear` empties the transcript, anything else is
        appended to it; the line joins the recall list and the prompt resets. */
    method RecordOutput(output: Output)
      modifies this
      ensures Snapshot() == Record(old(Snapshot()), output)
    {
      var newEntry := Entry(currentInput, output);
      if output.Clear? {
        history := [];
      } else {
        history := history + [newEntry];
      }
      commandHistory := commandHistory + [currentInput];
      currentInput := "";
      historyIndex := -1;
    }

    /** `handleKeyDown`: history recall on ArrowUp and ArrowDown. */
    method HandleKeyDown(key: string)
      requires Valid()
      modifies this
      ensures Valid()
      ensures Snapshot() == RecallKey(old(Snapshot()), key)
    {
      if key == "ArrowUp" {
        if historyIndex < |commandHistory| - 1 {
          var newIndex := historyIndex + 1;
          historyIndex := newIndex;
          currentInput := commandHistory[|commandHistory| - 1 - newIndex];
        }
      } else if key == "ArrowDown" {
        if historyIndex > 0 {
          var newIndex := historyIndex - 1;
          historyIndex := newIndex;
          currentInput := commandHistory[|commandHistory| - 1 - newIndex];
        } else if historyIndex == 0 {
          historyIndex := -1;
          currentInput := "";
        }
      }
    }

    /** The input's change handler. */
    method OnChange(value: string)
      modifies this
      ensures Snapshot() == Edit(old(Snapshot()), value)
      ensures old(Valid()) ==> Valid()
    {
      currentInput := value;
    }

    /** The input's key handler. */
    method OnKeyDown(key: string)
      requires Valid()
      modifies this
      ensures Valid()
      ensures Snapshot() == KeyDown(content, old(Snapshot()), key)
    {
      if key == "Enter" {
        HandleSubmit();
      } else {
        HandleKeyDown(key);
      }
    }
  }

  /** A visit: the component is created and mounted, shows `help`, and its
      recall list is empty. */
  method Open(content: Content) returns (terminal: TerminalPortfolio)
    ensures fresh(terminal) && terminal.content == content
    ensures terminal.Valid() && terminal.Snapshot() == Mounted(content)
  {
    terminal := new TerminalPortfolio(content);
    terminal.Mount();
  }
}
