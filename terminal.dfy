/**
 * The `Terminal` object itself: the text in the input field, the lines in the
 * output area, the command history with its cursor, and the page's content
 * sections that commands open. Its methods update these fields in place.
 */
module TerminalApp {
  import opened Text
  import opened History
  import opened Sections
  import opened Commands

  class Terminal {
    /** The input field's text. */
    var input: string
    /** The output area, one line per entry (see the `Commands` module for how
        a line's text relates to what the browser shows). */
    var output: seq<string>
    /** Every entered command, normalised, oldest first. */
    var commandHistory: seq<string>
    /** The arrow-key cursor into `commandHistory`. */
    var historyIndex: int
    /** The page's content sections and whether each is shown. */
    var sections: map<string, bool>

    /** The cursor stays within its bounds, and the history holds only the
        non-empty normalised lines `executeCommand` pushed. */
    ghost predicate Valid()
      reads this
    {
      && InRange(commandHistory, historyIndex)
      && forall i :: 0 <= i < |commandHistory| ==> Normal(commandHistory[i])
    }

    /** A fresh terminal over the page's input field, output area and sections,
        which keep whatever the page holds: no history yet, cursor at -1. */
    constructor (pageInput: string, pageOutput: seq<string>, pageSections: map<string, bool>)
      ensures Valid()
      ensures input == pageInput && output == pageOutput && sections == pageSections
      ensures commandHistory == [] && historyIndex == -1
    {
      input := pageInput;
      output := pageOutput;
      commandHistory := [];
      historyIndex := -1;
      sections := pageSections;
    }

    /** `addOutputLine`: one line is appended at the end of the output area. */
    method AddOutputLine(line: string)
      modifies this`output
      ensures output == old(output) + [line]
    {
      output := output + [line];
    }

    /** `clearTerminal`: the output area is emptied. */
    method ClearTerminal()
      modifies this`output
      ensures output == []
    {
      output := [];
    }

    /** `executeCommand`. The input field is always emptied. A line that is blank
        once trimmed changes nothing else. Otherwise the normalised line is pushed
        on the history, the cursor moves one past it, the line is echoed after the
        prompt, and the command's effect is applied to the output area; what the
        command schedules for later is returned. */
    method ExecuteCommand(clock: Clock) returns (later: Deferred)
      requires Valid()
      modifies this`input, this`output, this`commandHistory, this`historyIndex
      ensures Valid()
      ensures input == ""
      ensures Normalize(old(input)) == "" ==>
        && output == old(output)
        && commandHistory == old(commandHistory)
        && historyIndex == old(historyIndex)
        && later == Nothing
      ensures Normalize(old(input)) != "" ==>
        var line := Normalize(old(input));
        var e := Dispatch(line, clock);
        && commandHistory == old(commandHistory) + [line]
        && historyIndex == |commandHistory|
        && output == Apply(old(output) + [EchoLine(line)], e)
        && later == e.later
    {
      var line := Normalize(input);
      input := "";
      if line == "" {
        return Nothing;
      }
      NormalIsFixpoint(old(input));
      later := Enter(line, clock);
    }

    /** A non-blank normalised line: it is pushed on the history, the cursor
        moves one past it, it is echoed after the prompt and then run. */
    method Enter(line: string, clock: Clock) returns (later: Deferred)
      requires Valid() && Normal(line)
      modifies this`output, this`commandHistory, this`historyIndex
      ensures Valid()
      ensures commandHistory == old(commandHistory) + [line]
      ensures historyIndex == |commandHistory|
      ensures output == Apply(old(output) + [EchoLine(line)], Dispatch(line, clock))
      ensures later == Dispatch(line, clock).later
    {
      commandHistory := commandHistory + [line];
      historyIndex := |commandHistory|;
      AddOutputLine(EchoLine(line));
      later := Run(line, clock);
    }

    /** Looks the command word of a normalised line up and applies its handler's
        effect, or prints the "Command not found" line. */
    method Run(line: string, clock: Clock) returns (later: Deferred)
      modifies this`output
      ensures output == Apply(old(output), Dispatch(line, clock))
      ensures later == Dispatch(line, clock).later
    {
      var e := Dispatch(line, clock);
      Perform(e);
      later := e.later;
    }

    /** A click on a post's link in the blog listing: the post is shown as if
        `blogs <slug>` had been typed, without echo or history. */
    method ClickBlogLink(slug: string) returns (later: Deferred)
      modifies this`output
      ensures output == Apply(old(output), ShowBlog([slug]))
      ensures later == ShowBlog([slug]).later
    {
      var e := ShowBlog([slug]);
      Perform(e);
      later := e.later;
    }

    /** What a handler does to the output area: `clear` empties it, the others
        append their lines. */
    method Perform(e: Effect)
      modifies this`output
      ensures output == Apply(old(output), e)
    {
      if e.clears {
        ClearTerminal();
      }
      output := output + e.lines;
    }

    /** `navigateHistory`: the cursor and the input field move as `Navigate`
        says; the history itself is untouched. */
    method NavigateHistory(d: Direction)
      requires Valid()
      modifies this`historyIndex, this`input
      ensures Valid()
      ensures Cursor(historyIndex, input) == Navigate(commandHistory, Cursor(old(historyIndex), old(input)), d)
    {
      if d == Up && historyIndex > 0 {
        historyIndex := historyIndex - 1;
        input := commandHistory[historyIndex];
      } else if d == Down && historyIndex < |commandHistory| - 1 {
        historyIndex := historyIndex + 1;
        input := commandHistory[historyIndex];
      } else if d == Down && historyIndex == |commandHistory| - 1 {
        historyIndex := historyIndex + 1;
        input := "";
      }
    }

    /** `openSection(id)`: every section is closed one by one, then the section
        with that id, if the page has one, is shown. */
    method OpenSection(id: string)
      modifies this`sections
      ensures sections == Opened(old(sections), id)
    {
      var todo := sections.Keys;
      while todo != {}
        invariant todo <= sections.Keys
        invariant sections.Keys == old(sections).Keys
        invariant forall k :: k in sections && k !in todo ==> !sections[k]
        invariant forall k :: k in todo ==> sections[k] == old(sections)[k]
        decreases todo
      {
        var k :| k in todo;
        sections := sections[k := false];
        todo := todo - {k};
      }
      if id in sections {
        sections := sections[id := true];
      }
    }

    /** Runs an action a command scheduled, once it is due. A delayed section
        opening opens that section. For a post download, `loaded` says whether
        it succeeded: a loaded post opens the blog section if the page has one,
        and a failed download prints the failure line naming the post's slug.
        Closing the window acts outside the terminal's state. */
    method RunDeferred(d: Deferred, loaded: bool)
      modifies this`sections, this`output
      ensures d.OpenSectionAfter? ==> sections == Opened(old(sections), d.id) && output == old(output)
      ensures d.FetchPost? && loaded ==>
        && output == old(output)
        && sections == if BlogSection in old(sections) then Opened(old(sections), BlogSection) else old(sections)
      ensures d.FetchPost? && !loaded ==>
        output == old(output) + [LoadFailedLine(d.post.slug)] && sections == old(sections)
      ensures d.Nothing? || d.CloseWindowAfter? ==> sections == old(sections) && output == old(output)
    {
      match d
      case OpenSectionAfter(id, _) =>
        OpenSection(id);
      case FetchPost(post) =>
        if !loaded {
          AddOutputLine(LoadFailedLine(post.slug));
        } else if BlogSection in sections {
          OpenSection(BlogSection);
        }
      case _ =>
    }
  }
}
