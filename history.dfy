/**
 * The command-history cursor behind the arrow keys. `historyIndex` ranges from
 * -1 (no command typed yet) to one past the newest entry; the input field shows
 * the entry under the cursor, or nothing once the cursor has moved past the end.
 */
module History {

  datatype Direction = Up | Down

  /** What the arrow keys read and write: the cursor and the input field's text. */
  datatype Cursor = Cursor(index: int, input: string)

  /** The bounds the cursor keeps: -1 initially, at most one past the newest entry. */
  predicate InRange(history: seq<string>, index: int) {
    -1 <= index <= |history|
  }

  /** What the input field shows when the cursor stands at `index`. */
  function EntryAt(history: seq<string>, index: int): string
    requires 0 <= index <= |history|
  {
    if index < |history| then history[index] else ""
  }

  /** `navigateHistory(direction)`. Up moves back one entry unless the cursor is at
      the oldest entry or before it; Down moves forward one entry, or from the newest
      entry to the blank line after it, and does nothing once past the end. */
  function Navigate(history: seq<string>, c: Cursor, d: Direction): (r: Cursor)
    requires InRange(history, c.index)
    ensures InRange(history, r.index)
    ensures d == Up ==> r.index == if c.index > 0 then c.index - 1 else c.index
    ensures d == Down ==> r.index == if c.index < |history| then c.index + 1 else c.index
    ensures r.index != c.index ==> 0 <= r.index && r.input == EntryAt(history, r.index)
    ensures r.index == c.index ==> r == c
  {
    if d == Up && c.index > 0 then
      Cursor(c.index - 1, history[c.index - 1])
    else if d == Down && c.index < |history| - 1 then
      Cursor(c.index + 1, history[c.index + 1])
    else if d == Down && c.index == |history| - 1 then
      Cursor(c.index + 1, "")
    else
      c
  }

  /** Right after a command is entered the cursor is one past the newest entry, so
      Up recalls the command just typed. */
  lemma UpRecallsLatest(history: seq<string>, input: string)
    requires history != []
    ensures Navigate(history, Cursor(|history|, input), Up) == Cursor(|history| - 1, history[|history| - 1])
  {
  }

  /** Down undoes Up: from any entry after the oldest, Up then Down returns to the
      same place and shows what belongs there. */
  lemma UpThenDown(history: seq<string>, c: Cursor)
    requires 0 < c.index <= |history|
    ensures Navigate(history, Navigate(history, c, Up), Down) == Cursor(c.index, EntryAt(history, c.index))
  {
  }

  /** Up undoes Down: from any entry, Down then Up returns to it. */
  lemma DownThenUp(history: seq<string>, c: Cursor)
    requires 0 <= c.index < |history|
    ensures Navigate(history, Navigate(history, c, Down), Up) == Cursor(c.index, history[c.index])
  {
  }

  /** Replays a run of arrow-key presses. */
  function Replay(history: seq<string>, c: Cursor, keys: seq<Direction>): (r: Cursor)
    requires InRange(history, c.index)
    ensures InRange(history, r.index)
    decreases |keys|
  {
    if keys == [] then c else Replay(history, Navigate(history, c, keys[0]), keys[1..])
  }

  /** Enough Up presses reach the oldest entry and stay there, whatever was typed. */
  lemma {:induction false} UpsReachOldest(history: seq<string>, c: Cursor, n: nat)
    requires 0 < c.index <= |history| && c.index <= n
    ensures Replay(history, c, seq(n, _ => Up)) == Cursor(0, history[0])
    decreases n
  {
    var keys := seq(n, _ => Up);
    var next := Navigate(history, c, Up);
    assert keys[1..] == seq(n - 1, _ => Up);
    if next.index > 0 {
      UpsReachOldest(history, next, n - 1);
    } else {
      UpsStayAtOldest(history, n - 1);
    }
  }

  /** At the oldest entry, further Up presses change nothing. */
  lemma {:induction false} UpsStayAtOldest(history: seq<string>, n: nat)
    requires history != []
    ensures Replay(history, Cursor(0, history[0]), seq(n, _ => Up)) == Cursor(0, history[0])
    decreases n
  {
    if n > 0 {
      assert seq(n, _ => Up)[1..] == seq(n - 1, _ => Up);
      UpsStayAtOldest(history, n - 1);
    }
  }
}
