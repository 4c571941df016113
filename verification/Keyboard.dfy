/** The keyboard driver and the screen line it edits on: what is displayed is the prompt, the line
    buffer and blanks, with the screen's cursor at the editor's. */
module Keyboard {
  import opened Bytes
  import opened LineEditor

  const PROMPT: string := "AgentOS> "

  /** The bottom line of the screen; it is taken to be as wide as the line needs. */
  class Screen {
    var cells: string
    var column: nat

    constructor ()
      ensures cells == "" && column == 0
    {
      cells, column := "", 0;
    }

    // The line reads `text`, then blanks; the cursor is at `col`.
    ghost predicate Shows(text: string, col: nat)
      reads this
    {
      && column == col && |text| <= |cells| && cells[..|text|] == text
      && forall i :: |text| <= i < |cells| ==> cells[i] == ' '
    }

    method CursorLeft()
      modifies this
      ensures cells == old(cells) && column == if old(column) > 0 then old(column) - 1 else 0
    {
      if column > 0 {
        column := column - 1;
      }
    }

    method CursorRight()
      modifies this
      ensures cells == old(cells) && column == old(column) + 1
    {
      column := column + 1;
    }

    method Backspace(ghost text: string)
      requires Shows(text, |text|)
      modifies this
      ensures text != "" ==> Shows(text[..|text| - 1], |text| - 1)
      ensures text == "" ==> Shows(text, 0)
    {
      if column > 0 {
        column := column - 1;
        cells := cells[column := ' '];
      }
    }

    method Write(ch: char, ghost text: string)
      requires Shows(text, |text|)
      modifies this
      ensures Shows(text + [ch], |text| + 1)
    {
      cells := if column < |cells| then cells[column := ch] else cells + [ch];
      column := column + 1;
    }

    method Print(s: string, ghost text: string)
      requires Shows(text, |text|)
      modifies this
      ensures Shows(text + s, |text| + |s|)
    {
      for i := 0 to |s|
        invariant Shows(text + s[..i], |text| + i)
      {
        assert text + s[..i + 1] == (text + s[..i]) + [s[i]];
        Write(s[i], text + s[..i]);
      }
      assert s[..|s|] == s;
    }

    // A fresh, empty bottom line.
    method NewLine()
      modifies this
      ensures Shows("", 0)
    {
      cells, column := "", 0;
    }
  }

  class KeyboardDriver {
    var lastScancode: byte
    var pendingExtended: bool
    var shiftHeld: bool
    var lineBuffer: string
    var cursorPos: nat
    var history: seq<string>
    var historyIndex: Option<nat>
    const screen: Screen

    // A driver at a fresh prompt.
    constructor (screen: Screen)
      requires screen.Shows(PROMPT, |PROMPT|)
      ensures this.screen == screen && Value() == Fresh() && Valid()
    {
      lastScancode, pendingExtended, shiftHeld := 0, false, false;
      lineBuffer, cursorPos, history, historyIndex := "", 0, [], None;
      this.screen := screen;
      new;
      assert PROMPT + lineBuffer == PROMPT;
    }

    function Value(): Editor
      reads this
    {
      Editor(lineBuffer, cursorPos, history, historyIndex, lastScancode, pendingExtended, shiftHeld)
    }

    // The screen shows the line being edited, with the cursor where the next edit goes.
    ghost predicate Valid()
      reads this, screen
    {
      Consistent(Value()) && screen.Shows(PROMPT + lineBuffer, |PROMPT| + cursorPos)
    }

    /** Erases the old line from wherever its cursor was, prints the new one and puts the cursor back. */
    method RedrawLine(oldLen: nat, oldCursor: nat, ghost oldLine: string)
      requires oldLen == |oldLine| && oldCursor <= oldLen && cursorPos <= |lineBuffer|
      requires screen.Shows(PROMPT + oldLine, |PROMPT| + oldCursor)
      modifies screen
      ensures screen.Shows(PROMPT + lineBuffer, |PROMPT| + cursorPos)
    {
      for i := oldCursor to oldLen
        invariant screen.Shows(PROMPT + oldLine, |PROMPT| + i)
      {
        screen.CursorRight();
      }
      assert oldLine[..oldLen] == oldLine;
      for i := 0 to oldLen
        invariant screen.Shows(PROMPT + oldLine[..oldLen - i], |PROMPT| + oldLen - i)
      {
        ghost var text := PROMPT + oldLine[..oldLen - i];
        screen.Backspace(text);
        assert text[..|text| - 1] == PROMPT + oldLine[..oldLen - i - 1];
      }
      assert PROMPT + oldLine[..0] == PROMPT;
      screen.Print(lineBuffer, PROMPT);
      for i := cursorPos to |lineBuffer|
        invariant screen.Shows(PROMPT + lineBuffer, |PROMPT| + |lineBuffer| - (i - cursorPos))
      {
        screen.CursorLeft();
      }
    }

    /** Moves to the next older history entry, if there is one. */
    method RecallOlder() returns (changed: bool)
      requires Consistent(Value())
      modifies this
      ensures changed <==> Older(old(Value())).Some?
      ensures Value() == Else(Older(old(Value())), old(Value()))
    {
      if history == [] {
        return false;
      }
      var newIndex;
      match historyIndex {
        case None => newIndex := |history| - 1;
        case Some(i) =>
          if i == 0 {
            return false;
          }
          newIndex := i - 1;
      }
      historyIndex := Some(newIndex);
      lineBuffer := history[newIndex];
      cursorPos := |lineBuffer|;
      changed := true;
    }

    /** Moves to the next newer history entry, or back to an empty line past the newest. */
    method RecallNewer() returns (changed: bool)
      requires Consistent(Value())
      modifies this
      ensures changed <==> Newer(old(Value())).Some?
      ensures Value() == Else(Newer(old(Value())), old(Value()))
    {
      match historyIndex {
        case None => return false;
        case Some(i) =>
          if i + 1 < |history| {
            historyIndex := Some(i + 1);
            lineBuffer := history[i + 1];
            cursorPos := |lineBuffer|;
          } else {
            historyIndex := None;
            lineBuffer := "";
            cursorPos := 0;
          }
          changed := true;
      }
    }

    method InsertChar(ch: char)
      requires Valid() && historyIndex.None?
      modifies this, screen
      ensures Value() == Insert(old(Value()), ch) && Valid()
    {
      var oldLen, oldCursor := |lineBuffer|, cursorPos;
      ghost var oldLine := lineBuffer;
      lineBuffer := lineBuffer[..cursorPos] + [ch] + lineBuffer[cursorPos..];
      cursorPos := cursorPos + 1;
      RedrawLine(oldLen, oldCursor, oldLine);
    }

    method BackspaceChar()
      requires Valid() && historyIndex.None?
      modifies this, screen
      ensures Value() == Erase(old(Value())) && Valid()
    {
      if cursorPos == 0 {
        return;
      }
      var oldLen, oldCursor := |lineBuffer|, cursorPos;
      ghost var oldLine := lineBuffer;
      lineBuffer := lineBuffer[..cursorPos - 1] + lineBuffer[cursorPos..];
      cursorPos := cursorPos - 1;
      RedrawLine(oldLen, oldCursor, oldLine);
    }

    /** Up and Down, Left and Right. */
    method ExtendedKey(scancode: byte)
      requires Valid()
      modifies this, screen
      ensures Valid() && Value() == Press(old(Value()), scancode, true).0
    {
      if scancode == UP || scancode == DOWN {
        var oldLen, oldCursor := |lineBuffer|, cursorPos;
        ghost var oldLine := lineBuffer;
        var changed: bool;
        if scancode == UP {
          changed := RecallOlder();
        } else {
          changed := RecallNewer();
        }
        if changed {
          RedrawLine(oldLen, oldCursor, oldLine);
        }
      } else if scancode == LEFT && cursorPos > 0 {
        cursorPos := cursorPos - 1;
        screen.CursorLeft();
      } else if scancode == RIGHT && cursorPos < |lineBuffer| {
        cursorPos := cursorPos + 1;
        screen.CursorRight();
      }
    }

    // Takes the line, remembers it unless it is blank, and starts over at a fresh prompt.
    method Submit() returns (line: string)
      requires Valid()
      modifies this, screen
      ensures Valid() && Value() == Enter(old(Value())) && line == old(lineBuffer)
    {
      line := lineBuffer;
      lineBuffer := "";
      cursorPos := 0;
      historyIndex := None;
      if !Blank(line) {
        history := history + [line];
      }
      screen.NewLine();
      screen.Print(PROMPT, "");
      assert "" + PROMPT == PROMPT && PROMPT + "" == PROMPT;
    }

    /** One scancode; returns the line to run when it was Enter. What the command prints is not modelled:
        it leaves a fresh line, on which the prompt is printed. */
    method HandleScancode(scancode: byte) returns (submitted: Option<string>)
      requires Valid()
      modifies this, screen
      ensures Valid() && (Value(), submitted) == Handle(old(Value()), scancode)
    {
      hide CharOf, Insert, Erase, Enter;
      submitted := None;
      if scancode == EXTENDED_PREFIX {
        pendingExtended := true;
        return;
      }
      var isExtended := pendingExtended;
      pendingExtended := false;
      if IsShiftMake(scancode) {
        shiftHeld := true;
        return;
      }
      if IsShiftBreak(scancode) {
        shiftHeld := false;
        return;
      }
      var isNewPress := scancode != lastScancode && scancode < 0x80;
      lastScancode := scancode;
      if !isNewPress {
        return;
      }
      if isExtended {
        ExtendedKey(scancode);
        return;
      }
      if scancode == BACKSPACE {
        historyIndex := None;
        BackspaceChar();
        return;
      }
      var ch := CharOf(scancode, shiftHeld);
      if ch.Some? {
        if ch.value == '\n' {
          var line := Submit();
          submitted := Some(line);
        } else {
          historyIndex := None;
          InsertChar(ch.value);
        }
      }
    }

    /** Any stream of scancodes leaves the screen showing the line, and the state the stream leads to. */
    method HandleAll(codes: seq<byte>)
      requires Valid()
      modifies this, screen
      ensures Valid() && Value() == Run(old(Value()), codes)
    {
      hide Handle;
      assert codes[0..] == codes;
      for i := 0 to |codes|
        invariant Valid() && Run(Value(), codes[i..]) == Run(old(Value()), codes)
      {
        assert codes[i..][0] == codes[i] && codes[i..][1..] == codes[i + 1..];
        var _ := HandleScancode(codes[i]);
      }
    }
  }
}
