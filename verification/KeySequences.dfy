/** What whole key strokes do, by their scancodes: which key gives which character, typing, moving, and the history. */
module KeySequences {
  import opened Bytes
  import opened LineEditor
  import opened Keyboard

  // ---- keys

  // What is printed on the keys, one by one.
  function KeyCap(code: byte, shift: bool): Option<char> {
    match code
    case 0x02 => Some('1')
    case 0x03 => Some('2')
    case 0x04 => Some('3')
    case 0x05 => Some('4')
    case 0x06 => Some('5')
    case 0x07 => Some('6')
    case 0x08 => Some('7')
    case 0x09 => Some('8')
    case 0x0A => Some('9')
    case 0x0B => Some('0')
    case 0x0C => Some(if shift then '_' else '-')
    case 0x10 => Some(if shift then 'Q' else 'q')
    case 0x11 => Some(if shift then 'W' else 'w')
    case 0x12 => Some(if shift then 'E' else 'e')
    case 0x13 => Some(if shift then 'R' else 'r')
    case 0x14 => Some(if shift then 'T' else 't')
    case 0x15 => Some(if shift then 'Y' else 'y')
    case 0x16 => Some(if shift then 'U' else 'u')
    case 0x17 => Some(if shift then 'I' else 'i')
    case 0x18 => Some(if shift then 'O' else 'o')
    case 0x19 => Some(if shift then 'P' else 'p')
    case 0x1E => Some(if shift then 'A' else 'a')
    case 0x1F => Some(if shift then 'S' else 's')
    case 0x20 => Some(if shift then 'D' else 'd')
    case 0x21 => Some(if shift then 'F' else 'f')
    case 0x22 => Some(if shift then 'G' else 'g')
    case 0x23 => Some(if shift then 'H' else 'h')
    case 0x24 => Some(if shift then 'J' else 'j')
    case 0x25 => Some(if shift then 'K' else 'k')
    case 0x26 => Some(if shift then 'L' else 'l')
    case 0x29 => Some(if shift then '~' else '`')
    case 0x2C => Some(if shift then 'Z' else 'z')
    case 0x2D => Some(if shift then 'X' else 'x')
    case 0x2E => Some(if shift then 'C' else 'c')
    case 0x2F => Some(if shift then 'V' else 'v')
    case 0x30 => Some(if shift then 'B' else 'b')
    case 0x31 => Some(if shift then 'N' else 'n')
    case 0x32 => Some(if shift then 'M' else 'm')
    case 0x33 => Some(if shift then '<' else ',')
    case 0x34 => Some(if shift then '>' else '.')
    case 0x35 => Some(if shift then '?' else '/')
    case 0x39 => Some(' ')
    case 0x1C => Some('\n')
    case _ => None
  }

  /** The rows of the layout put every character on the key it belongs to, and nothing on any other key. */
  lemma RowsAreKeys(code: byte, shift: bool)
    ensures CharOf(code, shift) == KeyCap(code, shift)
  {
    if code < 0x10 {
    } else if code < 0x1D {
    } else if code < 0x2A {
    }
  }

  /** 0x2A and 0x36 hold Shift down, 0xAA and 0xB6 let it go, and no other code has to do with Shift. */
  lemma ShiftKeys(st: Editor, code: byte)
    requires Consistent(st)
    ensures Handle(st, code).0.shift == if code == 0x2A || code == 0x36 then true
                                        else if code == 0xAA || code == 0xB6 then false else st.shift
    ensures code == 0x2A || code == 0x36 || code == 0xAA || code == 0xB6 ==>
              Handle(st, code) == (st.(extended := false, shift := code < 0x80), None)
  {
    hide CharOf;
  }

  lemma {:induction false} RunConcat(st: Editor, a: seq<byte>, b: seq<byte>)
    requires Consistent(st)
    ensures Run(st, a + b) == Run(Run(st, a), b)
    decreases |a|
  {
    hide Handle;
    if a == [] {
      assert a + b == b;
    } else {
      assert (a + b)[0] == a[0] && (a + b)[1..] == a[1..] + b;
      RunConcat(Handle(st, a[0]).0, a[1..], b);
    }
  }

  lemma RunOne(st: Editor, code: byte, rest: seq<byte>)
    requires Consistent(st)
    ensures Run(st, [code] + rest) == Run(Handle(st, code).0, rest)
  {
    hide Handle, Consistent;
    assert ([code] + rest)[1..] == rest;
  }

  lemma RunTwo(st: Editor, x: byte, y: byte)
    requires Consistent(st)
    ensures Run(st, [x, y]) == Handle(Handle(st, x).0, y).0
  {
    hide Handle, Consistent;
    RunOne(st, x, [y]);
    RunOne(Handle(st, x).0, y, []);
    assert [x, y] == [x] + [y] && [y] == [y] + [];
  }

  // ---- arrows

  predicate SameText(a: Editor, b: Editor) {
    a.line == b.line && a.cursor == b.cursor && a.history == b.history && a.index == b.index
  }

  /** A key that repeats while it is held, and every key that is let go, changes nothing of the text. */
  lemma HeldOrReleased(st: Editor, code: byte)
    requires Consistent(st) && (code == st.last || code >= 0x80)
    ensures SameText(Handle(st, code).0, st) && Handle(st, code).1 == None
  {
    hide Press, Consistent;
  }

  lemma ArrowPress(st: Editor, key: byte)
    requires Consistent(st) && st.last != key && key < 0x80 && !IsShift(key)
    ensures Run(st, [0xE0, key]) == Press(st.(extended := false, last := key), key, true).0
  {
    hide Press, Run, Consistent;
    RunTwo(st, 0xE0, key);
  }

  lemma PressSide(st: Editor, key: byte)
    requires Consistent(st) && (key == 0x4B || key == 0x4D)
    ensures Press(st, key, true).0 ==
            st.(cursor := if key == 0x4B then (if st.cursor == 0 then 0 else st.cursor - 1)
                          else if st.cursor == |st.line| then st.cursor else st.cursor + 1)
  {
    hide CharOf, Insert, Erase, Enter, Older, Newer;
  }

  lemma PressUp(st: Editor)
    requires Consistent(st)
    ensures var i := if st.index.Some? then st.index.value else |st.history|;
            Press(st, 0x48, true).0 ==
            if i == 0 then st else st.(index := Some(i - 1), line := st.history[i - 1], cursor := |st.history[i - 1]|)
  {
    hide CharOf, Insert, Erase, Enter, Newer;
  }

  lemma PressDown(st: Editor)
    requires Consistent(st)
    ensures Press(st, 0x50, true).0 ==
            match st.index
            case None => st
            case Some(i) =>
              if i + 1 == |st.history| then st.(index := None, line := "", cursor := 0)
              else st.(index := Some(i + 1), line := st.history[i + 1], cursor := |st.history[i + 1]|)
  {
    hide CharOf, Insert, Erase, Enter, Older;
  }

  /** Behind the prefix 0xE0, 0x4B moves left and 0x4D right. */
  lemma SideArrow(st: Editor, key: byte)
    requires Consistent(st) && st.last != key && (key == 0x4B || key == 0x4D)
    ensures var moved := if key == 0x4B then (if st.cursor == 0 then 0 else st.cursor - 1)
                         else if st.cursor == |st.line| then st.cursor else st.cursor + 1;
            SameText(Run(st, [0xE0, key]), st.(cursor := moved))
  {
    hide Run, Press;
    ArrowPress(st, key);
    PressSide(st.(extended := false, last := key), key);
  }

  /** Behind the prefix, 0x48 goes to the line before, from the end of the history, or stays at the oldest. */
  lemma UpArrow(st: Editor)
    requires Consistent(st) && st.last != 0x48
    ensures var r, i := Run(st, [0xE0, 0x48]), if st.index.Some? then st.index.value else |st.history|;
            if i == 0 then SameText(r, st)
            else SameText(r, st.(index := Some(i - 1), line := st.history[i - 1], cursor := |st.history[i - 1]|))
  {
    hide Run, Press;
    ArrowPress(st, 0x48);
    PressUp(st.(extended := false, last := 0x48));
  }

  /** And 0x50 goes to the line behind, and from the newest one to an empty line. */
  lemma DownArrow(st: Editor)
    requires Consistent(st) && st.last != 0x50
    ensures var r := Run(st, [0xE0, 0x50]);
            match st.index
            case None => SameText(r, st)
            case Some(i) =>
              if i + 1 == |st.history| then SameText(r, st.(index := None, line := "", cursor := 0))
              else SameText(r, st.(index := Some(i + 1), line := st.history[i + 1], cursor := |st.history[i + 1]|))
  {
    hide Run, Press;
    ArrowPress(st, 0x50);
    PressDown(st.(extended := false, last := 0x50));
  }

  /** 0x0E takes away the character before the cursor. */
  lemma BackspaceKey(st: Editor)
    requires Consistent(st) && !st.extended && st.last != 0x0E
    ensures var r := Handle(st, 0x0E).0;
            && r.cursor == (if st.cursor == 0 then 0 else st.cursor - 1)
            && r.line == st.line[..r.cursor] + st.line[st.cursor..]
            && r.history == st.history && r.index == None
  {
    assert st.line == st.line[..0] + st.line[0..];
  }

  // ---- typing

  // Keys that give a character other than a newline.
  predicate Printing(keys: seq<byte>) {
    forall i :: 0 <= i < |keys| ==> keys[i] < 0x60 && keys[i] != 0x1C && KeyCap(keys[i], false).Some?
  }

  // Every key is pressed and let go.
  function Strokes(keys: seq<byte>): (codes: seq<byte>)
    requires Printing(keys)
  {
    if keys == [] then [] else [keys[0], keys[0] + 0x80] + Strokes(keys[1..])
  }

  function Caps(keys: seq<byte>, shift: bool): (text: string)
    requires Printing(keys)
    ensures |text| == |keys|
  {
    if keys == [] then "" else Cap(keys[0], shift) + Caps(keys[1..], shift)
  }

  function Cap(key: byte, shift: bool): (text: string)
    requires KeyCap(key, false).Some?
    ensures |text| == 1
  {
    match KeyCap(key, shift)
    case Some(ch) => [ch]
    case None => assert false; "?"
  }

  // No printing key is Shift, Backspace or Enter, and letting one go is not Shift either.
  lemma PrintingKey(key: byte, shift: bool)
    requires key < 0x60 && key != 0x1C && KeyCap(key, false).Some?
    ensures !IsShift(key) && !IsShift(key + 0x80) && key != BACKSPACE
    ensures CharOf(key, shift).Some? && CharOf(key, shift).value != '\n' && Cap(key, shift) == [CharOf(key, shift).value]
  {
    hide CharOf;
    RowsAreKeys(key, shift);
  }

  // A string put in at the cursor, which moves behind it.
  function Typed(st: Editor, text: string): (r: Editor)
    requires Consistent(st)
    ensures Consistent(r)
  {
    st.(line := st.line[..st.cursor] + text + st.line[st.cursor..], cursor := st.cursor + |text|, index := None)
  }

  lemma PressKey(st: Editor, key: byte)
    requires Consistent(st) && key < 0x60 && key != 0x1C && KeyCap(key, false).Some?
    ensures Press(st, key, false).0 == Typed(st, Cap(key, st.shift))
  {
    PrintingKey(key, st.shift);
    hide CharOf, KeyCap, Cap, Erase, Enter, Older, Newer;
  }

  lemma TypeOne(st: Editor, key: byte)
    requires Consistent(st) && !st.extended && st.last != key && key < 0x60 && key != 0x1C && KeyCap(key, false).Some?
    ensures Run(st, [key, key + 0x80]) == Typed(st, Cap(key, st.shift)).(last := key + 0x80)
  {
    PrintingKey(key, st.shift);
    hide Run, Press, CharOf, KeyCap, Cap;
    PressKey(st.(last := key), key);
    RunTwo(st, key, key + 0x80);
  }

  lemma TypedMore(st: Editor, a: string, b: string)
    requires Consistent(st) && a != ""
    ensures Typed(Typed(st, a), b) == Typed(st, a + b)
  {
    var mid := Typed(st, a);
    assert mid.line[..mid.cursor] == st.line[..st.cursor] + a && mid.line[mid.cursor..] == st.line[st.cursor..];
    assert st.line[..st.cursor] + a + b + st.line[st.cursor..] == st.line[..st.cursor] + (a + b) + st.line[st.cursor..];
  }

  /** Keys pressed and let go one after the other put their characters in at the cursor. */
  lemma {:induction false} Typing(st: Editor, keys: seq<byte>)
    requires Consistent(st) && !st.extended && Printing(keys) && keys != [] && st.last != keys[0]
    ensures Run(st, Strokes(keys)) == Typed(st, Caps(keys, st.shift)).(last := keys[|keys| - 1] + 0x80)
    decreases |keys|
  {
    hide Run, KeyCap, Cap, Consistent;
    var key, rest := keys[0], keys[1..];
    TypeOne(st, key);
    var mid := Typed(st, Cap(key, st.shift)).(last := key + 0x80);
    if rest == [] {
      assert Strokes(keys) == [key, key + 0x80] && Caps(keys, st.shift) == Cap(key, st.shift);
    } else {
      RunConcat(st, [key, key + 0x80], Strokes(rest));
      Typing(mid, rest);
      TypedMore(st, Cap(key, st.shift), Caps(rest, st.shift));
    }
  }

  // ---- lines and the history

  // A line with something on it.
  predicate Written(line: string) {
    exists i :: 0 <= i < |line| && line[i] != ' '
  }

  lemma PressEnter(st: Editor)
    requires Consistent(st)
    ensures Press(st, 0x1C, false) ==
            (st.(line := "", cursor := 0, index := None,
                 history := if Written(st.line) then st.history + [st.line] else st.history), Some(st.line))
  {
    assert Blank(st.line) <==> !Written(st.line);
    hide Insert, Erase, Older, Newer;
  }

  /** Enter hands the line out, takes it into the history unless it is blank, and starts over. */
  lemma EnterKey(st: Editor)
    requires Consistent(st) && !st.extended && st.last != 0x1C
    ensures Run(st, [0x1C, 0x9C]) ==
            st.(line := "", cursor := 0, index := None, last := 0x9C,
                history := if Written(st.line) then st.history + [st.line] else st.history)
    ensures Handle(st, 0x1C).1 == Some(st.line)
  {
    hide Run, Press, CharOf, Written;
    PressEnter(st.(last := 0x1C));
    RunTwo(st, 0x1C, 0x9C);
  }

  lemma Entered(st: Editor)
    requires Consistent(st) && !st.extended && st.last != 0x1C && Written(st.line)
    ensures Run(st, [0x1C, 0x9C]) == st.(line := "", cursor := 0, index := None, last := 0x9C, history := st.history + [st.line])
  {
    hide Run, Handle;
    EnterKey(st);
  }

  /** The line that was entered last comes back with Up, with the cursor at its end. */
  lemma EnterThenUp(st: Editor)
    requires Consistent(st) && !st.extended && st.last != 0x1C && Written(st.line)
    ensures var r := Run(st, [0x1C, 0x9C, 0xE0, 0x48]);
            r.line == st.line && r.cursor == |st.line| && r.history == st.history + [st.line] && r.index == Some(|st.history|)
  {
    hide Run, Handle;
    Entered(st);
    assert [0x1C, 0x9C, 0xE0, 0x48] == [0x1C, 0x9C] + [0xE0, 0x48];
    RunConcat(st, [0x1C, 0x9C], [0xE0, 0x48]);
    UpArrow(Run(st, [0x1C, 0x9C]));
  }

  lemma {:induction false} CapsAt(keys: seq<byte>, shift: bool, i: nat)
    requires Printing(keys) && i < |keys|
    ensures Caps(keys, shift)[i] == Cap(keys[i], shift)[0]
  {
    hide KeyCap, Cap;
    if i > 0 {
      CapsAt(keys[1..], shift, i - 1);
    }
  }

  lemma OnlyOneSpace(key: byte, shift: bool)
    requires KeyCap(key, false).Some? && key != 0x39
    ensures Cap(key, shift)[0] != ' '
  {
  }

  lemma UpReleased(st: Editor)
    requires Consistent(st)
    ensures var r := Run(st, [0xE0, 0xC8]); SameText(r, st) && r.last == 0xC8
  {
    hide Run, Press;
    RunTwo(st, 0xE0, 0xC8);
  }

  // A line typed from the start and entered.
  lemma LineEntered(st: Editor, keys: seq<byte>)
    requires Consistent(st) && !st.extended && st.last >= 0x80 && st.line == ""
    requires Printing(keys) && exists i :: 0 <= i < |keys| && keys[i] != 0x39
    ensures Run(st, Strokes(keys) + [0x1C, 0x9C]) ==
            st.(line := "", cursor := 0, index := None, last := 0x9C, history := st.history + [Caps(keys, st.shift)])
  {
    hide Run, Handle, KeyCap, Cap, Caps, Strokes;
    Typing(st, keys);
    var i :| 0 <= i < |keys| && keys[i] != 0x39;
    CapsAt(keys, st.shift, i);
    OnlyOneSpace(keys[i], st.shift);
    var typed := Run(st, Strokes(keys));
    assert typed.line == Caps(keys, st.shift);
    Entered(typed);
    RunConcat(st, Strokes(keys), [0x1C, 0x9C]);
  }

  /** Two lines come back newest first. */
  lemma TwoLinesBack(st: Editor, keys: seq<byte>)
    requires Consistent(st) && !st.extended && st.last != 0x1C && Written(st.line)
    requires Printing(keys) && exists i :: 0 <= i < |keys| && keys[i] != 0x39
    ensures var r := Run(st, [0x1C, 0x9C] + (Strokes(keys) + [0x1C, 0x9C]) + [0xE0, 0x48]);
            && r.line == Caps(keys, st.shift) && r.cursor == |r.line|
            && var older := Run(r, [0xE0, 0xC8] + [0xE0, 0x48]); older.line == st.line && older.cursor == |older.line|
  {
    hide Run, Handle, KeyCap, Cap, Caps, Strokes;
    var enter, line, up := [0x1C, 0x9C], Strokes(keys) + [0x1C, 0x9C], [0xE0, 0x48];
    RunConcat(st, enter + line, up);
    RunConcat(st, enter, line);
    Entered(st);
    LineEntered(Run(st, enter), keys);
    UpArrow(Run(st, enter + line));
    var r := Run(st, enter + line + up);
    RunConcat(r, [0xE0, 0xC8], up);
    UpReleased(r);
    UpArrow(Run(r, [0xE0, 0xC8]));
  }

  // ---- the driver

  /** On the driver: entering a line and pressing Up shows it again, with the cursor behind it. */
  method EnterThenRecall(kb: KeyboardDriver)
    requires kb.Valid() && !kb.pendingExtended && kb.lastScancode != 0x1C && Written(kb.lineBuffer)
    modifies kb, kb.screen
    ensures kb.Valid() && kb.lineBuffer == old(kb.lineBuffer) && kb.cursorPos == |kb.lineBuffer|
    ensures kb.history == old(kb.history) + [old(kb.lineBuffer)]
  {
    hide Run;
    EnterThenUp(kb.Value());
    kb.HandleAll([0x1C, 0x9C, 0xE0, 0x48]);
  }

  /** And two lines, the second one typed key by key, come back newest first. */
  method TwoLinesThenRecall(kb: KeyboardDriver, keys: seq<byte>) returns (newest: string, older: string)
    requires kb.Valid() && !kb.pendingExtended && kb.lastScancode != 0x1C && Written(kb.lineBuffer)
    requires Printing(keys) && exists i :: 0 <= i < |keys| && keys[i] != 0x39
    modifies kb, kb.screen
    ensures kb.Valid() && newest == Caps(keys, old(kb.shiftHeld)) && older == old(kb.lineBuffer)
  {
    hide Run, Strokes, Caps, KeyCap;
    TwoLinesBack(kb.Value(), keys);
    kb.HandleAll([0x1C, 0x9C] + (Strokes(keys) + [0x1C, 0x9C]) + [0xE0, 0x48]);
    newest := kb.lineBuffer;
    kb.HandleAll([0xE0, 0xC8] + [0xE0, 0x48]);
    older := kb.lineBuffer;
  }
}
