/** The line editor as a function of its state and the next scancode, what holds in every state, and
    what the Shift key can and cannot change. */
module LineEditor {
  import opened Bytes

  const BACKSPACE: byte := 0x0E
  const EXTENDED_PREFIX: byte := 0xE0
  const UP: byte := 0x48
  const DOWN: byte := 0x50
  const LEFT: byte := 0x4B
  const RIGHT: byte := 0x4D

  predicate IsShiftMake(code: byte) {
    code == 0x2A || code == 0x36
  }

  predicate IsShiftBreak(code: byte) {
    code == 0xAA || code == 0xB6
  }

  predicate IsShift(code: byte) {
    IsShiftMake(code) || IsShiftBreak(code)
  }

  function Row(keys: string, shifted: string, k: nat, shift: bool): Option<char>
    requires k < |keys| == |shifted|
  {
    Some(if shift then shifted[k] else keys[k])
  }

  function CharOf(code: byte, shift: bool): Option<char> {
    if 0x02 <= code <= 0x0B then Row("1234567890", "1234567890", code - 0x02, shift)
    else if code == 0x0C then Row("-", "_", 0, shift)
    else if 0x10 <= code <= 0x19 then Row("qwertyuiop", "QWERTYUIOP", code - 0x10, shift)
    else if 0x1E <= code <= 0x26 then Row("asdfghjkl", "ASDFGHJKL", code - 0x1E, shift)
    else if code == 0x29 then Row("`", "~", 0, shift)
    else if 0x2C <= code <= 0x35 then Row("zxcvbnm,./", "ZXCVBNM<>?", code - 0x2C, shift)
    else if code == 0x39 then Some(' ')
    else if code == 0x1C then Some('\n')
    else None
  }

  datatype Editor = Editor(line: string, cursor: nat, history: seq<string>, index: Option<nat>,
                           last: byte, extended: bool, shift: bool)

  function Fresh(): Editor {
    Editor("", 0, [], None, 0, false, false)
  }

  // The cursor is in the line, and a recalled line is the history entry it came from.
  predicate Consistent(st: Editor) {
    && st.cursor <= |st.line|
    && (st.index.Some? ==> st.index.value < |st.history| && st.line == st.history[st.index.value])
  }

  function Recalled(st: Editor, i: nat): Editor
    requires i < |st.history|
  {
    st.(index := Some(i), line := st.history[i], cursor := |st.history[i]|)
  }

  function Older(st: Editor): Option<Editor>
    requires Consistent(st)
  {
    if st.history == [] then None
    else match st.index
      case None => Some(Recalled(st, |st.history| - 1))
      case Some(i) => if i == 0 then None else Some(Recalled(st, i - 1))
  }

  function Newer(st: Editor): Option<Editor> {
    match st.index
    case None => None
    case Some(i) =>
      if i + 1 < |st.history| then Some(Recalled(st, i + 1)) else Some(st.(index := None, line := "", cursor := 0))
  }

  function Insert(st: Editor, ch: char): Editor
    requires st.cursor <= |st.line|
  {
    st.(line := st.line[..st.cursor] + [ch] + st.line[st.cursor..], cursor := st.cursor + 1)
  }

  function Erase(st: Editor): Editor
    requires st.cursor <= |st.line|
  {
    if st.cursor == 0 then st
    else st.(line := st.line[..st.cursor - 1] + st.line[st.cursor..], cursor := st.cursor - 1)
  }

  predicate Blank(line: string) {
    forall i :: 0 <= i < |line| ==> line[i] == ' '
  }

  function Enter(st: Editor): Editor {
    st.(line := "", cursor := 0, index := None, history := if Blank(st.line) then st.history else st.history + [st.line])
  }

  function Else(o: Option<Editor>, st: Editor): Editor {
    match o
    case Some(changed) => changed
    case None => st
  }

  // An accepted press of a key, and the line it submits, if any.
  function Press(st: Editor, code: byte, extended: bool): (r: (Editor, Option<string>))
    requires Consistent(st)
    ensures Consistent(r.0)
  {
    if extended then
      if code == UP then (Else(Older(st), st), None)
      else if code == DOWN then (Else(Newer(st), st), None)
      else if code == LEFT && st.cursor > 0 then (st.(cursor := st.cursor - 1), None)
      else if code == RIGHT && st.cursor < |st.line| then (st.(cursor := st.cursor + 1), None)
      else (st, None)
    else if code == BACKSPACE then (Erase(st.(index := None)), None)
    else match CharOf(code, st.shift)
      case None => (st, None)
      case Some(ch) => if ch == '\n' then (Enter(st), Some(st.line)) else (Insert(st.(index := None), ch), None)
  }

  // Whether a code that is neither the prefix nor Shift is a new press.
  predicate IsNewPress(st: Editor, code: byte) {
    code != st.last && code < 0x80
  }

  function Handle(st: Editor, code: byte): (r: (Editor, Option<string>))
    requires Consistent(st)
    ensures Consistent(r.0)
  {
    if code == EXTENDED_PREFIX then (st.(extended := true), None)
    else if IsShift(code) then (st.(extended := false, shift := IsShiftMake(code)), None)
    else
      var after := st.(extended := false, last := code);
      if IsNewPress(st, code) then Press(after, code, st.extended) else (after, None)
  }

  // ---- whole streams

  function Run(st: Editor, codes: seq<byte>): (r: Editor)
    requires Consistent(st)
    ensures Consistent(r)
    decreases |codes|
  {
    if codes == [] then st else Run(Handle(st, codes[0]).0, codes[1..])
  }

  // The presses a stream is taken for: each accepted code, and whether it was an extended key.
  function Presses(st: Editor, codes: seq<byte>): seq<(byte, bool)>
    requires Consistent(st)
    decreases |codes|
  {
    if codes == [] then []
    else
      var code := codes[0];
      (if code != EXTENDED_PREFIX && !IsShift(code) && IsNewPress(st, code) then [(code, st.extended)] else [])
      + Presses(Handle(st, code).0, codes[1..])
  }

  // The stream without the Shift codes, apart from those right after a prefix.
  function Unshifted(codes: seq<byte>, extended: bool): seq<byte> {
    if codes == [] then []
    else if IsShift(codes[0]) && !extended then Unshifted(codes[1..], false)
    else [codes[0]] + Unshifted(codes[1..], codes[0] == EXTENDED_PREFIX)
  }

  // ---- what the keys are for

  /** Backspace takes back what was just typed, in the middle of a line as well as at its end. */
  lemma EraseUndoesInsert(st: Editor, ch: char)
    requires Consistent(st)
    ensures Erase(Insert(st, ch)) == st
  {
    var line, c := st.line, st.cursor;
    assert line[..c] + line[c..] == line;
    assert (line[..c] + [ch] + line[c..])[..c] == line[..c];
    assert (line[..c] + [ch] + line[c..])[c + 1..] == line[c..];
  }

  // The state after Up has been pressed `n` times.
  function Ups(st: Editor, n: nat): (r: Editor)
    requires Consistent(st)
    ensures Consistent(r)
  {
    if n == 0 then st else var before := Ups(st, n - 1); Else(Older(before), before)
  }

  function Downs(st: Editor, n: nat): (r: Editor)
    requires Consistent(st)
    ensures Consistent(r)
  {
    if n == 0 then st else var before := Downs(st, n - 1); Else(Newer(before), before)
  }

  /** From a line that is not recalled, the `n`-th Up recalls the `n`-th line from the end of the history, and
      the oldest one from there on. */
  lemma {:induction false} UpsReach(st: Editor, n: nat)
    requires Consistent(st) && st.index.None? && n > 0
    ensures var h := |st.history|; Ups(st, n) == if h == 0 then st else Recalled(st, if n < h then h - n else 0)
  {
    if n > 1 {
      UpsReach(st, n - 1);
    } else {
      assert Ups(st, 0) == st;
    }
  }

  /** As many Downs as Ups, if the history is that long, end at an empty line with nothing else changed. */
  lemma {:induction false} DownsUndoUps(st: Editor, n: nat, m: nat)
    requires Consistent(st) && st.index.None? && 0 < n <= |st.history| && m <= n
    ensures Downs(Ups(st, n), m) ==
            if m < n then Recalled(st, |st.history| - n + m) else st.(line := "", cursor := 0)
  {
    UpsReach(st, n);
    if m > 0 {
      DownsUndoUps(st, n, m - 1);
    }
  }

  // ---- states that differ in nothing but glyphs

  // Lines of one length with their spaces in the same places.
  predicate Alike(a: string, b: string) {
    |a| == |b| && forall i :: 0 <= i < |a| ==> (a[i] == ' ' <==> b[i] == ' ')
  }

  predicate AlikeAll(a: seq<string>, b: seq<string>) {
    |a| == |b| && forall i :: 0 <= i < |a| ==> Alike(a[i], b[i])
  }

  // Everything agrees but the Shift state and the glyphs it chose.
  predicate Same(a: Editor, b: Editor) {
    && Alike(a.line, b.line) && a.cursor == b.cursor && AlikeAll(a.history, b.history) && a.index == b.index
    && a.last == b.last && a.extended == b.extended
  }

  // Shift changes which glyph a key gives, never whether it gives one, nor space and newline.
  lemma GlyphOnly(code: byte, a: bool, b: bool)
    ensures CharOf(code, a).Some? == CharOf(code, b).Some?
    ensures CharOf(code, a).Some? ==> var x, y := CharOf(code, a).value, CharOf(code, b).value;
              (x == ' ' <==> y == ' ') && (x == '\n' <==> y == '\n')
  {
  }

  lemma AlikeInsert(a: string, b: string, c: nat, x: char, y: char)
    requires Alike(a, b) && c <= |a| && (x == ' ' <==> y == ' ')
    ensures Alike(a[..c] + [x] + a[c..], b[..c] + [y] + b[c..])
  {
  }

  lemma AlikeErase(a: string, b: string, c: nat)
    requires Alike(a, b) && 0 < c <= |a|
    ensures Alike(a[..c - 1] + a[c..], b[..c - 1] + b[c..])
  {
  }

  lemma SameEnter(a: Editor, b: Editor)
    requires Same(a, b)
    ensures Same(Enter(a), Enter(b))
  {
    assert Blank(a.line) <==> Blank(b.line);
  }

  lemma SameErase(a: Editor, b: Editor)
    requires Consistent(a) && Consistent(b) && Same(a, b)
    ensures Same(Erase(a.(index := None)), Erase(b.(index := None)))
  {
    hide Alike, AlikeAll;
    AlikeLength(a.line, b.line);
    if a.cursor > 0 {
      AlikeErase(a.line, b.line, a.cursor);
    }
  }

  lemma SameInsert(a: Editor, b: Editor, x: char, y: char)
    requires Consistent(a) && Consistent(b) && Same(a, b) && (x == ' ' <==> y == ' ')
    ensures Same(Insert(a.(index := None), x), Insert(b.(index := None), y))
  {
    hide Alike, AlikeAll;
    AlikeInsert(a.line, b.line, a.cursor, x, y);
  }

  lemma AlikeLength(a: string, b: string)
    requires Alike(a, b)
    ensures |a| == |b|
  {
  }

  lemma SameRecalled(a: Editor, b: Editor, i: nat)
    requires Same(a, b) && i < |a.history|
    ensures i < |b.history| && Same(Recalled(a, i), Recalled(b, i))
  {
    hide Alike;
    AlikeLength(a.history[i], b.history[i]);
  }

  lemma SameOlder(a: Editor, b: Editor)
    requires Consistent(a) && Consistent(b) && Same(a, b)
    ensures Same(Else(Older(a), a), Else(Older(b), b))
  {
    hide Alike, Recalled;
    SameCounts(a, b);
    if a.history != [] && a.index != Some(0) {
      SameRecalled(a, b, if a.index.None? then |a.history| - 1 else a.index.value - 1);
    }
  }

  lemma SameNewer(a: Editor, b: Editor)
    requires Consistent(a) && Consistent(b) && Same(a, b)
    ensures Same(Else(Newer(a), a), Else(Newer(b), b))
  {
    hide Alike, Recalled, AlikeAll;
    SameCounts(a, b);
    AlikeEmpty();
    if a.index.Some? && a.index.value + 1 < |a.history| {
      SameRecalled(a, b, a.index.value + 1);
    }
  }

  lemma SameCounts(a: Editor, b: Editor)
    requires Same(a, b)
    ensures |a.line| == |b.line| && |a.history| == |b.history|
  {
  }

  lemma SameKeys(a: Editor, b: Editor, code: byte)
    requires Consistent(a) && Consistent(b) && Same(a, b)
    ensures Same(Press(a, code, true).0, Press(b, code, true).0)
  {
    hide CharOf, Alike, AlikeAll, Older, Newer, Else;
    SameCounts(a, b);
    SameOlder(a, b);
    SameNewer(a, b);
  }

  lemma AlikeEmpty()
    ensures Alike("", "")
  {
  }

  lemma SamePress(a: Editor, b: Editor, code: byte, extended: bool)
    requires Consistent(a) && Consistent(b) && Same(a, b)
    ensures Same(Press(a, code, extended).0, Press(b, code, extended).0)
  {
    hide CharOf, Alike, AlikeAll, Insert, Erase, Enter;
    GlyphOnly(code, a.shift, b.shift);
    if extended {
      SameKeys(a, b, code);
    } else if code == BACKSPACE {
      SameErase(a, b);
    } else if CharOf(code, a.shift).Some? {
      if CharOf(code, a.shift).value == '\n' {
        SameEnter(a, b);
      } else {
        SameInsert(a, b, CharOf(code, a.shift).value, CharOf(code, b.shift).value);
      }
    }
  }

  lemma SameHandle(a: Editor, b: Editor, code: byte)
    requires Consistent(a) && Consistent(b) && Same(a, b)
    ensures Same(Handle(a, code).0, Handle(b, code).0)
  {
    hide Press, Alike, AlikeAll;
    if code != EXTENDED_PREFIX && !IsShift(code) {
      SamePress(a.(extended := false, last := code), b.(extended := false, last := code), code, a.extended);
    }
  }

  lemma SameShift(a: Editor, b: Editor, code: byte)
    requires Consistent(a) && Consistent(b) && Same(a, b) && IsShift(code) && !a.extended
    ensures Same(Handle(a, code).0, b)
  {
  }

  /** Shift codes anywhere in a stream, but right after a prefix, change neither which codes are accepted
      as presses nor anything in the editor but glyphs. */
  lemma {:induction false} ShiftOnlyGlyphs(a: Editor, b: Editor, codes: seq<byte>)
    requires Consistent(a) && Consistent(b) && Same(a, b)
    ensures Presses(a, codes) == Presses(b, Unshifted(codes, a.extended))
    ensures Same(Run(a, codes), Run(b, Unshifted(codes, a.extended)))
    decreases |codes|
  {
    hide Handle, Same;
    if codes != [] {
      var code := codes[0];
      HandleFlags(a, code);
      if IsShift(code) && !a.extended {
        SameShift(a, b, code);
        ShiftOnlyGlyphs(Handle(a, code).0, b, codes[1..]);
      } else {
        var rest := Unshifted(codes[1..], code == EXTENDED_PREFIX);
        assert ([code] + rest)[0] == code && ([code] + rest)[1..] == rest;
        SameHandle(a, b, code);
        SameFlags(a, b);
        ShiftOnlyGlyphs(Handle(a, code).0, Handle(b, code).0, codes[1..]);
      }
    }
  }

  lemma SameFlags(a: Editor, b: Editor)
    requires Same(a, b)
    ensures a.last == b.last && a.extended == b.extended
  {
  }

  lemma HandleFlags(st: Editor, code: byte)
    requires Consistent(st)
    ensures Handle(st, code).0.extended == (code == EXTENDED_PREFIX)
  {
  }

  /** Two streams that differ only in such Shift codes are taken for the same presses. */
  lemma ShiftNonInterference(st: Editor, a: seq<byte>, b: seq<byte>)
    requires Consistent(st) && Unshifted(a, st.extended) == Unshifted(b, st.extended)
    ensures Presses(st, a) == Presses(st, b) && Same(Run(st, a), Run(st, b))
  {
    SameSelf(st);
    ShiftOnlyGlyphs(st, st, a);
    ShiftOnlyGlyphs(st, st, b);
    SameTrans(Run(st, a), Run(st, b), Run(st, Unshifted(a, st.extended)));
  }

  lemma SameSelf(st: Editor)
    ensures Same(st, st)
  {
  }

  lemma SameTrans(a: Editor, b: Editor, c: Editor)
    requires Same(a, c) && Same(b, c)
    ensures Same(a, b)
  {
  }
}
