/** Short 8.3 names: the padded eleven-byte field, its printed form, and generated aliases. */
module ShortNames {
  import opened Bytes

  // ---- cutting a sequence at the first occurrence of a byte

  function IndexOf(s: seq<byte>, b: byte): (i: nat)
    ensures i <= |s|
    ensures i < |s| ==> s[i] == b
    ensures forall j :: 0 <= j < i ==> s[j] != b
  {
    if s == [] || s[0] == b then 0 else
      var rest := IndexOf(s[1..], b);
      assert forall j :: 0 < j < 1 + rest ==> s[j] == s[1..][j - 1];
      1 + rest
  }

  lemma IndexOfIs(s: seq<byte>, b: byte, i: nat)
    requires i <= |s| && (i < |s| ==> s[i] == b)
    requires forall j :: 0 <= j < i ==> s[j] != b
    ensures IndexOf(s, b) == i
  {
  }

  // `split_once('.')`, with an absent dot read as an empty extension.
  function Base(name: Name): Name {
    name[..IndexOf(name, DOT)]
  }

  function Ext(name: Name): Name {
    if IndexOf(name, DOT) < |name| then name[IndexOf(name, DOT) + 1..] else []
  }

  function BeforeSpace(s: seq<byte>): seq<byte> {
    s[..IndexOf(s, SPACE)]
  }

  // ---- the padded field and its printed form

  function Pad(s: seq<byte>, width: nat): (p: seq<byte>)
    requires |s| <= width
    ensures |p| == width && p[..|s|] == s
    ensures forall i :: |s| <= i < width ==> p[i] == SPACE
  {
    s + seq(width - |s|, i => SPACE)
  }

  function Field(base: Name, ext: Name): ShortName
    requires |base| <= 8 && |ext| <= 3
  {
    Pad(base, 8) + Pad(ext, 3)
  }

  function Joined(base: Name, ext: Name): Name {
    base + if ext == [] then [] else [DOT] + ext
  }

  function Format(short: ShortName): Name {
    Joined(BeforeSpace(short[..8]), BeforeSpace(short[8..]))
  }

  function ToShort(name: Name): Option<ShortName> {
    var base, ext := Base(name), Ext(name);
    if base == [] || |base| > 8 || |ext| > 3 then None else Some(Field(UpperAll(base), UpperAll(ext)))
  }

  predicate Fits83(name: Name) {
    ToShort(name).Some?
  }

  // A stored short name that is found again under its own printed form.
  predicate Canonical(short: ShortName) {
    ToShort(Format(short)) == Some(short)
  }

  // ---- the imperative forms

  method FormatShortName(name: seq<byte>, ext: seq<byte>) returns (s: Name)
    requires |name| == 8 && |ext| == 3
    ensures s == Format(name + ext)
  {
    s := [];
    var i := 0;
    while i < |name| && name[i] != SPACE
      invariant i <= |name| && s == name[..i]
      invariant forall j :: 0 <= j < i ==> name[j] != SPACE
    {
      s := s + [name[i]];
      i := i + 1;
    }
    IndexOfIs(name, SPACE, i);
    var extLen := IndexOf(ext, SPACE);
    ghost var base := s;
    if extLen > 0 {
      s := s + [DOT];
      for k := 0 to extLen
        invariant s == base + [DOT] + ext[..k]
      {
        s := s + [ext[k]];
      }
    }
    assert (name + ext)[..8] == name && (name + ext)[8..] == ext;
  }

  method ToShortName(name: Name) returns (r: Result<ShortName>)
    ensures r == match ToShort(name) case Some(short) => Ok(short) case None => Err(BadName)
    ensures r.Ok? ==> forall i :: 0 <= i < 11 ==> !(97 <= r.value[i] <= 122)
  {
    var base, ext := Base(name), Ext(name);
    if base == [] || |base| > 8 || |ext| > 3 {
      return Err(BadName);
    }
    var out := new byte[11](_ => SPACE);
    for i := 0 to |base|
      invariant forall j :: 0 <= j < i ==> out[j] == Upper(base[j])
      invariant forall j :: i <= j < 11 ==> out[j] == SPACE
    {
      out[i] := Upper(base[i]);
    }
    for i := 0 to |ext|
      invariant forall j :: 0 <= j < |base| ==> out[j] == Upper(base[j])
      invariant forall j :: |base| <= j < 8 ==> out[j] == SPACE
      invariant forall j :: 0 <= j < i ==> out[8 + j] == Upper(ext[j])
      invariant forall j :: 8 + i <= j < 11 ==> out[j] == SPACE
    {
      out[8 + i] := Upper(ext[i]);
    }
    assert out[..][8..] == Pad(UpperAll(ext), 3);
    assert out[..][..8] == Pad(UpperAll(base), 8);
    assert out[..] == out[..][..8] + out[..][8..];
    forall i | 0 <= i < 11 ensures !(97 <= out[i] <= 122) {
      assert i >= 8 ==> out[i] == out[..][8..][i - 8];
    }
    r := Ok(out[..]);
  }

  // ---- what the conversions preserve

  lemma UpperIndex(name: Name, b: byte)
    requires Upper(b) == b && (b < 65 || b > 90)
    ensures IndexOf(UpperAll(name), b) == IndexOf(name, b)
  {
    var i := IndexOf(name, b);
    forall j | 0 <= j < i ensures UpperAll(name)[j] != b {
      assert name[j] != b;
    }
    IndexOfIs(UpperAll(name), b, i);
  }

  /** Conversion to a short name looks only at the name up to case. */
  lemma ToShortIgnoresCase(name: Name)
    ensures ToShort(UpperAll(name)) == ToShort(name)
  {
    UpperIndex(name, DOT);
    var u := UpperAll(name);
    assert Base(u) == UpperAll(Base(name));
    assert Ext(u) == UpperAll(Ext(name));
    UpperIdempotent(Base(name));
    UpperIdempotent(Ext(name));
  }

  lemma EqualNamesFitAlike(a: Name, b: Name)
    requires EqIgnoreCase(a, b)
    ensures ToShort(a) == ToShort(b)
  {
    ToShortIgnoresCase(a);
    ToShortIgnoresCase(b);
  }

  lemma BeforeSpaceOfPad(s: seq<byte>, width: nat)
    requires |s| <= width
    ensures |BeforeSpace(Pad(s, width))| <= |s|
    ensures SPACE !in s ==> BeforeSpace(Pad(s, width)) == s
    ensures SPACE in s ==> |BeforeSpace(Pad(s, width))| < |s|
  {
    var p := Pad(s, width);
    if SPACE in s {
      var j :| 0 <= j < |s| && s[j] == SPACE;
      assert p[j] == SPACE;
    } else {
      forall j | 0 <= j < |s| ensures p[j] != SPACE {
        assert p[j] == s[j];
      }
      IndexOfIs(p, SPACE, |s|);
    }
  }

  lemma FormatField(base: Name, ext: Name)
    requires |base| <= 8 && |ext| <= 3
    ensures |Format(Field(base, ext))| <= |Joined(base, ext)|
    ensures SPACE !in base && SPACE !in ext ==> Format(Field(base, ext)) == Joined(base, ext)
    ensures SPACE in base || SPACE in ext ==> |Format(Field(base, ext))| < |Joined(base, ext)|
  {
    var f := Field(base, ext);
    assert f[..8] == Pad(base, 8) && f[8..] == Pad(ext, 3);
    BeforeSpaceOfPad(base, 8);
    BeforeSpaceOfPad(ext, 3);
  }

  lemma JoinedSplits(base: Name, ext: Name)
    requires DOT !in base
    ensures Base(Joined(base, ext)) == base && Ext(Joined(base, ext)) == ext
  {
    var name := Joined(base, ext);
    forall j | 0 <= j < |base| ensures name[j] != DOT {
      assert name[j] == base[j];
    }
    IndexOfIs(name, DOT, |base|);
  }

  lemma NameIsJoined(name: Name)
    requires IndexOf(name, DOT) + 1 != |name|
    ensures Joined(Base(name), Ext(name)) == name
  {
    if IndexOf(name, DOT) < |name| {
      DottedIsJoined(name, IndexOf(name, DOT));
    } else {
      assert Ext(name) == [] && Base(name) == name;
    }
  }

  lemma DottedIsJoined(name: Name, i: nat)
    requires IndexOf(name, DOT) == i && i + 1 < |name|
    ensures Joined(Base(name), Ext(name)) == name
  {
    hide IndexOf;
    assert Ext(name) == name[i + 1..] && Ext(name) != [];
    assert Base(name) == name[..i];
    assert name == name[..i] + ([name[i]] + name[i + 1..]);
  }

  // Names whose printed short form is the name itself, in capitals.
  predicate Plain(name: Name) {
    SPACE !in name && IndexOf(name, DOT) + 1 != |name|
  }

  lemma UpperJoined(base: Name, ext: Name)
    ensures UpperAll(Joined(base, ext)) == Joined(UpperAll(base), UpperAll(ext))
  {
    assert UpperAll([DOT]) == [DOT];
    UpperConcat([DOT], ext);
    UpperConcat(base, if ext == [] then [] else [DOT] + ext);
  }

  lemma JoinedSpace(base: Name, ext: Name)
    ensures SPACE in Joined(base, ext) <==> SPACE in base || SPACE in ext
  {
    if ext != [] {
      assert Joined(base, ext) == base + [DOT] + ext;
    }
  }

  /** The exact domain on which an 8.3 name comes back from disk under its own name: it holds
      no space, and its first dot is not its last character. */
  lemma ShortNameRoundTrip(name: Name)
    requires Fits83(name)
    ensures Format(ToShort(name).value) == UpperAll(name) <==> Plain(name)
  {
    var base, ext := Base(name), Ext(name);
    FormatField(UpperAll(base), UpperAll(ext));
    UpperSpace(base);
    UpperSpace(ext);
    UpperJoined(base, ext);
    JoinedSpace(base, ext);
    if IndexOf(name, DOT) + 1 == |name| {
      assert ext == [];
      assert |Joined(UpperAll(base), UpperAll(ext))| < |name|;
    } else {
      NameIsJoined(name);
    }
  }

  /** A name that is stored under a different printed form: "A B" is listed as "A". */
  lemma SpaceIsLost()
    ensures var name := [65, 32, 66]; Fits83(name) && Format(ToShort(name).value) == [65]
  {
    var name: Name := [65, 32, 66];
    IndexOfIs(name, DOT, 3);
    assert Base(name) == name && Ext(name) == [];
    var f := ToShort(name).value;
    assert f[0] == 65 && f[1] == SPACE;
    IndexOfIs(f[..8], SPACE, 1);
    assert f[8] == SPACE;
    IndexOfIs(f[8..], SPACE, 0);
    assert BeforeSpace(f[..8]) == [65];
  }

  lemma UpperSpace(s: Name)
    ensures SPACE in UpperAll(s) <==> SPACE in s
  {
    if SPACE in s {
      var j :| 0 <= j < |s| && s[j] == SPACE;
      assert UpperAll(s)[j] == SPACE;
    }
    if SPACE in UpperAll(s) {
      var j :| 0 <= j < |s| && UpperAll(s)[j] == SPACE;
      assert s[j] == SPACE;
    }
  }

  lemma FieldCanonical(base: Name, ext: Name)
    requires 1 <= |base| <= 8 && |ext| <= 3
    requires SPACE !in base && DOT !in base && SPACE !in ext
    requires UpperAll(base) == base && UpperAll(ext) == ext
    ensures Canonical(Field(base, ext))
  {
    FormatField(base, ext);
    JoinedSplits(base, ext);
  }

  lemma PlainCanonical(name: Name)
    requires Fits83(name) && Plain(name)
    ensures Canonical(ToShort(name).value)
  {
    ShortNameRoundTrip(name);
    ToShortIgnoresCase(name);
  }

  lemma CanonicalInjective(a: ShortName, b: ShortName)
    requires Canonical(a) && Canonical(b) && EqIgnoreCase(Format(a), Format(b))
    ensures a == b
  {
    EqualNamesFitAlike(Format(a), Format(b));
  }

  // ---- generated aliases

  predicate AliasByte(b: byte) {
    65 <= b <= 90 || 48 <= b <= 57 || b == UNDERSCORE || b == DASH
  }

  function Clean(s: Name): (c: Name)
    ensures forall i :: 0 <= i < |c| ==> AliasByte(c[i])
  {
    if s == [] then []
    else (if AliasByte(Upper(s[0])) then [Upper(s[0])] else []) + Clean(s[1..])
  }

  function Truncate(s: Name, n: nat): Name {
    if |s| <= n then s else s[..n]
  }

  function AliasBase(name: Name): (b: Name)
    ensures 1 <= |b| <= 5 && forall i :: 0 <= i < |b| ==> AliasByte(b[i])
  {
    var c := Clean(Base(name));
    Truncate(if c == [] then [UNDERSCORE] else c, 5)
  }

  function AliasExt(name: Name): (e: Name)
    ensures |e| <= 3 && forall i :: 0 <= i < |e| ==> AliasByte(e[i])
  {
    Truncate(Clean(Ext(name)), 3)
  }

  // "~n" in decimal, for the one- and two-digit numbers the generator tries.
  function Suffix(n: nat): (s: Name)
    requires n < 100
    ensures 2 <= |s| <= 3
    ensures forall i :: 0 <= i < |s| ==> s[i] == TILDE || 48 <= s[i] <= 57
  {
    [TILDE] + if n < 10 then [48 + n] else [48 + n / 10, 48 + n % 10]
  }

  function Alias(name: Name, n: nat): ShortName
    requires n < 100
  {
    Field(AliasBase(name) + Suffix(n), AliasExt(name))
  }

  /** Every generated alias fits 8.3 and is found again under its printed form. */
  lemma AliasCanonical(name: Name, n: nat)
    requires n < 100
    ensures Canonical(Alias(name, n))
  {
    var base, ext := AliasBase(name) + Suffix(n), AliasExt(name);
    forall b | b in base ensures b != SPACE && b != DOT && Upper(b) == b {
    }
    forall b | b in ext ensures b != SPACE && Upper(b) == b {
    }
    assert UpperAll(base) == base && UpperAll(ext) == ext;
    FieldCanonical(base, ext);
  }

  /** Different numbers give different aliases, so ninety-nine candidates really are tried. */
  lemma AliasesDiffer(name: Name, m: nat, n: nat)
    requires m < n < 100
    ensures Alias(name, m) != Alias(name, n)
  {
    var base := AliasBase(name);
    var p, q := Pad(base + Suffix(m), 8), Pad(base + Suffix(n), 8);
    assert Alias(name, m)[..8] == p && Alias(name, n)[..8] == q;
    var i := |base|;
    assert p[i + 1] == Suffix(m)[1] && q[i + 1] == Suffix(n)[1];
    if |Suffix(m)| == 3 {
      assert p[i + 2] == Suffix(m)[2];
    } else {
      assert p[i + 2] == SPACE || |base| + 2 == 8;
    }
    if |Suffix(n)| == 3 {
      assert q[i + 2] == Suffix(n)[2];
    }
  }

  method BuildAlias(base: Name, suffix: Name, ext: Name) returns (short: ShortName)
    requires |base| + |suffix| <= 8 && |ext| <= 3
    ensures short == Field(base + suffix, ext)
  {
    var out := new byte[11](_ => SPACE);
    for i := 0 to |base|
      invariant forall j :: 0 <= j < i ==> out[j] == base[j]
      invariant forall j :: i <= j < 11 ==> out[j] == SPACE
    {
      out[i] := base[i];
    }
    for i := 0 to |suffix|
      invariant forall j :: 0 <= j < |base| + i ==> out[j] == (base + suffix)[j]
      invariant forall j :: |base| + i <= j < 11 ==> out[j] == SPACE
    {
      out[|base| + i] := suffix[i];
    }
    assert out[..8] == Pad(base + suffix, 8);
    for i := 0 to |ext|
      invariant out[..8] == Pad(base + suffix, 8)
      invariant forall j :: 0 <= j < i ==> out[8 + j] == ext[j]
      invariant forall j :: 8 + i <= j < 11 ==> out[j] == SPACE
    {
      out[8 + i] := ext[i];
    }
    assert out[8..] == Pad(ext, 3);
    assert out[..] == out[..8] + out[8..];
    short := out[..];
  }

  predicate AliasesTaken(name: Name, below: nat, existing: seq<ShortName>)
    requires below <= 100
  {
    forall m: nat :: 1 <= m < below ==> Alias(name, m) in existing
  }

  /** The first free alias in numeric order, or an error exactly when all ninety-nine are taken. */
  method GenerateShortAlias(name: Name, existing: seq<ShortName>) returns (r: Result<ShortName>)
    ensures r.Ok? ==> r.value !in existing
    ensures r.Ok? ==> exists n: nat :: 1 <= n <= 99 && AliasesTaken(name, n, existing) && r.value == Alias(name, n)
    ensures r.Err? <==> AliasesTaken(name, 100, existing)
    ensures r.Err? ==> r.error == AliasesExhausted
  {
    for n := 1 to 100
      invariant AliasesTaken(name, n, existing)
    {
      var out := BuildAlias(AliasBase(name), Suffix(n), AliasExt(name));
      assert out == Alias(name, n);
      if out !in existing {
        return Ok(out);
      }
    }
    r := Err(AliasesExhausted);
  }

  // ---- liveness of the first byte

  predicate Ascii(name: Name) {
    forall b :: b in name ==> b < 0x80
  }

  lemma ShortFirstByte(name: Name)
    requires Fits83(name) && Ascii(name)
    ensures name != [] && ToShort(name).value[0] == Upper(name[0]) < 0x80
  {
    var base := UpperAll(Base(name));
    assert Base(name)[0] == name[0] && name[0] in name;
    assert ToShort(name).value[0] == Pad(base, 8)[0] == base[0];
  }

  lemma FormatIsUpper(base: Name, ext: Name)
    requires |base| <= 8 && |ext| <= 3 && UpperAll(base) == base && UpperAll(ext) == ext
    ensures UpperAll(Format(Field(base, ext))) == Format(Field(base, ext))
  {
    var b, e := BeforeSpace(Pad(base, 8)), BeforeSpace(Pad(ext, 3));
    assert forall i :: 0 <= i < |base| ==> UpperAll(base)[i] == Upper(base[i]);
    assert forall i :: 0 <= i < |ext| ==> UpperAll(ext)[i] == Upper(ext[i]);
    assert UpperAll(b) == b && UpperAll(e) == e;
    assert Field(base, ext)[..8] == Pad(base, 8) && Field(base, ext)[8..] == Pad(ext, 3);
    UpperJoined(b, e);
  }

  /** An entry stored for an 8.3 name answers to that name exactly when the name is plain. */
  lemma AnswersToItsName(name: Name)
    requires Fits83(name)
    ensures EqIgnoreCase(Format(ToShort(name).value), name) <==> Plain(name)
  {
    ShortNameRoundTrip(name);
    UpperIdempotent(Base(name));
    UpperIdempotent(Ext(name));
    FormatIsUpper(UpperAll(Base(name)), UpperAll(Ext(name)));
  }

  lemma AliasFirstByte(name: Name, n: nat)
    requires n < 100
    ensures AliasByte(Alias(name, n)[0])
  {
    var base := AliasBase(name) + Suffix(n);
    assert Alias(name, n)[0] == Pad(base, 8)[0] == base[0] == AliasBase(name)[0];
  }
}
