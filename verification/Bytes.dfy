/** Bytes, sectors, directory slots and the little-endian fields packed into them,
    together with the ASCII case folding every name comparison uses. */
module Bytes {
  type byte = x: int | 0 <= x < 256
  type Sector = s: seq<byte> | |s| == 512 witness seq(512, i => 0)
  type Slot = s: seq<byte> | |s| == 32 witness seq(32, i => 0)
  type ShortName = s: seq<byte> | |s| == 11 witness seq(11, i => 32)
  type Name = seq<byte>

  function ZeroBytes(n: nat): (s: seq<byte>)
    ensures |s| == n && forall i :: 0 <= i < n ==> s[i] == 0
  {
    if n == 0 then [] else ZeroBytes(n - 1) + [0]
  }

  function ZeroSector(): Sector {
    ZeroBytes(512)
  }

  function ZeroSlot(): Slot {
    ZeroBytes(32)
  }

  const SPACE: byte := 32
  const DOT: byte := 46
  const TILDE: byte := 126
  const UNDERSCORE: byte := 95
  const DASH: byte := 45

  datatype Error =
    | BadSignature | BadSectorSize | NotFat12 | NoFat
    | OutOfRange | FreeInChain
    | NotFound | IsDirectory | NotDirectory | NotEmpty
    | NoClusters | RootFull | RunTooLong
    | NameTaken | ShortNameTaken | BadName | AliasesExhausted
    | BadPath | DotTarget | NoSuchDirectory | NotADirectoryInPath

  datatype Option<+T> = None | Some(value: T)

  datatype Result<+T> = Ok(value: T) | Err(error: Error)

  function U16(lo: byte, hi: byte): (x: nat)
    ensures x < 0x1_0000
  {
    lo + 0x100 * hi
  }

  function Le16(x: nat): (s: seq<byte>)
    requires x < 0x1_0000
    ensures |s| == 2 && U16(s[0], s[1]) == x
  {
    [x % 0x100, x / 0x100]
  }

  // ---- little-endian numbers

  function Value(s: seq<byte>): nat {
    if s == [] then 0 else s[0] + 0x100 * Value(s[1..])
  }

  function Digits(x: nat, n: nat): (s: seq<byte>)
    ensures |s| == n
  {
    if n == 0 then [] else [x % 0x100] + Digits(x / 0x100, n - 1)
  }

  function Limit(n: nat): nat {
    if n == 0 then 1 else 0x100 * Limit(n - 1)
  }

  // Four bytes hold what is below 2^32.
  lemma FourBytes()
    ensures Limit(4) == 0x1_0000_0000
  {
  }

  lemma {:induction false} ValueOfDigits(x: nat, n: nat)
    requires x < Limit(n)
    ensures Value(Digits(x, n)) == x
  {
    if n > 0 {
      ValueOfDigits(x / 0x100, n - 1);
      assert Digits(x, n)[1..] == Digits(x / 0x100, n - 1);
    }
  }

  lemma LowByte(low: byte, rest: nat)
    ensures (low + 0x100 * rest) % 0x100 == low && (low + 0x100 * rest) / 0x100 == rest
  {
  }

  lemma {:induction false} DigitsOfValue(s: seq<byte>)
    ensures Value(s) < Limit(|s|) && Digits(Value(s), |s|) == s
  {
    if s != [] {
      DigitsOfValue(s[1..]);
      LowByte(s[0], Value(s[1..]));
    }
  }

  lemma ValueOfFour(s: seq<byte>)
    requires |s| == 4
    ensures Value(s) == U16(s[0], s[1]) + 0x1_0000 * U16(s[2], s[3])
  {
    assert s[1..][0] == s[1] && s[1..][1..] == s[2..] && s[2..][0] == s[2] && s[2..][1..] == s[3..] == [s[3]];
    assert Value(s[3..]) == s[3];
    assert Value(s[2..]) == U16(s[2], s[3]);
  }

  // What is left of `x` without the bit of that weight, when no higher one is set.
  function Strip(x: nat, weight: nat): nat {
    if x >= weight then x - weight else x
  }

  // The three bits that directory slots are told apart by: the bits above are stripped off one by one.
  predicate Bit(b: byte, weight: nat)
    requires weight == 0x08 || weight == 0x10 || weight == 0x40
  {
    var low7 := Strip(b, 0x80);
    if weight == 0x40 then low7 >= 0x40
    else
      var low5 := Strip(Strip(low7, 0x40), 0x20);
      if weight == 0x10 then low5 >= 0x10 else Strip(low5, 0x10) >= 0x08
  }

  lemma TopBit(b: nat, weight: nat, high: nat, low: nat)
    requires weight == 0x08 || weight == 0x10 || weight == 0x40
    requires b == 2 * weight * high + low && low < 2 * weight
    ensures (b / weight) % 2 == 1 <==> low >= weight
  {
    assert b / weight == 2 * high + low / weight;
  }

  // `b & weight != 0`
  lemma BitIsMask(b: byte, weight: nat)
    requires weight == 0x08 || weight == 0x10 || weight == 0x40
    ensures Bit(b, weight) <==> (b / weight) % 2 == 1
  {
    var low7 := Strip(b, 0x80);
    var low5 := Strip(Strip(low7, 0x40), 0x20);
    match weight {
      case 0x40 => TopBit(b, weight, (b - low7) / 0x80, low7);
      case 0x10 => TopBit(b, weight, (b - low5) / 0x20, low5);
      case _ => TopBit(b, weight, (b - Strip(low5, 0x10)) / 0x10, Strip(low5, 0x10));
    }
  }

  function Upper(b: byte): byte {
    if 97 <= b <= 122 then b - 32 else b
  }

  function UpperAll(n: Name): (u: Name)
    ensures |u| == |n|
    ensures forall i :: 0 <= i < |n| ==> u[i] == Upper(n[i])
  {
    seq(|n|, i requires 0 <= i < |n| => Upper(n[i]))
  }

  predicate EqIgnoreCase(a: Name, b: Name) {
    UpperAll(a) == UpperAll(b)
  }

  lemma UpperIdempotent(n: Name)
    ensures UpperAll(UpperAll(n)) == UpperAll(n)
  {
    assert |UpperAll(UpperAll(n))| == |UpperAll(n)|;
  }

  lemma UpperConcat(a: Name, b: Name)
    ensures UpperAll(a + b) == UpperAll(a) + UpperAll(b)
  {
  }
}
