/** Tensor-info entries of a GGUF file: parsing undoes serializing and accepts nothing else, entry by
    entry and for whole lists, whatever bytes follow. Which bytes are valid UTF-8 is left open. */
module TensorInfo {
  import opened Bytes

  datatype Gtype = F32 | F16 | Q4_0 | Q4_1 | Q8_0 | Q2_K | Q3_K | Q4_K | Q5_K | Q6_K | Q8_K

  datatype ParseError = ShortForLength | ShortForFields | NotUtf8 | UnknownGtype | PastEnd

  datatype Parsed<T> = Done(value: T) | Failed(error: ParseError)

  datatype Info = Info(name: seq<byte>, dim0: nat, dim1: nat, gtype: Gtype, offset: nat)

  type Utf8 = seq<byte> -> bool

  function GtypeOf(raw: nat): Parsed<Gtype> {
    match raw
    case 0 => Done(F32)
    case 1 => Done(F16)
    case 2 => Done(Q4_0)
    case 3 => Done(Q4_1)
    case 8 => Done(Q8_0)
    case 10 => Done(Q2_K)
    case 11 => Done(Q3_K)
    case 12 => Done(Q4_K)
    case 13 => Done(Q5_K)
    case 14 => Done(Q6_K)
    case 15 => Done(Q8_K)
    case _ => Failed(UnknownGtype)
  }

  function GtypeCode(gtype: Gtype): nat
  {
    match gtype
    case F32 => 0
    case F16 => 1
    case Q4_0 => 2
    case Q4_1 => 3
    case Q8_0 => 8
    case Q2_K => 10
    case Q3_K => 11
    case Q4_K => 12
    case Q5_K => 13
    case Q6_K => 14
    case Q8_K => 15
  }

  lemma GtypeRoundTrip(gtype: Gtype, raw: nat)
    ensures GtypeOf(raw) == Done(gtype) <==> raw == GtypeCode(gtype)
  {
  }

  function ReadU32(bytes: seq<byte>, at: nat): nat
    requires at + 4 <= |bytes|
  {
    Value(bytes[at..at + 4])
  }

  // One entry from the start of `bytes`, and how many bytes it takes.
  function Parse(bytes: seq<byte>, utf8: Utf8): (r: Parsed<(Info, nat)>)
    ensures r != Failed(PastEnd)
  {
    if |bytes| < 4 then Failed(ShortForLength) else
      var fieldsStart := 4 + ReadU32(bytes, 0);
      if |bytes| < fieldsStart + 16 then Failed(ShortForFields)
      else if !utf8(bytes[4..fieldsStart]) then Failed(NotUtf8)
      else match GtypeOf(ReadU32(bytes, fieldsStart + 8))
        case Failed(error) => Failed(error)
        case Done(gtype) =>
          Done((Info(bytes[4..fieldsStart], ReadU32(bytes, fieldsStart), ReadU32(bytes, fieldsStart + 4), gtype,
                     ReadU32(bytes, fieldsStart + 12)), fieldsStart + 16))
  }

  // ---- serializing

  predicate Serializable(info: Info, utf8: Utf8) {
    && |info.name| < Limit(4) && utf8(info.name)
    && info.dim0 < Limit(4) && info.dim1 < Limit(4) && info.offset < Limit(4)
  }

  function Numbers(info: Info): (bytes: seq<byte>) {
    Digits(info.dim0, 4) + Digits(info.dim1, 4) + Digits(GtypeCode(info.gtype), 4) + Digits(info.offset, 4)
  }

  function Serialize(info: Info): (bytes: seq<byte>)
    ensures |bytes| == 20 + |info.name|
  {
    Digits(|info.name|, 4) + info.name + Numbers(info)
  }

  lemma CodeIsSmall(gtype: Gtype)
    ensures GtypeCode(gtype) < Limit(4)
  {
    FourBytes();
  }

  /** An entry followed by any bytes parses to that entry, and takes exactly its own length. */
  lemma ParseSerialized(info: Info, utf8: Utf8, rest: seq<byte>)
    requires Serializable(info, utf8)
    ensures Parse(Serialize(info) + rest, utf8) == Done((info, |Serialize(info)|))
  {
    hide Value, Digits, Limit, GtypeCode, GtypeOf;
    var bytes, f := Serialize(info) + rest, 4 + |info.name|;
    assert bytes[0..4] == Digits(|info.name|, 4);
    assert bytes[4..f] == info.name;
    assert bytes[f..f + 4] == Digits(info.dim0, 4);
    assert bytes[f + 4..f + 8] == Digits(info.dim1, 4);
    assert bytes[f + 8..f + 12] == Digits(GtypeCode(info.gtype), 4);
    assert bytes[f + 12..f + 16] == Digits(info.offset, 4);
    CodeIsSmall(info.gtype);
    ValueOfDigits(|info.name|, 4);
    ValueOfDigits(info.dim0, 4);
    ValueOfDigits(info.dim1, 4);
    ValueOfDigits(GtypeCode(info.gtype), 4);
    ValueOfDigits(info.offset, 4);
    GtypeRoundTrip(info.gtype, GtypeCode(info.gtype));
  }

  /** Whatever parses is the serialization of what it parses to. */
  lemma SerializeParsed(bytes: seq<byte>, utf8: Utf8)
    requires Parse(bytes, utf8).Done?
    ensures var (info, n) := Parse(bytes, utf8).value;
            n <= |bytes| && Serializable(info, utf8) && Serialize(info) == bytes[..n]
  {
    hide Value, Digits, Limit, GtypeCode, GtypeOf;
    var (info, n) := Parse(bytes, utf8).value;
    var f := 4 + |info.name|;
    GtypeRoundTrip(info.gtype, ReadU32(bytes, f + 8));
    DigitsOfValue(bytes[0..4]);
    DigitsOfValue(bytes[f..f + 4]);
    DigitsOfValue(bytes[f + 4..f + 8]);
    DigitsOfValue(bytes[f + 8..f + 12]);
    DigitsOfValue(bytes[f + 12..f + 16]);
    assert Numbers(info) == bytes[f..f + 16];
    assert Serialize(info) == bytes[..n];
  }

  // ---- lists

  function SerializeAll(infos: seq<Info>): seq<byte> {
    if infos == [] then [] else Serialize(infos[0]) + SerializeAll(infos[1..])
  }

  // `count` more entries, from `offset` on, behind those already parsed.
  function ParseFrom(bytes: seq<byte>, offset: nat, count: nat, utf8: Utf8, parsed: seq<Info>): Parsed<(seq<Info>, nat)>
    decreases count
  {
    if count == 0 then Done((parsed, offset))
    else if offset > |bytes| then Failed(PastEnd)
    else match Parse(bytes[offset..], utf8)
      case Failed(error) => Failed(error)
      case Done((info, consumed)) => ParseFrom(bytes, offset + consumed, count - 1, utf8, parsed + [info])
  }

  /** Parses `count` entries, each starting where the one before it ended. */
  method ParseMany(bytes: seq<byte>, count: nat, utf8: Utf8) returns (r: Parsed<(seq<Info>, nat)>)
    ensures r == ParseFrom(bytes, 0, count, utf8, [])
  {
    hide Parse;
    var infos: seq<Info> := [];
    var offset := 0;
    for i := 0 to count
      invariant ParseFrom(bytes, 0, count, utf8, []) == ParseFrom(bytes, offset, count - i, utf8, infos)
    {
      if offset > |bytes| {
        return Failed(PastEnd);
      }
      var parsed := Parse(bytes[offset..], utf8);
      if parsed.Failed? {
        return Failed(parsed.error);
      }
      var (info, consumed) := parsed.value;
      offset := offset + consumed;
      infos := infos + [info];
    }
    r := Done((infos, offset));
  }

  /** A serialized list followed by any bytes parses to that list, and takes exactly its own length. */
  lemma {:induction false} ParseManySerialized(before: seq<byte>, infos: seq<Info>, rest: seq<byte>, utf8: Utf8, parsed: seq<Info>)
    requires forall i :: 0 <= i < |infos| ==> Serializable(infos[i], utf8)
    ensures ParseFrom(before + SerializeAll(infos) + rest, |before|, |infos|, utf8, parsed)
         == Done((parsed + infos, |before| + |SerializeAll(infos)|))
    decreases |infos|
  {
    hide Parse, Serialize, Serializable;
    if infos == [] {
      assert parsed + infos == parsed;
    } else {
      var first, more := Serialize(infos[0]), SerializeAll(infos[1..]);
      var bytes := before + SerializeAll(infos) + rest;
      ParseSerialized(infos[0], utf8, more + rest);
      assert bytes[|before|..] == first + (more + rest);
      ParseManySerialized(before + first, infos[1..], rest, utf8, parsed + [infos[0]]);
      assert bytes == (before + first) + more + rest;
      assert parsed + [infos[0]] + infos[1..] == parsed + infos;
    }
  }

  /** Whatever parses as a list is the serialization of that list; no read goes past the end. */
  lemma {:induction false} SerializeManyParsed(bytes: seq<byte>, offset: nat, count: nat, utf8: Utf8, parsed: seq<Info>)
    requires offset <= |bytes|
    ensures ParseFrom(bytes, offset, count, utf8, parsed) != Failed(PastEnd)
    ensures ParseFrom(bytes, offset, count, utf8, parsed).Done? ==>
              var (infos, end) := ParseFrom(bytes, offset, count, utf8, parsed).value;
              && |infos| == |parsed| + count && parsed <= infos && offset <= end <= |bytes|
              && (forall i :: |parsed| <= i < |infos| ==> Serializable(infos[i], utf8))
              && SerializeAll(infos[|parsed|..]) == bytes[offset..end]
    decreases count
  {
    hide Serialize, Serializable, ReadU32, Parse;
    if count > 0 && Parse(bytes[offset..], utf8).Done? {
      var (info, consumed) := Parse(bytes[offset..], utf8).value;
      SerializeParsed(bytes[offset..], utf8);
      SerializeManyParsed(bytes, offset + consumed, count - 1, utf8, parsed + [info]);
      var after := ParseFrom(bytes, offset + consumed, count - 1, utf8, parsed + [info]);
      if after.Done? {
        var (infos, end) := after.value;
        assert parsed + [info] <= infos && infos[|parsed|] == (parsed + [info])[|parsed|] == info;
        assert infos[|parsed|..][1..] == infos[|parsed + [info]|..];
        assert bytes[offset..][..consumed] + bytes[offset + consumed..end] == bytes[offset..end];
      }
    }
  }
}
