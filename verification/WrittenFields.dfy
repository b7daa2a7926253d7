/** Fields as "Message Structure" of the Protocol Buffers Encoding specification has them written, and what the decoder
    of the token creation request makes of them. */
module WrittenFields {
  import opened Kube
  import opened Varint
  import opened ProjectCodec
  import opened CodecTheorems

  const MAX_NUMBER := 0x1fff_ffff

  /** A field: its number, and what is written for it. */
  datatype Written =
    | AsVarint(number: nat, value: nat)
    | AsFixed64(number: nat, bytes: seq<Byte>)
    | AsBytes(number: nat, bytes: seq<Byte>)
    | AsGroup(number: nat, fields: seq<Written>)
    | AsFixed32(number: nat, bytes: seq<Byte>)
  {
    predicate Plain() {
      && 1 <= number <= MAX_NUMBER
      && match this
         case AsVarint(_, value) => value < TWO_64
         case AsFixed64(_, bytes) => |bytes| == 8
         case AsBytes(_, bytes) => |bytes| < TWO_63
         case AsGroup(_, _) => true
         case AsFixed32(_, bytes) => |bytes| == 4
    }

    function WireType(): nat {
      match this
      case AsVarint(_, _) => 0
      case AsFixed64(_, _) => 1
      case AsBytes(_, _) => 2
      case AsGroup(_, _) => 3
      case AsFixed32(_, _) => 5
    }
  }

  predicate Valid(fs: seq<Written>)
    decreases fs
  {
    forall i :: 0 <= i < |fs| ==> fs[i].Plain() && (fs[i].AsGroup? ==> Valid(fs[i].fields))
  }

  function Tag(number: nat, wireType: nat): seq<Byte> {
    Encode(8 * number + wireType)
  }

  /** What follows the tag of a field; `inner` are the bytes of the fields of a group. */
  function Payload(f: Written, inner: seq<Byte>): seq<Byte> {
    match f
    case AsVarint(_, value) => Encode(value)
    case AsFixed64(_, bytes) => bytes
    case AsBytes(_, bytes) => Encode(|bytes|) + bytes
    case AsGroup(number, _) => inner + Tag(number, 4)
    case AsFixed32(_, bytes) => bytes
  }

  function Frame(f: Written, inner: seq<Byte>): seq<Byte> {
    Tag(f.number, f.WireType()) + Payload(f, inner)
  }

  /** The bytes of fields written one after the other. */
  function AllBytes(fs: seq<Written>): seq<Byte>
    decreases fs
  {
    if fs == [] then []
    else Frame(fs[0], if fs[0].AsGroup? then AllBytes(fs[0].fields) else []) + AllBytes(fs[1..])
  }

  function Inner(f: Written): seq<Byte> {
    if f.AsGroup? then AllBytes(f.fields) else []
  }

  function Bytes(f: Written): seq<Byte> {
    Frame(f, Inner(f))
  }

  lemma {:induction false} AllBytesCons(fs: seq<Written>)
    requires fs != []
    ensures AllBytes(fs) == Bytes(fs[0]) + AllBytes(fs[1..])
  {
  }

  /** The bytes stand at index i. */
  predicate StandsAt(s: seq<Byte>, i: nat, bytes: seq<Byte>) {
    i + |bytes| <= |s| && s[i..i + |bytes|] == bytes
  }

  lemma {:induction false} StandsParts(s: seq<Byte>, i: nat, a: seq<Byte>, b: seq<Byte>)
    requires StandsAt(s, i, a + b)
    ensures StandsAt(s, i, a) && StandsAt(s, i + |a|, b)
  {
    Part(s, i, a + b, 0, |a|);
    Part(s, i, a + b, |a|, |a + b|);
  }

  lemma {:induction false} StandsLater(s: seq<Byte>, i: nat, j: nat, bytes: seq<Byte>)
    requires i <= j && i <= |s| && StandsAt(s, j, bytes)
    ensures StandsAt(s[i..], j - i, bytes)
  {
    assert s[i..][j - i..j - i + |bytes|] == s[j..j + |bytes|];
  }

  lemma {:induction false} ReadsNumberAt(s: seq<Byte>, i: nat, v: nat)
    requires v < TWO_64 && StandsAt(s, i, Encode(v))
    ensures ReadAt(s, i) == Some((v, i + |Encode(v)|))
  {
    ReadsBack(s, i, v);
  }

  lemma {:induction false} TagParts(number: nat, wireType: nat)
    requires number <= MAX_NUMBER && wireType < 8
    ensures var wire := 8 * number + wireType; wire < TWO_64 && wire % 8 == wireType && FieldNumber(wire) == number
  {
  }

  lemma {:induction false} TagLength(number: nat, wireType: nat)
    requires number <= MAX_NUMBER && wireType < 8
    ensures 1 <= |Tag(number, wireType)|
  {
  }

  // ---------------------------------------------------------------------------------------------
  // Skipping
  // ---------------------------------------------------------------------------------------------

  /** A field, given that the fields of a group are skipped as they should be. */
  lemma {:induction false} SkipsField(f: Written, inner: seq<Byte>, s: seq<Byte>)
    requires f.Plain() && Slice(s) && StandsAt(s, 0, Frame(f, inner))
    requires f.AsGroup? ==>
               SkipGroup(s, |Tag(f.number, 3)|) == Over(|Tag(f.number, 3)| + |inner + Tag(f.number, 4)|)
    ensures SkipField(s) == Over(|Frame(f, inner)|)
  {
    hide Encode, ReadAt, SkipGroup;
    var tag := Tag(f.number, f.WireType());
    TagParts(f.number, f.WireType());
    TagLength(f.number, f.WireType());
    StandsParts(s, 0, tag, Payload(f, inner));
    ReadsNumberAt(s, 0, 8 * f.number + f.WireType());
    if f.AsVarint? {
      ReadsNumberAt(s, |tag|, f.value);
    } else if f.AsBytes? {
      StandsParts(s, |tag|, Encode(|f.bytes|), f.bytes);
      ReadsNumberAt(s, |tag|, |f.bytes|);
    }
  }

  /** The fields of a group, with its end. */
  lemma {:induction false} SkipsGroup(fs: seq<Written>, number: nat, s: seq<Byte>, i: nat)
    requires Valid(fs) && number <= MAX_NUMBER && Slice(s) && 1 <= i && StandsAt(s, i, AllBytes(fs) + Tag(number, 4))
    ensures SkipGroup(s, i) == Over(i + |AllBytes(fs) + Tag(number, 4)|)
    decreases fs
  {
    hide Encode, ReadAt, SkipField, Tag, Payload, AllBytes, Bytes, SkipGroup, StandsAt;
    if fs == [] {
      NoFields();
      assert AllBytes(fs) + Tag(number, 4) == Tag(number, 4);
      SkipsEnd(number, s, i);
    } else {
      var f, rest := fs[0], AllBytes(fs[1..]) + Tag(number, 4);
      AllBytesCons(fs);
      assert AllBytes(fs) + Tag(number, 4) == Bytes(f) + rest;
      StandsParts(s, i, Bytes(f), rest);
      assert i <= |s| by { StandsWithin(s, i, Bytes(f)); }
      StandsLater(s, i, i, Bytes(f));
      if f.AsGroup? {
        StandsInner(f, s[i..]);
        TagLength(f.number, 3);
        SkipsGroup(f.fields, f.number, s[i..], |Tag(f.number, 3)|);
      }
      SkipsHead(f, s, i);
      SkipsGroup(fs[1..], number, s, i + |Bytes(f)|);
    }
  }

  lemma {:induction false} StandsWithin(s: seq<Byte>, i: nat, bytes: seq<Byte>)
    requires StandsAt(s, i, bytes)
    ensures i + |bytes| <= |s|
  {
  }

  lemma {:induction false} SkipsEnd(number: nat, s: seq<Byte>, i: nat)
    requires number <= MAX_NUMBER && Slice(s) && 1 <= i && StandsAt(s, i, Tag(number, 4))
    ensures SkipGroup(s, i) == Over(i + |Tag(number, 4)|)
  {
    hide Encode, ReadAt, SkipField;
    TagParts(number, 4);
    ReadsNumberAt(s, i, 8 * number + 4);
  }

  /** Where the fields of a group stand. */
  lemma {:induction false} StandsInner(f: Written, s: seq<Byte>)
    requires f.AsGroup? && StandsAt(s, 0, Bytes(f))
    ensures StandsAt(s, |Tag(f.number, 3)|, AllBytes(f.fields) + Tag(f.number, 4))
  {
    hide Tag, AllBytes;
    StandsParts(s, 0, Tag(f.number, 3), Payload(f, Inner(f)));
  }

  /** The first of the fields of a group, given that its own fields are skipped as they should be if it is a group. */
  lemma {:induction false} SkipsHead(f: Written, s: seq<Byte>, i: nat)
    requires f.Plain() && Slice(s) && 1 <= i && StandsAt(s, i, Bytes(f)) && StandsAt(s[i..], 0, Bytes(f))
    requires f.AsGroup? ==>
               SkipGroup(s[i..], |Tag(f.number, 3)|) ==
               Over(|Tag(f.number, 3)| + |AllBytes(f.fields) + Tag(f.number, 4)|)
    ensures SkipGroup(s, i) == SkipGroup(s, i + |Bytes(f)|) && |Bytes(f)| >= 1
  {
    hide Encode, ReadAt, SkipField, Tag, Payload, AllBytes;
    SkipsField(f, Inner(f), s[i..]);
    ReadsTagOf(f, s, i);
  }

  lemma {:induction false} TagIs(number: nat, wireType: nat)
    ensures Tag(number, wireType) == Encode(8 * number + wireType)
  {
  }

  lemma {:induction false} GroupPayload(f: Written)
    requires f.AsGroup?
    ensures Payload(f, Inner(f)) == AllBytes(f.fields) + Tag(f.number, 4)
  {
  }

  /** The tag of a field is read as its number and wire type. */
  lemma {:induction false} ReadsTagOf(f: Written, s: seq<Byte>, i: nat)
    requires f.Plain() && StandsAt(s, i, Bytes(f))
    ensures var wire := 8 * f.number + f.WireType();
            && ReadAt(s, i) == Some((wire, i + |Tag(f.number, f.WireType())|))
            && wire % 8 == f.WireType() && FieldNumber(wire) == f.number && |Bytes(f)| >= 1
  {
    hide Encode, ReadAt, Payload;
    TagParts(f.number, f.WireType());
    TagLength(f.number, f.WireType());
    StandsParts(s, i, Tag(f.number, f.WireType()), Payload(f, Inner(f)));
    ReadsNumberAt(s, i, 8 * f.number + f.WireType());
  }

  /** A written field, whatever comes after it, is skipped by exactly its own length. */
  lemma {:induction false} SkipsWritten(f: Written, s: seq<Byte>)
    requires Valid([f]) && Slice(s) && StandsAt(s, 0, Bytes(f))
    ensures SkipField(s) == Over(|Bytes(f)|)
  {
    hide Encode, SkipField, SkipGroup, Tag, Payload;
    assert [f][0] == f;
    if f.AsGroup? {
      StandsInner(f, s);
      assert |Tag(f.number, 3)| >= 1 by { TagLength(f.number, 3); }
      SkipsGroup(f.fields, f.number, s, |Tag(f.number, 3)|);
    }
    SkipsField(f, Inner(f), s);
  }

  // ---------------------------------------------------------------------------------------------
  // Decoding
  // ---------------------------------------------------------------------------------------------

  /** What a field does to a message: text replaces one of the first three fields, a number the fourth, and any other
      field is put aside as it is. A known field that is written otherwise is refused. */
  function TakeIn(m: Message, f: Written): Option<Message> {
    if f.number > 4 then Some(m.(unrecognized := m.unrecognized + Bytes(f)))
    else if f.number == 4 then if f.AsVarint? && f.value < TWO_64 then Some(m.(expiresIn := Signed(f.value))) else None
    else if !f.AsBytes? then None
    else if f.number == 1 then Some(m.(project := f.bytes))
    else if f.number == 2 then Some(m.(description := f.bytes))
    else Some(m.(role := f.bytes))
  }

  function TakeAll(m: Message, fs: seq<Written>): Outcome
    decreases |fs|
  {
    if fs == [] then Decoded(m)
    else
      match TakeIn(m, fs[0])
      case None => Refused
      case Some(n) => TakeAll(n, fs[1..])
  }

  lemma {:induction false} DecodesField(s: seq<Byte>, i: nat, m: Message, f: Written)
    requires Valid([f]) && Slice(s) && StandsAt(s, i, Bytes(f))
    ensures DecodeFrom(s, i, m) ==
            match TakeIn(m, f) case None => Refused case Some(n) => DecodeFrom(s, i + |Bytes(f)|, n)
  {
    hide Encode, ReadAt, SkipField, Signed, Tag, Payload;
    assert [f][0] == f;
    ReadsTagOf(f, s, i);
    if f.number > 4 {
      StandsLater(s, i, i, Bytes(f));
      SkipsWritten(f, s[i..]);
    } else if f.AsVarint? || f.AsBytes? {
      ReadsPayload(f, s, i);
    }
  }

  lemma {:induction false} ReadsPayload(f: Written, s: seq<Byte>, i: nat)
    requires f.Plain() && (f.AsVarint? || f.AsBytes?) && Slice(s) && StandsAt(s, i, Bytes(f))
    ensures var j := i + |Tag(f.number, f.WireType())|;
            && (f.AsVarint? ==> ReadAt(s, j) == Some((f.value, i + |Bytes(f)|)))
            && (f.AsBytes? ==> TextAt(s, j).Span? && TextAt(s, j).to == i + |Bytes(f)|
                               && s[TextAt(s, j).from..TextAt(s, j).to] == f.bytes)
  {
    hide Encode, ReadAt;
    var tag := Tag(f.number, f.WireType());
    StandsParts(s, i, tag, Payload(f, Inner(f)));
    if f.AsVarint? {
      ReadsNumberAt(s, i + |tag|, f.value);
    } else {
      StandsParts(s, i + |tag|, Encode(|f.bytes|), f.bytes);
      ReadsNumberAt(s, i + |tag|, |f.bytes|);
    }
  }

  lemma {:induction false} DecodesFrom(s: seq<Byte>, i: nat, m: Message, fs: seq<Written>)
    requires Valid(fs) && Slice(s) && StandsAt(s, i, AllBytes(fs)) && i + |AllBytes(fs)| == |s|
    ensures DecodeFrom(s, i, m) == TakeAll(m, fs)
    decreases |fs|
  {
    hide DecodeFrom, TakeIn, Bytes, AllBytes, Valid;
    if fs == [] {
      NoFields();
      assert DecodeFrom(s, i, m) == Decoded(m) by { DecodesNothing(s, i, m); }
    } else {
      AllBytesCons(fs);
      StandsParts(s, i, Bytes(fs[0]), AllBytes(fs[1..]));
      ValidParts(fs);
      DecodesField(s, i, m, fs[0]);
      if TakeIn(m, fs[0]).Some? { DecodesFrom(s, i + |Bytes(fs[0])|, TakeIn(m, fs[0]).value, fs[1..]); }
    }
  }

  lemma {:induction false} ValidParts(fs: seq<Written>)
    requires Valid(fs) && fs != []
    ensures Valid([fs[0]]) && Valid(fs[1..])
  {
  }

  lemma {:induction false} DecodesNothing(s: seq<Byte>, i: nat, m: Message)
    requires Slice(s) && i == |s|
    ensures DecodeFrom(s, i, m) == Decoded(m)
  {
  }

  /** A tag with a wire type that does not exist, an end of a group that has not begun, and a field number that is not
      positive are refused. */
  lemma {:induction false} BadTagIsRefused(s: seq<Byte>, m: Message, wire: nat)
    requires Slice(s) && wire < TWO_64 && StandsAt(s, 0, Encode(wire))
    requires wire % 8 == 4 || wire % 8 >= 6 || FieldNumber(wire) <= 0
    ensures DecodeFrom(s, 0, m).Refused?
  {
    hide Encode, ReadAt, FieldNumber;
    ReadsNumberAt(s, 0, wire);
    AtMostTen(wire);
    assert s[0..] == s;
  }

  /** A length that does not fit a signed word is refused, in a known field and in an unknown one. */
  lemma {:induction false} NegativeLengthIsRefused(s: seq<Byte>, m: Message, number: nat, length: nat)
    requires Slice(s) && 1 <= number <= MAX_NUMBER && TWO_63 <= length < TWO_64
    requires StandsAt(s, 0, Tag(number, 2) + Encode(length))
    ensures DecodeFrom(s, 0, m).Refused?
  {
    hide Encode, ReadAt, FieldNumber, Tag;
    TagParts(number, 2);
    TagIs(number, 2);
    AtMostTen(8 * number + 2);
    StandsParts(s, 0, Tag(number, 2), Encode(length));
    ReadsNumberAt(s, 0, 8 * number + 2);
    ReadsNumberAt(s, |Tag(number, 2)|, length);
    assert s[0..] == s;
  }

  /** Whatever fields are written, in whatever order, the decoder takes them in one after the other, or refuses them if
      a known one is not written as it should be. */
  lemma {:induction false} DecodesFields(fs: seq<Written>, m: Message)
    requires Valid(fs) && Slice(AllBytes(fs))
    ensures DecodeFrom(AllBytes(fs), 0, m) == TakeAll(m, fs)
  {
    hide DecodeFrom, TakeAll, AllBytes;
    var s := AllBytes(fs);
    assert s[0..|s|] == s;
    DecodesFrom(s, 0, m, fs);
  }

  // ---------------------------------------------------------------------------------------------
  // What the encoder writes
  // ---------------------------------------------------------------------------------------------

  /** The fields of a message: those that are not empty or zero, by number. */
  function FieldsOf(m: Message): seq<Written>
    requires m.Valid()
  {
    (if m.project == [] then [] else [AsBytes(1, m.project)])
    + (if m.description == [] then [] else [AsBytes(2, m.description)])
    + (if m.role == [] then [] else [AsBytes(3, m.role)])
    + if m.expiresIn == 0 then [] else [AsVarint(4, Unsigned(m.expiresIn))]
  }

  lemma {:induction false} AllBytesAppend(a: seq<Written>, b: seq<Written>)
    ensures AllBytes(a + b) == AllBytes(a) + AllBytes(b)
    decreases |a|
  {
    hide AllBytes, Bytes;
    NoFields();
    if a == [] {
      assert a + b == b;
    } else {
      AllBytesCons(a);
      AllBytesCons(a + b);
      assert (a + b)[1..] == a[1..] + b;
      AllBytesAppend(a[1..], b);
    }
  }

  lemma {:induction false} OneField(f: Written)
    ensures AllBytes([f]) == Bytes(f)
  {
    AllBytesCons([f]);
    assert [f][1..] == [] && AllBytes([]) == [];
  }

  lemma {:induction false} SmallTag(number: nat, wireType: nat)
    requires 8 * number + wireType < 128
    ensures Tag(number, wireType) == [8 * number + wireType]
  {
  }

  lemma {:induction false} TextIsWritten(tag: Byte, number: nat, text: seq<Byte>)
    requires tag == 8 * number + 2 && tag < 128
    ensures Field(tag, text) == AllBytes(if text == [] then [] else [AsBytes(number, text)])
  {
    hide Encode, AllBytes;
    OneField(AsBytes(number, text));
    SmallTag(number, 2);
    assert AllBytes([]) == [] by { NoFields(); }
    assert [tag] + Encode(|text|) + text == [tag] + (Encode(|text|) + text);
  }

  lemma {:induction false} NoFields()
    ensures AllBytes([]) == []
  {
  }

  lemma {:induction false} NumberIsWritten(x: int)
    requires -TWO_63 <= x < TWO_63
    ensures Number(0x20, x) == AllBytes(if x == 0 then [] else [AsVarint(4, Unsigned(x))])
  {
    hide Encode, AllBytes;
    OneField(AsVarint(4, Unsigned(x)));
    SmallTag(4, 0);
    assert AllBytes([]) == [] by { NoFields(); }
  }

  /** The wire format of a message is its fields as they are to be written, followed by what was put aside. */
  lemma {:induction false} WireIsWritten(m: Message)
    requires m.Valid()
    ensures Wire(m) == AllBytes(FieldsOf(m)) + m.unrecognized
  {
    hide AllBytes, Field, Number;
    var a := if m.project == [] then [] else [AsBytes(1, m.project)];
    var b := if m.description == [] then [] else [AsBytes(2, m.description)];
    var c := if m.role == [] then [] else [AsBytes(3, m.role)];
    var d := if m.expiresIn == 0 then [] else [AsVarint(4, Unsigned(m.expiresIn))];
    TextIsWritten(0x0a, 1, m.project);
    TextIsWritten(0x12, 2, m.description);
    TextIsWritten(0x1a, 3, m.role);
    NumberIsWritten(m.expiresIn);
    AllBytesAppend(a + b + c, d);
    AllBytesAppend(a + b, c);
    AllBytesAppend(a, b);
  }

  /** An unknown field in front of a message is put aside, and the message is read as without it. */
  lemma {:induction false} UnknownIsPutAside(f: Written, m: Message)
    requires Valid([f]) && f.number > 4 && m.Valid() && Slice(Bytes(f) + Wire(m)) && UnknownFields(m.unrecognized)
    ensures DecodeFrom(Bytes(f) + Wire(m), 0, EMPTY) ==
            Decoded(m.(unrecognized := Bytes(f) + m.unrecognized))
  {
    hide DecodeFrom, Wire, Bytes, UnknownFields;
    var s := Bytes(f) + Wire(m);
    DecodesField(s, 0, EMPTY, f);
    assert s[|Bytes(f)|..] == Wire(m);
    DecodesWireAt(s, |Bytes(f)|, EMPTY.(unrecognized := [] + Bytes(f)), m);
    assert [] + Bytes(f) == Bytes(f);
  }

  /** Written fields with unknown numbers are whole unknown fields, so a message that has put them aside comes back. */
  lemma {:induction false} WrittenAreUnknown(fs: seq<Written>)
    requires Valid(fs) && Slice(AllBytes(fs)) && forall i :: 0 <= i < |fs| ==> fs[i].number > 4
    ensures UnknownFields(AllBytes(fs))
    decreases |fs|
  {
    hide ReadAt, SkipField, Bytes;
    if fs != [] {
      AllBytesCons(fs);
      var s, n := AllBytes(fs), |Bytes(fs[0])|;
      assert s[0..n] == Bytes(fs[0]) && s[n..] == AllBytes(fs[1..]);
      assert Valid([fs[0]]) && Valid(fs[1..]);
      assert [fs[0]][0] == fs[0];
      SkipsWritten(fs[0], s);
      ReadsTagOf(fs[0], s, 0);
      WrittenAreUnknown(fs[1..]);
    }
  }

  // ---------------------------------------------------------------------------------------------
  // Fields that are cut off
  // ---------------------------------------------------------------------------------------------

  /** The slice from index i on is a beginning of the bytes, but not all of them. */
  predicate CutAt(s: seq<Byte>, i: nat, bytes: seq<Byte>) {
    i <= |s| && |s| - i < |bytes| && s[i..] == bytes[..|s| - i]
  }

  /** It ends within the first part, or after it within the second. */
  lemma {:induction false} CutParts(s: seq<Byte>, i: nat, a: seq<Byte>, b: seq<Byte>)
    requires CutAt(s, i, a + b)
    ensures CutAt(s, i, a) || (StandsAt(s, i, a) && CutAt(s, i + |a|, b))
  {
    var n := |s| - i;
    if n < |a| {
      assert (a + b)[..n] == a[..n];
    } else {
      assert s[i..i + |a|] == s[i..][..|a|] == (a + b)[..n][..|a|] == a;
      assert s[i + |a|..] == s[i..][|a|..] == (a + b)[..n][|a|..] == b[..n - |a|];
    }
  }

  lemma {:induction false} ReadsOff(s: seq<Byte>, i: nat, k: nat, acc: nat)
    requires forall j :: i <= j < |s| ==> s[j] >= 128
    ensures Read(s, i, k, acc).None?
    decreases |s| - i
  {
    hide Add;
    if k < 10 && i < |s| { ReadsOff(s, i + 1, k + 1, Add(acc, s[i], k)); }
  }

  lemma {:induction false} CutNumber(s: seq<Byte>, i: nat, v: nat)
    requires CutAt(s, i, Encode(v))
    ensures ReadAt(s, i).None?
  {
    EncodeIsBase128(v);
    forall j | i <= j < |s| ensures s[j] >= 128 {
      assert s[j] == s[i..][j - i] == Encode(v)[j - i];
    }
    ReadsOff(s, i, 0, 0);
  }

  /** What skipping finds at a field that is cut off: nothing, or something longer than there is. */
  predicate TooShort(s: seq<Byte>, r: Skipped, most: nat) {
    r.BadField? || (r.Over? && |s| < r.n <= most)
  }

  lemma {:induction false} CutField(f: Written, inner: seq<Byte>, s: seq<Byte>)
    requires f.Plain() && s != [] && Slice(Frame(f, inner)) && CutAt(s, 0, Frame(f, inner))
    requires f.AsGroup? && StandsAt(s, 0, Tag(f.number, 3)) ==> SkipGroup(s, |Tag(f.number, 3)|).BadField?
    ensures TooShort(s, SkipField(s), |Frame(f, inner)|)
  {
    hide Encode, ReadAt, SkipGroup, CutAt, StandsAt;
    var tag := Tag(f.number, f.WireType());
    TagParts(f.number, f.WireType());
    TagLength(f.number, f.WireType());
    CutParts(s, 0, tag, Payload(f, inner));
    if CutAt(s, 0, tag) {
      CutNumber(s, 0, 8 * f.number + f.WireType());
    } else {
      ReadsNumberAt(s, 0, 8 * f.number + f.WireType());
      assert |s| < |Frame(f, inner)| by { CutIsShort(s, 0, Frame(f, inner)); }
      CutPayload(f, inner, s);
    }
  }

  lemma {:induction false} CutIsShort(s: seq<Byte>, i: nat, bytes: seq<Byte>)
    requires CutAt(s, i, bytes)
    ensures |s| - i < |bytes|
  {
  }

  /** The length that a payload begins with, if it does, is cut off or is read. */
  lemma {:induction false} CutPayload(f: Written, inner: seq<Byte>, s: seq<Byte>)
    requires f.Plain() && CutAt(s, |Tag(f.number, f.WireType())|, Payload(f, inner))
    ensures var j := |Tag(f.number, f.WireType())|;
            && (f.AsVarint? ==> ReadAt(s, j).None?)
            && (f.AsBytes? ==> ReadAt(s, j).None? || ReadAt(s, j) == Some((|f.bytes|, j + |Encode(|f.bytes|)|)))
  {
    hide Encode, ReadAt, CutAt, StandsAt;
    var j := |Tag(f.number, f.WireType())|;
    if f.AsVarint? {
      CutNumber(s, j, f.value);
    } else if f.AsBytes? {
      CutParts(s, j, Encode(|f.bytes|), f.bytes);
      if CutAt(s, j, Encode(|f.bytes|)) { CutNumber(s, j, |f.bytes|); } else { ReadsNumberAt(s, j, |f.bytes|); }
    }
  }

  lemma {:induction false} CutGroup(fs: seq<Written>, number: nat, s: seq<Byte>, i: nat)
    requires Valid(fs) && number <= MAX_NUMBER && 1 <= i && i + |AllBytes(fs) + Tag(number, 4)| < TWO_63
    requires CutAt(s, i, AllBytes(fs) + Tag(number, 4))
    ensures Slice(s) && SkipGroup(s, i).BadField?
    decreases fs, 0
  {
    hide Encode, ReadAt, SkipField, Tag, Payload;
    if fs == [] {
      assert AllBytes(fs) + Tag(number, 4) == Tag(number, 4);
      TagIs(number, 4);
      CutNumber(s, i, 8 * number + 4);
    } else {
      var f, rest := fs[0], AllBytes(fs[1..]) + Tag(number, 4);
      AllBytesCons(fs);
      assert AllBytes(fs) + Tag(number, 4) == Bytes(f) + rest;
      CutParts(s, i, Bytes(f), rest);
      if StandsAt(s, i, Bytes(f)) && CutAt(s, i + |Bytes(f)|, rest) {
        StandsLater(s, i, i, Bytes(f));
        assert Valid([f]);
        SkipsWritten(f, s[i..]);
        ReadsTagOf(f, s, i);
        CutGroup(fs[1..], number, s, i + |Bytes(f)|);
      } else {
        if f.AsGroup? { CutInner(f, s, i); }
        CutFieldInGroup(f, s, i);
      }
    }
  }

  /** A cut group within a group. */
  lemma {:induction false} CutInner(f: Written, s: seq<Byte>, i: nat)
    requires f.AsGroup? && Valid([f]) && i + |Bytes(f)| < TWO_63 && CutAt(s, i, Bytes(f)) && i <= |s|
    ensures StandsAt(s[i..], 0, Tag(f.number, 3)) ==> Slice(s[i..]) && SkipGroup(s[i..], |Tag(f.number, 3)|).BadField?
    decreases f.fields, 1
  {
    hide Encode, ReadAt, SkipField, Tag, Payload, SkipGroup;
    assert [f][0] == f;
    var tag := Tag(f.number, 3);
    if StandsAt(s[i..], 0, tag) {
      CutParts(s[i..], 0, tag, Payload(f, Inner(f)));
      GroupPayload(f);
      assert |tag| >= 1 by { TagLength(f.number, 3); }
      CutGroup(f.fields, f.number, s[i..], |tag|);
    }
  }

  lemma {:induction false} CutFieldInGroup(f: Written, s: seq<Byte>, i: nat)
    requires f.Plain() && 1 <= i && i + |Bytes(f)| < TWO_63 && CutAt(s, i, Bytes(f))
    requires f.AsGroup? && StandsAt(s[i..], 0, Tag(f.number, 3)) ==>
               Slice(s[i..]) && SkipGroup(s[i..], |Tag(f.number, 3)|).BadField?
    ensures Slice(s) && SkipGroup(s, i).BadField?
  {
    hide Encode, SkipField, Tag, Payload;
    if ReadAt(s, i).Some? {
      ReadBounds(s, i, 0, 0);
      assert CutAt(s[i..], 0, Bytes(f));
      CutField(f, Inner(f), s[i..]);
      CutTag(f, s, i);
    }
  }

  /** A tag that can still be read is the tag of the field. */
  lemma {:induction false} CutTag(f: Written, s: seq<Byte>, i: nat)
    requires f.Plain() && CutAt(s, i, Bytes(f)) && ReadAt(s, i).Some?
    ensures ReadAt(s, i).value == (8 * f.number + f.WireType(), i + |Tag(f.number, f.WireType())|)
    ensures CutAt(s, i + |Tag(f.number, f.WireType())|, Payload(f, Inner(f)))
  {
    hide Encode, ReadAt, Payload, CutAt, StandsAt;
    var tag := Tag(f.number, f.WireType());
    TagParts(f.number, f.WireType());
    CutParts(s, i, tag, Payload(f, Inner(f)));
    if CutAt(s, i, tag) { CutNumber(s, i, 8 * f.number + f.WireType()); }
    ReadsNumberAt(s, i, 8 * f.number + f.WireType());
  }

  /** A field that is cut off anywhere is refused. */
  lemma {:induction false} CutIsRefused(f: Written, n: nat, m: Message)
    requires Valid([f]) && Slice(Bytes(f)) && 0 < n < |Bytes(f)|
    ensures DecodeFrom(Bytes(f)[..n], 0, m).Refused?
  {
    hide Encode, ReadAt, SkipField, Tag;
    var s := Bytes(f)[..n];
    assert [f][0] == f;
    assert CutAt(s, 0, Bytes(f));
    if ReadAt(s, 0).Some? {
      CutTag(f, s, 0);
      TagParts(f.number, f.WireType());
      assert s[0..] == s;
      if f.AsGroup? { CutInner(f, s, 0); }
      CutField(f, Inner(f), s);
      CutPayload(f, Inner(f), s);
    }
  }
}
