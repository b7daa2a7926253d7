/** The encoder and the decoder of the token creation request undo each other. */
module CodecTheorems {
  import opened Kube
  import opened Varint
  import opened ProjectCodec

  // ---------------------------------------------------------------------------------------------
  // Known fields
  // ---------------------------------------------------------------------------------------------

  /** A number stands encoded at index i. */
  predicate EncodedAt(s: seq<Byte>, i: nat, v: nat) {
    i + |Encode(v)| <= |s| && s[i..i + |Encode(v)|] == Encode(v)
  }

  lemma {:induction false} ReadsBack(s: seq<Byte>, i: nat, v: nat)
    requires v < TWO_64 && EncodedAt(s, i, v)
    ensures ReadAt(s, i) == Some((v, i + |Encode(v)|))
  {
    ReadEncoded(s, i, v, 0, 0);
  }

  lemma {:induction false} ReadsTag(s: seq<Byte>, i: nat)
    requires i < |s| && s[i] < 128
    ensures ReadAt(s, i) == Some((s[i], i + 1))
  {
  }

  lemma {:induction false} Part(s: seq<Byte>, i: nat, field: seq<Byte>, from: nat, to: nat)
    requires i + |field| <= |s| && s[i..i + |field|] == field && from <= to <= |field|
    ensures s[i + from..i + to] == field[from..to]
  {
    forall q | 0 <= q < to - from ensures s[i + from..i + to][q] == field[from..to][q] {
      assert field[from + q] == s[i..i + |field|][from + q] == s[i + (from + q)];
    }
  }

  lemma {:induction false} Pieces(s: seq<Byte>, i: nat, a: seq<Byte>, b: seq<Byte>, c: seq<Byte>)
    requires i + |a| + |b| + |c| <= |s| && s[i..i + |a| + |b| + |c|] == a + b + c
    ensures s[i..i + |a|] == a && s[i + |a|..i + |a| + |b|] == b && s[i + |a| + |b|..i + |a| + |b| + |c|] == c
  {
    var field := a + b + c;
    Part(s, i, field, 0, |a|);
    Part(s, i, field, |a|, |a| + |b|);
    Part(s, i, field, |a| + |b|, |field|);
  }

  /** A text field as it stands in the slice: the tag, the length, and the text. */
  lemma {:induction false} ReadsText(s: seq<Byte>, i: nat, tag: Byte, text: seq<Byte>)
    requires Slice(s) && tag < 128 && text != []
    requires i + |Field(tag, text)| <= |s| && s[i..i + |Field(tag, text)|] == Field(tag, text)
    ensures var k := i + 1 + |Encode(|text|)|;
            && ReadAt(s, i) == Some((tag as nat, i + 1)) && ReadAt(s, i + 1) == Some((|text|, k))
            && k + |text| == i + |Field(tag, text)| && s[k..k + |text|] == text
  {
    hide Encode, ReadAt;
    assert Field(tag, text) == [tag] + Encode(|text|) + text;
    Pieces(s, i, [tag], Encode(|text|), text);
    assert s[i] == s[i..i + 1][0];
    ReadsTag(s, i);
    ReadsBack(s, i + 1, |text|);
  }

  lemma {:induction false} DecodesText(s: seq<Byte>, i: nat, m: Message, tag: Byte, text: seq<Byte>)
    requires Slice(s) && (tag == 0x0a || tag == 0x12 || tag == 0x1a)
    requires i + |Field(tag, text)| <= |s| && s[i..i + |Field(tag, text)|] == Field(tag, text)
    ensures DecodeFrom(s, i, m) ==
            DecodeFrom(s, i + |Field(tag, text)|, if text == [] then m else WithText(m, FieldNumber(tag), text))
  {
    hide Encode, ReadAt, SkipField, WithText;
    if text != [] { ReadsText(s, i, tag, text); }
  }

  lemma {:induction false} ReadsNumber(s: seq<Byte>, i: nat, x: int)
    requires Slice(s) && -TWO_63 <= x < TWO_63 && x != 0
    requires i + |Number(0x20, x)| <= |s| && s[i..i + |Number(0x20, x)|] == Number(0x20, x)
    ensures ReadAt(s, i) == Some((0x20, i + 1)) && ReadAt(s, i + 1) == Some((Unsigned(x), i + |Number(0x20, x)|))
    ensures Unsigned(x) < TWO_64 && Signed(Unsigned(x)) == x
  {
    hide Encode, ReadAt;
    var field, n := Number(0x20, x), |Encode(Unsigned(x))|;
    Part(s, i, field, 0, 1);
    Part(s, i, field, 1, 1 + n);
    assert field[1..1 + n] == Encode(Unsigned(x));
    assert s[i] == s[i..i + 1][0] == 0x20;
    ReadsTag(s, i);
    SignedRoundTrip(x);
    ReadsBack(s, i + 1, Unsigned(x));
  }

  lemma {:induction false} DecodesNumber(s: seq<Byte>, i: nat, m: Message, x: int)
    requires Slice(s) && -TWO_63 <= x < TWO_63
    requires i + |Number(0x20, x)| <= |s| && s[i..i + |Number(0x20, x)|] == Number(0x20, x)
    ensures DecodeFrom(s, i, m) ==
            DecodeFrom(s, i + |Number(0x20, x)|, if x == 0 then m else m.(expiresIn := x))
  {
    hide Encode, ReadAt, SkipField, WithText, Signed, Unsigned;
    if x != 0 { ReadsNumber(s, i, x); }
  }

  // ---------------------------------------------------------------------------------------------
  // Unknown fields
  // ---------------------------------------------------------------------------------------------

  /** The slice starts with a whole field that the decoder does not know. */
  predicate StartsUnknown(u: seq<Byte>)
    requires Slice(u)
  {
    && ReadAt(u, 0).Some? && FieldNumber(ReadAt(u, 0).value.0) > 4 && ReadAt(u, 0).value.0 % 8 != 4
    && SkipField(u).Over? && 1 <= SkipField(u).n <= |u|
  }

  predicate UnknownFields(u: seq<Byte>)
    requires Slice(u)
  {
    u == [] || (StartsUnknown(u) && UnknownFields(u[SkipField(u).n..]))
  }

  lemma {:induction false} ReadShift(s: seq<Byte>, i: nat)
    requires i <= |s| && ReadAt(s[i..], 0).Some?
    ensures ReadAt(s, i) == Some((ReadAt(s[i..], 0).value.0, i + ReadAt(s[i..], 0).value.1))
  {
    ReadBounds(s[i..], 0, 0, 0);
    var next := ReadAt(s[i..], 0).value.1;
    assert s[i..i + next] == s[i..][0..next];
    ReadLocal(s[i..], 0, s, i, 0, 0);
  }

  lemma {:induction false} UnknownNext(s: seq<Byte>, i: nat) returns (next: nat)
    requires Slice(s) && i < |s| && UnknownFields(s[i..])
    ensures i < next <= |s| && UnknownAt(s, i) == Span(i, next) && UnknownFields(s[next..])
    ensures ReadAt(s, i).Some? && FieldNumber(ReadAt(s, i).value.0) > 4 && ReadAt(s, i).value.0 % 8 != 4
  {
    hide SkipField, FieldNumber, ReadAt;
    ReadShift(s, i);
    next := i + SkipField(s[i..]).n;
    assert s[i..][next - i..] == s[next..];
  }

  /** The decoder keeps unknown fields as they are. */
  lemma {:induction false} KeepsUnknown(s: seq<Byte>, i: nat, m: Message)
    requires Slice(s) && i <= |s| && UnknownFields(s[i..])
    ensures DecodeFrom(s, i, m) == Decoded(m.(unrecognized := m.unrecognized + s[i..]))
    decreases |s| - i
  {
    hide UnknownFields, UnknownAt, TextAt, FieldNumber, ReadAt, Signed, WithText;
    if i < |s| {
      var next := UnknownNext(s, i);
      KeepsUnknown(s, next, m.(unrecognized := m.unrecognized + s[i..next]));
      assert m.unrecognized + s[i..] == m.unrecognized + s[i..next] + s[next..];
    } else {
      assert m.unrecognized + s[i..] == m.unrecognized;
    }
  }

  // ---------------------------------------------------------------------------------------------
  // Round trips
  // ---------------------------------------------------------------------------------------------

  /** Decoding into a message that already holds something: fields that were written replace what was there, and
      unknown fields are added. */
  function Merge(m: Message, b: Message): Message {
    Message(
      if b.project == [] then m.project else b.project,
      if b.description == [] then m.description else b.description,
      if b.role == [] then m.role else b.role,
      if b.expiresIn == 0 then m.expiresIn else b.expiresIn,
      m.unrecognized + b.unrecognized)
  }

  lemma {:induction false} DecodesWire(m: Message, b: Message)
    requires b.Valid() && Slice(Wire(b)) && UnknownFields(b.unrecognized)
    ensures DecodeFrom(Wire(b), 0, m) == Decoded(Merge(m, b))
  {
    hide DecodeFrom, Wire, UnknownFields, Merge;
    assert Wire(b)[0..] == Wire(b);
    DecodesWireAt(Wire(b), 0, m, b);
  }

  /** The same at the end of a slice, wherever it starts. */
  lemma {:induction false} DecodesWireAt(s: seq<Byte>, i: nat, m: Message, b: Message)
    requires b.Valid() && Slice(s) && i <= |s| && s[i..] == Wire(b) && UnknownFields(b.unrecognized)
    ensures DecodeFrom(s, i, m) == Decoded(Merge(m, b))
  {
    hide DecodeFrom, Field, Number, UnknownFields;
    var f1, f2, f3, f4 :=
      Field(0x0a, b.project), Field(0x12, b.description), Field(0x1a, b.role), Number(0x20, b.expiresIn);
    var i1 := i + |f1|;
    var i2 := i1 + |f2|;
    var i3 := i2 + |f3|;
    var i4 := i3 + |f4|;
    FiveParts(s, i, f1, f2, f3, f4, b.unrecognized);
    DecodesText(s, i, m, 0x0a, b.project);
    var m1 := if b.project == [] then m else WithText(m, 1, b.project);
    DecodesText(s, i1, m1, 0x12, b.description);
    var m2 := if b.description == [] then m1 else WithText(m1, 2, b.description);
    DecodesText(s, i2, m2, 0x1a, b.role);
    var m3 := if b.role == [] then m2 else WithText(m2, 3, b.role);
    DecodesNumber(s, i3, m3, b.expiresIn);
    var m4 := if b.expiresIn == 0 then m3 else m3.(expiresIn := b.expiresIn);
    KeepsUnknown(s, i4, m4);
  }

  lemma {:induction false} FiveParts(s: seq<Byte>, i: nat, a: seq<Byte>, b: seq<Byte>, c: seq<Byte>, d: seq<Byte>,
                                     e: seq<Byte>)
    requires i <= |s| && s[i..] == a + b + c + d + e
    ensures |s| == i + |a| + |b| + |c| + |d| + |e|
    ensures s[i..i + |a|] == a && s[i + |a|..i + |a| + |b|] == b && s[i + |a| + |b|..i + |a| + |b| + |c|] == c
    ensures s[i + |a| + |b| + |c|..i + |a| + |b| + |c| + |d|] == d && s[i + |a| + |b| + |c| + |d|..] == e
  {
    var t := a + b + c + d + e;
    assert s[i..i + |t|] == t;
    Part(s, i, t, 0, |a|);
    Part(s, i, t, |a|, |a| + |b|);
    Part(s, i, t, |a| + |b|, |a| + |b| + |c|);
    Part(s, i, t, |a| + |b| + |c|, |a| + |b| + |c| + |d|);
    Part(s, i, t, |a| + |b| + |c| + |d|, |t|);
  }

  /** A message without unrecognized bytes comes back from its wire format unchanged. */
  lemma {:induction false} RoundTrip(m: Message)
    requires m.Valid() && m.unrecognized == [] && Slice(Wire(m))
    ensures DecodeFrom(Wire(m), 0, EMPTY) == Decoded(m)
  {
    DecodesWire(EMPTY, m);
    assert [] + m.unrecognized == m.unrecognized;
  }

  // ---------------------------------------------------------------------------------------------
  // Whatever is accepted
  // ---------------------------------------------------------------------------------------------

  lemma {:induction false} SamePart(s: seq<Byte>, t: seq<Byte>, n: nat, i: nat, to: nat)
    requires n <= |s| && n <= |t| && t[..n] == s[..n] && i <= to <= n
    ensures t[i..to] == s[i..to] && t[i..][..to - i] == s[i..][..to - i]
  {
    forall q | 0 <= q < n ensures t[q] == s[q] {
      assert t[q] == t[..n][q] == s[..n][q] == s[q];
    }
  }

  lemma {:induction false} ReadSame(s: seq<Byte>, t: seq<Byte>, i: nat, n: nat)
    requires ReadAt(s, i).Some? && ReadAt(s, i).value.1 <= n <= |s| && n <= |t| && t[..n] == s[..n]
    ensures ReadAt(t, i) == ReadAt(s, i)
  {
    ReadBounds(s, i, 0, 0);
    var next := ReadAt(s, i).value.1;
    SamePart(s, t, n, i, next);
    ReadLocal(s, i, t, i, 0, 0);
  }

  lemma {:induction false} GroupEnds(s: seq<Byte>, i: nat)
    requires Slice(s) && 1 <= i && SkipGroup(s, i).Over?
    ensures SkipGroup(s, i).n > i && ReadAt(s, i).Some? && SkipGroup(s, i).n >= ReadAt(s, i).value.1
    decreases |s| - i
  {
    hide SkipField;
    ReadBounds(s, i, 0, 0);
    var (wire, j) := ReadAt(s, i).value;
    if wire % 8 != 4 {
      var n := SkipField(s[i..]).n;
      GroupEnds(s, i + n);
      FieldHasTag(s[i..]);
      ReadsAhead(s, i);
    }
  }

  lemma {:induction false} ReadsAhead(s: seq<Byte>, i: nat)
    requires i <= |s| && ReadAt(s[i..], 0).Some?
    ensures ReadAt(s, i).Some? && ReadAt(s, i).value.1 == i + ReadAt(s[i..], 0).value.1
  {
    ReadShift(s, i);
  }

  /** A skipped field is at least as long as its tag. */
  lemma {:induction false} FieldHasTag(s: seq<Byte>)
    requires Slice(s) && SkipField(s).Over? && SkipField(s).n >= 1
    ensures ReadAt(s, 0).Some? && SkipField(s).n >= ReadAt(s, 0).value.1
    decreases |s|, 0
  {
    ReadBounds(s, 0, 0, 0);
    var (wire, i) := ReadAt(s, 0).value;
    if wire % 8 == 0 || wire % 8 == 2 { ReadBounds(s, i, 0, 0); }
    if wire % 8 == 3 { GroupEnds(s, i); }
  }

  /** A field is skipped by its own bytes only. */
  lemma {:induction false} SkipLocal(s: seq<Byte>, t: seq<Byte>, n: nat)
    requires Slice(s) && Slice(t) && SkipField(s) == Over(n) && 1 <= n <= |s| && n <= |t| && t[..n] == s[..n]
    ensures SkipField(t) == Over(n)
    decreases |s|, |s| + 1
  {
    hide ReadAt, SkipGroup;
    FieldHasTag(s);
    ReadSame(s, t, 0, n);
    var (wire, i) := ReadAt(s, 0).value;
    ReadLimits(s, 0);
    if wire % 8 == 0 || wire % 8 == 2 {
      ReadLimits(s, i);
      ReadSame(s, t, i, n);
    } else if wire % 8 == 3 {
      GroupLocal(s, t, i, n);
    }
  }

  lemma {:induction false} GroupLocal(s: seq<Byte>, t: seq<Byte>, i: nat, n: nat)
    requires Slice(s) && Slice(t) && 1 <= i && SkipGroup(s, i) == Over(n) && n <= |s| && n <= |t| && t[..n] == s[..n]
    ensures SkipGroup(t, i) == Over(n)
    decreases |s|, |s| - i
  {
    hide ReadAt, SkipField;
    GroupEnds(s, i);
    ReadSame(s, t, i, n);
    ReadLimits(s, i);
    var (wire, j) := ReadAt(s, i).value;
    if wire % 8 != 4 {
      var k := SkipField(s[i..]).n;
      GroupEnds(s, i + k);
      SamePart(s, t, n, i, i + k);
      SkipLocal(s[i..], t[i..], k);
      GroupLocal(s, t, i + k, n);
    }
  }

  /** A whole unknown field, by itself or with anything behind it. */
  lemma {:induction false} UnknownLocal(s: seq<Byte>, t: seq<Byte>)
    requires Slice(s) && Slice(t) && StartsUnknown(s) && SkipField(s).n <= |t|
    requires t[..SkipField(s).n] == s[..SkipField(s).n]
    ensures StartsUnknown(t) && SkipField(t) == SkipField(s)
  {
    hide SkipField, ReadAt, FieldNumber;
    var n := SkipField(s).n;
    SkipLocal(s, t, n);
    FieldHasTag(s);
    ReadSame(s, t, 0, n);
  }

  lemma {:induction false} UnknownAppend(u: seq<Byte>, f: seq<Byte>)
    requires Slice(u + f) && UnknownFields(u) && UnknownFields(f)
    ensures UnknownFields(u + f)
    decreases |u|
  {
    hide SkipField;
    if u == [] {
      assert u + f == f;
    } else {
      var n := SkipField(u).n;
      assert (u + f)[..n] == u[..n];
      UnknownLocal(u, u + f);
      UnknownAppend(u[n..], f);
      assert (u + f)[n..] == u[n..] + f;
    }
  }

  lemma {:induction false} TextSize(m: Message, field: int, text: seq<Byte>)
    requires m.Valid() && |text| < TWO_63 && 1 <= field <= 3
    ensures WithText(m, field, text).Valid() && WithText(m, field, text).unrecognized == m.unrecognized
    ensures |Wire(WithText(m, field, text))| <= |Wire(m)| + 1 + |Encode(|text|)| + |text|
  {
  }

  lemma {:induction false} NumberSize(m: Message, v: nat)
    requires m.Valid() && v < TWO_64
    ensures m.(expiresIn := Signed(v)).Valid()
    ensures |Wire(m.(expiresIn := Signed(v)))| <= |Wire(m)| + 1 + |Encode(v)|
  {
  }

  lemma {:induction false} UnknownSize(m: Message, f: seq<Byte>)
    requires m.Valid()
    ensures |Wire(m.(unrecognized := m.unrecognized + f))| == |Wire(m)| + |f|
    ensures |m.unrecognized| <= |Wire(m)|
  {
  }

  /** What the decoder has put aside consists of whole unknown fields, and the message so far needs no more bytes than
      were read. */
  lemma {:induction false} AcceptedFrom(s: seq<Byte>, i: nat, m: Message)
    requires Slice(s) && i <= |s| && DecodeFrom(s, i, m).Decoded?
    requires m.Valid() && |Wire(m)| <= i && UnknownFields(m.unrecognized)
    ensures var r := DecodeFrom(s, i, m).m;
            r.Valid() && |Wire(r)| <= |s| && UnknownFields(r.unrecognized)
    decreases |s| - i
  {
    hide SkipField, ReadAt, UnknownFields, Encode, Wire, WithText;
    if i < |s| {
      ReadLimits(s, i);
      var (wire, j) := ReadAt(s, i).value;
      var field := FieldNumber(wire);
      if field <= 3 {
        ReadLimits(s, j);
        var (length, k) := ReadAt(s, j).value;
        var post := k + Signed(length);
        EncodingIsShortest(s, j);
        TextSize(m, field, s[k..post]);
        AcceptedFrom(s, post, WithText(m, field, s[k..post]));
      } else if field == 4 {
        ReadLimits(s, j);
        var (v, k) := ReadAt(s, j).value;
        EncodingIsShortest(s, j);
        NumberSize(m, v);
        AcceptedFrom(s, k, m.(expiresIn := Signed(v)));
      } else {
        var post := i + SkipField(s[i..]).n;
        OneUnknown(s, i, post);
        UnknownSize(m, s[i..post]);
        UnknownAppend(m.unrecognized, s[i..post]);
        AcceptedFrom(s, post, m.(unrecognized := m.unrecognized + s[i..post]));
      }
    }
  }

  lemma {:induction false} OneUnknown(s: seq<Byte>, i: nat, post: nat)
    requires Slice(s) && i < post <= |s| && SkipField(s[i..]) == Over(post - i)
    requires ReadAt(s, i).Some? && FieldNumber(ReadAt(s, i).value.0) > 4 && ReadAt(s, i).value.0 % 8 != 4
    ensures UnknownFields(s[i..post])
  {
    hide SkipField, ReadAt, FieldNumber;
    var n := post - i;
    FieldHasTag(s[i..]);
    ReadShift(s, i);
    assert StartsUnknown(s[i..]);
    assert s[i..post][..n] == s[i..][..n];
    UnknownLocal(s[i..], s[i..post]);
    assert s[i..post][n..] == [];
  }

  /** Whatever bytes are accepted, what they decode to has a wire format that is no longer and decodes to the same. */
  lemma {:induction false} AcceptedIsStable(s: seq<Byte>)
    requires Slice(s) && DecodeFrom(s, 0, EMPTY).Decoded?
    ensures var m := DecodeFrom(s, 0, EMPTY).m;
            m.Valid() && |Wire(m)| <= |s| && DecodeFrom(Wire(m), 0, EMPTY) == Decoded(m)
  {
    hide DecodeFrom;
    AcceptedFrom(s, 0, EMPTY);
    var m := DecodeFrom(s, 0, EMPTY).m;
    DecodesWire(EMPTY, m);
    assert [] + m.unrecognized == m.unrecognized;
  }

  /** A message comes back from its wire format exactly if its unrecognized bytes are whole unknown fields. */
  lemma {:induction false} RoundTripCondition(m: Message)
    requires m.Valid() && Slice(Wire(m))
    ensures Slice(m.unrecognized)
    ensures DecodeFrom(Wire(m), 0, EMPTY) == Decoded(m) <==> UnknownFields(m.unrecognized)
  {
    hide DecodeFrom, UnknownFields;
    UnknownSize(m, []);
    if UnknownFields(m.unrecognized) {
      DecodesWire(EMPTY, m);
      assert [] + m.unrecognized == m.unrecognized;
    }
    if DecodeFrom(Wire(m), 0, EMPTY) == Decoded(m) {
      assert UnknownFields([]) by { NoUnknown(); }
      AcceptedFrom(Wire(m), 0, EMPTY);
    }
  }

  lemma {:induction false} NoUnknown()
    ensures UnknownFields([])
  {
  }

  /** For instance, unrecognized bytes that read as a field the decoder knows end up in that field. */
  lemma {:induction false} KnownFieldIsTakenUp()
    ensures var m := EMPTY.(unrecognized := [0x20, 0x05]);
            m.Valid() && DecodeFrom(Wire(m), 0, EMPTY) == Decoded(EMPTY.(expiresIn := 5))
  {
    var s: seq<Byte> := [0x20, 0x05];
    assert Number(0x20, 5) == s;
    assert Wire(EMPTY.(unrecognized := s)) == s;
    DecodesNumber(s, 0, EMPTY, 5);
  }
}
