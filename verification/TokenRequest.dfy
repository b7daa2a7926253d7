/** The token creation request as the generated code handles it: a buffer written through a moving index, and loops
    that read one. */
module TokenRequest {
  import opened Kube
  import opened Varint
  import opened ProjectCodec

  /** The number of bytes a varint takes. */
  method VarintSize(x: nat) returns (n: nat)
    requires x < TWO_64
    ensures n == |Encode(x)|
  {
    var y: nat := x / 128;
    n := 1;
    while y != 0
      invariant |Encode(x)| == n + if y == 0 then 0 else |Encode(y)|
    {
      n, y := n + 1, y / 128;
    }
  }

  /** The buffer with x written at the offset, and the rest as it was. */
  function Overwrite(s: seq<Byte>, offset: nat, x: seq<Byte>): seq<Byte>
    requires offset + |x| <= |s|
  {
    s[..offset] + x + s[offset + |x|..]
  }

  lemma {:induction false} OverwriteTwice(s: seq<Byte>, offset: nat, x: seq<Byte>, y: seq<Byte>)
    requires offset + |x| + |y| <= |s|
    ensures Overwrite(Overwrite(s, offset, x), offset + |x|, y) == Overwrite(s, offset, x + y)
  {
  }

  method PutByte(buf: array<Byte>, offset: nat, b: Byte) returns (next: nat)
    requires offset < buf.Length
    modifies buf
    ensures next == offset + 1 && buf[..] == Overwrite(old(buf[..]), offset, [b])
  {
    buf[offset] := b;
    next := offset + 1;
  }

  lemma {:induction false} Unfold(w: nat)
    ensures Encode(w) == if w < 128 then [w] else [w % 128 + 128] + Encode(w / 128)
  {
  }

  /** Writes a varint. */
  method EncodeVarint(buf: array<Byte>, offset: nat, v: nat) returns (next: nat)
    requires offset + |Encode(v)| <= buf.Length
    modifies buf
    ensures next == offset + |Encode(v)| && buf[..] == Overwrite(old(buf[..]), offset, Encode(v))
  {
    hide Overwrite, Encode;
    var w: nat := v;
    next := offset;
    ghost var s, done: seq<Byte> := buf[..], [];
    OverwriteNothing(s, offset);
    while w >= 128
      invariant next == offset + |done| && done + Encode(w) == Encode(v) && |s| == buf.Length
      invariant buf[..] == Overwrite(s, offset, done)
    {
      Unfold(w);
      ghost var b, rest := [w % 128 + 128], Encode(w / 128);
      assert (done + b) + rest == done + (b + rest);
      next := PutByte(buf, next, w % 128 + 128);
      OverwriteTwice(s, offset, done, b);
      done, w := done + b, w / 128;
    }
    Unfold(w);
    next := PutByte(buf, next, w);
    OverwriteTwice(s, offset, done, [w]);
  }

  /** Copies a text into the buffer. */
  method CopyText(buf: array<Byte>, offset: nat, text: seq<Byte>) returns (next: nat)
    requires offset + |text| <= buf.Length
    modifies buf
    ensures next == offset + |text| && buf[..] == Overwrite(old(buf[..]), offset, text)
  {
    for i := 0 to |text|
      invariant buf[offset..offset + i] == text[..i]
      invariant forall j :: 0 <= j < offset || offset + i <= j < buf.Length ==> buf[j] == old(buf[j])
    {
      buf[offset + i] := text[i];
    }
    next := offset + |text|;
    assert buf[..] == buf[..offset] + buf[offset..next] + buf[next..];
  }

  /** Writes a text field, if there is a text. */
  method PutText(buf: array<Byte>, offset: nat, tag: Byte, text: seq<Byte>) returns (next: nat)
    requires offset + |Field(tag, text)| <= buf.Length
    modifies buf
    ensures next == offset + |Field(tag, text)| && buf[..] == Overwrite(old(buf[..]), offset, Field(tag, text))
  {
    hide Encode, Overwrite;
    if |text| > 0 {
      ghost var s := buf[..];
      next := PutByte(buf, offset, tag);
      next := EncodeVarint(buf, next, |text|);
      OverwriteTwice(s, offset, [tag], Encode(|text|));
      next := CopyText(buf, next, text);
      OverwriteTwice(s, offset, [tag] + Encode(|text|), text);
    } else {
      next := offset;
      OverwriteNothing(buf[..], offset);
    }
  }

  lemma {:induction false} OverwriteStart(s: seq<Byte>, x: seq<Byte>)
    requires |x| <= |s|
    ensures Overwrite(s, 0, x)[..|x|] == x && Overwrite(s, 0, x)[|x|..] == s[|x|..]
    ensures |Overwrite(s, 0, x)| == |s|
  {
  }

  lemma {:induction false} OverwriteNothing(s: seq<Byte>, offset: nat)
    requires offset <= |s|
    ensures Overwrite(s, offset, []) == s
  {
  }

  /** Writes a number field, unless the number is zero. */
  method PutNumber(buf: array<Byte>, offset: nat, tag: Byte, x: int) returns (next: nat)
    requires -TWO_63 <= x < TWO_63 && offset + |Number(tag, x)| <= buf.Length
    modifies buf
    ensures next == offset + |Number(tag, x)| && buf[..] == Overwrite(old(buf[..]), offset, Number(tag, x))
  {
    hide Encode, Overwrite;
    if x != 0 {
      ghost var s := buf[..];
      next := PutByte(buf, offset, tag);
      next := EncodeVarint(buf, next, Unsigned(x));
      OverwriteTwice(s, offset, [tag], Encode(Unsigned(x)));
    } else {
      next := offset;
      OverwriteNothing(buf[..], offset);
    }
  }

  /** Reads a varint: whether there is one, its value, and the index behind it. */
  method ReadVarint(data: seq<Byte>, start: nat) returns (r: Option<(nat, nat)>)
    ensures r == ReadAt(data, start)
  {
    hide Add;
    var i, k, acc := start, 0, 0;
    while true
      invariant start <= i && ReadAt(data, start) == Read(data, i, k, acc)
      decreases |data| - i
    {
      if k >= 10 || i >= |data| { return None; }
      var b := data[i];
      i, acc := i + 1, Add(acc, b, k);
      if b < 128 { return Some((acc, i)); }
      k := k + 1;
    }
  }

  /** The length of the field at the start of the slice. */
  method SkipProject(data: seq<Byte>) returns (r: Skipped)
    requires Slice(data)
    ensures r == SkipField(data)
    decreases |data|
  {
    hide ReadAt;
    if data == [] { return SkipPanics; }
    var tag := ReadVarint(data, 0);
    if tag.None? { return BadField; }
    var (wire, i) := tag.value;
    ReadLimits(data, 0);
    match wire % 8
    case 0 =>
      var value := ReadVarint(data, i);
      if value.None? { return BadField; }
      return Over(value.value.1);
    case 1 => return Over(Wrap(i + 8));
    case 2 =>
      var value := ReadVarint(data, i);
      if value.None? { return BadField; }
      ReadLimits(data, i);
      var (length, j) := value.value;
      if Signed(length) < 0 { return BadField; }
      return Over(Wrap(j + Signed(length)));
    case 3 =>
      while true
        invariant 1 <= i && SkipField(data) == SkipGroup(data, i)
        decreases if i < |data| then |data| - i else 0
      {
        var inner := ReadVarint(data, i);
        if inner.None? { return BadField; }
        ReadLimits(data, i);
        var (innerWire, j) := inner.value;
        if innerWire % 8 == 4 { return Over(j); }
        var next := SkipProject(data[i..]);
        if !next.Over? { return next; }
        if Wrap(i + next.n) < 0 { return SkipPanics; }
        i := i + next.n;
      }
    case 4 => return Over(i);
    case 5 => return Over(Wrap(i + 4));
    case _ => return BadField;
  }

  /** The text whose length is encoded at index j. */
  method ReadText(data: seq<Byte>, j: nat) returns (r: Span)
    requires Slice(data)
    ensures r == TextAt(data, j)
  {
    hide ReadAt;
    var value := ReadVarint(data, j);
    if value.None? { return NoSpan; }
    ReadLimits(data, j);
    var (length, k) := value.value;
    if Signed(length) < 0 { return NoSpan; }
    var post := Wrap(k + Signed(length));
    if post > |data| { return NoSpan; }
    if post < k { return SpanPanics; }
    return Span(k, post);
  }

  /** The unknown field at index i. */
  method ReadUnknown(data: seq<Byte>, i: nat) returns (r: Span)
    requires Slice(data) && i < |data|
    ensures r == UnknownAt(data, i)
  {
    hide SkipField;
    var skipped := SkipProject(data[i..]);
    match skipped
    case BadField => return NoSpan;
    case SkipPanics => return SpanPanics;
    case Over(n) =>
      if n < 0 { return NoSpan; }
      var post := Wrap(i + n);
      if post > |data| { return NoSpan; }
      if post < i { return SpanPanics; }
      return Span(i, post);
  }

  datatype Verdict = Fine | Fails | Panic

  function VerdictOf(o: Outcome): Verdict {
    match o
    case Decoded(_) => Fine
    case Refused => Fails
    case Panics => Panic
  }

  class TokenCreateRequest {
    var project: seq<Byte>
    var description: seq<Byte>
    var role: seq<Byte>
    var expiresIn: int
    var unrecognized: seq<Byte>

    function Value(): Message
      reads this
    {
      Message(project, description, role, expiresIn, unrecognized)
    }

    method TextSize(text: seq<Byte>) returns (n: nat)
      requires |text| < TWO_63
      ensures forall tag :: n == |Field(tag, text)|
    {
      n := 0;
      if |text| > 0 {
        var size := VarintSize(|text|);
        n := 1 + |text| + size;
      }
    }

    /** The length of the wire format. */
    method Size() returns (n: nat)
      requires Value().Valid()
      ensures n == |Wire(Value())|
    {
      hide Encode, Field;
      var a := TextSize(project);
      var b := TextSize(description);
      var c := TextSize(role);
      n := a + b + c;
      if expiresIn != 0 {
        var size := VarintSize(Unsigned(expiresIn));
        n := n + 1 + size;
      }
      n := n + |unrecognized|;
    }

    /** Writes the wire format to the start of the buffer, which must have room for it, and nothing else. */
    method MarshalTo(buf: array<Byte>) returns (n: nat)
      requires Value().Valid() && |Wire(Value())| <= buf.Length
      modifies buf
      ensures n == |Wire(Value())| && buf[..n] == Wire(Value()) && buf[n..] == old(buf[n..])
    {
      hide Encode, Field, Number, Overwrite;
      ghost var s := buf[..];
      ghost var f1, f2, f3, f4 :=
        Field(0x0a, project), Field(0x12, description), Field(0x1a, role), Number(0x20, expiresIn);
      n := PutText(buf, 0, 0x0a, project);
      n := PutText(buf, n, 0x12, description);
      OverwriteTwice(s, 0, f1, f2);
      n := PutText(buf, n, 0x1a, role);
      OverwriteTwice(s, 0, f1 + f2, f3);
      n := PutNumber(buf, n, 0x20, expiresIn);
      OverwriteTwice(s, 0, f1 + f2 + f3, f4);
      n := CopyText(buf, n, unrecognized);
      OverwriteTwice(s, 0, f1 + f2 + f3 + f4, unrecognized);
      OverwriteStart(s, Wire(Value()));
    }

    /** Decodes the bytes into this message, on top of what it holds. */
    method Unmarshal(data: seq<Byte>) returns (v: Verdict)
      requires Slice(data)
      modifies this
      ensures v == VerdictOf(DecodeFrom(data, 0, old(Value())))
      ensures v.Fine? ==> Value() == DecodeFrom(data, 0, old(Value())).m
    {
      hide ReadAt, Signed, TextAt, UnknownAt;
      var i := 0;
      while i < |data|
        invariant 0 <= i && DecodeFrom(data, 0, old(Value())) == DecodeFrom(data, i, Value())
        decreases |data| - i
      {
        var tag := ReadVarint(data, i);
        if tag.None? { return Fails; }
        ReadLimits(data, i);
        var (wire, j) := tag.value;
        var field := FieldNumber(wire);
        if wire % 8 == 4 { return Fails; }
        if field <= 0 { return Fails; }
        if field <= 3 {
          if wire % 8 != 2 { return Fails; }
          var text := ReadText(data, j);
          if text.NoSpan? { return Fails; }
          if text.SpanPanics? { return Panic; }
          if field == 1 {
            project := data[text.from..text.to];
          } else if field == 2 {
            description := data[text.from..text.to];
          } else {
            role := data[text.from..text.to];
          }
          i := text.to;
        } else if field == 4 {
          if wire % 8 != 0 { return Fails; }
          var value := ReadVarint(data, j);
          if value.None? { return Fails; }
          ReadLimits(data, j);
          expiresIn, i := Signed(value.value.0), value.value.1;
        } else {
          var unknown := ReadUnknown(data, i);
          if unknown.NoSpan? { return Fails; }
          if unknown.SpanPanics? { return Panic; }
          unrecognized, i := unrecognized + data[i..unknown.to], unknown.to;
        }
      }
      return Fine;
    }
  }
}
