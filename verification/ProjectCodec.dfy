/** The wire format of the token creation request: what its encoder writes and what its decoder makes of any bytes. */
module ProjectCodec {
  import opened Varint

  /** The message. Strings are their bytes. */
  datatype Message = Message(
    project: seq<Byte>,
    description: seq<Byte>,
    role: seq<Byte>,
    expiresIn: int,
    unrecognized: seq<Byte>)
  {
    /** The Go types: a 64-bit integer, and strings no longer than a Go string can be. */
    predicate Valid() {
      && -TWO_63 <= expiresIn < TWO_63
      && |project| < TWO_63 && |description| < TWO_63 && |role| < TWO_63
    }
  }

  const EMPTY := Message([], [], [], 0, [])

  // ---------------------------------------------------------------------------------------------
  // Encoding
  // ---------------------------------------------------------------------------------------------

  function Field(tag: Byte, text: seq<Byte>): seq<Byte> {
    if text == [] then [] else [tag] + Encode(|text|) + text
  }

  function Number(tag: Byte, x: int): seq<Byte>
    requires -TWO_63 <= x < TWO_63
  {
    if x == 0 then [] else [tag] + Encode(Unsigned(x))
  }

  function Wire(m: Message): seq<Byte>
    requires m.Valid()
  {
    Field(0x0a, m.project) + Field(0x12, m.description) + Field(0x1a, m.role) + Number(0x20, m.expiresIn)
    + m.unrecognized
  }

  // ---------------------------------------------------------------------------------------------
  // Decoding
  // ---------------------------------------------------------------------------------------------

  /** How many bytes to skip. The length can come out negative, by wrap-around. */
  datatype Skipped = Over(n: int) | BadField | SkipPanics

  datatype Outcome = Decoded(m: Message) | Refused | Panics

  /** A slice that Go can have. */
  predicate Slice(s: seq<Byte>) {
    |s| < TWO_63
  }

  /** The length of the field at the start of the slice. */
  function SkipField(s: seq<Byte>): (r: Skipped)
    requires Slice(s)
    ensures r.Over? ==> 1 <= r.n < TWO_63 || -TWO_63 <= r.n < |s| - TWO_63
    decreases |s|, |s| + 1
  {
    if s == [] then SkipPanics
    else
      match ReadAt(s, 0)
      case None => BadField
      case Some((wire, i)) =>
        ReadBounds(s, 0, 0, 0);
        if wire % 8 == 0 then
          (match ReadAt(s, i)
           case None => BadField
           case Some((_, j)) => ReadBounds(s, i, 0, 0); Over(j))
        else if wire % 8 == 1 then Over(Wrap(i + 8))
        else if wire % 8 == 2 then
          (match ReadAt(s, i)
           case None => BadField
           case Some((length, j)) =>
             ReadBounds(s, i, 0, 0);
             if Signed(length) < 0 then BadField else Over(Wrap(j + Signed(length))))
        else if wire % 8 == 3 then SkipGroup(s, i)
        else if wire % 8 == 4 then Over(i)
        else if wire % 8 == 5 then Over(Wrap(i + 4))
        else BadField
  }

  /** The length of a group whose remaining fields start at index i. */
  function SkipGroup(s: seq<Byte>, i: nat): (r: Skipped)
    requires Slice(s) && 1 <= i
    ensures r.Over? ==> 1 <= r.n < TWO_63
    decreases |s|, if i < |s| then |s| - i else 0
  {
    match ReadAt(s, i)
    case None => BadField
    case Some((wire, j)) =>
      ReadBounds(s, i, 0, 0);
      if wire % 8 == 4 then Over(j)
      else
        match SkipField(s[i..])
        case Over(n) => if Wrap(i + n) < 0 then SkipPanics else SkipGroup(s, i + n)
        case BadField => BadField
        case SkipPanics => SkipPanics
  }

  /** The field number is the 32-bit truncation of what the tag says. */
  function FieldNumber(wire: nat): int {
    var low := (wire / 8) % TWO_32;
    if low < TWO_32 / 2 then low else low - TWO_32
  }

  function WithText(m: Message, field: int, text: seq<Byte>): Message {
    if field == 1 then m.(project := text)
    else if field == 2 then m.(description := text)
    else m.(role := text)
  }

  /** A part of the slice, or why there is none. */
  datatype Span = Span(from: nat, to: nat) | NoSpan | SpanPanics

  /** The text whose length is encoded at index j. */
  function TextAt(s: seq<Byte>, j: nat): (r: Span)
    requires Slice(s)
    ensures r.Span? ==> j < r.from <= r.to <= |s|
  {
    match ReadAt(s, j)
    case None => NoSpan
    case Some((length, k)) =>
      ReadBounds(s, j, 0, 0);
      if Signed(length) < 0 then NoSpan
      else
        var post := Wrap(k + Signed(length));
        if post > |s| then NoSpan else if post < k then SpanPanics else Span(k, post)
  }

  /** The unknown field at index i. */
  function UnknownAt(s: seq<Byte>, i: nat): (r: Span)
    requires Slice(s) && i < |s|
    ensures r.Span? ==> i == r.from < r.to <= |s|
  {
    match SkipField(s[i..])
    case BadField => NoSpan
    case SkipPanics => SpanPanics
    case Over(n) =>
      if n < 0 then NoSpan
      else
        var post := Wrap(i + n);
        if post > |s| then NoSpan else if post < i then SpanPanics else Span(i, post)
  }

  /** The decoder at index i, with the message so far. */
  function DecodeFrom(s: seq<Byte>, i: nat, m: Message): Outcome
    requires Slice(s)
    decreases |s| - i
  {
    if i >= |s| then Decoded(m)
    else
      match ReadAt(s, i)
      case None => Refused
      case Some((wire, j)) =>
        ReadBounds(s, i, 0, 0);
        var field := FieldNumber(wire);
        if wire % 8 == 4 || field <= 0 then Refused
        else if field <= 3 then
          if wire % 8 != 2 then Refused
          else
            (match TextAt(s, j)
             case NoSpan => Refused
             case SpanPanics => Panics
             case Span(k, post) => DecodeFrom(s, post, WithText(m, field, s[k..post])))
        else if field == 4 then
          if wire % 8 != 0 then Refused
          else
            (match ReadAt(s, j)
             case None => Refused
             case Some((v, k)) =>
               ReadBounds(s, j, 0, 0);
               DecodeFrom(s, k, m.(expiresIn := Signed(v))))
        else
          (match UnknownAt(s, i)
           case NoSpan => Refused
           case SpanPanics => Panics
           case Span(_, post) => DecodeFrom(s, post, m.(unrecognized := m.unrecognized + s[i..post])))
  }
}
