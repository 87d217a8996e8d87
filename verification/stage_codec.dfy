/** The length-prefixed stage message: four length bytes, a JSON header, the
    tensor payload, nothing else. */
module StageCodec {
  import opened Options
  import opened TensorShape
  import IndexKeys

  const MAX_HEADER_BYTES := 1_048_576

  datatype Output = Output(fields: string, activation: Option<Tensor>)
  datatype Header = Header(fields: string, activation: Option<Tensor>, output: Option<Output>)

  /** The JSON encoding of headers; tensor data is not part of it. */
  datatype Json = Json(encode: Header -> seq<Byte>, decode: seq<Byte> -> Option<Header>)

  /** `Message` is a header with its tensor data; `Fault` is the run-time error
      of allocating a negative length. */
  datatype ReadResult = Message(header: Header) | Rejected | Fault

  // ----- the tensor of a header -----

  datatype Slot = Conflict | Slot(tensor: Option<Tensor>)

  function HeaderTensor(h: Header): Slot
  {
    if h.output.Some? && h.output.value.activation.Some? then
      if h.activation.Some? then Conflict else Slot(h.output.value.activation)
    else Slot(h.activation)
  }

  function Refilled(t: Option<Tensor>, data: seq<Byte>): Option<Tensor>
  {
    if t.None? then None else Some(t.value.(data := data))
  }

  function WithData(h: Header, data: seq<Byte>): Header
  {
    h.(activation := Refilled(h.activation, data),
       output := if h.output.None? then None
                 else Some(h.output.value.(activation := Refilled(h.output.value.activation, data))))
  }

  function Strip(h: Header): Header { WithData(h, []) }

  ghost predicate JsonOk(j: Json)
  {
    && (forall h :: j.encode(Strip(h)) != [] && j.decode(j.encode(Strip(h))) == Some(Strip(h)))
    && (forall b :: j.decode(b).Some? ==> Strip(j.decode(b).value) == j.decode(b).value)
  }

  // ----- big-endian length -----

  function LengthBytes(n: nat): (b: seq<Byte>)
    requires n <= MAX_HEADER_BYTES
    ensures |b| == 4
  {
    [n / 16_777_216, n / 65_536 % 256, n / 256 % 256, n % 256]
  }

  function LengthOf(b: seq<Byte>): (n: nat)
    requires |b| == 4
  {
    var b0: nat, b1: nat, b2: nat, b3: nat := b[0], b[1], b[2], b[3];
    b0 * 16_777_216 + b1 * 65_536 + b2 * 256 + b3
  }

  lemma LengthRoundTrip(n: nat)
    requires n <= MAX_HEADER_BYTES
    ensures LengthOf(LengthBytes(n)) == n
  {
  }

  /** The bytes are the length in base 256, the most significant first. */
  lemma LengthIsBigEndian(n: nat, b: seq<Byte>)
    requires n <= MAX_HEADER_BYTES && |b| == 4
    ensures n < IndexKeys.Pow256(4) && LengthBytes(n) == IndexKeys.Encode(4, n)
    ensures LengthOf(b) == IndexKeys.Decode(b)
  {
    Powers();
    FourDigits(b);
    FourDigits(LengthBytes(n));
    LengthRoundTrip(n);
    IndexKeys.EncodeDecode(LengthBytes(n));
  }

  lemma Powers()
    ensures IndexKeys.Pow256(1) == 256 && IndexKeys.Pow256(2) == 65_536
    ensures IndexKeys.Pow256(3) == 16_777_216 && IndexKeys.Pow256(4) == 4_294_967_296
  {
    assert IndexKeys.Pow256(2) == 65_536;
  }

  lemma FourDigits(b: seq<Byte>)
    requires |b| == 4
    ensures LengthOf(b) == IndexKeys.Decode(b)
  {
    Powers();
    var b1: nat, b2: nat, b3: nat := b[1], b[2], b[3];
    assert b[1..][1..] == b[2..] && b[2..][1..] == b[3..] && b[3..][1..] == [];
    assert IndexKeys.Decode(b[3..]) == b3;
    assert IndexKeys.Decode(b[2..]) == b2 * 256 + b3;
    assert IndexKeys.Decode(b[1..]) == b1 * 65_536 + b2 * 256 + b3;
  }

  // ----- what is written -----

  function Payload(t: Option<Tensor>): seq<Byte> { if t.None? then [] else t.value.data }

  /** The header and tensor WriteStageMessage accepts. */
  ghost predicate Accepts(h: Header, t: Option<Tensor>, j: Json)
  {
    HeaderTensor(h).Slot? && Describes(HeaderTensor(h).tensor, t) && |j.encode(Strip(h))| <= MAX_HEADER_BYTES
  }

  /** The header's metadata is that of a valid tensor, or both are absent. */
  ghost predicate Describes(m: Option<Tensor>, t: Option<Tensor>)
  {
    && m.None? == t.None?
    && (t.Some? ==> ValidTensor(t.value) && t.value.dtype == m.value.dtype && t.value.shape == m.value.shape)
  }

  function Frame(h: Header, t: Option<Tensor>, j: Json): seq<Byte>
    requires |j.encode(Strip(h))| <= MAX_HEADER_BYTES
  {
    LengthBytes(|j.encode(Strip(h))|) + j.encode(Strip(h)) + Payload(t)
  }

  // ----- what is read -----

  /** The payload and end of a message whose header is decoded. */
  ghost function ReadTail(h: Header, rest: seq<Byte>): ReadResult
  {
    match HeaderTensor(h)
    case Conflict => Rejected
    case Slot(None) => if rest == [] then Message(h) else Rejected
    case Slot(Some(t)) =>
      match PayloadLength(t)
      case None => Rejected
      case Some(n) =>
        if n < 0 then Fault
        else if |rest| < n then Rejected
        else if !ValidTensor(t.(data := rest[..n])) then Rejected
        else if |rest| > n then Rejected
        else Message(WithData(h, rest[..n]))
  }

  ghost function Decoded(b: seq<Byte>, j: Json): ReadResult
  {
    if |b| < 4 then Rejected
    else
      var n := LengthOf(b[..4]);
      if n == 0 || n > MAX_HEADER_BYTES || |b| < 4 + n then Rejected
      else match j.decode(b[4..4 + n])
           case None => Rejected
           case Some(h) => ReadTail(h, b[4 + n..])
  }

  // ----- round trip -----

  lemma FrameParts(p: seq<Byte>, rest: seq<Byte>)
    requires 0 < |p| <= MAX_HEADER_BYTES
    ensures var b := LengthBytes(|p|) + p + rest;
            |b| >= 4 + |p| && LengthOf(b[..4]) == |p| && b[4..4 + |p|] == p && b[4 + |p|..] == rest
  {
    LengthRoundTrip(|p|);
    var b := LengthBytes(|p|) + p + rest;
    assert b[..4] == LengthBytes(|p|);
  }

  lemma StripTwice(h: Header, data: seq<Byte>)
    ensures WithData(Strip(h), data) == WithData(h, data)
    ensures HeaderTensor(Strip(h)).Slot? == HeaderTensor(h).Slot?
    ensures HeaderTensor(h).Slot? ==> HeaderTensor(Strip(h)).tensor == Refilled(HeaderTensor(h).tensor, [])
  {
  }

  lemma SizeIgnoresData(t: Tensor, data: seq<Byte>)
    ensures ExactBytes(t.(data := data)) == ExactBytes(t) && PayloadLength(t.(data := data)) == PayloadLength(t)
  {
  }

  lemma TailRoundTrip(h: Header, t: Option<Tensor>, j: Json, extra: seq<Byte>)
    requires Accepts(h, t, j)
    ensures ReadTail(Strip(h), Payload(t) + extra) == if extra == [] then Message(WithData(h, Payload(t))) else Rejected
  {
    StripTwice(h, Payload(t));
    if t.Some? {
      var m := HeaderTensor(Strip(h)).tensor.value;
      assert m == t.value.(data := []);
      SizeIgnoresData(t.value, []);
      ValidPayloadLength(t.value);
      var rest := t.value.data + extra;
      assert rest[..|t.value.data|] == t.value.data;
      assert m.(data := t.value.data) == t.value;
    }
  }

  /** Reading exactly the bytes written returns the header with the tensor data
      restored; one byte more and the message is refused. */
  lemma RoundTrip(h: Header, t: Option<Tensor>, j: Json, extra: seq<Byte>)
    requires JsonOk(j) && Accepts(h, t, j)
    ensures Decoded(Frame(h, t, j), j) == Message(WithData(h, Payload(t)))
    ensures extra != [] ==> Decoded(Frame(h, t, j) + extra, j) == Rejected
  {
    var p := j.encode(Strip(h));
    FrameParts(p, Payload(t));
    TailRoundTrip(h, t, j, []);
    assert Payload(t) + [] == Payload(t);
    FrameParts(p, Payload(t) + extra);
    TailRoundTrip(h, t, j, extra);
    assert Frame(h, t, j) + extra == LengthBytes(|p|) + p + (Payload(t) + extra);
  }

  /** A message in its bytes: a request or an output carrying any valid tensor,
      or neither, is accepted, and comes back as it was sent from the length of
      its encoded header without the data, that header and the data. */
  lemma CarriedMessages(fields: string, more: string, t: Tensor, j: Json)
    requires JsonOk(j) && ValidTensor(t)
    ensures var meta := Some(Tensor(t.dtype, t.shape, []));
            && Carries(Header(fields, Some(t), None), Some(t), Header(fields, meta, None), j)
            && Carries(Header(fields, Some(t), Some(Output(more, None))), Some(t), Header(fields, meta, Some(Output(more, None))), j)
            && Carries(Header(fields, None, Some(Output(more, Some(t)))), Some(t), Header(fields, None, Some(Output(more, meta))), j)
            && Carries(Header(fields, None, None), None, Header(fields, None, None), j)
  {
    var meta := Some(Tensor(t.dtype, t.shape, []));
    Carried(Header(fields, Some(t), None), Some(t), Header(fields, meta, None), j);
    Carried(Header(fields, Some(t), Some(Output(more, None))), Some(t), Header(fields, meta, Some(Output(more, None))), j);
    Carried(Header(fields, None, Some(Output(more, Some(t)))), Some(t), Header(fields, None, Some(Output(more, meta))), j);
    Carried(Header(fields, None, None), None, Header(fields, None, None), j);
  }

  ghost predicate Carries(h: Header, t: Option<Tensor>, bare: Header, j: Json)
  {
    var p, data := j.encode(bare), if t.None? then [] else t.value.data;
    && (Accepts(h, t, j) <==> |p| <= 1_048_576)
    && (|p| <= 1_048_576 ==>
          var b := IndexKeys.Encode(4, |p|) + p + data;
          Frame(h, t, j) == b && Decoded(b, j) == Message(h))
  }

  lemma Carried(h: Header, t: Option<Tensor>, bare: Header, j: Json)
    requires JsonOk(j) && Strip(h) == bare && WithData(h, Payload(t)) == h
    requires HeaderTensor(h).Slot? && HeaderTensor(h).tensor == t && (t.Some? ==> ValidTensor(t.value))
    ensures Carries(h, t, bare, j)
  {
    Powers();
    if |j.encode(bare)| <= MAX_HEADER_BYTES {
      LengthIsBigEndian(|j.encode(bare)|, [0, 0, 0, 0]);
      RoundTrip(h, t, j, []);
    }
  }

  /** Nothing else is accepted: the tensor sent is the one the header describes
      and is valid, and no message with two tensors is written or read. */
  lemma AcceptedTensor(h: Header, t: Option<Tensor>, j: Json)
    requires Accepts(h, t, j)
    ensures t.None? ==> h.activation.None? && (h.output.Some? ==> h.output.value.activation.None?)
    ensures t.Some? ==> ValidTensor(t.value) &&
                        var m := if h.activation.Some? then h.activation else if h.output.Some? then h.output.value.activation else None;
                        m.Some? && m.value.dtype == t.value.dtype && m.value.shape == t.value.shape
    ensures h.activation.Some? && h.output.Some? ==> h.output.value.activation.None?
  {
  }

  /** And one byte fewer too: every proper prefix is refused. */
  lemma TruncationIsRejected(h: Header, t: Option<Tensor>, j: Json, k: nat)
    requires JsonOk(j) && Accepts(h, t, j) && k < |Frame(h, t, j)|
    ensures Decoded(Frame(h, t, j)[..k], j) == Rejected
  {
    var p := j.encode(Strip(h));
    var b := Frame(h, t, j);
    FrameParts(p, Payload(t));
    if k >= 4 {
      assert b[..k][..4] == b[..4];
      if k >= 4 + |p| {
        assert b[..k][4..4 + |p|] == p;
        assert b[..k][4 + |p|..] == Payload(t)[..k - 4 - |p|];
        ShortTail(h, t, j, k - 4 - |p|);
      }
    }
  }

  lemma ShortTail(h: Header, t: Option<Tensor>, j: Json, k: nat)
    requires Accepts(h, t, j) && k < |Payload(t)|
    ensures ReadTail(Strip(h), Payload(t)[..k]) == Rejected
  {
    StripTwice(h, []);
    SizeIgnoresData(t.value, []);
    ValidPayloadLength(t.value);
    assert HeaderTensor(Strip(h)).tensor.value == t.value.(data := []);
  }

  /** Whatever bytes are accepted, the message carries at most one tensor, that
      tensor is valid, and the bytes are exactly a length, a header that
      decodes to the message without its data, and the data. */
  lemma AcceptedIsWellFormed(b: seq<Byte>, j: Json)
    requires JsonOk(j) && Decoded(b, j).Message?
    ensures var h := Decoded(b, j).header;
            && HeaderTensor(h).Slot?
            && (HeaderTensor(h).tensor.Some? ==> ValidTensor(HeaderTensor(h).tensor.value))
            && |b| >= 4 && var n := LengthOf(b[..4]);
               && 0 < n <= MAX_HEADER_BYTES && |b| >= 4 + n
               && j.decode(b[4..4 + n]) == Some(Strip(h)) && b[4 + n..] == Payload(HeaderTensor(h).tensor)
  {
    var n := LengthOf(b[..4]);
    var h0 := j.decode(b[4..4 + n]).value;
    assert Strip(h0) == h0;
    TailIsWellFormed(h0, b[4 + n..]);
  }

  lemma TailIsWellFormed(h0: Header, rest: seq<Byte>)
    requires Strip(h0) == h0 && ReadTail(h0, rest).Message?
    ensures var h := ReadTail(h0, rest).header;
            && HeaderTensor(h).Slot? && Strip(h) == h0 && rest == Payload(HeaderTensor(h).tensor)
            && (HeaderTensor(h).tensor.Some? ==> ValidTensor(HeaderTensor(h).tensor.value))
  {
    if HeaderTensor(h0).tensor.Some? {
      var n := PayloadLength(HeaderTensor(h0).tensor.value).value;
      assert rest[..n] == rest;
    }
  }

  /** The header a message starts with, when its length and encoding are in order. */
  ghost function DecodedHeader(b: seq<Byte>, j: Json): Option<Header>
  {
    if |b| < 4 || LengthOf(b[..4]) == 0 || LengthOf(b[..4]) > MAX_HEADER_BYTES || |b| < 4 + LengthOf(b[..4]) then None
    else j.decode(b[4..4 + LengthOf(b[..4])])
  }

  /** Reading fails at allocation, instead of refusing, exactly on messages
      whose header decodes and describes one tensor of supported type, rank and
      element count whose exact size has bit 63 set. Every other message is
      refused or returned. */
  lemma FaultIff(b: seq<Byte>, j: Json)
    ensures Decoded(b, j).Fault? <==>
            && DecodedHeader(b, j).Some?
            && HeaderTensor(DecodedHeader(b, j).value).Slot?
            && HeaderTensor(DecodedHeader(b, j).value).tensor.Some?
            && var size := ExactBytes(HeaderTensor(DecodedHeader(b, j).value).tensor.value);
               size.Some? && size.value / TWO_63 % 2 == 1
  {
    var h := DecodedHeader(b, j);
    if h.Some? && HeaderTensor(h.value).Slot? && HeaderTensor(h.value).tensor.Some? {
      NegativeLengthIff(HeaderTensor(h.value).tensor.value);
    }
  }

  /** Such a message: any header whose request tensor is 2^61 four-byte
      elements and whose encoding fits, with whatever follows it. */
  lemma HugeTensorFaults(fields: string, j: Json, rest: seq<Byte>)
    requires JsonOk(j)
    requires var h := Header(fields, Some(Tensor(Float32, [0x2000_0000_0000_0000], [])), None); |j.encode(h)| <= MAX_HEADER_BYTES
    ensures var p := j.encode(Header(fields, Some(Tensor(Float32, [0x2000_0000_0000_0000], [])), None));
            Decoded(LengthBytes(|p|) + p + rest, j) == Fault
  {
    var h := Header(fields, Some(Tensor(Float32, [0x2000_0000_0000_0000], [])), None);
    assert Strip(h) == h;
    FrameParts(j.encode(Strip(h)), rest);
    HugeShapeMeasuresNegative();
  }

  // ----- writing -----

  /** A writer that may take any part of what it is offered, or fail. */
  class ByteSink {
    var bytes: seq<Byte>

    constructor ()
      ensures bytes == []
    {
      bytes := [];
    }

    method Write(data: seq<Byte>) returns (n: nat, failed: bool)
      modifies this
      ensures n <= |data| && bytes == old(bytes) + data[..n]
    {
      n :| n <= |data|;
      failed := *;
      bytes := bytes + data[..n];
    }
  }

  /** Writes until everything is taken, the writer fails, or takes nothing. */
  method WriteStageBytes(sink: ByteSink, data: seq<Byte>) returns (written: nat, ok: bool)
    modifies sink
    ensures written <= |data| && sink.bytes == old(sink.bytes) + data[..written]
    ensures ok ==> written == |data|
  {
    written := 0;
    while written < |data|
      invariant written <= |data| && sink.bytes == old(sink.bytes) + data[..written]
    {
      var n, failed := sink.Write(data[written..]);
      assert data[..written] + data[written..][..n] == data[..written + n];
      written := written + n;
      if failed { return written, false; }
      if n == 0 { return written, false; }
    }
    ok := true;
  }

  datatype WriteResult = Written | Refused | WriterFailed

  ghost predicate AddsPrefix(before: seq<Byte>, after: seq<Byte>, frame: seq<Byte>)
  {
    exists k: nat :: k <= |frame| && after == before + frame[..k]
  }

  /** A refused message writes nothing; a failing writer is left with a prefix
      of the frame; otherwise the frame is written whole. */
  method WriteStageMessage(sink: ByteSink, h: Header, t: Option<Tensor>, j: Json) returns (r: WriteResult)
    modifies sink
    ensures r.Refused? <==> !Accepts(h, t, j)
    ensures r.Refused? ==> sink.bytes == old(sink.bytes)
    ensures r.Written? ==> sink.bytes == old(sink.bytes) + Frame(h, t, j)
    ensures r.WriterFailed? ==> AddsPrefix(old(sink.bytes), sink.bytes, Frame(h, t, j))
  {
    if HeaderTensor(h).Conflict? { return Refused; }
    var m := HeaderTensor(h).tensor;
    if m.None? != t.None? { return Refused; }
    if t.Some? {
      var valid := Validate(t.value);
      if !valid { return Refused; }
      if t.value.dtype != m.value.dtype || t.value.shape != m.value.shape { return Refused; }
    }
    var payload := j.encode(Strip(h));
    if |payload| > MAX_HEADER_BYTES { return Refused; }
    r := WriteParts(sink, LengthBytes(|payload|), payload, Payload(t));
  }

  method WriteParts(sink: ByteSink, a: seq<Byte>, b: seq<Byte>, c: seq<Byte>) returns (r: WriteResult)
    modifies sink
    ensures !r.Refused?
    ensures r.Written? ==> sink.bytes == old(sink.bytes) + (a + b + c)
    ensures r.WriterFailed? ==> AddsPrefix(old(sink.bytes), sink.bytes, a + b + c)
  {
    ghost var start, all := sink.bytes, a + b + c;
    var written, ok := WriteStageBytes(sink, a);
    assert sink.bytes == start + all[..written];
    if !ok { return WriterFailed; }
    written, ok := WriteStageBytes(sink, b);
    assert sink.bytes == start + all[..|a| + written];
    if !ok { return WriterFailed; }
    written, ok := WriteStageBytes(sink, c);
    assert sink.bytes == start + all[..|a| + |b| + written];
    if !ok { return WriterFailed; }
    assert all[..|a| + |b| + |c|] == all;
    r := Written;
  }

  // ----- reading -----

  class ByteSource {
    const data: seq<Byte>
    var position: nat

    ghost predicate Valid()
      reads this
    {
      position <= |data|
    }

    function Rest(): seq<Byte>
      requires Valid()
      reads this
    {
      data[position..]
    }

    constructor (data: seq<Byte>)
      ensures Valid() && Rest() == data
    {
      this.data := data;
      position := 0;
    }

    /** Exactly n bytes, or the source ends first. */
    method ReadFull(n: nat) returns (chunk: seq<Byte>, ok: bool)
      requires Valid()
      modifies this
      ensures Valid() && ok == (n <= |old(Rest())|)
      ensures ok ==> chunk == old(Rest())[..n] && Rest() == old(Rest())[n..]
      ensures !ok ==> chunk == old(Rest()) && Rest() == []
    {
      if n <= |data| - position {
        chunk := data[position..position + n];
        position := position + n;
        return chunk, true;
      }
      chunk := data[position..];
      position := |data|;
      ok := false;
    }
  }

  method ReadTailOf(source: ByteSource, h: Header) returns (r: ReadResult)
    requires source.Valid()
    modifies source
    ensures r == ReadTail(h, old(source.Rest()))
  {
    ghost var rest := source.Rest();
    if HeaderTensor(h).Conflict? { return Rejected; }
    var result := h;
    if HeaderTensor(h).tensor.Some? {
      var t := HeaderTensor(h).tensor.value;
      var length := TensorPayloadLength(t);
      if length.None? { return Rejected; }
      if length.value < 0 { return Fault; }
      var data, ok := source.ReadFull(length.value);
      if !ok { return Rejected; }
      var valid := Validate(t.(data := data));
      if !valid { return Rejected; }
      result := WithData(h, data);
    }
    var extra, more := source.ReadFull(1);
    if extra != [] { return Rejected; }
    r := Message(result);
  }

  method ReadStageMessage(source: ByteSource, j: Json) returns (r: ReadResult)
    requires source.Valid()
    modifies source
    ensures r == Decoded(old(source.Rest()), j)
  {
    ghost var b := source.Rest();
    var length, ok := source.ReadFull(4);
    if !ok { return Rejected; }
    var n := LengthOf(length);
    if n == 0 || n > MAX_HEADER_BYTES { return Rejected; }
    var encoded;
    encoded, ok := source.ReadFull(n);
    if !ok { return Rejected; }
    assert encoded == b[4..4 + n] && source.Rest() == b[4 + n..];
    var h := j.decode(encoded);
    if h.None? { return Rejected; }
    r := ReadTailOf(source, h.value);
  }
}
