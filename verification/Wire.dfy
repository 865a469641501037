/** Chunk frames on a unidirectional stream: `[index u64 LE | flags u8 | length u32 LE | payload]`. */
module Wire {
  import opened Prelude

  const CHUNK_HEADER_BYTES: nat := 13
  const FLAG_COMPRESSED: byte := 1

  datatype Frame = Frame(index: nat, flags: byte, payload: seq<byte>) {
    predicate Fits() { index < U64 && |payload| < U32 }

    /** Flag bit 0. */
    predicate Compressed() { flags % 2 == 1 }
  }

  predicate AllFit(frames: seq<Frame>) {
    forall k :: 0 <= k < |frames| ==> frames[k].Fits()
  }

  function Encode(f: Frame): (s: seq<byte>)
    ensures |s| == CHUNK_HEADER_BYTES + |f.payload|
  {
    LeBytes(f.index, 8) + [f.flags] + LeBytes(|f.payload|, 4) + f.payload
  }

  function EncodeAll(frames: seq<Frame>): seq<byte> {
    if frames == [] then [] else Encode(frames[0]) + EncodeAll(frames[1..])
  }

  datatype WireError = TruncatedHeader | IndexOutOfRange | PayloadTooLong

  /** Parse the frame at `off`: the header, then the index check, then the payload bound. */
  function ReadFrame(raw: seq<byte>, off: nat, totalChunks: nat): (r: Result<(Frame, nat), WireError>)
    requires off < |raw|
    ensures r.Ok? ==> off < r.value.1 <= |raw|
  {
    if |raw| - off < CHUNK_HEADER_BYTES then Err(TruncatedHeader) else
    var index := LeValue(raw[off..off + 8]);
    var length := LeValue(raw[off + 9..off + 13]);
    if index >= totalChunks then Err(IndexOutOfRange) else
    var headerEnd := off + CHUNK_HEADER_BYTES;
    if length > |raw| - headerEnd then Err(PayloadTooLong) else
    Ok((Frame(index, raw[off + 8], raw[headerEnd..headerEnd + length]), headerEnd + length))
  }

  function ReadAll(raw: seq<byte>, off: nat, totalChunks: nat): Result<seq<Frame>, WireError>
    requires off <= |raw|
    decreases |raw| - off
  {
    if off == |raw| then Ok([]) else
    match ReadFrame(raw, off, totalChunks)
    case Err(e) => Err(e)
    case Ok((f, next)) =>
      match ReadAll(raw, next, totalChunks)
      case Err(e) => Err(e)
      case Ok(rest) => Ok([f] + rest)
  }

  /** Whatever surrounds an encoded frame, parsing at its start returns it and the offset past it. */
  lemma ReadEncoded(before: seq<byte>, f: Frame, after: seq<byte>, totalChunks: nat)
    requires f.Fits() && f.index < totalChunks
    ensures ReadFrame(before + Encode(f) + after, |before|, totalChunks) == Ok((f, |before| + |Encode(f)|))
  {
    var raw := before + Encode(f) + after;
    var off := |before|;
    var e := Encode(f);
    Widths();
    LeRoundTrip(f.index, 8);
    LeRoundTrip(|f.payload|, 4);
    Middle(before, e, after, 0, 8);
    Middle(before, e, after, 9, 13);
    Middle(before, e, after, 13, |e|);
    assert e[0..8] == LeBytes(f.index, 8) && raw[off + 8] == e[8] == f.flags;
    assert e[9..13] == LeBytes(|f.payload|, 4) && e[13..|e|] == f.payload;
  }

  /** Where everything is in a frame: eight bytes of index and four of length, the least significant first. */
  lemma FrameLayout(f: Frame)
    ensures |Encode(f)| == 13 + |f.payload| && Encode(f)[8] == f.flags && Encode(f)[13..] == f.payload
    ensures forall k :: 0 <= k < 8 ==> Encode(f)[k] == f.index / Pow256(k) % 256
    ensures forall k :: 0 <= k < 4 ==> Encode(f)[9 + k] == |f.payload| / Pow256(k) % 256
  {
    forall k | 0 <= k < 8
      ensures Encode(f)[k] == f.index / Pow256(k) % 256
    {
      LeDigit(f.index, 8, k);
    }
    forall k | 0 <= k < 4
      ensures Encode(f)[9 + k] == |f.payload| / Pow256(k) % 256
    {
      LeDigit(|f.payload|, 4, k);
      assert Encode(f)[9 + k] == LeBytes(|f.payload|, 4)[k];
    }
  }

  /** Only the lowest flag says that the payload is compressed. */
  lemma LowestFlag(f: Frame, others: nat)
    requires others < 128
    ensures f.flags == 2 * others + 1 ==> f.Compressed()
    ensures f.flags == 2 * others ==> !f.Compressed()
  {
  }

  /** A frame cut short, or one of a chunk out of range, is an error, the first of three that applies. */
  lemma CutFrameFails(f: Frame, cut: nat, totalChunks: nat)
    requires f.Fits() && 0 < cut <= |Encode(f)| && (cut < |Encode(f)| || f.index >= totalChunks)
    ensures ReadFrame(Encode(f)[..cut], 0, totalChunks)
            == Err(if cut < 13 then TruncatedHeader else if f.index >= totalChunks then IndexOutOfRange else PayloadTooLong)
  {
    var raw := Encode(f)[..cut];
    Widths();
    LeRoundTrip(f.index, 8);
    LeRoundTrip(|f.payload|, 4);
    var lengths := LeBytes(|f.payload|, 4);
    assert Encode(f)[0..8] == LeBytes(f.index, 8);
    assert forall k :: 0 <= k < 4 ==> Encode(f)[9 + k] == lengths[k];
    if cut >= 13 {
      assert raw[0..8] == Encode(f)[0..8] && raw[9..13] == lengths;
    }
  }

  /** Wire round trip: parsing what the framing loop built returns the same frames. */
  lemma ReadEncodedAll(before: seq<byte>, frames: seq<Frame>, totalChunks: nat)
    requires AllFit(frames) && forall k :: 0 <= k < |frames| ==> frames[k].index < totalChunks
    ensures ReadAll(before + EncodeAll(frames), |before|, totalChunks) == Ok(frames)
  {
    ReadFrom(before + EncodeAll(frames), |before|, frames, totalChunks);
  }

  lemma {:induction false} ReadFrom(raw: seq<byte>, off: nat, frames: seq<Frame>, totalChunks: nat)
    requires AllFit(frames) && forall k :: 0 <= k < |frames| ==> frames[k].index < totalChunks
    requires off <= |raw| && raw[off..] == EncodeAll(frames)
    ensures ReadAll(raw, off, totalChunks) == Ok(frames)
    decreases frames
  {
    if frames != [] {
      var next := off + |Encode(frames[0])|;
      ReadHead(raw, off, frames[0], EncodeAll(frames[1..]), totalChunks);
      ReadFrom(raw, next, frames[1..], totalChunks);
      ReadOneMore(raw, off, totalChunks, frames[0], next, frames[1..]);
      assert [frames[0]] + frames[1..] == frames;
    }
  }

  lemma ReadHead(raw: seq<byte>, off: nat, f: Frame, tail: seq<byte>, totalChunks: nat)
    requires f.Fits() && f.index < totalChunks && off <= |raw| && raw[off..] == Encode(f) + tail
    ensures ReadFrame(raw, off, totalChunks) == Ok((f, off + |Encode(f)|))
    ensures off < off + |Encode(f)| <= |raw| && raw[off + |Encode(f)|..] == tail
  {
    var e := Encode(f);
    Assoc(raw[..off], e, tail);
    assert raw == raw[..off] + raw[off..];
    ReadEncoded(raw[..off], f, tail, totalChunks);
    assert raw[off + |e|..] == raw[off..][|e|..];
  }

  lemma ReadOneMore(raw: seq<byte>, off: nat, totalChunks: nat, f: Frame, next: nat, rest: seq<Frame>)
    requires off < |raw| && ReadFrame(raw, off, totalChunks) == Ok((f, next))
    requires next <= |raw| && ReadAll(raw, next, totalChunks) == Ok(rest)
    ensures ReadAll(raw, off, totalChunks) == Ok([f] + rest)
  {
  }

  lemma LowByte(b: byte, rest: nat)
    ensures (b + 256 * rest) % 256 == b && (b + 256 * rest) / 256 == rest
  {
  }

  lemma {:induction false} LeBytesOfValue(s: seq<byte>)
    ensures LeBytes(LeValue(s), |s|) == s
    ensures LeValue(s) < Pow256(|s|)
  {
    if s != [] {
      LeBytesOfValue(s[1..]);
      LowByte(s[0], LeValue(s[1..]));
    }
  }

  lemma ReadIsEncoded(raw: seq<byte>, off: nat, totalChunks: nat)
    requires off < |raw| && ReadFrame(raw, off, totalChunks).Ok?
    ensures var (f, next) := ReadFrame(raw, off, totalChunks).value;
            raw[off..next] == Encode(f) && f.Fits() && f.index < totalChunks
  {
    var (f, next) := ReadFrame(raw, off, totalChunks).value;
    Widths();
    LeBytesOfValue(raw[off..off + 8]);
    LeBytesOfValue(raw[off + 9..off + 13]);
    assert raw[off..next] == raw[off..off + 8] + [raw[off + 8]] + raw[off + 9..off + 13] + raw[off + 13..next];
  }

  /** The format is canonical: a stream that parses is exactly the encoding of what it parses to. */
  lemma {:induction false} ReadAllIsEncoded(raw: seq<byte>, off: nat, totalChunks: nat)
    requires off <= |raw| && ReadAll(raw, off, totalChunks).Ok?
    ensures var frames := ReadAll(raw, off, totalChunks).value;
            && EncodeAll(frames) == raw[off..] && AllFit(frames)
            && forall k :: 0 <= k < |frames| ==> frames[k].index < totalChunks
    decreases |raw| - off
  {
    if off < |raw| {
      var (f, next) := ReadFrame(raw, off, totalChunks).value;
      ReadIsEncoded(raw, off, totalChunks);
      ReadAllIsEncoded(raw, next, totalChunks);
      var rest := ReadAll(raw, next, totalChunks).value;
      assert ([f] + rest)[1..] == rest;
      assert raw[off..] == raw[off..next] + raw[next..];
    }
  }

  lemma {:induction false} EncodeAllAppend(a: seq<Frame>, b: seq<Frame>)
    ensures EncodeAll(a + b) == EncodeAll(a) + EncodeAll(b)
  {
    if a == [] {
      assert a + b == b;
    } else {
      EncodeAllAppend(a[1..], b);
      assert (a + b)[0] == a[0] && (a + b)[1..] == a[1..] + b;
      Assoc(Encode(a[0]), EncodeAll(a[1..]), EncodeAll(b));
    }
  }
}
