/** Control messages on a byte stream: magic, length, payload (core/src/network/framing.rs). */
module Framing {
  import opened Prelude

  const MAX_MESSAGE_SIZE: nat := 10 * 1024 * 1024
  const PROTOCOL_MAGIC: seq<byte> := [0x50, 0x32, 0x50, 0x46]

  datatype FrameError = Disconnected | Protocol | Decode

  datatype Message = Message(kind: nat, fields: seq<byte>)

  /** MessagePack as the protocol uses it: it reads back what it wrote. */
  datatype Codec = Codec(pack: Message -> seq<byte>, unpack: seq<byte> -> Option<Message>) {
    ghost predicate Lawful() {
      forall m: Message :: unpack(pack(m)) == Some(m)
    }
  }

  function Frame(payload: seq<byte>): (f: seq<byte>)
    ensures |f| == 8 + |payload|
  {
    PROTOCOL_MAGIC + BeBytes(|payload|, 4) + payload
  }

  // ----- one message -----

  class Writer {
    var written: seq<byte>

    constructor ()
      ensures written == []
    {
      written := [];
    }

    /** A message that is too large is refused with nothing written. */
    method WriteMessage(codec: Codec, m: Message) returns (r: Result<(), FrameError>)
      modifies this
      ensures r.Ok? <==> |codec.pack(m)| <= 10 * 0x10_0000
      ensures r.Ok? ==> written == old(written) + Frame(codec.pack(m))
      ensures r.Err? ==> r.error == Protocol && written == old(written)
    {
      var payload := codec.pack(m);
      if |payload| > MAX_MESSAGE_SIZE {
        return Err(Protocol);
      }
      var frame := PROTOCOL_MAGIC;
      frame := frame + BeBytes(|payload|, 4);
      frame := frame + payload;
      written := written + frame;
      r := Ok(());
    }
  }

  /** What reading one message from these bytes gives, and the bytes left. A stream that ends before the first
      byte is a clean close; one that ends anywhere else in the frame is an error. */
  function ReadOne(codec: Codec, s: seq<byte>): (Result<Message, FrameError>, seq<byte>) {
    if s == [] then (Err(Disconnected), [])
    else if |s| < 4 then (Err(Protocol), [])
    else if s[..4] != PROTOCOL_MAGIC then (Err(Protocol), s[4..])
    else if |s| < 8 then (Err(Protocol), [])
    else
      var len := BeValue(s[4..8]);
      if len > MAX_MESSAGE_SIZE then (Err(Protocol), s[8..])
      else if |s| < 8 + len then (Err(Protocol), [])
      else match codec.unpack(s[8..8 + len])
           case Some(m) => (Ok(m), s[8 + len..])
           case None => (Err(Decode), s[8 + len..])
  }

  /** The reading end of a stream, with what the peer sent before it closed its side. */
  class Reader {
    var rest: seq<byte>

    constructor (bytes: seq<byte>)
      ensures rest == bytes
    {
      rest := bytes;
    }

    /** All of `n` bytes, or nothing when the stream ends before. */
    method ReadExact(n: nat) returns (r: Option<seq<byte>>)
      modifies this
      ensures r == if |old(rest)| < n then None else Some(old(rest)[..n])
      ensures rest == if |old(rest)| < n then [] else old(rest)[n..]
    {
      if |rest| < n {
        rest := [];
        return None;
      }
      r := Some(rest[..n]);
      rest := rest[n..];
    }

    method ReadMessage(codec: Codec) returns (r: Result<Message, FrameError>)
      modifies this
      ensures (r, rest) == ReadOne(codec, old(rest))
    {
      ghost var s := rest;
      if rest == [] {
        return Err(Disconnected);
      }
      var magic := [rest[0]];
      rest := rest[1..];
      var more := ReadExact(3);
      if more.None? {
        return Err(Protocol);
      }
      magic := magic + more.value;
      assert magic == s[..4] && rest == s[4..];
      if magic != PROTOCOL_MAGIC {
        return Err(Protocol);
      }
      var lenBuf := ReadExact(4);
      if lenBuf.None? {
        return Err(Protocol);
      }
      assert lenBuf.value == s[4..8] && rest == s[8..];
      var len := BeValue(lenBuf.value);
      if len > MAX_MESSAGE_SIZE {
        return Err(Protocol);
      }
      var payload := ReadExact(len);
      if payload.None? {
        return Err(Protocol);
      }
      assert payload.value == s[8..8 + len] && rest == s[8 + len..];
      match codec.unpack(payload.value)
      case Some(m) => r := Ok(m);
      case None => r := Err(Decode);
    }
  }

  // ----- a stream of messages, cut anywhere -----

  /** Reading until the first error. */
  function ReadAll(codec: Codec, s: seq<byte>): (seq<Message>, FrameError)
    decreases |s|
  {
    var (r, rest) := ReadOne(codec, s);
    match r
    case Err(e) => ([], e)
    case Ok(m) => var (ms, e) := ReadAll(codec, rest); ([m] + ms, e)
  }

  function Stream(codec: Codec, messages: seq<Message>): seq<byte> {
    if messages == [] then [] else Frame(codec.pack(messages[0])) + Stream(codec, messages[1..])
  }

  predicate AllFit(codec: Codec, messages: seq<Message>) {
    forall k :: 0 <= k < |messages| ==> |codec.pack(messages[k])| <= MAX_MESSAGE_SIZE
  }

  /** How many of the frames end at or before the cut. */
  function WholeFrames(codec: Codec, messages: seq<Message>, cut: nat): (n: nat)
    ensures n <= |messages|
  {
    if messages == [] || cut < |Frame(codec.pack(messages[0]))| then 0
    else 1 + WholeFrames(codec, messages[1..], cut - |Frame(codec.pack(messages[0]))|)
  }

  /** ... counted right: those frames end by the cut, and one more would not. */
  lemma {:induction false} WholeFramesIsMost(codec: Codec, messages: seq<Message>, cut: nat)
    ensures var n := WholeFrames(codec, messages, cut);
            && |Stream(codec, messages[..n])| <= cut
            && (n < |messages| ==> cut < |Stream(codec, messages[..n + 1])|)
    decreases |messages|
  {
    if messages != [] {
      var frame := Frame(codec.pack(messages[0]));
      if cut < |frame| {
        assert messages[..1] == [messages[0]];
        assert Stream(codec, messages[..1]) == frame + Stream(codec, []);
      } else {
        var n := WholeFrames(codec, messages[1..], cut - |frame|);
        WholeFramesIsMost(codec, messages[1..], cut - |frame|);
        assert messages[..n + 1][1..] == messages[1..][..n];
        if n + 1 < |messages| {
          assert messages[..n + 2][1..] == messages[1..][..n + 1];
        }
      }
    }
  }

  lemma FrameIsRead(codec: Codec, m: Message, rest: seq<byte>)
    requires codec.Lawful() && |codec.pack(m)| <= MAX_MESSAGE_SIZE
    ensures ReadOne(codec, Frame(codec.pack(m)) + rest) == (Ok(m), rest)
  {
    var payload := codec.pack(m);
    var s := Frame(payload) + rest;
    Widths();
    BeRoundTrip(|payload|, 4);
    assert s[..4] == PROTOCOL_MAGIC && s[4..8] == BeBytes(|payload|, 4);
    assert s[8..8 + |payload|] == payload && s[8 + |payload|..] == rest;
  }

  /** Where everything is in a frame: the magic, four bytes of length with the most significant first, the payload. */
  lemma FrameLayout(payload: seq<byte>)
    ensures Frame(payload)[..4] == [0x50, 0x32, 0x50, 0x46] && Frame(payload)[8..] == payload
    ensures forall k :: 4 <= k < 8 ==> Frame(payload)[k] == |payload| / Pow256(7 - k) % 256
  {
    forall k | 4 <= k < 8
      ensures Frame(payload)[k] == |payload| / Pow256(7 - k) % 256
    {
      BeDigit(|payload|, 4, k - 4);
      assert Frame(payload)[k] == BeBytes(|payload|, 4)[k - 4];
    }
  }

  /** A frame that is not one of this protocol's, or is too long, or does not unpack, is an error; the first two before
      any payload is read. */
  lemma BadFrames(codec: Codec, head: seq<byte>, payload: seq<byte>, rest: seq<byte>)
    requires |payload| < U32
    ensures |head| == 4 && head != [0x50, 0x32, 0x50, 0x46] ==> ReadOne(codec, head + rest) == (Err(Protocol), rest)
    ensures |payload| > 10 * 0x10_0000 ==> ReadOne(codec, Frame(payload) + rest) == (Err(Protocol), payload + rest)
    ensures |payload| <= 10 * 0x10_0000 && codec.unpack(payload).None? ==>
              ReadOne(codec, Frame(payload) + rest) == (Err(Decode), rest)
  {
    var s := Frame(payload) + rest;
    Widths();
    BeRoundTrip(|payload|, 4);
    assert s[..4] == PROTOCOL_MAGIC && s[4..8] == BeBytes(|payload|, 4);
    assert s[8..] == payload + rest && s[8..8 + |payload|] == payload && s[8 + |payload|..] == rest;
    if |head| == 4 {
      assert (head + rest)[..4] == head && (head + rest)[4..] == rest;
    }
  }

  /** A frame cut short is a clean close only before its first byte. */
  lemma CutFrame(codec: Codec, m: Message, cut: nat)
    requires |codec.pack(m)| <= MAX_MESSAGE_SIZE && cut < |Frame(codec.pack(m))|
    ensures ReadOne(codec, Frame(codec.pack(m))[..cut]).0 == Err(if cut == 0 then Disconnected else Protocol)
  {
    var payload := codec.pack(m);
    var s := Frame(payload)[..cut];
    Widths();
    BeRoundTrip(|payload|, 4);
    if cut >= 8 {
      assert s[4..8] == BeBytes(|payload|, 4);
    }
  }

  lemma ReadOneMore(codec: Codec, m: Message, rest: seq<byte>)
    requires codec.Lawful() && |codec.pack(m)| <= MAX_MESSAGE_SIZE
    ensures ReadAll(codec, Frame(codec.pack(m)) + rest) == ([m] + ReadAll(codec, rest).0, ReadAll(codec, rest).1)
  {
    FrameIsRead(codec, m, rest);
  }

  lemma StreamTake(codec: Codec, messages: seq<Message>, n: nat)
    requires 0 < n <= |messages|
    ensures messages[..n] == [messages[0]] + messages[1..][..n - 1]
    ensures Stream(codec, messages[..n]) == Frame(codec.pack(messages[0])) + Stream(codec, messages[1..][..n - 1])
  {
    assert messages[..n][1..] == messages[1..][..n - 1];
  }

  /** Any messages' frames, cut at any byte: the reader gets exactly the messages whose frames are whole, and
      then a clean close when the cut is between frames and an error when it is inside one. */
  lemma {:induction false} CutStream(codec: Codec, messages: seq<Message>, cut: nat)
    requires codec.Lawful() && AllFit(codec, messages) && cut <= |Stream(codec, messages)|
    ensures var n := WholeFrames(codec, messages, cut);
            ReadAll(codec, Stream(codec, messages)[..cut])
            == (messages[..n], if cut == |Stream(codec, messages[..n])| then Disconnected else Protocol)
    decreases |messages|
  {
    if messages == [] {
      assert Stream(codec, messages)[..cut] == [];
    } else if cut < |Frame(codec.pack(messages[0]))| {
      CutInFirst(codec, messages, cut);
    } else {
      var left := cut - |Frame(codec.pack(messages[0]))|;
      CutStream(codec, messages[1..], left);
      CutBehindFirst(codec, messages, cut);
      StreamTake(codec, messages, WholeFrames(codec, messages[1..], left) + 1);
    }
  }

  lemma CutInFirst(codec: Codec, messages: seq<Message>, cut: nat)
    requires AllFit(codec, messages) && messages != [] && cut < |Frame(codec.pack(messages[0]))|
    ensures cut <= |Stream(codec, messages)| && WholeFrames(codec, messages, cut) == 0
    ensures ReadAll(codec, Stream(codec, messages)[..cut]) == ([], if cut == 0 then Disconnected else Protocol)
  {
    var frame, later := Frame(codec.pack(messages[0])), Stream(codec, messages[1..]);
    assert (frame + later)[..cut] == frame[..cut];
    CutFrame(codec, messages[0], cut);
  }

  lemma CutBehindFirst(codec: Codec, messages: seq<Message>, cut: nat)
    requires codec.Lawful() && AllFit(codec, messages) && messages != []
    requires |Frame(codec.pack(messages[0]))| <= cut <= |Stream(codec, messages)|
    ensures var left := cut - |Frame(codec.pack(messages[0]))|;
            && left <= |Stream(codec, messages[1..])|
            && WholeFrames(codec, messages, cut) == WholeFrames(codec, messages[1..], left) + 1
            && var (ms, e) := ReadAll(codec, Stream(codec, messages[1..])[..left]);
               ReadAll(codec, Stream(codec, messages)[..cut]) == ([messages[0]] + ms, e)
  {
    var frame, later := Frame(codec.pack(messages[0])), Stream(codec, messages[1..]);
    assert Stream(codec, messages) == frame + later;
    assert (frame + later)[..cut] == frame + later[..cut - |frame|];
    ReadOneMore(codec, messages[0], later[..cut - |frame|]);
  }
}
