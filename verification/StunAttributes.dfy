/** STUN attributes on the wire: type, length, value, padding (RFC 5389 section 15). */
module StunAttributes {
  import opened Prelude

  // ----- big-endian fields -----

  function U16(s: seq<byte>, at: nat): nat
    requires at + 2 <= |s|
  {
    256 * (s[at] as nat) + s[at + 1]
  }

  lemma U16Bytes(v: nat)
    requires v < 0x1_0000
    ensures BeBytes(v, 2) == [v / 256, v % 256] && U16(BeBytes(v, 2), 0) == v
  {
    assert BeBytes(v / 256, 1) == [v / 256];
  }

  // ----- attributes -----

  datatype Attr = Attr(kind: nat, value: seq<byte>)

  predicate IsAttr(a: Attr) { a.kind < 0x1_0000 && |a.value| < 0x1_0000 }

  /** A length rounded up to a multiple of four. */
  function Padded(n: nat): (p: nat)
    ensures n <= p < n + 4 && p % 4 == 0
  {
    (n + 3) / 4 * 4
  }

  function EncodeAttr(a: Attr): (s: seq<byte>)
    ensures |s| == 4 + Padded(|a.value|)
  {
    BeBytes(a.kind, 2) + BeBytes(|a.value|, 2) + a.value + Zeros(Padded(|a.value|) - |a.value|)
  }

  function EncodeAttrs(attrs: seq<Attr>): seq<byte> {
    if attrs == [] then [] else EncodeAttr(attrs[0]) + EncodeAttrs(attrs[1..])
  }

  /** The attributes in a message body, up to the first that does not fit. */
  function Attributes(body: seq<byte>): seq<Attr>
    decreases |body|
  {
    if |body| < 4 then []
    else
      var len := U16(body, 2);
      if 4 + len > |body| then []
      else [Attr(U16(body, 0), body[4..4 + len])] + Attributes(AfterAttr(body, len))
  }

  function AfterAttr(body: seq<byte>, len: nat): (rest: seq<byte>)
    requires 4 + len <= |body|
    ensures |rest| < |body|
  {
    if 4 + Padded(len) <= |body| then body[4 + Padded(len)..] else []
  }

  /** Where everything is in an attribute: type and length, the most significant byte first, the value, and zeros up to
      a multiple of four. */
  lemma AttrLayout(a: Attr)
    ensures |EncodeAttr(a)| % 4 == 0 && 4 + |a.value| <= |EncodeAttr(a)| < 8 + |a.value|
    ensures EncodeAttr(a)[0] == a.kind / 256 % 256 && EncodeAttr(a)[1] == a.kind % 256
    ensures EncodeAttr(a)[2] == |a.value| / 256 % 256 && EncodeAttr(a)[3] == |a.value| % 256
    ensures EncodeAttr(a)[4..4 + |a.value|] == a.value
    ensures forall k :: 4 + |a.value| <= k < |EncodeAttr(a)| ==> EncodeAttr(a)[k] == 0
  {
    var n := |a.value|;
    assert BeBytes(a.kind / 256, 1) == [a.kind / 256 % 256] && BeBytes(n / 256, 1) == [n / 256 % 256];
    assert EncodeAttr(a)[..4] == BeBytes(a.kind, 2) + BeBytes(n, 2);
    assert EncodeAttr(a)[0] == EncodeAttr(a)[..4][0] && EncodeAttr(a)[1] == EncodeAttr(a)[..4][1];
    assert EncodeAttr(a)[2] == EncodeAttr(a)[..4][2] && EncodeAttr(a)[3] == EncodeAttr(a)[..4][3];
  }

  lemma {:induction false} AttributesRoundTrip(attrs: seq<Attr>)
    requires forall k :: 0 <= k < |attrs| ==> IsAttr(attrs[k])
    ensures Attributes(EncodeAttrs(attrs)) == attrs
  {
    if attrs != [] {
      assert IsAttr(attrs[0]);
      OneRoundTrip(attrs[0], EncodeAttrs(attrs[1..]));
      AttributesRoundTrip(attrs[1..]);
    }
  }

  lemma OneRoundTrip(a: Attr, rest: seq<byte>)
    requires IsAttr(a)
    ensures Attributes(EncodeAttr(a) + rest) == [a] + Attributes(rest)
  {
    var n := |a.value|;
    var fields, pad := BeBytes(a.kind, 2) + BeBytes(n, 2), Zeros(Padded(n) - n);
    var body := EncodeAttr(a) + rest;
    U16Bytes(a.kind);
    U16Bytes(n);
    Assoc(fields + a.value, pad, rest);
    assert forall k :: 0 <= k < 4 ==> body[k] == fields[k];
    assert U16(body, 0) == a.kind && U16(body, 2) == n;
    Middle(fields, a.value, pad + rest, 0, n);
    assert body[4..4 + n] == a.value && AfterAttr(body, n) == rest;
  }

  lemma CutAttribute(a: Attr, cut: nat)
    requires IsAttr(a) && cut <= |EncodeAttr(a)|
    ensures Attributes(EncodeAttr(a)[..cut]) == if cut < 4 + |a.value| then [] else [a]
  {
    var n, s := |a.value|, EncodeAttr(a)[..cut];
    AttrLayout(a);
    if cut >= 4 {
      assert s[0] == a.kind / 256 && s[1] == a.kind % 256 && s[2] == n / 256 && s[3] == n % 256;
      assert U16(s, 0) == a.kind && U16(s, 2) == n;
    }
    if cut >= 4 + n {
      assert s[4..4 + n] == a.value;
      assert AfterAttr(s, n) == [];
    }
  }

  /** A message that ends inside an attribute has those before it, and that one too if its value is whole. */
  lemma {:induction false} CutAttributes(attrs: seq<Attr>, a: Attr, cut: nat)
    requires IsAttr(a) && cut <= |EncodeAttr(a)| && forall k :: 0 <= k < |attrs| ==> IsAttr(attrs[k])
    ensures Attributes(EncodeAttrs(attrs) + EncodeAttr(a)[..cut]) == attrs + if cut < 4 + |a.value| then [] else [a]
  {
    var tail := EncodeAttr(a)[..cut];
    if attrs == [] {
      CutAttribute(a, cut);
      assert EncodeAttrs(attrs) + tail == tail;
    } else {
      assert IsAttr(attrs[0]);
      Assoc(EncodeAttr(attrs[0]), EncodeAttrs(attrs[1..]), tail);
      OneRoundTrip(attrs[0], EncodeAttrs(attrs[1..]) + tail);
      CutAttributes(attrs[1..], a, cut);
      assert EncodeAttrs(attrs) + tail == EncodeAttr(attrs[0]) + (EncodeAttrs(attrs[1..]) + tail);
    }
  }

  // ----- the first attribute a reader accepts -----

  function First<A>(attrs: seq<Attr>, read: Attr -> Option<A>): Option<A> {
    if attrs == [] then None else if read(attrs[0]).Some? then read(attrs[0]) else First(attrs[1..], read)
  }

  /** It is what the reader makes of the first attribute it accepts, and nothing only when it accepts none. */
  lemma {:induction false} FirstIsFirst<A>(attrs: seq<Attr>, read: Attr -> Option<A>, k: nat)
    requires k <= |attrs| && forall j :: 0 <= j < k ==> read(attrs[j]) == None
    ensures First(attrs, read) == First(attrs[k..], read)
    ensures k < |attrs| && read(attrs[k]).Some? ==> First(attrs, read) == read(attrs[k])
    ensures k == |attrs| ==> First(attrs, read) == None
  {
    if k > 0 {
      FirstIsFirst(attrs[1..], read, k - 1);
      assert attrs[1..][k - 1..] == attrs[k..];
    } else {
      assert attrs[0..] == attrs;
    }
  }

  // ----- the loop -----

  /** The parser's loop over the attributes between offset 20 and `end`. */
  method Scan<A>(data: seq<byte>, read: Attr -> Option<A>, end: nat) returns (r: Option<A>)
    requires 20 <= end <= |data|
    ensures r == Scanned(data, read, 20, end)
  {
    var offset := 20;
    while offset + 4 <= end
      invariant 20 <= offset
      invariant Scanned(data, read, 20, end) == Scanned(data, read, offset, end)
      decreases end - offset
    {
      var attrType := U16(data, offset);
      var attrLen := U16(data, offset + 2);
      offset := offset + 4;
      if offset + attrLen > end {
        break;
      }
      r := read(Attr(attrType, data[offset..offset + attrLen]));
      if r.Some? {
        return;
      }
      offset := offset + Padded(attrLen);
    }
    r := None;
  }

  /** What the loop finds from an offset on. */
  function Scanned<A>(data: seq<byte>, read: Attr -> Option<A>, offset: nat, end: nat): Option<A>
    requires end <= |data|
    decreases end - offset
  {
    if offset + 4 > end then None
    else
      var len := U16(data, offset + 2);
      if offset + 4 + len > end then None
      else
        var here := read(Attr(U16(data, offset), data[offset + 4..offset + 4 + len]));
        if here.Some? then here else Scanned(data, read, offset + 4 + Padded(len), end)
  }

  lemma {:induction false} ScannedIsFirst<A>(data: seq<byte>, read: Attr -> Option<A>, offset: nat, end: nat)
    requires end <= |data|
    ensures Scanned(data, read, offset, end) == First(Attributes(From(data, offset, end)), read)
    decreases end - offset
  {
    if offset + 4 > end || offset + 4 + U16(data, offset + 2) > end {
      NothingFits(data, read, offset, end);
    } else {
      var len := U16(data, offset + 2);
      var next, here := offset + 4 + Padded(len), Here(data, read, offset, len);
      ScannedIsFirst(data, read, next, end);
      OneTurn(data, read, offset, end, next, here);
      ScannedTurn(data, read, offset, end, next, here);
    }
  }

  /** What the reader makes of the attribute at the offset. */
  function Here<A>(data: seq<byte>, read: Attr -> Option<A>, offset: nat, len: nat): Option<A>
    requires offset + 4 + len <= |data|
  {
    read(Attr(U16(data, offset), data[offset + 4..offset + 4 + len]))
  }

  lemma ScannedTurn<A>(data: seq<byte>, read: Attr -> Option<A>, offset: nat, end: nat, next: nat, here: Option<A>)
    requires offset + 4 <= end <= |data| && offset + 4 + U16(data, offset + 2) <= end
    requires next == offset + 4 + Padded(U16(data, offset + 2)) && here == Here(data, read, offset, U16(data, offset + 2))
    ensures Scanned(data, read, offset, end) == if here.Some? then here else Scanned(data, read, next, end)
  {
  }

  lemma NothingFits<A>(data: seq<byte>, read: Attr -> Option<A>, offset: nat, end: nat)
    requires end <= |data| && (offset + 4 > end || offset + 4 + U16(data, offset + 2) > end)
    ensures Scanned(data, read, offset, end) == None && First(Attributes(From(data, offset, end)), read) == None
  {
    if offset + 4 <= end {
      FieldsAt(data, offset, end);
    }
    assert Attributes(From(data, offset, end)) == [];
  }

  lemma OneTurn<A>(data: seq<byte>, read: Attr -> Option<A>, offset: nat, end: nat, next: nat, here: Option<A>)
    requires offset + 4 <= end <= |data| && offset + 4 + U16(data, offset + 2) <= end
    requires next == offset + 4 + Padded(U16(data, offset + 2)) && here == Here(data, read, offset, U16(data, offset + 2))
    ensures First(Attributes(From(data, offset, end)), read)
            == if here.Some? then here else First(Attributes(From(data, next, end)), read)
  {
    var body, len := From(data, offset, end), U16(data, offset + 2);
    var a := Attr(U16(data, offset), data[offset + 4..offset + 4 + len]);
    FieldsAt(data, offset, end);
    ValueAt(data, offset, end, len);
    assert a == Attr(U16(body, 0), body[4..4 + len]);
    Unfolded(body, read, a, From(data, next, end));
  }

  lemma Unfolded<A>(body: seq<byte>, read: Attr -> Option<A>, a: Attr, rest: seq<byte>)
    requires |body| >= 4 && 4 + U16(body, 2) <= |body|
    requires a == Attr(U16(body, 0), body[4..4 + U16(body, 2)]) && rest == AfterAttr(body, U16(body, 2))
    ensures First(Attributes(body), read) == if read(a).Some? then read(a) else First(Attributes(rest), read)
  {
    assert Attributes(body) == [a] + Attributes(rest);
    assert Attributes(body)[1..] == Attributes(rest);
  }

  /** What is left of the message at an offset that may have run past its end. */
  function From(data: seq<byte>, offset: nat, end: nat): seq<byte>
    requires end <= |data|
  {
    if offset <= end then data[offset..end] else []
  }

  lemma FieldsAt(data: seq<byte>, offset: nat, end: nat)
    requires offset + 4 <= end <= |data|
    ensures var body := From(data, offset, end); U16(body, 0) == U16(data, offset) && U16(body, 2) == U16(data, offset + 2)
  {
  }

  lemma ValueAt(data: seq<byte>, offset: nat, end: nat, len: nat)
    requires offset + 4 + len <= end <= |data|
    ensures From(data, offset, end)[4..4 + len] == data[offset + 4..offset + 4 + len]
    ensures AfterAttr(From(data, offset, end), len) == From(data, offset + 4 + Padded(len), end)
  {
    SliceOfSlice(data, offset, end, 4, 4 + len);
    if offset + 4 + Padded(len) <= end {
      SliceOfSlice(data, offset, end, 4 + Padded(len), end - offset);
    }
  }
}
