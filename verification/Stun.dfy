/** The STUN client: reading a binding response, and which datagrams a query listens to
    (core/src/traversal/stun.rs; RFC 5389 sections 6, 15, 15.1 and 15.2). */
module Stun {
  import opened Prelude
  import opened StunAttributes

  const BINDING_RESPONSE: nat := 0x0101
  const MAGIC_COOKIE: nat := 0x2112_A442
  const COOKIE_HIGH: nat := 0x2112
  const ATTR_MAPPED_ADDRESS: nat := 0x0001
  const ATTR_XOR_MAPPED_ADDRESS: nat := 0x0020
  const BUFFER: nat := 1500

  /** An IPv4 address is a number below 2^32, an IPv6 address sixteen bytes. */
  datatype Ip = V4(value: nat) | V6(octets: seq<byte>)

  datatype SocketAddr = SocketAddr(ip: Ip, port: nat)

  predicate IsAddr(a: SocketAddr) {
    a.port < 0x1_0000 && match a.ip case V4(v) => v < U32 case V6(octets) => |octets| == 16
  }

  datatype StunError = TooShort | WrongType | WrongCookie | UnknownFamily | NoAddress | Timeout

  function U32At(s: seq<byte>, at: nat): nat
    requires at + 4 <= |s|
  {
    256 * (256 * U16(s, at) + s[at + 2]) + s[at + 3]
  }

  lemma U32Bytes(v: nat)
    requires v < U32
    ensures U32At(BeBytes(v, 4), 0) == v
  {
    var high := v / 256 / 256;
    U16Bytes(high);
    assert BeBytes(v / 256, 3) == BeBytes(high, 2) + [v / 256 % 256];
    assert BeBytes(v, 4) == BeBytes(v / 256, 3) + [v % 256];
    assert U16(BeBytes(v, 4), 0) == high;
  }

  // ----- exclusive or, on numbers of `n` bits -----

  function Pow2(n: nat): (p: nat)
    ensures p >= 1
  {
    if n == 0 then 1 else 2 * Pow2(n - 1)
  }

  function XorBit(a: nat, b: nat): nat { if a % 2 == b % 2 then 0 else 1 }

  function Xor(a: nat, b: nat, n: nat): (x: nat)
    ensures x < Pow2(n)
    decreases n, a, b
  {
    if n == 0 then 0 else XorBit(a, b) + 2 * Xor(a / 2, b / 2, n - 1)
  }

  lemma LowBit(bit: nat, rest: nat)
    requires bit < 2
    ensures (bit + 2 * rest) % 2 == bit && (bit + 2 * rest) / 2 == rest
  {
  }

  lemma DivTwo(v: nat, p: nat)
    requires p > 0
    ensures v / 2 / p == v / (2 * p)
  {
    var q, r := v / 2 / p, v / 2 % p;
    assert v / 2 == q * p + r;
    assert q * (2 * p) == 2 * (q * p);
    QuotientIs(v, q, 2 * r + v % 2, 2 * p);
  }

  /** Bit `k` of the exclusive or is set exactly when that of just one of the two numbers is. */
  lemma {:induction false} XorIsBitwise(a: nat, b: nat, n: nat, k: nat)
    requires k < n
    ensures Xor(a, b, n) / Pow2(k) % 2 == 1 <==> a / Pow2(k) % 2 != b / Pow2(k) % 2
  {
    LowBit(XorBit(a, b), Xor(a / 2, b / 2, n - 1));
    if k > 0 {
      XorIsBitwise(a / 2, b / 2, n - 1, k - 1);
      DivTwo(Xor(a, b, n), Pow2(k - 1));
      DivTwo(a, Pow2(k - 1));
      DivTwo(b, Pow2(k - 1));
    }
  }

  lemma XorBitTwice(a: nat, b: nat, rest: nat)
    ensures XorBit(XorBit(a, b) + 2 * rest, b) == a % 2
  {
    LowBit(XorBit(a, b), rest);
  }

  lemma {:induction false} XorTwice(a: nat, b: nat, n: nat)
    requires a < Pow2(n)
    ensures Xor(Xor(a, b, n), b, n) == a
  {
    if n > 0 {
      var rest := Xor(a / 2, b / 2, n - 1);
      LowBit(XorBit(a, b), rest);
      XorBitTwice(a, b, rest);
      XorTwice(a / 2, b / 2, n - 1);
    }
  }

  lemma XorWidths()
    ensures Pow2(8) == 256 && Pow2(16) == 0x1_0000 && Pow2(32) == U32
  {
    assert Pow2(4) == 16;
    assert Pow2(8) == 256;
    assert Pow2(12) == 4096;
    assert Pow2(16) == 65536;
    assert Pow2(20) == 0x10_0000;
    assert Pow2(24) == 0x100_0000;
    assert Pow2(28) == 0x1000_0000;
  }

  function XorByte(a: byte, b: byte): byte {
    assert Xor(a, b, 8) < 256 by { XorWidths(); }
    Xor(a, b, 8)
  }

  function XorBytes(a: seq<byte>, key: seq<byte>): (x: seq<byte>)
    requires |a| == |key|
    ensures |x| == |a|
  {
    seq(|a|, i requires 0 <= i < |a| => XorByte(a[i], key[i]))
  }

  lemma XorBytesTwice(a: seq<byte>, key: seq<byte>)
    requires |a| == |key|
    ensures XorBytes(XorBytes(a, key), key) == a
  {
    XorWidths();
    forall i | 0 <= i < |a|
      ensures XorByte(XorByte(a[i], key[i]), key[i]) == a[i]
    {
      XorTwice(a[i], key[i], 8);
    }
  }

  // ----- the two address attributes -----

  function V6Key(txId: seq<byte>): seq<byte> { BeBytes(MAGIC_COOKIE, 4) + txId }

  function ParseXorMapped(attr: seq<byte>, txId: seq<byte>): Result<SocketAddr, StunError>
    requires |txId| == 12
  {
    if |attr| < 8 then Err(TooShort)
    else
      var port := Xor(U16(attr, 2), COOKIE_HIGH, 16);
      match attr[1]
      case 1 => Ok(SocketAddr(V4(Xor(U32At(attr, 4), MAGIC_COOKIE, 32)), port))
      case 2 => if |attr| < 20 then Err(TooShort) else Ok(SocketAddr(V6(XorBytes(attr[4..20], V6Key(txId))), port))
      case _ => Err(UnknownFamily)
  }

  function ParseMapped(attr: seq<byte>): Result<SocketAddr, StunError> {
    if |attr| < 8 then Err(TooShort)
    else
      var port := U16(attr, 2);
      match attr[1]
      case 1 => Ok(SocketAddr(V4(U32At(attr, 4)), port))
      case 2 => if |attr| < 20 then Err(TooShort) else Ok(SocketAddr(V6(attr[4..20]), port))
      case _ => Err(UnknownFamily)
  }

  /** An address as RFC 5389 section 15.2 has it in an XOR-MAPPED-ADDRESS. */
  function XorMapped(a: SocketAddr, txId: seq<byte>): (value: seq<byte>)
    requires IsAddr(a) && |txId| == 12
    ensures 8 <= |value| <= 20
  {
    var port := BeBytes(Xor(a.port, COOKIE_HIGH, 16), 2);
    match a.ip
    case V4(v) => [0, 1] + port + BeBytes(Xor(v, MAGIC_COOKIE, 32), 4)
    case V6(octets) => [0, 2] + port + XorBytes(octets, V6Key(txId))
  }

  /** ... and as section 15.1 has it in a MAPPED-ADDRESS. */
  function Mapped(a: SocketAddr): (value: seq<byte>)
    requires IsAddr(a)
    ensures 8 <= |value| <= 20
  {
    match a.ip
    case V4(v) => [0, 1] + BeBytes(a.port, 2) + BeBytes(v, 4)
    case V6(octets) => [0, 2] + BeBytes(a.port, 2) + octets
  }

  lemma MappedRoundTrip(a: SocketAddr)
    requires IsAddr(a)
    ensures ParseMapped(Mapped(a)) == Ok(a)
  {
    var value := Mapped(a);
    U16Bytes(a.port);
    assert value[2] == BeBytes(a.port, 2)[0] && value[3] == BeBytes(a.port, 2)[1];
    match a.ip
    case V4(v) =>
      U32Bytes(v);
      assert value[4] == BeBytes(v, 4)[0] && value[5] == BeBytes(v, 4)[1];
      assert value[6] == BeBytes(v, 4)[2] && value[7] == BeBytes(v, 4)[3];
    case V6(octets) => assert value[4..20] == octets;
  }

  /** Reading an address back gives the address. */
  lemma XorMappedRoundTrip(a: SocketAddr, txId: seq<byte>)
    requires IsAddr(a) && |txId| == 12
    ensures ParseXorMapped(XorMapped(a, txId), txId) == Ok(a)
  {
    PortRoundTrip(a, txId);
    match a.ip
    case V4(v) => V4RoundTrip(a, txId);
    case V6(octets) =>
      XorBytesTwice(octets, V6Key(txId));
      assert XorMapped(a, txId)[4..20] == XorBytes(octets, V6Key(txId));
  }

  lemma PortRoundTrip(a: SocketAddr, txId: seq<byte>)
    requires IsAddr(a) && |txId| == 12
    ensures Xor(U16(XorMapped(a, txId), 2), COOKIE_HIGH, 16) == a.port
  {
    XorWidths();
    var value, xport := XorMapped(a, txId), Xor(a.port, COOKIE_HIGH, 16);
    U16Bytes(xport);
    assert value[2] == BeBytes(xport, 2)[0] && value[3] == BeBytes(xport, 2)[1];
    XorTwice(a.port, COOKIE_HIGH, 16);
  }

  lemma V4RoundTrip(a: SocketAddr, txId: seq<byte>)
    requires IsAddr(a) && |txId| == 12 && a.ip.V4?
    ensures var value := XorMapped(a, txId); |value| == 8 && Xor(U32At(value, 4), MAGIC_COOKIE, 32) == a.ip.value
  {
    XorWidths();
    var value, xip := XorMapped(a, txId), Xor(a.ip.value, MAGIC_COOKIE, 32);
    U32Bytes(xip);
    V4Bytes(a, txId);
    XorTwice(a.ip.value, MAGIC_COOKIE, 32);
  }

  lemma V4Bytes(a: SocketAddr, txId: seq<byte>)
    requires IsAddr(a) && |txId| == 12 && a.ip.V4?
    ensures var value, xip := XorMapped(a, txId), BeBytes(Xor(a.ip.value, MAGIC_COOKIE, 32), 4);
            |value| == 8 && U32At(value, 4) == U32At(xip, 0)
  {
    var value, xip := XorMapped(a, txId), BeBytes(Xor(a.ip.value, MAGIC_COOKIE, 32), 4);
    assert value[4] == xip[0] && value[5] == xip[1] && value[6] == xip[2] && value[7] == xip[3];
  }

  /** What the keys are: the cookie, its upper half, and the cookie followed by the transaction id. */
  lemma KeysAre(txId: seq<byte>)
    ensures MAGIC_COOKIE == 0x2112_A442 && COOKIE_HIGH == MAGIC_COOKIE / 0x1_0000
    ensures V6Key(txId) == [0x21, 0x12, 0xA4, 0x42] + txId
  {
    BeDigit(MAGIC_COOKIE, 4, 0);
    BeDigit(MAGIC_COOKIE, 4, 1);
    BeDigit(MAGIC_COOKIE, 4, 2);
    BeDigit(MAGIC_COOKIE, 4, 3);
    assert BeBytes(MAGIC_COOKIE, 4) == [0x21, 0x12, 0xA4, 0x42];
  }

  /** The address of family 2: its octet `i` is bit by bit where the attribute differs from the key. */
  lemma ReadsV6(attr: seq<byte>, txId: seq<byte>, i: nat, k: nat)
    requires |txId| == 12 && |attr| >= 20 && attr[1] == 2 && i < 16 && k < 8
    ensures var r := ParseXorMapped(attr, txId);
            && r.Ok? && r.value.ip.V6? && |r.value.ip.octets| == 16
            && (r.value.ip.octets[i] / Pow2(k) % 2 == 1
                <==> attr[4 + i] / Pow2(k) % 2 != ([0x21, 0x12, 0xA4, 0x42] + txId)[i] / Pow2(k) % 2)
  {
    KeysAre(txId);
    XorIsBitwise(attr[4..20][i], V6Key(txId)[i], 8, k);
  }

  // ----- a sample, digit by digit -----

  /** A number from its hexadecimal digits. */
  function Hex(digits: seq<nat>): nat {
    if digits == [] then 0 else 16 * Hex(digits[..|digits| - 1]) + digits[|digits| - 1]
  }

  predicate BitXor(x: nat, y: nat, z: nat) { x < 2 && y < 2 && z == if x == y then 0 else 1 }

  predicate DigitXor(x: nat, y: nat, z: nat) {
    && BitXor(x / 8, y / 8, z / 8) && BitXor(x / 4 % 2, y / 4 % 2, z / 4 % 2)
    && BitXor(x / 2 % 2, y / 2 % 2, z / 2 % 2) && BitXor(x % 2, y % 2, z % 2)
  }

  /** Two numbers and their exclusive or, continued by one bit. */
  lemma WithBit(a: nat, b: nat, n: nat, c: nat, x: nat, y: nat, z: nat) returns (a': nat, b': nat, n': nat, c': nat)
    requires Xor(a, b, n) == c && BitXor(x, y, z)
    ensures a' == 2 * a + x && b' == 2 * b + y && n' == n + 1 && c' == 2 * c + z && Xor(a', b', n') == c'
  {
    LowBit(x, a);
    LowBit(y, b);
    return 2 * a + x, 2 * b + y, n + 1, 2 * c + z;
  }

  /** ... and by four. */
  lemma WithDigit(a: nat, b: nat, n: nat, c: nat, x: nat, y: nat, z: nat) returns (a': nat, b': nat, n': nat, c': nat)
    requires Xor(a, b, n) == c && DigitXor(x, y, z)
    ensures a' == 16 * a + x && b' == 16 * b + y && n' == n + 4 && c' == 16 * c + z && Xor(a', b', n') == c'
  {
    a', b', n', c' := WithBit(a, b, n, c, x / 8, y / 8, z / 8);
    a', b', n', c' := WithBit(a', b', n', c', x / 4 % 2, y / 4 % 2, z / 4 % 2);
    a', b', n', c' := WithBit(a', b', n', c', x / 2 % 2, y / 2 % 2, z / 2 % 2);
    a', b', n', c' := WithBit(a', b', n', c', x % 2, y % 2, z % 2);
    Bits(a, x);
    Bits(b, y);
    Bits(c, z);
  }

  lemma Bits(a: nat, x: nat)
    ensures 2 * (2 * (2 * (2 * a + x / 8) + x / 4 % 2) + x / 2 % 2) + x % 2 == 16 * a + x
  {
    assert x / 2 == 2 * (x / 4) + x / 2 % 2;
    assert x / 4 == 2 * (x / 8) + x / 4 % 2;
  }

  lemma {:induction false} XorOfHex(xs: seq<nat>, ys: seq<nat>, zs: seq<nat>, n: nat)
    requires |xs| == |ys| == |zs| && n == 4 * |xs| && forall k :: 0 <= k < |xs| ==> DigitXor(xs[k], ys[k], zs[k])
    ensures Xor(Hex(xs), Hex(ys), n) == Hex(zs)
  {
    if xs != [] {
      var m := |xs| - 1;
      XorOfHex(xs[..m], ys[..m], zs[..m], n - 4);
      var _, _, _, _ := WithDigit(Hex(xs[..m]), Hex(ys[..m]), n - 4, Hex(zs[..m]), xs[m], ys[m], zs[m]);
    }
  }

  lemma HexMore(digits: seq<nat>, x: nat)
    ensures Hex(digits + [x]) == 16 * Hex(digits) + x
  {
    assert (digits + [x])[..|digits|] == digits;
  }

  lemma HexFour(s: seq<nat>, x: nat, y: nat, z: nat, u: nat)
    ensures Hex(s + [x, y, z, u]) == 16 * (16 * (16 * (16 * Hex(s) + x) + y) + z) + u
  {
    HexMore(s, x);
    HexMore(s + [x], y);
    HexMore(s + [x] + [y], z);
    HexMore(s + [x] + [y] + [z], u);
    assert s + [x, y, z, u] == s + [x] + [y] + [z] + [u];
  }

  lemma FourDigits(x: nat, y: nat, z: nat, u: nat)
    ensures Hex([x, y, z, u]) == 16 * (16 * (16 * x + y) + z) + u
  {
    HexFour([], x, y, z, u);
    assert [] + [x, y, z, u] == [x, y, z, u];
  }

  lemma EightDigits(a: nat, b: nat, c: nat, d: nat, x: nat, y: nat, z: nat, u: nat)
    ensures Hex([a, b, c, d, x, y, z, u])
            == 0x1_0000 * (16 * (16 * (16 * a + b) + c) + d) + (16 * (16 * (16 * x + y) + z) + u)
  {
    FourDigits(a, b, c, d);
    HexFour([a, b, c, d], x, y, z, u);
    assert [a, b, c, d] + [x, y, z, u] == [a, b, c, d, x, y, z, u];
  }

  lemma SamplePort(port: nat, key: nat)
    requires port == 0xA147 && key == 0x2112
    ensures Xor(port, key, 16) == 0x8055
  {
    XorOfHex([0xA, 1, 4, 7], [2, 1, 1, 2], [8, 0, 5, 5], 16);
    FourDigits(0xA, 1, 4, 7);
    FourDigits(2, 1, 1, 2);
    FourDigits(8, 0, 5, 5);
  }

  lemma SampleAddress(address: nat, key: nat)
    requires address == 0xE112_A643 && key == 0x2112_A442
    ensures Xor(address, key, 32) == 0xC000_0201
  {
    var xs, ys, zs := [0xE, 1, 1, 2, 0xA, 6, 4, 3], [2, 1, 1, 2, 0xA, 4, 4, 2], [0xC, 0, 0, 0, 0, 2, 0, 1];
    XorOfHex(xs, ys, zs, 32);
    EightDigits(0xE, 1, 1, 2, 0xA, 6, 4, 3);
    EightDigits(2, 1, 1, 2, 0xA, 4, 4, 2);
    EightDigits(0xC, 0, 0, 0, 0, 2, 0, 1);
  }

  /** The IPv4 attribute of the sample response in section 2.2 of RFC 5769: 192.0.2.1, port 32853. */
  lemma ReadsSampleV4(attr: seq<byte>, txId: seq<byte>)
    requires |txId| == 12 && attr == [0x00, 0x01, 0xA1, 0x47, 0xE1, 0x12, 0xA6, 0x43]
    ensures ParseXorMapped(attr, txId) == Ok(SocketAddr(V4(0xC000_0201), 32853))
  {
    SampleXors(attr);
    ReadsV4(attr, txId, 32853, 0xC000_0201);
  }

  lemma SampleXors(attr: seq<byte>)
    requires attr == [0x00, 0x01, 0xA1, 0x47, 0xE1, 0x12, 0xA6, 0x43]
    ensures IsXored(U16(attr, 2), COOKIE_HIGH, 16, 32853) && IsXored(U32At(attr, 4), MAGIC_COOKIE, 32, 0xC000_0201)
  {
    SampleNumbers(attr);
    SamplePort(U16(attr, 2), COOKIE_HIGH);
    SampleAddress(U32At(attr, 4), MAGIC_COOKIE);
  }

  predicate IsXored(a: nat, b: nat, n: nat, c: nat) { Xor(a, b, n) == c }

  lemma ReadsV4(attr: seq<byte>, txId: seq<byte>, port: nat, address: nat)
    requires |txId| == 12 && |attr| >= 8 && attr[1] == 1
    requires IsXored(U16(attr, 2), COOKIE_HIGH, 16, port) && IsXored(U32At(attr, 4), MAGIC_COOKIE, 32, address)
    ensures ParseXorMapped(attr, txId) == Ok(SocketAddr(V4(address), port))
  {
  }

  lemma SampleNumbers(attr: seq<byte>)
    requires attr == [0x00, 0x01, 0xA1, 0x47, 0xE1, 0x12, 0xA6, 0x43]
    ensures U16(attr, 2) == 0xA147 && U32At(attr, 4) == 0xE112_A643
  {
  }

  /** An attribute is no address exactly if it is of another type, too short, or of another family. */
  lemma UnreadableIff(a: Attr, txId: seq<byte>)
    requires |txId| == 12
    ensures AddressOf(a, txId) == None <==>
              || (a.kind != 0x0001 && a.kind != 0x0020)
              || |a.value| < 8
              || (a.value[1] != 1 && a.value[1] != 2)
              || (a.value[1] == 2 && |a.value| < 20)
  {
  }

  function AddressOf(a: Attr, txId: seq<byte>): Option<SocketAddr>
    requires |txId| == 12
  {
    var parsed :=
      if a.kind == ATTR_XOR_MAPPED_ADDRESS then ParseXorMapped(a.value, txId)
      else if a.kind == ATTR_MAPPED_ADDRESS then ParseMapped(a.value)
      else Err(NoAddress);
    match parsed case Ok(addr) => Some(addr) case Err(_) => None
  }

  function Reader(txId: seq<byte>): Attr -> Option<SocketAddr>
    requires |txId| == 12
  {
    a => AddressOf(a, txId)
  }

  // ----- the parser -----

  /** The attributes' bytes: as many as the length field says, or as there are. */
  function Body(data: seq<byte>): seq<byte>
    requires |data| >= 20
  {
    data[20..Min(20 + U16(data, 2), |data|)]
  }

  /** The first readable mapped address of the message. */
  function Parsed(data: seq<byte>): Result<SocketAddr, StunError> {
    if |data| < 20 then Err(TooShort)
    else if U16(data, 0) != BINDING_RESPONSE then Err(WrongType)
    else if U32At(data, 4) != MAGIC_COOKIE then Err(WrongCookie)
    else match First(Attributes(Body(data)), Reader(data[8..20])) case Some(a) => Ok(a) case None => Err(NoAddress)
  }

  lemma HeaderFields(data: seq<byte>)
    ensures |data| >= 20 ==> (U16(data, 0) == 0x0101 <==> data[..2] == [0x01, 0x01])
    ensures |data| >= 20 ==> (U32At(data, 4) == 0x2112_A442 <==> data[4..8] == [0x21, 0x12, 0xA4, 0x42])
  {
    if |data| >= 20 {
      assert data[..2] == [data[0], data[1]] && data[4..8] == [data[4], data[5], data[6], data[7]];
    }
  }

  method ParseBindingResponse(data: seq<byte>) returns (r: Result<SocketAddr, StunError>)
    ensures r == Parsed(data)
    ensures |data| < 20 ==> r == Err(TooShort)
    ensures |data| >= 20 && data[..2] != [0x01, 0x01] ==> r == Err(WrongType)
    ensures |data| >= 20 && data[..2] == [0x01, 0x01] && data[4..8] != [0x21, 0x12, 0xA4, 0x42] ==> r == Err(WrongCookie)
    ensures |data| >= 20 && data[..2] == [0x01, 0x01] && data[4..8] == [0x21, 0x12, 0xA4, 0x42] ==>
              r.Ok? || r == Err(NoAddress)
  {
    HeaderFields(data);
    if |data| < 20 {
      return Err(TooShort);
    }
    if U16(data, 0) != BINDING_RESPONSE {
      return Err(WrongType);
    }
    var msgLen := U16(data, 2);
    if U32At(data, 4) != MAGIC_COOKIE {
      return Err(WrongCookie);
    }
    var end := Min(20 + msgLen, |data|);
    ScannedIsFirst(data, Reader(data[8..20]), 20, end);
    var found := Scan(data, Reader(data[8..20]), end);
    r := match found case Some(a) => Ok(a) case None => Err(NoAddress);
  }

  // ----- a server's response -----

  function Response(attrs: seq<Attr>, txId: seq<byte>): seq<byte> {
    BeBytes(BINDING_RESPONSE, 2) + BeBytes(|EncodeAttrs(attrs)|, 2) + BeBytes(MAGIC_COOKIE, 4) + txId + EncodeAttrs(attrs)
  }

  lemma ResponseFields(attrs: seq<Attr>, txId: seq<byte>, trailing: seq<byte>)
    requires |txId| == 12 && |EncodeAttrs(attrs)| < 0x1_0000
    ensures var data := Response(attrs, txId) + trailing;
            && |data| >= 20 && data[8..20] == txId && Body(data) == EncodeAttrs(attrs)
            && U16(data, 0) == BINDING_RESPONSE && U32At(data, 4) == MAGIC_COOKIE
  {
    var body := EncodeAttrs(attrs);
    var kind, length, cookie := BeBytes(BINDING_RESPONSE, 2), BeBytes(|body|, 2), BeBytes(MAGIC_COOKIE, 4);
    var head, data := kind + length + cookie, Response(attrs, txId) + trailing;
    U16Bytes(BINDING_RESPONSE);
    U16Bytes(|body|);
    U32Bytes(MAGIC_COOKIE);
    assert forall k :: 0 <= k < 8 ==> data[k] == head[k];
    assert forall k :: 0 <= k < 4 ==> head[4 + k] == cookie[k];
    assert U16(data, 0) == U16(kind, 0) && U16(data, 2) == U16(length, 0) && U32At(data, 4) == U32At(cookie, 0);
    Assoc(head + txId, body, trailing);
    Assoc(head, txId, body + trailing);
    Middle(head, txId, body + trailing, 0, 12);
    Middle(head + txId, body, trailing, 0, |body|);
  }

  lemma ResponseIsRead(attrs: seq<Attr>, txId: seq<byte>, trailing: seq<byte>)
    requires |txId| == 12 && |EncodeAttrs(attrs)| < 0x1_0000
    requires forall k :: 0 <= k < |attrs| ==> IsAttr(attrs[k])
    ensures var data := Response(attrs, txId) + trailing;
            && |data| >= 20 && data[8..20] == txId && Attributes(Body(data)) == attrs
            && U16(data, 0) == BINDING_RESPONSE && U32At(data, 4) == MAGIC_COOKIE
  {
    ResponseFields(attrs, txId, trailing);
    AttributesRoundTrip(attrs);
  }

  /** An address attribute of either kind. */
  function AddressAttr(a: SocketAddr, txId: seq<byte>, xored: bool): Attr
    requires IsAddr(a) && |txId| == 12
  {
    if xored then Attr(ATTR_XOR_MAPPED_ADDRESS, XorMapped(a, txId)) else Attr(ATTR_MAPPED_ADDRESS, Mapped(a))
  }

  lemma AddressIsRead(a: SocketAddr, txId: seq<byte>, xored: bool)
    requires IsAddr(a) && |txId| == 12
    ensures IsAttr(AddressAttr(a, txId, xored)) && AddressOf(AddressAttr(a, txId, xored), txId) == Some(a)
  {
    XorMappedRoundTrip(a, txId);
    MappedRoundTrip(a);
  }

  /** Whatever attributes a server puts first, if none of them is a readable mapped address, and whatever comes
      after, the address in its mapped-address attribute is what the parser returns. */
  lemma MappedIsFound(before: seq<Attr>, a: SocketAddr, xored: bool, after: seq<Attr>, txId: seq<byte>,
        trailing: seq<byte>)
    requires IsAddr(a) && |txId| == 12
    requires forall k :: 0 <= k < |before| ==> IsAttr(before[k]) && AddressOf(before[k], txId) == None
    requires forall k :: 0 <= k < |after| ==> IsAttr(after[k])
    requires |EncodeAttrs(before + [AddressAttr(a, txId, xored)] + after)| < 0x1_0000
    ensures Parsed(Response(before + [AddressAttr(a, txId, xored)] + after, txId) + trailing) == Ok(a)
  {
    var attrs := before + [AddressAttr(a, txId, xored)] + after;
    AddressIsRead(a, txId, xored);
    assert attrs[|before|] == AddressAttr(a, txId, xored);
    assert forall k :: 0 <= k < |before| ==> attrs[k] == before[k];
    assert forall k :: 0 <= k < |after| ==> attrs[|before| + 1 + k] == after[k];
    ResponseIsRead(attrs, txId, trailing);
    FirstIsFirst(attrs, Reader(txId), |before|);
  }

  /** A response with one attribute, byte by byte. */
  lemma ReadsSampleResponse(txId: seq<byte>, value: seq<byte>, trailing: seq<byte>, data: seq<byte>)
    requires |txId| == 12 && value == [0x00, 0x01, 0xA1, 0x47, 0xE1, 0x12, 0xA6, 0x43]
    requires data == [0x01, 0x01, 0x00, 0x0C, 0x21, 0x12, 0xA4, 0x42] + txId + ([0x00, 0x20, 0x00, 0x08] + value) + trailing
    ensures Parsed(data) == Ok(SocketAddr(V4(0xC000_0201), 32853))
  {
    ReadsSampleV4(value, txId);
    OneAttribute(txId, 0x20, value, trailing, data);
  }

  /** ... of either kind. */
  lemma ReadsPlainResponse(txId: seq<byte>, value: seq<byte>, trailing: seq<byte>, data: seq<byte>)
    requires |txId| == 12 && value == [0x00, 0x01, 0x80, 0x55, 0xC0, 0x00, 0x02, 0x01]
    requires data == [0x01, 0x01, 0x00, 0x0C, 0x21, 0x12, 0xA4, 0x42] + txId + ([0x00, 0x01, 0x00, 0x08] + value) + trailing
    ensures Parsed(data) == Ok(SocketAddr(V4(0xC000_0201), 32853))
  {
    OneAttribute(txId, 0x01, value, trailing, data);
  }

  lemma OneAttribute(txId: seq<byte>, kind: nat, value: seq<byte>, trailing: seq<byte>, data: seq<byte>)
    requires |txId| == 12 && kind < 256 && |value| == 8
    requires data == [0x01, 0x01, 0x00, 0x0C, 0x21, 0x12, 0xA4, 0x42] + txId + ([0x00, kind, 0x00, 0x08] + value) + trailing
    ensures Parsed(data) == match AddressOf(Attr(kind, value), txId) case Some(a) => Ok(a) case None => Err(NoAddress)
  {
    var a := Attr(kind, value);
    var fields: seq<byte> := [0x00, kind, 0x00, 0x08];
    OneAttributeBody(txId, fields, value, trailing, data);
    assert (fields + value)[4..12] == value && AfterAttr(fields + value, 8) == [];
    assert Attributes(fields + value) == [a] + Attributes([]);
    FirstIsFirst([a], Reader(txId), 0);
    FirstIsFirst([a], Reader(txId), if AddressOf(a, txId) == None then 1 else 0);
    assert [a] + [] == [a];
  }

  lemma OneAttributeBody(txId: seq<byte>, fields: seq<byte>, value: seq<byte>, trailing: seq<byte>, data: seq<byte>)
    requires |txId| == 12 && |fields| == 4 && |value| == 8
    requires data == [0x01, 0x01, 0x00, 0x0C, 0x21, 0x12, 0xA4, 0x42] + txId + (fields + value) + trailing
    ensures |data| >= 20 && Body(data) == fields + value && data[8..20] == txId
    ensures U16(data, 0) == 0x0101 && U32At(data, 4) == 0x2112_A442
  {
    var head: seq<byte> := [0x01, 0x01, 0x00, 0x0C, 0x21, 0x12, 0xA4, 0x42];
    assert forall k :: 0 <= k < 8 ==> data[k] == head[k];
    Middle(head, txId, (fields + value) + trailing, 0, 12);
    assert data == head + txId + ((fields + value) + trailing);
    Middle(head + txId, fields + value, trailing, 0, 12);
  }

  // ----- the query -----

  datatype Datagram = Datagram(from: SocketAddr, bytes: seq<byte>)

  /** What `recv_from` leaves in the buffer. */
  function Received(d: Datagram): seq<byte> { d.bytes[..Min(|d.bytes|, BUFFER)] }

  /** `inbox` is what arrives before the deadline. Other senders' datagrams and other transactions' are passed over;
      the first reply decides. */
  method Query(server: SocketAddr, txId: seq<byte>, inbox: seq<Datagram>)
    returns (r: Result<SocketAddr, StunError>, used: nat)
    requires |txId| == 12
    ensures used <= |inbox| && forall j :: 0 <= j < used ==>
              inbox[j].from != server || |inbox[j].bytes| < 20 || inbox[j].bytes[8..20] != txId
    ensures used == |inbox| ==> r == Err(Timeout)
    ensures used < |inbox| ==>
              && inbox[used].from == server && |inbox[used].bytes| >= 20 && inbox[used].bytes[8..20] == txId
              && r == Parsed(inbox[used].bytes[..Min(|inbox[used].bytes|, 1500)])
  {
    used := 0;
    while used < |inbox|
      invariant 0 <= used <= |inbox|
      invariant forall j :: 0 <= j < used ==>
                  inbox[j].from != server || |inbox[j].bytes| < 20 || inbox[j].bytes[8..20] != txId
    {
      var data := Received(inbox[used]);
      assert |data| >= 20 ==> data[8..20] == inbox[used].bytes[8..20];
      if inbox[used].from != server || |data| < 20 || data[8..20] != txId {
        used := used + 1;
        continue;
      }
      r := ParseBindingResponse(data);
      return r, used;
    }
    r := Err(Timeout);
  }
}
