/** The hello datagram a peer joins a relay session with (rendezvous/src/relay.rs). */
module RelayHello {
  import opened Prelude

  const MAGIC: seq<byte> := [0x50, 0x32, 0x52, 0x5A]
  const VERSION: byte := 1
  const SESSION_TOKEN_LEN: nat := 16
  const FINGERPRINT_LEN: nat := 32
  const HELLO_LEN: nat := 8 + SESSION_TOKEN_LEN + FINGERPRINT_LEN

  type Token = t: seq<byte> | |t| == SESSION_TOKEN_LEN witness Zeros(SESSION_TOKEN_LEN)

  type Fingerprint = f: seq<byte> | |f| == FINGERPRINT_LEN witness Zeros(FINGERPRINT_LEN)

  datatype Hello = Hello(token: Token, fingerprint: Fingerprint)

  function Header(reserved: byte): seq<byte> {
    MAGIC + [VERSION, reserved, 16, 32]
  }

  function Encode(h: Hello): seq<byte> {
    Header(0) + h.token + h.fingerprint
  }

  function TryDecode(data: seq<byte>): Option<Hello> {
    if |data| < 8 || data[0..4] != MAGIC then None
    else if data[4] != VERSION then None
    else if data[6] != SESSION_TOKEN_LEN || data[7] != FINGERPRINT_LEN then None
    else if |data| < HELLO_LEN then None
    else Some(Hello(data[8..24], data[24..56]))
  }

  /** Exactly these datagrams are this hello: its encoding, whatever the reserved byte and whatever follows. */
  lemma DecodesIff(data: seq<byte>, h: Hello)
    ensures TryDecode(data) == Some(h) <==>
              |data| >= 56 && data[..56] == [0x50, 0x32, 0x52, 0x5A, 1, data[5], 16, 32] + h.token + h.fingerprint
  {
    if |data| >= HELLO_LEN {
      var want := Header(data[5]) + h.token + h.fingerprint;
      if data[..HELLO_LEN] == want {
        forall k | 0 <= k < HELLO_LEN
          ensures data[k] == want[k]
        {
          assert data[k] == data[..HELLO_LEN][k];
        }
        assert data[0..4] == MAGIC && data[8..24] == h.token && data[24..56] == h.fingerprint;
      }
      if TryDecode(data) == Some(h) {
        assert data[..HELLO_LEN] == data[0..4] + [data[4], data[5], data[6], data[7]] + data[8..24] + data[24..56];
      }
    }
  }

  lemma RoundTrip(h: Hello, trailing: seq<byte>)
    ensures TryDecode(Encode(h) + trailing) == Some(h)
  {
    DecodesIff(Encode(h) + trailing, h);
    assert (Encode(h) + trailing)[..HELLO_LEN] == Encode(h);
  }
}
