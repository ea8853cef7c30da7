// The messages the two sides of an SSH relay sign, and the input of the tunnel key: a domain, then
// every field behind its length.
module Signing {
  import opened Wrappers
  import opened Text

  type Bytes = seq<byte>

  const NONCE_BYTES: nat := 32

  // ---------- fields ----------

  // The length is cast to u32: what does not fit wraps around.
  function EncodeField(field: Bytes): Bytes {
    Be32(|field| % 0x1_0000_0000) + field
  }

  function EncodeFields(fields: seq<Bytes>): Bytes {
    if fields == [] then [] else EncodeField(fields[0]) + EncodeFields(fields[1..])
  }

  // Reads fields until nothing is left.
  function DecodeFields(message: Bytes): Option<seq<Bytes>>
    decreases |message|
  {
    if message == [] then Some([])
    else if |message| < 4 then None
    else
      var length := FromBe32(message[..4]);
      if 4 + length > |message| then None
      else
        match DecodeFields(message[4 + length..])
        case None => None
        case Some(rest) => Some([message[4..4 + length]] + rest)
  }

  ghost predicate AllBelow(fields: seq<Bytes>, bound: nat) {
    forall i :: 0 <= i < |fields| ==> |fields[i]| < bound
  }

  ghost predicate AllShort(fields: seq<Bytes>) {
    AllBelow(fields, 0x1_0000_0000)
  }

  lemma {:induction false} ShortDecode(fields: seq<Bytes>)
    requires AllShort(fields)
    ensures DecodeFields(EncodeFields(fields)) == Some(fields)
    decreases |fields|
  {
    if fields != [] {
      var first, rest := fields[0], EncodeFields(fields[1..]);
      var message := EncodeFields(fields);
      assert |first| % 0x1_0000_0000 == |first|;
      assert message == Be32(|first|) + first + rest;
      assert message[..4] == Be32(|first|);
      Be32RoundTrip(|first|);
      assert message[4..4 + |first|] == first && message[4 + |first|..] == rest;
      ShortDecode(fields[1..]);
      assert [first] + fields[1..] == fields;
    }
  }

  lemma {:induction false} DecodedShort(message: Bytes, fields: seq<Bytes>)
    requires DecodeFields(message) == Some(fields)
    ensures AllShort(fields)
    decreases |message|
  {
    if message != [] {
      var length := FromBe32(message[..4]);
      DecodedShort(message[4 + length..], DecodeFields(message[4 + length..]).value);
    }
  }

  // The decoder inverts the encoding exactly when every field is shorter than 2^32 bytes.
  lemma DecodesExactly(fields: seq<Bytes>)
    ensures DecodeFields(EncodeFields(fields)) == Some(fields) <==> AllShort(fields)
  {
    if AllShort(fields) {
      ShortDecode(fields);
    } else if DecodeFields(EncodeFields(fields)) == Some(fields) {
      DecodedShort(EncodeFields(fields), fields);
    }
  }

  // ---------- messages ----------

  // `authentication_message`: the fields are appended one after another.
  method AuthenticationMessage(domain: Bytes, fields: seq<Bytes>) returns (message: Bytes)
    ensures message == domain + EncodeFields(fields)
  {
    message := domain;
    assert fields[..0] == [];
    for i := 0 to |fields|
      invariant message == domain + EncodeFields(fields[..i])
    {
      FieldMore(fields[..i], fields[i]);
      assert fields[..i + 1] == fields[..i] + [fields[i]];
      message := message + EncodeField(fields[i]);
    }
    assert fields[..|fields|] == fields;
  }

  lemma {:induction false} FieldMore(fields: seq<Bytes>, field: Bytes)
    ensures EncodeFields(fields + [field]) == EncodeFields(fields) + EncodeField(field)
  {
    if fields == [] {
      assert [field][1..] == [] && [] + [field] == [field];
    } else {
      assert (fields + [field])[1..] == fields[1..] + [field];
      FieldMore(fields[1..], field);
    }
  }

  // Under one domain, equal messages have equal field lists.
  lemma MessageInjective(domain: Bytes, a: seq<Bytes>, b: seq<Bytes>)
    requires AllShort(a) && AllShort(b)
    ensures domain + EncodeFields(a) == domain + EncodeFields(b) <==> a == b
  {
    if domain + EncodeFields(a) == domain + EncodeFields(b) {
      assert EncodeFields(a) == (domain + EncodeFields(a))[|domain|..] == EncodeFields(b);
      ShortDecode(a);
      ShortDecode(b);
    }
  }

  // ---------- the three domains ----------

  datatype Purpose = Client | Server | Tunnel

  function Ascii(s: string): (r: Bytes)
    requires forall i :: 0 <= i < |s| ==> s[i] as int < 128
    ensures |r| == |s|
  {
    seq(|s|, i requires 0 <= i < |s| => s[i] as int)
  }

  const PREFIX: string := "inkhole/ssh-relay-v2/"

  function Domain(purpose: Purpose): (r: Bytes)
    ensures |r| == 27
  {
    Ascii(PREFIX) + match purpose
                    case Client => Ascii("client")
                    case Server => Ascii("server")
                    case Tunnel => Ascii("tunnel")
  }

  lemma DomainsDiffer(a: Purpose, b: Purpose)
    requires a != b
    ensures Domain(a)[21] != Domain(b)[21]
  {
    assert Domain(Client)[21] == 'c' as int && Domain(Server)[21] == 's' as int && Domain(Tunnel)[21] == 't' as int;
  }

  // A message says what it was made for and from, and nothing else is the same message.
  lemma MessagesUnambiguous(a: Purpose, fieldsA: seq<Bytes>, b: Purpose, fieldsB: seq<Bytes>)
    requires AllShort(fieldsA) && AllShort(fieldsB)
    ensures Domain(a) + EncodeFields(fieldsA) == Domain(b) + EncodeFields(fieldsB) <==> a == b && fieldsA == fieldsB
  {
    if a == b {
      MessageInjective(Domain(a), fieldsA, fieldsB);
    } else {
      DomainsDiffer(a, b);
      assert (Domain(a) + EncodeFields(fieldsA))[21] != (Domain(b) + EncodeFields(fieldsB))[21];
    }
  }

  function ClientFields(sender: Bytes, receiver: Bytes, nonce: Bytes): seq<Bytes> {
    [sender, receiver, nonce]
  }

  function ServerFields(sender: Bytes, receiver: Bytes, clientNonce: Bytes, serverNonce: Bytes, fingerprint: Bytes,
                        secret: Bytes): seq<Bytes> {
    [sender, receiver, clientNonce, serverNonce, fingerprint, secret]
  }

  function TunnelFields(clientNonce: Bytes, serverNonce: Bytes, clientPublic: Bytes, serverPublic: Bytes): seq<Bytes> {
    [clientNonce, serverNonce, clientPublic, serverPublic]
  }

  method ClientAuthMessage(sender: Bytes, receiver: Bytes, nonce: Bytes) returns (message: Bytes)
    requires |nonce| == NONCE_BYTES
    ensures message == Domain(Client) + EncodeFields(ClientFields(sender, receiver, nonce))
  {
    message := AuthenticationMessage(Domain(Client), [sender, receiver, nonce]);
  }

  method ServerAuthMessage(sender: Bytes, receiver: Bytes, clientNonce: Bytes, serverNonce: Bytes, fingerprint: Bytes,
                           secret: Bytes)
    returns (message: Bytes)
    requires |clientNonce| == |serverNonce| == NONCE_BYTES
    ensures message
         == Domain(Server) + EncodeFields(ServerFields(sender, receiver, clientNonce, serverNonce, fingerprint, secret))
  {
    message := AuthenticationMessage(Domain(Server), [sender, receiver, clientNonce, serverNonce, fingerprint, secret]);
  }

  method TunnelKeyInput(clientNonce: Bytes, serverNonce: Bytes, clientPublic: Bytes, serverPublic: Bytes)
    returns (message: Bytes)
    requires |clientNonce| == |serverNonce| == NONCE_BYTES
    ensures message == Domain(Tunnel) + EncodeFields(TunnelFields(clientNonce, serverNonce, clientPublic, serverPublic))
  {
    message := AuthenticationMessage(Domain(Tunnel), [clientNonce, serverNonce, clientPublic, serverPublic]);
  }

  // What a server signs for is fixed by what it signs: no two distinct sets of parties, nonces,
  // fingerprint and secret give one message, and no client message or key input is that message.
  lemma ServerMessageBinds(f: seq<Bytes>, sender: Bytes, receiver: Bytes, clientNonce: Bytes, serverNonce: Bytes,
                           fingerprint: Bytes, secret: Bytes, purpose: Purpose)
    requires AllShort(f) && AllShort(ServerFields(sender, receiver, clientNonce, serverNonce, fingerprint, secret))
    requires Domain(purpose) + EncodeFields(f)
         == Domain(Server) + EncodeFields(ServerFields(sender, receiver, clientNonce, serverNonce, fingerprint, secret))
    ensures purpose == Server && |f| == 6
    ensures f[0] == sender && f[1] == receiver && f[2] == clientNonce && f[3] == serverNonce
    ensures f[4] == fingerprint && f[5] == secret
  {
    MessagesUnambiguous(purpose, f, Server,
                        ServerFields(sender, receiver, clientNonce, serverNonce, fingerprint, secret));
  }

  // ---------- the exact bound ----------

  // No caller comes near it: what is signed arrives in frames of at most 64 KiB.

  function EmptyFields(n: nat): (r: seq<Bytes>)
    ensures |r| == n && forall i :: 0 <= i < n ==> r[i] == []
  {
    seq(n, i requires 0 <= i < n => [])
  }

  lemma {:induction false} EmptyFieldsEncode(n: nat)
    ensures EncodeFields(EmptyFields(n)) == Zeros(4 * n)
  {
    if n > 0 {
      assert EmptyFields(n)[1..] == EmptyFields(n - 1);
      EmptyFieldsEncode(n - 1);
      assert EncodeField([]) == Zeros(4);
      assert Zeros(4) + Zeros(4 * (n - 1)) == Zeros(4 * n);
    }
  }

  lemma ZeroFieldEncodes(n: nat)
    requires n % 0x1_0000_0000 == 0
    ensures EncodeFields([Zeros(n)]) == Zeros(4 + n)
  {
    var one: seq<Bytes> := [Zeros(n)];
    assert one[1..] == [];
    assert Be32(0) == Zeros(4);
    assert EncodeField(one[0]) == Zeros(4) + Zeros(n) == Zeros(4 + n);
  }

  // One field of 2^32 zero bytes, its length wrapped to zero, is the message of 2^30 + 1 empty fields.
  lemma LongFieldsCollide()
    ensures EncodeFields([Zeros(0x1_0000_0000)]) == EncodeFields(EmptyFields(0x4000_0001))
    ensures [Zeros(0x1_0000_0000)] != EmptyFields(0x4000_0001)
  {
    EmptyFieldsEncode(0x4000_0001);
    ZeroFieldEncodes(0x1_0000_0000);
    assert |[Zeros(0x1_0000_0000)]| != |EmptyFields(0x4000_0001)|;
  }

  // No two different lists of fields shorter than the bound have one encoding.
  ghost predicate InjectiveBelow(bound: nat) {
    forall a, b :: AllBelow(a, bound) && AllBelow(b, bound) && EncodeFields(a) == EncodeFields(b) ==> a == b
  }

  // 2^32 is the exact bound.
  lemma InjectiveBelowIff(bound: nat)
    ensures InjectiveBelow(bound) <==> bound <= 0x1_0000_0000
  {
    if bound <= 0x1_0000_0000 {
      forall a, b | AllBelow(a, bound) && AllBelow(b, bound) && EncodeFields(a) == EncodeFields(b) ensures a == b {
        ShortDecode(a);
        ShortDecode(b);
      }
    } else {
      LongFieldsCollide();
      assert AllBelow([Zeros(0x1_0000_0000)], bound) && AllBelow(EmptyFields(0x4000_0001), bound);
    }
  }
}
