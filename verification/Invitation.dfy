/** Invitation codes (python/chat/invitation_codes.py): 30 octets of token and a 32-octet authenticator in
    canonical Base64URL. The HMAC under one secret is any function from payloads to authenticators. */
module Invitation {
  import opened Wrappers
  import opened Persistence
  import opened Base64Url
  import opened BigEndian
  import opened Cursor

  const PAYLOAD: nat := 30
  const CODE: nat := 62

  type Authenticator = b: seq<Octet> | |b| == 32 witness ZERO + ZERO

  datatype Token = Token(id: Uuid, generation: int, createdAt: int, mode: Mode)

  predicate Encodable(t: Token) {
    1 <= t.generation <= 0xFFFF_FFFF && 0 <= t.createdAt < TWO_64
  }

  function Payload(t: Token): seq<Octet>
    requires Encodable(t)
  {
    Widths();
    [1] + t.id + Pack(t.generation, 4) + Pack(t.createdAt, 8) + [if t.mode == Stored then 1 else 0]
  }

  /** None stands for the errors on a generation or a creation time that does not fit. */
  function EncodeCode(t: Token, mac: seq<Octet> -> Authenticator): Option<string> {
    if !Encodable(t) then None else Some(Encode(Payload(t) + mac(Payload(t))))
  }

  function DecodeCode(code: string, mac: seq<Octet> -> Authenticator): Option<Token> {
    match Decode(code, CODE, CODE)
    case None => None
    case Some(raw) =>
      var payload, signature := raw[..PAYLOAD], raw[PAYLOAD..];
      if signature != mac(payload) then None
      else
        var generation, mode := Unpack(payload[17..21]), payload[29];
        if payload[0] != 1 || generation == 0 || (mode != 0 && mode != 1) then None
        else Some(Token(payload[1..17], generation, Unpack(payload[21..29]), if mode == 1 then Stored else Ephemeral))
  }

  lemma PayloadParts(t: Token)
    requires Encodable(t)
    ensures var b := Payload(t);
            && |b| == PAYLOAD && b[0] == 1 && b[1..17] == t.id && b[29] == (if t.mode == Stored then 1 else 0)
            && b[17..21] == Pack(t.generation, 4) && b[21..29] == Pack(t.createdAt, 8)
            && Unpack(b[17..21]) == t.generation && Unpack(b[21..29]) == t.createdAt
  {
    Widths();
    PackedLength(t.generation, 4);
    PackedLength(t.createdAt, 8);
    UnpackPacked(t.generation, 4);
    UnpackPacked(t.createdAt, 8);
  }

  /** The token that 30 octets spell, whatever their version and mode octets are. */
  function TokenOf(b: seq<Octet>): Token
    requires |b| == PAYLOAD
  {
    Token(b[1..17], Unpack(b[17..21]), Unpack(b[21..29]), if b[29] == 1 then Stored else Ephemeral)
  }

  lemma FiveParts(b: seq<Octet>)
    requires |b| == PAYLOAD
    ensures [b[0]] + b[1..17] + b[17..21] + b[21..29] + [b[29]] == b
  {
  }

  lemma PayloadWhole(b: seq<Octet>)
    requires |b| == PAYLOAD && b[0] == 1 && (b[29] == 0 || b[29] == 1) && Unpack(b[17..21]) != 0
    ensures Encodable(TokenOf(b)) && Payload(TokenOf(b)) == b
  {
    var four, eight := b[17..21], b[21..29];
    Widths();
    PackUnpacked(four);
    PackUnpacked(eight);
    FiveParts(b);
    assert Pack(TokenOf(b).generation, 4) == four && Pack(TokenOf(b).createdAt, 8) == eight;
  }

  /** A code decodes to a token exactly when it is the code of that token: every token with a generation from 1
      to 2^32 - 1 and a 64-bit time comes back, and no other text is accepted. */
  lemma CodeIsInverse(code: string, t: Token, mac: seq<Octet> -> Authenticator)
    ensures DecodeCode(code, mac) == Some(t) <==> EncodeCode(t, mac) == Some(code)
  {
    if EncodeCode(t, mac) == Some(code) {
      var b := Payload(t);
      PayloadParts(t);
      DecodeIsInverse(code, b + mac(b), CODE, CODE);
      assert (b + mac(b))[..PAYLOAD] == b && (b + mac(b))[PAYLOAD..] == mac(b);
    }
    if DecodeCode(code, mac) == Some(t) {
      var raw := Decode(code, CODE, CODE).value;
      DecodeIsInverse(code, raw, CODE, CODE);
      PayloadWhole(raw[..PAYLOAD]);
      assert raw == raw[..PAYLOAD] + raw[PAYLOAD..];
    }
  }

  /** Under another secret a code is accepted exactly when both authenticate its payload alike. */
  lemma CodeNeedsItsSecret(t: Token, mac: seq<Octet> -> Authenticator, other: seq<Octet> -> Authenticator)
    requires Encodable(t)
    ensures DecodeCode(EncodeCode(t, mac).value, other)
            == (if other(Payload(t)) == mac(Payload(t)) then Some(t) else None)
  {
    var b, code := Payload(t), EncodeCode(t, mac).value;
    PayloadParts(t);
    DecodeIsInverse(code, b + mac(b), CODE, CODE);
    assert (b + mac(b))[..PAYLOAD] == b && (b + mac(b))[PAYLOAD..] == mac(b);
  }
}
