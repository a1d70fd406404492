/**
 OAuth access tokens: unpadded base64url (section 5 of RFC 4648) around a payload, and a signature
 over the encoded payload. The payload codec and the message authentication code are parameters.
 */
module AccessTokens {
  import opened Text

  type Byte = b: int | 0 <= b < 256
  type Sextet = v: int | 0 <= v < 64

  // ---------------------------------------------------------------------------
  // Base64url
  // ---------------------------------------------------------------------------

  function Symbol(v: Sextet): char {
    if v < 26 then (v + 'A' as int) as char
    else if v < 52 then (v - 26 + 'a' as int) as char
    else if v < 62 then (v - 52 + '0' as int) as char
    else if v == 62 then '-'
    else '_'
  }

  /** The decoder also takes the standard alphabet's last two symbols. */
  function ValueOf(c: char): Option<Sextet> {
    if 'A' <= c <= 'Z' then Some(c as int - 'A' as int)
    else if 'a' <= c <= 'z' then Some(c as int - 'a' as int + 26)
    else if '0' <= c <= '9' then Some(c as int - '0' as int + 52)
    else if c == '-' || c == '+' then Some(62)
    else if c == '_' || c == '/' then Some(63)
    else None
  }

  lemma ValueOfSymbol(v: Sextet)
    ensures ValueOf(Symbol(v)) == Some(v) && Symbol(v) != '=' && Symbol(v) != '.' && Symbol(v) < 128 as char
  {
  }

  /** Three bytes make four symbols; one or two bytes are padded. */
  function Padded(bs: seq<Byte>): string {
    if bs == [] then ""
    else if |bs| == 1 then [Symbol(bs[0] / 4), Symbol(bs[0] % 4 * 16), '=', '=']
    else if |bs| == 2 then [Symbol(bs[0] / 4), Symbol(bs[0] % 4 * 16 + bs[1] / 16), Symbol(bs[1] % 16 * 4), '=']
    else
      [Symbol(bs[0] / 4), Symbol(bs[0] % 4 * 16 + bs[1] / 16), Symbol(bs[1] % 16 * 4 + bs[2] / 64), Symbol(bs[2] % 64)]
      + Padded(bs[3..])
  }

  function StripPads(s: string): string {
    if s != "" && s[|s| - 1] == '=' then StripPads(s[..|s| - 1]) else s
  }

  function Base64urlEncode(bs: seq<Byte>): string {
    StripPads(Padded(bs))
  }

  /** As many pads as the length lacks to a multiple of four. */
  function Pads(n: nat): string
    decreases 3 - (n + 3) % 4
  {
    if n % 4 == 0 then "" else "=" + Pads(n + 1)
  }

  /**
   Reads symbols in groups of four. `position` symbols of the group are read, `left` holds the bits not
   yet written, `pads` counts the pads seen since. Foreign characters are skipped; a completed group of
   pads ends the input; input that ends inside a group is rejected.
   */
  function DecodeFrom(s: string, position: nat, left: nat, pads: nat): Option<seq<Byte>>
    requires position < 4 && (position == 1 ==> left < 64) && (position == 2 ==> left < 16) && (position == 3 ==> left < 4)
  {
    if s == "" then
      if position == 0 then Some([]) else None
    else if s[0] == '=' then
      if position >= 2 && position + pads + 1 >= 4 then Some([])
      else DecodeFrom(s[1..], position, left, if position >= 2 then pads + 1 else pads)
    else
      match ValueOf(s[0])
      case None => DecodeFrom(s[1..], position, left, pads)
      case Some(v) =>
        if position == 0 then DecodeFrom(s[1..], 1, v, 0)
        else if position == 1 then Prepend(left * 4 + v / 16, DecodeFrom(s[1..], 2, v % 16, 0))
        else if position == 2 then Prepend(left * 16 + v / 4, DecodeFrom(s[1..], 3, v % 4, 0))
        else Prepend(left * 64 + v, DecodeFrom(s[1..], 0, 0, 0))
  }

  function Prepend(b: Byte, rest: Option<seq<Byte>>): Option<seq<Byte>> {
    if rest.Some? then Some([b] + rest.value) else None
  }

  predicate Ascii(s: string) {
    forall c :: c in s ==> c < 128 as char
  }

  function Base64urlDecode(s: string): Option<seq<Byte>> {
    if Ascii(s) then DecodeFrom(s + Pads(|s|), 0, 0, 0) else None
  }

  // ---------------------------------------------------------------------------
  // The round trip
  // ---------------------------------------------------------------------------

  predicate Plain(s: string) {
    forall c :: c in s ==> ValueOf(c).Some? && c != '=' && c != '.' && c < 128 as char
  }

  /** The symbols of a text without its pads. */
  function Core(bs: seq<Byte>): string {
    if bs == [] then ""
    else if |bs| == 1 then [Symbol(bs[0] / 4), Symbol(bs[0] % 4 * 16)]
    else if |bs| == 2 then [Symbol(bs[0] / 4), Symbol(bs[0] % 4 * 16 + bs[1] / 16), Symbol(bs[1] % 16 * 4)]
    else
      [Symbol(bs[0] / 4), Symbol(bs[0] % 4 * 16 + bs[1] / 16), Symbol(bs[1] % 16 * 4 + bs[2] / 64), Symbol(bs[2] % 64)]
      + Core(bs[3..])
  }

  lemma {:induction false} CoreIsPlain(bs: seq<Byte>)
    ensures Plain(Core(bs))
  {
    if |bs| == 1 {
      ValueOfSymbol(bs[0] / 4);
      ValueOfSymbol(bs[0] % 4 * 16);
    } else if |bs| >= 2 {
      ValueOfSymbol(bs[0] / 4);
      ValueOfSymbol(bs[0] % 4 * 16 + bs[1] / 16);
      if |bs| == 2 {
        ValueOfSymbol(bs[1] % 16 * 4);
      } else {
        ValueOfSymbol(bs[1] % 16 * 4 + bs[2] / 64);
        ValueOfSymbol(bs[2] % 64);
        CoreIsPlain(bs[3..]);
      }
    }
  }

  /** Padding brings the symbols to whole groups. */
  lemma {:induction false} PaddedIsCore(bs: seq<Byte>)
    ensures Padded(bs) == Core(bs) + Pads(|Core(bs)|)
  {
    if |bs| >= 3 {
      PaddedIsCore(bs[3..]);
      PadsRepeat(|Core(bs[3..])|);
    } else {
      assert Pads(2) == "=" + Pads(3) && Pads(3) == "=" + Pads(4);
    }
  }

  lemma {:induction false} PadsRepeat(n: nat)
    ensures Pads(n + 4) == Pads(n)
    decreases 3 - (n + 3) % 4
  {
    if n % 4 != 0 {
      PadsRepeat(n + 1);
    }
  }

  lemma {:induction false} StripPadsOff(core: string, n: nat)
    requires Plain(core)
    ensures StripPads(core + Pads(n)) == core
    decreases 3 - (n + 3) % 4
  {
    if n % 4 == 0 {
      assert core + Pads(n) == core;
      assert core != "" ==> core[|core| - 1] in core;
    } else {
      StripPadsOff(core, n + 1);
      PadsAtEnd(n);
      assert (core + Pads(n))[..|core + Pads(n)| - 1] == core + Pads(n + 1);
    }
  }

  lemma {:induction false} PadsAtEnd(n: nat)
    requires n % 4 != 0
    ensures Pads(n) == Pads(n + 1) + "="
    decreases 3 - (n + 3) % 4
  {
    if (n + 1) % 4 != 0 {
      PadsAtEnd(n + 1);
    }
  }

  /** One symbol at each position of a group. */
  lemma ReadFirst(s: string, v: Sextet, rest: string)
    requires s != "" && s[0] == Symbol(v) && s[1..] == rest
    ensures DecodeFrom(s, 0, 0, 0) == DecodeFrom(rest, 1, v, 0)
  {
    ValueOfSymbol(v);
  }

  lemma ReadSecond(s: string, v: Sextet, left: nat, rest: string)
    requires s != "" && s[0] == Symbol(v) && s[1..] == rest && left < 64
    ensures DecodeFrom(s, 1, left, 0) == Prepend(left * 4 + v / 16, DecodeFrom(rest, 2, v % 16, 0))
  {
    ValueOfSymbol(v);
  }

  lemma ReadThird(s: string, v: Sextet, left: nat, rest: string)
    requires s != "" && s[0] == Symbol(v) && s[1..] == rest && left < 16
    ensures DecodeFrom(s, 2, left, 0) == Prepend(left * 16 + v / 4, DecodeFrom(rest, 3, v % 4, 0))
  {
    ValueOfSymbol(v);
  }

  lemma ReadFourth(s: string, v: Sextet, left: nat, rest: string)
    requires s != "" && s[0] == Symbol(v) && s[1..] == rest && left < 4
    ensures DecodeFrom(s, 3, left, 0) == Prepend(left * 64 + v, DecodeFrom(rest, 0, 0, 0))
  {
    ValueOfSymbol(v);
  }

  /** The bits of three bytes, cut into sixes and put together again. */
  lemma Bits(a: Byte, b: Byte, c: Byte)
    ensures a / 4 * 4 + (a % 4 * 16 + b / 16) / 16 == a && (a % 4 * 16 + b / 16) % 16 == b / 16
    ensures b / 16 * 16 + (b % 16 * 4 + c / 64) / 4 == b && (b % 16 * 4 + c / 64) % 4 == c / 64
    ensures c / 64 * 64 + c % 64 == c
  {
  }

  lemma PadsEnd(s: string, position: nat, left: nat)
    requires s != "" && s[0] == '='
    ensures left < 4 ==> DecodeFrom(s, 3, left, 0) == Some([])
    ensures left < 16 && |s| > 1 && s[1] == '=' ==> DecodeFrom(s, 2, left, 0) == Some([])
  {
    if left < 16 && |s| > 1 && s[1] == '=' {
      assert s[1..][0] == '=';
      assert DecodeFrom(s[1..], 2, left, 1) == Some([]);
    }
  }

  lemma DecodeOne(a: Byte, s: string)
    requires s == [Symbol(a / 4), Symbol(a % 4 * 16), '=', '=']
    ensures DecodeFrom(s, 0, 0, 0) == Some([a])
  {
    ReadFirst(s, a / 4, s[1..]);
    ReadSecond(s[1..], a % 4 * 16, a / 4, s[1..][1..]);
    assert a % 4 * 16 / 16 == a % 4 && a % 4 * 16 % 16 == 0;
    assert s[1..][1..] == ['=', '='];
    PadsEnd(s[1..][1..], 2, 0);
    assert [a] + [] == [a];
  }

  lemma DecodeTwo(a: Byte, b: Byte, s: string)
    requires s == [Symbol(a / 4), Symbol(a % 4 * 16 + b / 16), Symbol(b % 16 * 4), '=']
    ensures DecodeFrom(s, 0, 0, 0) == Some([a, b])
  {
    Bits(a, b, 0);
    ReadFirst(s, a / 4, s[1..]);
    ReadSecond(s[1..], a % 4 * 16 + b / 16, a / 4, s[1..][1..]);
    ReadThird(s[1..][1..], b % 16 * 4, b / 16, s[1..][1..][1..]);
    assert b % 16 * 4 / 4 == b % 16 && b % 16 * 4 % 4 == 0;
    assert s[1..][1..][1..] == ['='];
    PadsEnd(s[1..][1..][1..], 3, 0);
    assert [a] + ([b] + []) == [a, b];
  }

  lemma DecodeThree(a: Byte, b: Byte, c: Byte, s: string, tail: string, rest: seq<Byte>)
    requires DecodeFrom(tail, 0, 0, 0) == Some(rest)
    requires s == [Symbol(a / 4), Symbol(a % 4 * 16 + b / 16), Symbol(b % 16 * 4 + c / 64), Symbol(c % 64)] + tail
    ensures DecodeFrom(s, 0, 0, 0) == Some([a] + ([b] + ([c] + rest)))
  {
    Bits(a, b, c);
    var s1 := s[1..];
    var s2 := s1[1..];
    var s3 := s2[1..];
    assert s3[1..] == tail;
    ReadFirst(s, a / 4, s1);
    ReadSecond(s1, a % 4 * 16 + b / 16, a / 4, s2);
    ReadThird(s2, b % 16 * 4 + c / 64, b / 16, s3);
    ReadFourth(s3, c % 64, c / 64, tail);
  }

  lemma {:induction false} DecodePadded(bs: seq<Byte>)
    ensures DecodeFrom(Padded(bs), 0, 0, 0) == Some(bs)
  {
    if bs == [] {
    } else if |bs| == 1 {
      DecodeOne(bs[0], Padded(bs));
      assert bs == [bs[0]];
    } else if |bs| == 2 {
      DecodeTwo(bs[0], bs[1], Padded(bs));
      assert bs == [bs[0], bs[1]];
    } else {
      DecodePadded(bs[3..]);
      DecodeMore(bs[0], bs[1], bs[2], bs[3..]);
      assert bs == [bs[0], bs[1], bs[2]] + bs[3..];
    }
  }

  lemma DecodeMore(a: Byte, b: Byte, c: Byte, rest: seq<Byte>)
    requires DecodeFrom(Padded(rest), 0, 0, 0) == Some(rest)
    ensures DecodeFrom([Symbol(a / 4), Symbol(a % 4 * 16 + b / 16), Symbol(b % 16 * 4 + c / 64), Symbol(c % 64)] + Padded(rest), 0, 0, 0)
            == Some([a, b, c] + rest)
  {
    var s := [Symbol(a / 4), Symbol(a % 4 * 16 + b / 16), Symbol(b % 16 * 4 + c / 64), Symbol(c % 64)] + Padded(rest);
    DecodeThree(a, b, c, s, Padded(rest), rest);
    assert [a] + ([b] + ([c] + rest)) == [a, b, c] + rest;
  }

  /** For every number of bytes, what is encoded and stripped decodes to the original, and has no dot in it. */
  lemma Base64urlRoundTrip(bs: seq<Byte>)
    ensures Base64urlDecode(Base64urlEncode(bs)) == Some(bs)
    ensures Plain(Base64urlEncode(bs))
  {
    EncodedIsCore(bs);
    CoreIsPlain(bs);
    DecodePadded(bs);
    PaddedIsCore(bs);
  }

  lemma EncodedIsCore(bs: seq<Byte>)
    ensures Base64urlEncode(bs) == Core(bs)
  {
    CoreIsPlain(bs);
    PaddedIsCore(bs);
    StripPadsOff(Core(bs), |Core(bs)|);
  }

  /** Every three bytes give four symbols, six bits each, the highest first; one and two bytes at the end give two and three. */
  lemma EncodingTheorem(a: Byte, b: Byte, c: Byte, rest: seq<Byte>)
    ensures Base64urlEncode([]) == "" && Base64urlEncode([a]) == [Symbol(a / 4), Symbol(a % 4 * 16)]
    ensures Base64urlEncode([a, b]) == [Symbol(a / 4), Symbol(a % 4 * 16 + b / 16), Symbol(b % 16 * 4)]
    ensures Base64urlEncode([a, b, c] + rest)
            == [Symbol(a / 4), Symbol(a % 4 * 16 + b / 16), Symbol(b % 16 * 4 + c / 64), Symbol(c % 64)]
               + Base64urlEncode(rest)
  {
    EncodedIsCore([]);
    EncodedIsCore([a]);
    EncodedIsCore([a, b]);
    EncodedIsCore(rest);
    EncodedIsCore([a, b, c] + rest);
    assert ([a, b, c] + rest)[3..] == rest;
  }

  /** The URL-safe alphabet: three ranges, hyphen and underscore. */
  lemma AlphabetTheorem(v: Sextet)
    ensures Symbol(0) == 'A' && Symbol(26) == 'a' && Symbol(52) == '0' && Symbol(62) == '-' && Symbol(63) == '_'
    ensures v < 61 && v != 25 && v != 51 ==> Symbol(v + 1) as int == Symbol(v) as int + 1
  {
  }

  // ---------------------------------------------------------------------------
  // Tokens
  // ---------------------------------------------------------------------------

  const OAUTH := "oauth_client_credentials"

  datatype Client = Client(code: string)
  datatype AuthMethod = AuthMethod(kind: string, code: string, clientId: string, secret: string)

  /** A payload as it is read: any field may be missing, and an expiry may be no number. */
  datatype Payload = Payload(kind: Option<string>, clientCode: Option<string>, methodCode: Option<string>,
                             clientId: Option<string>, expiry: Option<int>)

  /** Writing and reading payloads, and the code that authenticates a text under a secret. */
  datatype Codec = Codec(
    write: Payload -> seq<Byte>,
    read: seq<Byte> -> Option<Payload>,
    mac: (string, string) -> seq<Byte>)

  ghost predicate Lossless(C: Codec) {
    forall p: Payload :: C.read(C.write(p)) == Some(p)
  }

  datatype Verdict = Valid | Invalid | TypeError

  function Issued(client: Client, auth: AuthMethod, expiresAt: int): Payload {
    Payload(Some(auth.kind), Some(client.code), Some(auth.code), Some(auth.clientId), Some(expiresAt))
  }

  /** Only methods of the client-credentials kind issue tokens. */
  function Build(C: Codec, client: Client, auth: AuthMethod, expiresAt: int): Option<string> {
    if auth.kind != OAUTH then None
    else
      var encoded := Base64urlEncode(C.write(Issued(client, auth, expiresAt)));
      Some(encoded + "." + Base64urlEncode(C.mac(auth.secret, encoded)))
  }

  function IndexOfDot(s: string): (i: nat)
    ensures i <= |s| && (i < |s| ==> s[i] == '.')
    ensures forall j :: 0 <= j < i ==> s[j] != '.'
  {
    if s == "" || s[0] == '.' then 0 else 1 + IndexOfDot(s[1..])
  }

  predicate Matches(client: Client, auth: AuthMethod, p: Payload, now: int) {
    && p.kind == Some(OAUTH) && p.clientCode == Some(client.code)
    && p.methodCode == Some(auth.code) && p.clientId == Some(auth.clientId)
    && p.expiry.Some? && p.expiry.value > now
  }

  /** `now` is the current second. Comparing a signature that is not ASCII raises. */
  function Verify(C: Codec, client: Client, auth: AuthMethod, token: string, now: int): Verdict {
    var dot := IndexOfDot(token);
    if auth.kind != OAUTH || dot == |token| then Invalid
    else
      var encoded, signature := token[..dot], token[dot + 1..];
      var raw := Base64urlDecode(encoded);
      if raw == None || C.read(raw.value) == None then Invalid
      else if !Ascii(signature) then TypeError
      else if Base64urlEncode(C.mac(auth.secret, encoded)) != signature then Invalid
      else if Matches(client, auth, C.read(raw.value).value, now) then Valid
      else Invalid
  }

  lemma DotIsAt(front: string, back: string)
    requires '.' !in front
    ensures IndexOfDot(front + "." + back) == |front|
  {
    var s := front + "." + back;
    assert s[|front|] == '.';
    assert forall i :: 0 <= i < |front| ==> s[i] == front[i];
  }

  /**
   A token verifies exactly for a method of the same code and client id of a client of the same code,
   whose secret signs its payload alike, before it expires; every other check of it says no.
   */
  lemma TokenTheorem(C: Codec, client: Client, auth: AuthMethod, expiresAt: int, otherClient: Client, other: AuthMethod, now: int)
    requires Lossless(C) && auth.kind == OAUTH
    ensures Build(C, client, auth, expiresAt).Some?
    ensures var token := Build(C, client, auth, expiresAt).value;
            var encoded := Base64urlEncode(C.write(Issued(client, auth, expiresAt)));
            && Verify(C, otherClient, other, token, now) != TypeError
            && (Verify(C, otherClient, other, token, now) == Valid <==>
                  && other.kind == OAUTH && otherClient.code == client.code
                  && other.code == auth.code && other.clientId == auth.clientId
                  && C.mac(other.secret, encoded) == C.mac(auth.secret, encoded)
                  && expiresAt > now)
  {
    var raw := C.write(Issued(client, auth, expiresAt));
    var encoded := Base64urlEncode(raw);
    var mine, theirs := C.mac(auth.secret, encoded), C.mac(other.secret, encoded);
    var signature := Base64urlEncode(mine);
    var token := encoded + "." + signature;
    Base64urlRoundTrip(raw);
    Base64urlRoundTrip(mine);
    Base64urlRoundTrip(theirs);
    DotIsAt(encoded, signature);
    assert token[..|encoded|] == encoded && token[|encoded| + 1..] == signature;
  }

  /**
   Whoever made it, a token is valid exactly when it is a payload and its signature under the method's own
   secret, with a dot between them, and the payload names kind, client, method and id of this client and an
   expiry ahead. Without a dot it is invalid; checking it raises exactly when its payload is readable and what
   stands for a signature is not ASCII.
   */
  lemma VerifyTheorem(C: Codec, client: Client, auth: AuthMethod, encoded: string, signature: string, now: int)
    requires '.' !in encoded
    ensures Verify(C, client, auth, encoded, now) == Invalid
    ensures var verdict, raw := Verify(C, client, auth, encoded + "." + signature, now), Base64urlDecode(encoded);
            && (verdict == Valid <==>
                  && auth.kind == "oauth_client_credentials"
                  && signature == Base64urlEncode(C.mac(auth.secret, encoded))
                  && raw.Some? && C.read(raw.value).Some?
                  && var p := C.read(raw.value).value;
                     && p.kind == Some("oauth_client_credentials")
                     && p.clientCode == Some(client.code) && p.methodCode == Some(auth.code)
                     && p.clientId == Some(auth.clientId)
                     && p.expiry.Some? && p.expiry.value > now)
            && (verdict == TypeError <==>
                  && auth.kind == "oauth_client_credentials" && raw.Some? && C.read(raw.value).Some?
                  && exists i :: 0 <= i < |signature| && signature[i] >= 128 as char)
  {
    var token := encoded + "." + signature;
    DotIsAt(encoded, signature);
    assert token[..|encoded|] == encoded && token[|encoded| + 1..] == signature;
    Base64urlRoundTrip(C.mac(auth.secret, encoded));
    AsciiCompare(signature);
  }

  lemma AsciiCompare(s: string)
    ensures Ascii(s) <==> !exists i :: 0 <= i < |s| && s[i] >= 128 as char
  {
    if i :| 0 <= i < |s| && s[i] >= 128 as char {
      assert s[i] in s;
    }
  }

  /** Only methods of the client-credentials kind issue tokens, and the client issued to can use one until it expires. */
  lemma OwnToken(C: Codec, client: Client, auth: AuthMethod, expiresAt: int, now: int)
    requires Lossless(C)
    ensures Build(C, client, auth, expiresAt).Some? <==> auth.kind == "oauth_client_credentials"
    ensures Build(C, client, auth, expiresAt).Some? ==>
              (Verify(C, client, auth, Build(C, client, auth, expiresAt).value, now) == Valid <==> expiresAt > now)
  {
    if auth.kind == OAUTH {
      TokenTheorem(C, client, auth, expiresAt, client, auth, now);
    }
  }
}
