/** Refresh-token hashing and token-pair issuance. The SHA-256 digest is a parameter; what is
    modelled is the loop that writes it in lower-case base16. */
module Tokens {
  import opened Wrappers
  import opened Sessions
  import opened Text

  type Byte = b: nat | b < 256

  datatype TokenError = AuthIssuanceFailed | GenerationFailed | HashFailed

  function Digit(n: nat): char
    requires n < 16
  {
    "0123456789abcdef"[n]
  }

  function Value(c: char): (v: Option<nat>)
    ensures v.Some? ==> v.value < 16 && Digit(v.value) == c
  {
    if '0' <= c <= '9' then Some((c - '0') as nat)
    else if 'a' <= c <= 'f' then Some((c - 'a') as nat + 10)
    else None
  }

  lemma ValueOfDigit(n: nat)
    requires n < 16
    ensures Value(Digit(n)) == Some(n)
  {
  }

  /** Lower-case base16, two characters a byte. */
  function Hex(digest: seq<Byte>): string {
    if digest == [] then "" else [Digit(digest[0] / 16), Digit(digest[0] % 16)] + Hex(digest[1..])
  }

  /** The inverse reading: `None` for an odd length or a foreign character. */
  function Unhex(text: string): Option<seq<Byte>> {
    if text == "" then Some([])
    else if |text| == 1 then None
    else
      match (Value(text[0]), Value(text[1]), Unhex(text[2..]))
      case (Some(high), Some(low), Some(rest)) => Some([16 * high + low] + rest)
      case _ => None
  }

  lemma UnhexOfByteAndRest(high: nat, low: nat, rest: string)
    requires high < 16 && low < 16 && Unhex(rest).Some?
    ensures Unhex([Digit(high), Digit(low)] + rest) == Some([16 * high + low] + Unhex(rest).value)
  {
    ValueOfDigit(high);
    ValueOfDigit(low);
    assert ([Digit(high), Digit(low)] + rest)[2..] == rest;
  }

  lemma {:induction false} UnhexInvertsHex(digest: seq<Byte>)
    ensures |Hex(digest)| == 2 * |digest|
    ensures Unhex(Hex(digest)) == Some(digest)
  {
    if digest != [] {
      UnhexInvertsHex(digest[1..]);
      UnhexOfByteAndRest(digest[0] / 16, digest[0] % 16, Hex(digest[1..]));
      assert digest == [digest[0]] + digest[1..];
    }
  }

  lemma DigitsOfByte(high: nat, low: nat)
    requires high < 16 && low < 16
    ensures (16 * high + low) / 16 == high && (16 * high + low) % 16 == low
  {
  }

  lemma HexOfByteAndRest(b: Byte, rest: seq<Byte>)
    ensures Hex([b] + rest) == [Digit(b / 16), Digit(b % 16)] + Hex(rest)
  {
    assert ([b] + rest)[1..] == rest;
  }

  lemma {:induction false} HexInvertsUnhex(text: string)
    requires Unhex(text).Some?
    ensures Hex(Unhex(text).value) == text
  {
    if text != "" {
      HexInvertsUnhex(text[2..]);
      var high, low, rest := Value(text[0]).value, Value(text[1]).value, Unhex(text[2..]).value;
      DigitsOfByte(high, low);
      HexOfByteAndRest(16 * high + low, rest);
      assert text == [text[0], text[1]] + text[2..];
    }
  }

  /** Distinct digests are stored under distinct hashes. */
  lemma HexIsInjective(a: seq<Byte>, b: seq<Byte>)
    requires Hex(a) == Hex(b)
    ensures a == b
  {
    UnhexInvertsHex(a);
    UnhexInvertsHex(b);
  }

  lemma {:induction false} HexAppend(digest: seq<Byte>, b: Byte)
    ensures Hex(digest + [b]) == Hex(digest) + [Digit(b / 16), Digit(b % 16)]
  {
    if digest == [] {
      assert digest + [b] == [b];
    } else {
      HexAppend(digest[1..], b);
      assert (digest + [b])[1..] == digest[1..] + [b];
    }
  }

  /** The digits are the decimal ones and then the lower-case letters. */
  lemma DigitsAreLowerCase(n: nat)
    requires n < 16
    ensures Digit(n) == if n < 10 then '0' + n as char else 'a' + (n - 10) as char
  {
  }

  lemma HexLength(digest: seq<Byte>)
    ensures |Hex(digest)| == 2 * |digest|
  {
    UnhexInvertsHex(digest);
  }

  /** Byte `i` is written at `2 * i`, its high half first. */
  lemma {:induction false} HexAt(digest: seq<Byte>, i: nat)
    requires i < |digest|
    ensures |Hex(digest)| == 2 * |digest|
    ensures Value(Hex(digest)[2 * i]) == Some(digest[i] / 16) && Value(Hex(digest)[2 * i + 1]) == Some(digest[i] % 16)
  {
    HexLength(digest);
    if i == 0 {
      ValueOfDigit(digest[0] / 16);
      ValueOfDigit(digest[0] % 16);
    } else {
      HexAt(digest[1..], i - 1);
      HexShifts(digest, 2 * i);
      HexShifts(digest, 2 * i + 1);
    }
  }

  lemma HexShifts(digest: seq<Byte>, k: nat)
    requires digest != [] && 2 <= k < |Hex(digest)|
    ensures |Hex(digest[1..])| == |Hex(digest)| - 2 && Hex(digest)[k] == Hex(digest[1..])[k - 2]
  {
  }

  /** The hasher fails exactly on an empty digest, which SHA-256 never produces. */
  method HashDigest(digest: seq<Byte>) returns (r: Result<TokenHash, TokenError>)
    ensures r == if digest == [] then Failure(HashFailed) else Success(Hex(digest))
  {
    var encoded := "";
    for i := 0 to |digest|
      invariant encoded == Hex(digest[..i])
      invariant i > 0 ==> !IsBlank(encoded)
    {
      HexAppend(digest[..i], digest[i]);
      assert digest[..i] + [digest[i]] == digest[..i + 1];
      encoded := encoded + [Digit(digest[i] / 16), Digit(digest[i] % 16)];
      assert Digit(digest[i] / 16) in encoded;
    }
    assert digest[..|digest|] == digest;
    if IsBlank(encoded) {
      return Failure(HashFailed);
    }
    return Success(encoded);
  }

  /** What the auth-token issuer and the refresh-token generator answered. */
  datatype Draws = Draws(authToken: Option<string>, refreshToken: Option<string>)

  datatype IssuedTokens = IssuedTokens(pair: TokenPair, hash: TokenHash)

  /** Issues an auth token, a refresh token and its hash, and reports the first failure in
      that order. */
  function IssueForSubject(hasher: string -> Option<TokenHash>, draws: Draws): (r: Result<IssuedTokens, TokenError>)
    ensures r.Success? <==> draws.authToken.Some? && draws.refreshToken.Some? && hasher(draws.refreshToken.value).Some?
    ensures r.Success? ==>
              && Some(r.value.pair.authToken) == draws.authToken && Some(r.value.pair.refresh) == draws.refreshToken
              && Some(r.value.hash) == hasher(r.value.pair.refresh)
    ensures r == Failure(AuthIssuanceFailed) <==> draws.authToken.None?
    ensures r == Failure(GenerationFailed) <==> draws.authToken.Some? && draws.refreshToken.None?
    ensures r == Failure(HashFailed) <==>
              draws.authToken.Some? && draws.refreshToken.Some? && hasher(draws.refreshToken.value).None?
  {
    if draws.authToken.None? then Failure(AuthIssuanceFailed)
    else if draws.refreshToken.None? then Failure(GenerationFailed)
    else match hasher(draws.refreshToken.value)
      case None => Failure(HashFailed)
      case Some(hash) => Success(IssuedTokens(TokenPair(draws.authToken.value, draws.refreshToken.value), hash))
  }
}
