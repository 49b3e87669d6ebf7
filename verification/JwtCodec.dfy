/** Verification keys of a JWT codec: building them from JSON Web Keys (section 4 of
    RFC 7517), replacing them as a whole, and selecting one by `kid` (section 4.1.4 of
    RFC 7515). Key material and signatures are opaque. */
module JwtCodec {
  import opened Wrappers
  import opened Text

  type DecodingKey = nat

  /** A JSON Web Key; `point` is the key its coordinates decode to, if they do. */
  datatype Jwk = Jwk(kid: string, kty: string, crv: string, alg: string, use: string, point: Option<DecodingKey>)

  predicate IsEs384Signing(key: Jwk) {
    key.alg == "ES384" && key.crv == "P-384" && key.kty == "EC" && key.use == "sig"
  }

  /** `to_decoding_key` succeeds. */
  predicate Convertible(key: Jwk) {
    !IsBlank(key.kid) && IsEs384Signing(key) && key.point.Some?
  }

  datatype JwtError = UnusableKey(kid: string) | EmptyKeySet

  datatype KeySet = KeySet(byKid: map<string, DecodingKey>, fallback: Option<DecodingKey>)

  predicate AllConvertible(keys: seq<Jwk>) {
    forall i | 0 <= i < |keys| :: Convertible(keys[i])
  }

  function KeysByKid(keys: seq<Jwk>): map<string, DecodingKey>
    requires AllConvertible(keys)
  {
    if keys == [] then map[]
    else KeysByKid(keys[..|keys| - 1])[keys[|keys| - 1].kid := keys[|keys| - 1].point.value]
  }

  /** The `kid`s are those of the entries. */
  lemma {:induction false} KidsAreTheEntries(keys: seq<Jwk>)
    requires AllConvertible(keys)
    ensures KeysByKid(keys).Keys == set i | 0 <= i < |keys| :: keys[i].kid
  {
    if keys != [] {
      var init := keys[..|keys| - 1];
      KidsAreTheEntries(init);
      assert forall i | 0 <= i < |init| :: init[i] == keys[i];
    }
  }

  /** Of several entries with one `kid` the last wins. */
  lemma {:induction false} LastEntryWins(keys: seq<Jwk>, i: nat)
    requires AllConvertible(keys) && i < |keys|
    requires forall k | i < k < |keys| :: keys[k].kid != keys[i].kid
    ensures keys[i].kid in KeysByKid(keys) && KeysByKid(keys)[keys[i].kid] == keys[i].point.value
  {
    if i < |keys| - 1 {
      LastEntryWins(keys[..|keys| - 1], i);
    }
  }

  /** Every key of the map is that of an entry with its `kid`. */
  lemma {:induction false} KeyHasEntry(keys: seq<Jwk>, kid: string)
    requires AllConvertible(keys) && kid in KeysByKid(keys)
    ensures exists i :: 0 <= i < |keys| && keys[i].kid == kid && keys[i].point == Some(KeysByKid(keys)[kid])
  {
    var init := keys[..|keys| - 1];
    if keys[|keys| - 1].kid != kid {
      KeyHasEntry(init, kid);
      var i :| 0 <= i < |init| && init[i].kid == kid && init[i].point == Some(KeysByKid(init)[kid]);
      assert keys[i] == init[i];
    }
  }

  /** The first entry that cannot be converted. */
  function FirstUnusable(keys: seq<Jwk>): (key: Jwk)
    requires !AllConvertible(keys)
    ensures key in keys && !Convertible(key)
  {
    if Convertible(keys[0]) then FirstUnusable(keys[1..]) else keys[0]
  }

  lemma {:induction false} FirstUnusableIsFirst(keys: seq<Jwk>, i: nat)
    requires i < |keys| && !Convertible(keys[i]) && AllConvertible(keys[..i])
    ensures FirstUnusable(keys) == keys[i]
  {
    if i > 0 {
      assert keys[..i][0] == keys[0];
      assert keys[1..][..i - 1] == keys[..i][1..];
      FirstUnusableIsFirst(keys[1..], i - 1);
    }
  }

  /** Converts the entries in order; the first that cannot be converted is the error. */
  method ConvertKeys(keys: seq<Jwk>) returns (r: Result<map<string, DecodingKey>, JwtError>)
    ensures r.Success? <==> AllConvertible(keys)
    ensures r.Success? ==> r.value == KeysByKid(keys)
    ensures r.Failure? ==> r.error == UnusableKey(FirstUnusable(keys).kid)
  {
    var byKid := map[];
    for i := 0 to |keys|
      invariant AllConvertible(keys[..i])
      invariant byKid == KeysByKid(keys[..i])
    {
      if !Convertible(keys[i]) {
        FirstUnusableIsFirst(keys, i);
        return Failure(UnusableKey(keys[i].kid));
      }
      assert keys[..i + 1] == keys[..i] + [keys[i]];
      assert keys[..i + 1][..i] == keys[..i];
      byKid := byKid[keys[i].kid := keys[i].point.value];
    }
    assert keys[..|keys|] == keys;
    return Success(byKid);
  }

  /** Verification-only options from a key set: no fallback key, and any entry that cannot be
      converted rejects the whole set. */
  method KeySetForJwks(keys: seq<Jwk>) returns (r: Result<KeySet, JwtError>)
    ensures r.Success? <==> keys != [] && AllConvertible(keys)
    ensures r.Success? ==> r.value == KeySet(KeysByKid(keys), None)
    ensures r == Failure(EmptyKeySet) <==> keys == []
    ensures r.Failure? && keys != [] ==> r.error == UnusableKey(FirstUnusable(keys).kid)
  {
    if keys == [] {
      return Failure(EmptyKeySet);
    }
    var converted := ConvertKeys(keys);
    if converted.Failure? {
      return Failure(converted.error);
    }
    return Success(KeySet(converted.value, None));
  }

  datatype Header = Header(alg: string, typ: Option<string>, kid: Option<string>)

  const MISSING_KID := "JWT header is " + "missing `kid`" + " and no fallback verification key is configured"
  const WRONG_TYPE := "JWT header `typ` must be `JWT`"

  function UnknownKidMessage(kid: string): string {
    "JWT `kid` `" + kid + "` is not configured for verification"
  }

  function WrongAlgorithmMessage(alg: string): string {
    "JWT header algorithm mismatch: " + "expected ES384 but got " + alg
  }

  /** How a JWT error of the validation step prints. */
  function Printed(message: string): string {
    "JWT error: validate - " + message
  }

  /** The key a header selects from one key set, or the message of the error. */
  function SelectKey(keys: KeySet, header: Header): Result<DecodingKey, string> {
    if header.alg != "ES384" then Failure(WrongAlgorithmMessage(header.alg))
    else if header.typ != Some("JWT") then Failure(WRONG_TYPE)
    else if header.kid.Some? then
      if header.kid.value in keys.byKid then Success(keys.byKid[header.kid.value])
      else Failure(UnknownKidMessage(header.kid.value))
    else if keys.fallback.Some? then Success(keys.fallback.value)
    else Failure(MISSING_KID)
  }

  /** A fallback chosen for a map of keys. */
  predicate IsFallback(keys: KeySet, allowMissingKid: bool) {
    && (keys.fallback.None? <==> !allowMissingKid || keys.byKid.Keys == {})
    && (keys.fallback.Some? ==> keys.fallback.value in keys.byKid.Values)
  }

  /** The key that a codec built from a set selects: an ES384 JWT gets the key of the last entry
      with its `kid`, and nothing else gets a key. */
  lemma SelectedKeyIsTheLastEntry(keys: seq<Jwk>, header: Header, key: DecodingKey)
    requires AllConvertible(keys)
    ensures SelectKey(KeySet(KeysByKid(keys), None), header) == Success(key) <==>
            && header.alg == "ES384" && header.typ == Some("JWT") && header.kid.Some?
            && exists i :: 0 <= i < |keys| && IsLastEntry(keys, i, header.kid.value) && keys[i].point == Some(key)
  {
    if header.kid.Some? {
      var kid := header.kid.value;
      if kid in KeysByKid(keys) {
        var i := LastEntry(keys, kid);
        LastEntryWins(keys, i);
        assert forall k | 0 <= k < |keys| && IsLastEntry(keys, k, kid) :: k == i;
      } else {
        KidsAreTheEntries(keys);
      }
    }
  }

  predicate IsLastEntry(keys: seq<Jwk>, i: nat, kid: string)
    requires i < |keys|
  {
    keys[i].kid == kid && forall k | i < k < |keys| :: keys[k].kid != kid
  }

  lemma LastEntry(keys: seq<Jwk>, kid: string) returns (i: nat)
    requires AllConvertible(keys) && kid in KeysByKid(keys)
    ensures i < |keys| && IsLastEntry(keys, i, kid)
  {
    KeyHasEntry(keys, kid);
    i := |keys| - 1;
    while keys[i].kid != kid
      invariant i < |keys|
      invariant exists k :: 0 <= k <= i && keys[k].kid == kid
      invariant forall k | i < k < |keys| :: keys[k].kid != kid
      decreases i
    {
      i := i - 1;
    }
  }

  /** After a replacement an ES384 JWT without `kid` gets a key if and only if that is allowed and
      there are keys, and then one of the new ones. */
  lemma FallbackServesMissingKid(keys: KeySet, allowMissingKid: bool)
    requires IsFallback(keys, allowMissingKid)
    ensures var selected := SelectKey(keys, Header("ES384", Some("JWT"), None));
            && (selected.Success? <==> allowMissingKid && exists kid :: kid in keys.byKid)
            && (selected.Success? ==> exists kid :: kid in keys.byKid && keys.byKid[kid] == selected.value)
  {
    if keys.byKid.Keys != {} {
      var kid :| kid in keys.byKid.Keys;
    }
  }

  /** The lock-protected state that all clones of a codec share. */
  class VerificationState {
    var decodingKeysByKid: map<string, DecodingKey>
    var fallbackDecodingKey: Option<DecodingKey>

    constructor (keys: KeySet)
      ensures Keys() == keys
    {
      decodingKeysByKid, fallbackDecodingKey := keys.byKid, keys.fallback;
    }

    ghost function Keys(): KeySet
      reads this
    {
      KeySet(decodingKeysByKid, fallbackDecodingKey)
    }
  }

  class JsonWebToken {
    const verificationState: VerificationState

    constructor (keys: KeySet)
      ensures fresh(verificationState) && verificationState.Keys() == keys
    {
      verificationState := new VerificationState(keys);
    }

    constructor Clone(other: JsonWebToken)
      ensures verificationState == other.verificationState
    {
      verificationState := other.verificationState;
    }

    method ReplaceVerificationKeys(byKid: map<string, DecodingKey>, allowMissingKid: bool)
      modifies verificationState
      ensures verificationState.Keys().byKid == byKid && IsFallback(verificationState.Keys(), allowMissingKid)
    {
      var fallback := None;
      if allowMissingKid && byKid.Keys != {} {
        var kid :| kid in byKid.Keys;
        fallback := Some(byKid[kid]);
      }
      verificationState.decodingKeysByKid := byKid;
      verificationState.fallbackDecodingKey := fallback;
    }

    /** All or nothing: with an entry that cannot be converted nothing changes. */
    method ReplaceVerificationKeysFromJwks(keys: seq<Jwk>, allowMissingKid: bool) returns (r: Result<(), JwtError>)
      modifies verificationState
      ensures r.Success? <==> AllConvertible(keys)
      ensures r.Success? ==>
                && verificationState.Keys().byKid == KeysByKid(keys)
                && IsFallback(verificationState.Keys(), allowMissingKid)
      ensures r.Failure? ==>
                && verificationState.Keys() == old(verificationState.Keys())
                && r.error == UnusableKey(FirstUnusable(keys).kid)
    {
      var converted := ConvertKeys(keys);
      if converted.Failure? {
        return Failure(converted.error);
      }
      ReplaceVerificationKeys(converted.value, allowMissingKid);
      return Success(());
    }

    /** A key is found exactly for ES384 JWTs of a known `kid`, or of none when there is a
        fallback; it is the key of that `kid`, or the fallback. */
    method DecodingKeyForHeader(header: Header) returns (r: Result<DecodingKey, string>)
      ensures r.Success? <==>
                && header.alg == "ES384" && header.typ == Some("JWT")
                && (if header.kid.Some? then header.kid.value in verificationState.decodingKeysByKid
                    else verificationState.fallbackDecodingKey.Some?)
      ensures r.Success? && header.kid.Some? ==> r.value == verificationState.decodingKeysByKid[header.kid.value]
      ensures r.Success? && header.kid.None? ==> Some(r.value) == verificationState.fallbackDecodingKey
      ensures header.alg != "ES384" ==> r == Failure(WrongAlgorithmMessage(header.alg))
      ensures header.alg == "ES384" && header.typ != Some("JWT") ==> r == Failure("JWT header `typ` must be `JWT`")
      ensures r.Failure? && header.alg == "ES384" && header.typ == Some("JWT") ==>
                r.error == if header.kid.Some?
                           then "JWT `kid` `" + header.kid.value + "` is not configured for verification"
                           else "JWT header is " + "missing `kid`" + " and no fallback verification key is configured"
      ensures r == SelectKey(verificationState.Keys(), header)
    {
      if header.alg != "ES384" {
        return Failure(WrongAlgorithmMessage(header.alg));
      }
      if header.typ != Some("JWT") {
        return Failure(WRONG_TYPE);
      }
      if header.kid.Some? {
        if header.kid.value in verificationState.decodingKeysByKid {
          return Success(verificationState.decodingKeysByKid[header.kid.value]);
        }
        return Failure(UnknownKidMessage(header.kid.value));
      }
      if verificationState.fallbackDecodingKey.Some? {
        return Success(verificationState.fallbackDecodingKey.value);
      }
      return Failure(MISSING_KID);
    }
  }
}
