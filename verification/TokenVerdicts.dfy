/** Which tokens are accepted, and what the others are answered: the verdicts of a JWKS verifier
    in terms of published entries, headers and message texts alone. */
module TokenVerdicts {
  import opened Wrappers
  import opened Text
  import opened JwtCodec
  import opened JwksVerifier

  // ---- documents ----

  /** An ES384 signing entry on P-384, spelled out. */
  predicate IsSigningEntry(key: Jwk) {
    key.kty == "EC" && key.crv == "P-384" && key.alg == "ES384" && key.use == "sig"
  }

  /** Entry `i` is the last signing entry of the document with this `kid`. */
  predicate IsPublished(document: JwksDocument, i: nat, kid: string)
    requires i < |document.keys|
  {
    && IsSigningEntry(document.keys[i]) && document.keys[i].kid == kid
    && forall k | i < k < |document.keys| :: !(IsSigningEntry(document.keys[k]) && document.keys[k].kid == kid)
  }

  /** A document loads if and only if it has a signing entry and each of them has a key and a `kid`
      that is not blank; entries for other uses do not matter. */
  lemma LoadsExactlyWhen(document: JwksDocument)
    ensures Loads(document) <==>
            && (exists key :: key in document.keys && IsSigningEntry(key))
            && forall key | key in document.keys && IsSigningEntry(key) ::
                 key.point.Some? && exists c :: c in key.kid && !IsSpace(c)
  {
    var keys := SigningKeys(document.keys);
    SigningKeysAreFiltered(document.keys);
    if keys != [] {
      assert keys[0] in keys;
    }
    forall i | 0 <= i < |keys| ensures keys[i] in document.keys && IsSigningEntry(keys[i]) {
      assert keys[i] in keys;
    }
    if Loads(document) {
      forall key | key in document.keys && IsSigningEntry(key)
        ensures key.point.Some? && exists c :: c in key.kid && !IsSpace(c)
      {
        var i :| 0 <= i < |keys| && keys[i] == key;
        assert Convertible(keys[i]);
      }
    }
  }

  lemma {:induction false} LastSigningKey(keys: seq<Jwk>, i: nat)
    requires AllConvertible(SigningKeys(keys)) && i < |keys| && IsEs384Signing(keys[i])
    requires forall k | i < k < |keys| :: !(IsEs384Signing(keys[k]) && keys[k].kid == keys[i].kid)
    ensures var byKid := KeysByKid(SigningKeys(keys));
            keys[i].kid in byKid && Some(byKid[keys[i].kid]) == keys[i].point
  {
    var init, last := keys[..|keys| - 1], keys[|keys| - 1];
    var signing := SigningKeys(init);
    if IsEs384Signing(last) {
      assert SigningKeys(keys) == signing + [last];
      assert SigningKeys(keys)[..|signing|] == signing && SigningKeys(keys)[|signing|] == last;
    } else {
      assert SigningKeys(keys) == signing;
    }
    if i < |keys| - 1 {
      LastSigningKey(init, i);
    }
  }

  /** The key of a `kid` is that of the last signing entry with it. */
  lemma PublishedKeyIsUsed(document: JwksDocument, kid: string, key: DecodingKey)
    requires Loads(document)
    ensures (kid in CodecOf(document).byKid && CodecOf(document).byKid[kid] == key) <==>
            exists i :: 0 <= i < |document.keys| && IsPublished(document, i, kid) && document.keys[i].point == Some(key)
  {
    if kid in CodecOf(document).byKid {
      LoadedKeysSign(document);
      var i := LastPublished(document, kid);
      LastSigningKey(document.keys, i);
    }
    if i :| 0 <= i < |document.keys| && IsPublished(document, i, kid) && document.keys[i].point == Some(key) {
      LastSigningKey(document.keys, i);
    }
  }

  lemma LastPublished(document: JwksDocument, kid: string) returns (i: nat)
    requires exists key :: key in document.keys && IsSigningEntry(key) && key.kid == kid
    ensures i < |document.keys| && IsPublished(document, i, kid)
  {
    var keys := document.keys;
    i := |keys| - 1;
    while !(IsSigningEntry(keys[i]) && keys[i].kid == kid)
      invariant i < |keys|
      invariant exists k :: 0 <= k <= i && IsSigningEntry(keys[k]) && keys[k].kid == kid
      invariant forall k | i < k < |keys| :: !(IsSigningEntry(keys[k]) && keys[k].kid == kid)
      decreases i
    {
      i := i - 1;
    }
  }

  // ---- tokens and keys ----

  /** The key set has a key for the header of the token that does not reject it. */
  predicate Accepts(keys: KeySet, token: Token) {
    && token.header.Success? && token.header.value.alg == "ES384" && token.header.value.typ == Some("JWT")
    && match token.header.value.kid
       case Some(kid) => kid in keys.byKid && keys.byKid[kid] !in token.rejections
       case None => keys.fallback.Some? && keys.fallback.value !in token.rejections
  }

  /** A decode succeeds exactly for the tokens that the key set accepts, and a token that its key
      rejects fails with the message of that rejection. */
  lemma DecodesExactlyWhenAccepted(keys: KeySet, token: Token)
    ensures Decode(keys, token) == Success(()) <==> Accepts(keys, token)
    ensures forall kid | HasKid(token, kid) && kid in keys.byKid && keys.byKid[kid] in token.rejections ::
              Decode(keys, token) == Failure(token.rejections[keys.byKid[kid]])
    ensures token.header.Failure? ==> Decode(keys, token) == Failure(token.header.error)
  {
  }

  /** A verification succeeds exactly if the installed keys accept the token, or their answer asks
      for a refresh, which succeeds with keys that do. */
  lemma VerifiedExactlyWhen(keys: KeySet, token: Token, refreshed: Result<KeySet, JwksError>)
    ensures VerifyOutcome(keys, token, refreshed) == Success(()) <==>
            || Accepts(keys, token)
            || (NeedsRefresh(keys, token) && refreshed.Success? && Accepts(refreshed.value, token))
  {
    DecodesExactlyWhenAccepted(keys, token);
    if refreshed.Success? {
      DecodesExactlyWhenAccepted(refreshed.value, token);
    }
  }

  /** A failed decode is answered with its own message unless the message asks for a refresh; then
      with the error of the refresh, or with what the message of the second decode says. */
  lemma RefusedWith(keys: KeySet, token: Token, message: string, refreshed: Result<KeySet, JwksError>)
    requires Decode(keys, token) == Failure(message)
    ensures !Contains(message, "missing `kid`") && !Contains(message, "not configured") ==>
              VerifyOutcome(keys, token, refreshed) == Failure(Verify(message))
    ensures (Contains(message, "missing `kid`") || Contains(message, "not configured")) && refreshed.Failure? ==>
              VerifyOutcome(keys, token, refreshed) == Failure(refreshed.error)
    ensures (&& (Contains(message, "missing `kid`") || Contains(message, "not configured"))
             && refreshed.Success? && Decode(refreshed.value, token).Failure?)
            ==> var again := Decode(refreshed.value, token).error;
                && VerifyOutcome(keys, token, refreshed).Failure?
                && VerifyOutcome(keys, token, refreshed).error ==
                   if Contains(again, "missing `kid`") then MissingKidWithoutFallback
                   else if KidFromTokenError(again).Some? then UnknownKid(KidFromTokenError(again).value)
                   else Verify(again)
  {
  }

  // ---- texts ----

  lemma AbsentLetter(text: string, pattern: string, k: nat)
    requires k < |pattern| && pattern[k] !in text
    ensures !Contains(text, pattern)
  {
    forall i | 0 <= i <= |text| ensures !OccursAt(text, pattern, i) {
      Mismatch(text, pattern, i, k);
    }
  }

  /** A message names a `kid` exactly if some marker in it is followed by a back-tick. */
  lemma NamesKidExactlyWhen(message: string)
    ensures KidFromTokenError(message).Some? <==>
            exists i :: 0 <= i <= |message| && OccursAt(message, MARKER, i) && '`' in message[i + |MARKER|..]
  {
    if i :| 0 <= i <= |message| && OccursAt(message, MARKER, i) && '`' in message[i + |MARKER|..] {
      var first := Find(message, MARKER).value;
      var rest := message[first + |MARKER|..];
      var j :| 0 <= j < |message| - i - |MARKER| && message[i + |MARKER|..][j] == '`';
      var p := i + j - first;
      assert rest[p] == '`';
      assert rest[p..p + 1] == "`";
      assert OccursAt(rest, "`", p);
    }
    if KidFromTokenError(message).Some? {
      var first := Find(message, MARKER).value;
      var rest := message[first + |MARKER|..];
      var end := Find(rest, "`").value;
      assert rest[end..end + 1][0] == '`';
    }
  }

  /** A message without the letters `k` and `f` asks for no refresh. */
  lemma AsksForNone(message: string)
    requires 'k' !in message && 'f' !in message
    ensures !AsksForRefresh(message)
  {
    AbsentLetter(message, MISSING, 9);
    AbsentLetter(message, NOT_CONFIGURED, 7);
  }

  /** A token of another algorithm is refused as such, whatever else its header says and without
      a refresh. */
  lemma WrongAlgorithmIsRefused(keys: KeySet, token: Token, refreshed: Result<KeySet, JwksError>)
    requires token.header.Success? && token.header.value.alg != "ES384"
    requires 'k' !in token.header.value.alg && 'f' !in token.header.value.alg
    ensures VerifyOutcome(keys, token, refreshed) ==
            Failure(Verify("JWT error: validate - " + "JWT header algorithm mismatch: " + "expected ES384 but got "
                           + token.header.value.alg))
  {
    var a, b, c := "JWT error: validate - ", "JWT header algorithm mismatch: ", "expected ES384 but got ";
    var alg := token.header.value.alg;
    assert Decode(keys, token) == Failure(a + b + c + alg) by {
      assert a + (b + c + alg) == a + b + c + alg;
    }
    LettersOfPrefix();
    LettersOfMismatch();
    LettersOfExpectation();
    AsksForNone(a + b + c + alg);
  }

  lemma LettersOfPrefix()
    ensures 'k' !in "JWT error: validate - " && 'f' !in "JWT error: validate - "
  {
  }

  lemma LettersOfMismatch()
    ensures 'k' !in "JWT header algorithm mismatch: " && 'f' !in "JWT header algorithm mismatch: "
  {
  }

  lemma LettersOfExpectation()
    ensures 'k' !in "expected ES384 but got " && 'f' !in "expected ES384 but got "
  {
  }

  /** So is an ES384 token that is no JWT by its header. */
  lemma WrongTypeIsRefused(keys: KeySet, token: Token, refreshed: Result<KeySet, JwksError>)
    requires token.header.Success? && token.header.value.alg == "ES384" && token.header.value.typ != Some("JWT")
    ensures VerifyOutcome(keys, token, refreshed) ==
            Failure(Verify("JWT error: validate - " + "JWT header `typ` must be `JWT`"))
  {
    var text := "JWT error: validate - " + "JWT header `typ` must be `JWT`";
    assert 'k' !in text && 'f' !in text;
    AsksForNone(text);
  }
}
