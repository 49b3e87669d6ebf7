/** A verifier that keeps its key set up to date from a JSON Web Key Set (section 5 of
    RFC 7517), with a cache file for restarts. What the endpoint and the file system answer
    is an input; a cache write is atomic. */
module JwksVerifier {
  import opened Wrappers
  import opened Text
  import opened JwtCodec

  datatype JwksDocument = JwksDocument(keys: seq<Jwk>)

  datatype JwksError =
    | Fetch(message: string)
    | ParseResponse(message: string)
    | NoValidKeys
    | CacheWrite(message: string)
    | CacheRead(message: string)
    | MissingKidWithoutFallback
    | UnknownKid(kid: string)
    | Verify(message: string)
    | StartupNoKeys

  function SigningKeys(keys: seq<Jwk>): seq<Jwk> {
    if keys == [] then []
    else SigningKeys(keys[..|keys| - 1]) + (if IsEs384Signing(keys[|keys| - 1]) then [keys[|keys| - 1]] else [])
  }

  lemma {:induction false} SigningKeysAreFiltered(keys: seq<Jwk>)
    ensures forall key :: key in SigningKeys(keys) <==> key in keys && IsEs384Signing(key)
  {
    if keys != [] {
      SigningKeysAreFiltered(keys[..|keys| - 1]);
      assert keys == keys[..|keys| - 1] + [keys[|keys| - 1]];
    }
  }

  /** A codec can be built from the document. */
  predicate Loads(document: JwksDocument) {
    SigningKeys(document.keys) != [] && AllConvertible(SigningKeys(document.keys))
  }

  function CodecOf(document: JwksDocument): KeySet
    requires Loads(document)
  {
    KeySet(KeysByKid(SigningKeys(document.keys)), None)
  }

  /** The codec of a document holds at least one key, and each of its keys is that of an ES384
      signing entry on P-384 with the same `kid`. */
  lemma LoadedKeysSign(document: JwksDocument)
    requires Loads(document)
    ensures CodecOf(document).byKid.Keys != {} && CodecOf(document).fallback == None
    ensures forall kid | kid in CodecOf(document).byKid ::
              exists key :: key in document.keys && IsEs384Signing(key) && key.kid == kid
                            && key.kty == "EC" && key.crv == "P-384" && key.alg == "ES384" && key.use == "sig"
                            && key.point == Some(CodecOf(document).byKid[kid])
  {
    var keys := SigningKeys(document.keys);
    SigningKeysAreFiltered(document.keys);
    KidsAreTheEntries(keys);
    assert keys[0].kid in KeysByKid(keys).Keys;
    forall kid | kid in KeysByKid(keys)
      ensures exists key :: key in document.keys && IsEs384Signing(key) && key.kid == kid
                            && key.point == Some(KeysByKid(keys)[kid])
    {
      KeyHasEntry(keys, kid);
      var i :| 0 <= i < |keys| && keys[i].kid == kid && keys[i].point == Some(KeysByKid(keys)[kid]);
      assert keys[i] in keys;
    }
  }

  /** Why no codec can be built: there is no signing key, or one of them is unusable; the `kid` of
      the first such key stands for the text of the error. */
  function LoadError(document: JwksDocument): JwksError
    requires !Loads(document)
  {
    var keys := SigningKeys(document.keys);
    if keys == [] then NoValidKeys else Verify(FirstUnusable(keys).kid)
  }

  /** One unusable signing key rejects the whole document; keys for other uses are skipped. */
  method CodecFromJwks(document: JwksDocument) returns (r: Result<KeySet, JwksError>)
    ensures r.Success? <==> Loads(document)
    ensures r.Success? ==> r.value == CodecOf(document)
    ensures r.Failure? ==> r.error == LoadError(document)
  {
    var keys := [];
    for i := 0 to |document.keys|
      invariant keys == SigningKeys(document.keys[..i])
    {
      assert document.keys[..i + 1][..i] == document.keys[..i];
      if IsEs384Signing(document.keys[i]) {
        keys := keys + [document.keys[i]];
      }
    }
    assert document.keys[..|document.keys|] == document.keys;
    if keys == [] {
      return Failure(NoValidKeys);
    }
    var codec := KeySetForJwks(keys);
    if codec.Failure? {
      return Failure(Verify(codec.error.kid));
    }
    return Success(codec.value);
  }

  // ---- decisions taken from error text ----

  const PREFIX := "JWT error: validate - "
  const MARKER := "JWT `kid` `"
  const SUFFIX := "` is not configured for verification"
  const MISSING := "missing `kid`"
  const NOT_CONFIGURED := "not configured"

  predicate AsksForRefresh(message: string) {
    Contains(message, MISSING) || Contains(message, NOT_CONFIGURED)
  }

  function KidFromTokenError(message: string): Option<string> {
    match Find(message, MARKER)
    case None => None
    case Some(index) =>
      var rest := message[index + |MARKER|..];
      match Find(rest, "`")
      case None => None
      case Some(end) => Some(rest[..end])
  }

  /** The error for a message of the second decode. */
  function Classify(message: string): JwksError {
    if Contains(message, MISSING) then MissingKidWithoutFallback
    else match KidFromTokenError(message)
      case Some(kid) => UnknownKid(kid)
      case None => Verify(message)
  }

  lemma UnknownKidText(kid: string)
    ensures Printed(UnknownKidMessage(kid)) == PREFIX + MARKER + kid + SUFFIX
  {
  }

  lemma MarkerComesFirst(kid: string)
    ensures Find(Printed(UnknownKidMessage(kid)), MARKER) == Some(|PREFIX|)
  {
    var text := PREFIX + MARKER + kid + SUFFIX;
    UnknownKidText(kid);
    assert text[|PREFIX|..|PREFIX| + |MARKER|] == MARKER;
    forall i | 0 <= i < |PREFIX| ensures !OccursAt(text, MARKER, i) {
      assert text[i] == PREFIX[i] && text[4] == PREFIX[4];
      Mismatch(text, MARKER, i, if i == 0 then 4 else 0);
    }
    FindIsFirst(text, MARKER, |PREFIX|);
  }

  /** The leading part of `text` without a back-tick. */
  function BeforeTick(text: string): string {
    if text == "" || text[0] == '`' then "" else [text[0]] + BeforeTick(text[1..])
  }

  lemma {:induction false} BeforeTickEnds(text: string, rest: string)
    requires rest != "" && rest[0] == '`'
    ensures BeforeTick(text) <= text
    ensures Find(text + rest, "`") == Some(|BeforeTick(text)|)
    ensures BeforeTick(text) == text <==> '`' !in text
  {
    var all, n := text + rest, |BeforeTick(text)|;
    BeforeTickIsPrefix(text);
    forall k | 0 <= k < n ensures !OccursAt(all, "`", k) {
      assert all[k] == text[k] == BeforeTick(text)[k];
      Mismatch(all, "`", k, 0);
    }
    assert all[n] == '`';
    assert all[n..n + 1] == "`";
    FindIsFirst(all, "`", n);
  }

  lemma {:induction false} BeforeTickIsPrefix(text: string)
    ensures BeforeTick(text) <= text && '`' !in BeforeTick(text)
    ensures |BeforeTick(text)| < |text| ==> text[|BeforeTick(text)|] == '`'
  {
    if text != "" && text[0] != '`' {
      BeforeTickIsPrefix(text[1..]);
      assert text == [text[0]] + text[1..];
    }
  }

  /** The text of an unknown-`kid` error, read back, gives the `kid` up to its first back-tick. */
  lemma KidReadsBack(kid: string)
    ensures KidFromTokenError(Printed(UnknownKidMessage(kid))) == Some(BeforeTick(kid))
  {
    var text := PREFIX + MARKER + kid + SUFFIX;
    UnknownKidText(kid);
    MarkerComesFirst(kid);
    assert text[|PREFIX| + |MARKER|..] == kid + SUFFIX;
    BeforeTickEnds(kid, SUFFIX);
    assert (kid + SUFFIX)[..|BeforeTick(kid)|] == BeforeTick(kid);
  }

  /** Formatting and reading undo each other exactly for a `kid` without back-tick. */
  lemma KidRoundTrip(kid: string)
    ensures KidFromTokenError(Printed(UnknownKidMessage(kid))) == Some(kid) <==> '`' !in kid
  {
    KidReadsBack(kid);
    BeforeTickEnds(kid, SUFFIX);
  }

  lemma UnknownKidAsksForRefresh(kid: string)
    ensures AsksForRefresh(Printed(UnknownKidMessage(kid)))
  {
    var text, head, after := PREFIX + MARKER + kid, "` is ", " for verification";
    UnknownKidText(kid);
    SuffixParts();
    ContainsMiddle(text + head, NOT_CONFIGURED, after);
    assert text + (head + NOT_CONFIGURED + after) == text + head + NOT_CONFIGURED + after;
  }

  lemma SuffixParts()
    ensures SUFFIX == "` is " + NOT_CONFIGURED + " for verification"
  {
  }

  lemma MissingKidAsksForRefresh()
    ensures AsksForRefresh(Printed(MISSING_KID)) && Classify(Printed(MISSING_KID)) == MissingKidWithoutFallback
  {
    var before, after := PREFIX + "JWT header is ", " and no fallback verification key is configured";
    ContainsMiddle(before, MISSING, after);
    assert Printed(MISSING_KID) == before + MISSING + after;
  }

  /** Where the text of an unknown-`kid` error has a back-tick, or none, "missing `kid`" does not fit. */
  lemma MissingDoesNotFit(kid: string, i: nat)
    requires '`' !in kid && i <= |PREFIX + MARKER + kid + SUFFIX|
    ensures !OccursAt(PREFIX + MARKER + kid + SUFFIX, MISSING, i)
  {
    var text := PREFIX + MARKER + kid + SUFFIX;
    if i + 8 in {26, 30, 32} {
      assert text[24] == MARKER[2] && text[28] == MARKER[6] && text[30] == MARKER[8];
      Mismatch(text, MISSING, i, 6);
    } else if i + 8 == 33 + |kid| {
      assert text[37 + |kid|] == SUFFIX[4];
      Mismatch(text, MISSING, i, 12);
    } else {
      if i + 8 < |text| {
        TicksAreFew(kid, i + 8);
      }
      Mismatch(text, MISSING, i, 8);
    }
  }

  lemma UnknownKidDoesNotReadMissing(kid: string)
    requires '`' !in kid
    ensures !Contains(Printed(UnknownKidMessage(kid)), MISSING)
  {
    var text := PREFIX + MARKER + kid + SUFFIX;
    UnknownKidText(kid);
    forall i | 0 <= i <= |text| ensures !OccursAt(text, MISSING, i) {
      MissingDoesNotFit(kid, i);
    }
  }

  lemma TicksAreFew(kid: string, i: nat)
    requires '`' !in kid && i !in {26, 30, 32, 33 + |kid|}
    requires i < |PREFIX + MARKER + kid + SUFFIX|
    ensures (PREFIX + MARKER + kid + SUFFIX)[i] != '`'
  {
    var text := PREFIX + MARKER + kid + SUFFIX;
    if i < |PREFIX| {
      assert text[i] == PREFIX[i];
    } else if i < |PREFIX| + |MARKER| {
      assert text[i] == MARKER[i - |PREFIX|];
    } else if i < |PREFIX| + |MARKER| + |kid| {
      assert text[i] == kid[i - |PREFIX| - |MARKER|];
    } else {
      assert text[i] == SUFFIX[i - |PREFIX| - |MARKER| - |kid|];
    }
  }

  /** An unknown `kid` is reported as itself exactly when it holds no back-tick. */
  lemma UnknownKidIsReported(kid: string)
    ensures Classify(Printed(UnknownKidMessage(kid))) == UnknownKid(kid) <==> '`' !in kid
  {
    KidRoundTrip(kid);
    if '`' !in kid {
      UnknownKidDoesNotReadMissing(kid);
    }
  }

  // ---- verifying tokens ----

  /** A token: its header, or why it could not be read, and the keys under which signature or
      claims are rejected, with the message. */
  datatype Token = Token(header: Result<Header, string>, rejections: map<DecodingKey, string>)

  /** Decoding against one key set; the claims are left out. */
  function Decode(keys: KeySet, token: Token): Result<(), string> {
    match token.header
    case Failure(message) => Failure(message)
    case Success(header) =>
      match SelectKey(keys, header)
      case Failure(message) => Failure(Printed(message))
      case Success(key) => if key in token.rejections then Failure(token.rejections[key]) else Success(())
  }

  /** The answer after a first decode with `keys`; the second, if asked for, uses the keys of
      the refresh. */
  function VerifyOutcome(keys: KeySet, token: Token, refreshed: Result<KeySet, JwksError>): Result<(), JwksError> {
    match Decode(keys, token)
    case Success(_) => Success(())
    case Failure(message) =>
      if !AsksForRefresh(message) then Failure(Verify(message))
      else match refreshed
        case Failure(error) => Failure(error)
        case Success(newer) =>
          match Decode(newer, token)
          case Success(_) => Success(())
          case Failure(again) => Failure(Classify(again))
  }

  /** A token whose header is that of an ES384 JWT with this `kid`. */
  predicate HasKid(token: Token, kid: string) {
    token.header == Success(Header("ES384", Some("JWT"), Some(kid)))
  }

  /** With its `kid` absent before and after the refresh a token is answered with exactly that
      `kid` if and only if the `kid` holds no back-tick. */
  lemma AbsentKidIsUnknown(keys: KeySet, newer: KeySet, token: Token, kid: string)
    requires HasKid(token, kid) && kid !in keys.byKid && kid !in newer.byKid
    ensures VerifyOutcome(keys, token, Success(newer)) == Failure(UnknownKid(kid)) <==> '`' !in kid
  {
    UnknownKidAsksForRefresh(kid);
    UnknownKidIsReported(kid);
  }

  /** A key published before the refresh makes a token of an unknown `kid` verify. */
  lemma RefreshFindsNewKid(keys: KeySet, newer: KeySet, token: Token, kid: string)
    requires HasKid(token, kid) && kid !in keys.byKid && kid in newer.byKid && newer.byKid[kid] !in token.rejections
    ensures VerifyOutcome(keys, token, Success(newer)) == Success(())
  {
    UnknownKidAsksForRefresh(kid);
  }

  /** A codec built from a document has no fallback, so a token without `kid` is refused. */
  lemma MissingKidIsRefused(keys: KeySet, newer: KeySet, token: Token)
    requires token.header == Success(Header("ES384", Some("JWT"), None)) && keys.fallback.None? && newer.fallback.None?
    ensures VerifyOutcome(keys, token, Success(newer)) == Failure(MissingKidWithoutFallback)
  {
    MissingKidAsksForRefresh();
  }

  /** What reading the cache file gives. */
  datatype CacheFile = Absent | Readable(document: JwksDocument) | Unreadable(error: JwksError)

  /** A refresh succeeds with this fetch and this outcome of writing the cache. */
  predicate Refreshes(hasCachePath: bool, fetched: Result<JwksDocument, JwksError>, writeError: Option<JwksError>) {
    fetched.Success? && Loads(fetched.value) && (hasCachePath ==> writeError.None?)
  }

  /** Why it fails otherwise: the first of fetch, build and write that does. */
  function RefreshError(hasCachePath: bool, fetched: Result<JwksDocument, JwksError>,
                        writeError: Option<JwksError>): JwksError
    requires !Refreshes(hasCachePath, fetched, writeError)
  {
    if fetched.Failure? then fetched.error
    else if !Loads(fetched.value) then LoadError(fetched.value)
    else writeError.value
  }

  /** The key set a refresh ends with, or its error. */
  function Refreshed(hasCachePath: bool, fetched: Result<JwksDocument, JwksError>, writeError: Option<JwksError>)
    : Result<KeySet, JwksError>
  {
    if Refreshes(hasCachePath, fetched, writeError) then Success(CodecOf(fetched.value))
    else Failure(RefreshError(hasCachePath, fetched, writeError))
  }

  /** The first decode fails with a message that asks for a refresh. */
  predicate NeedsRefresh(keys: KeySet, token: Token) {
    Decode(keys, token).Failure? && AsksForRefresh(Decode(keys, token).error)
  }

  class JwksVerifier {
    const hasCachePath: bool
    var verifier: Option<KeySet>
    var cache: CacheFile

    constructor (hasCachePath: bool, cache: CacheFile)
      ensures this.hasCachePath == hasCachePath && this.cache == cache && verifier == None
    {
      this.hasCachePath, this.cache, verifier := hasCachePath, cache, None;
    }

    /** Fetches, builds, persists and installs. A refresh that fails at any point changes
        neither the installed verifier nor the cache. */
    method Refresh(fetched: Result<JwksDocument, JwksError>, writeError: Option<JwksError>)
      returns (r: Result<(), JwksError>)
      modifies this
      ensures r.Success? <==> Refreshes(hasCachePath, fetched, writeError)
      ensures r.Success? ==> verifier == Some(CodecOf(fetched.value))
      ensures r.Success? ==> cache == if hasCachePath then Readable(fetched.value) else old(cache)
      ensures r.Failure? ==> verifier == old(verifier) && cache == old(cache)
      ensures r.Failure? ==> r.error == RefreshError(hasCachePath, fetched, writeError)
      ensures fetched.Failure? ==> r == Failure(fetched.error)
      ensures fetched.Success? && SigningKeys(fetched.value.keys) == [] ==> r == Failure(NoValidKeys)
      ensures fetched.Success? && Loads(fetched.value) && hasCachePath && writeError.Some? ==>
                r == Failure(writeError.value)
      ensures fetched.Success? && Loads(fetched.value) && (!hasCachePath || writeError.None?) ==> r.Success?
    {
      if fetched.Failure? {
        return Failure(fetched.error);
      }
      var codec := CodecFromJwks(fetched.value);
      if codec.Failure? {
        return Failure(codec.error);
      }
      if hasCachePath {
        if writeError.Some? {
          return Failure(writeError.value);
        }
        cache := Readable(fetched.value);
      }
      verifier := Some(codec.value);
      return Success(());
    }

    method LoadCachedVerifier() returns (r: Result<Option<KeySet>, JwksError>)
      ensures r.Failure? <==> hasCachePath && (cache.Unreadable? || (cache.Readable? && !Loads(cache.document)))
      ensures r.Failure? ==> r.error == if cache.Unreadable? then cache.error else LoadError(cache.document)
      ensures r.Success? ==>
                r.value == if hasCachePath && cache.Readable? && Loads(cache.document)
                           then Some(CodecOf(cache.document)) else None
    {
      if !hasCachePath {
        return Success(None);
      }
      match cache
      case Absent => return Success(None);
      case Unreadable(error) => return Failure(error);
      case Readable(document) =>
        var codec := CodecFromJwks(document);
        if codec.Failure? {
          return Failure(codec.error);
        }
        return Success(Some(codec.value));
    }

    /** Startup succeeds exactly when a usable cache exists, or none exists and the refresh
        succeeds. A cache that cannot be read or loaded fails it even when the endpoint is up. */
    static method Bootstrap(hasCachePath: bool, cache: CacheFile, fetched: Result<JwksDocument, JwksError>,
                            writeError: Option<JwksError>)
      returns (r: Result<JwksVerifier, JwksError>)
      ensures var refreshes := Refreshes(hasCachePath, fetched, writeError);
              var cached := hasCachePath && cache.Readable? && Loads(cache.document);
              && (r.Success? <==> cached || ((!hasCachePath || cache.Absent?) && refreshes))
              && (r.Success? ==> fresh(r.value) && r.value.hasCachePath == hasCachePath
                                 && r.value.verifier ==
                                   Some(CodecOf(if refreshes then fetched.value else cache.document))
                                 && r.value.cache == if hasCachePath && refreshes then Readable(fetched.value)
                                                     else cache)
              && (r.Failure? ==>
                    r.error == if hasCachePath && cache.Unreadable? then cache.error
                               else if hasCachePath && cache.Readable? then LoadError(cache.document)
                               else StartupNoKeys)
    {
      var self := new JwksVerifier(hasCachePath, cache);
      var hasCache := false;
      var loaded := self.LoadCachedVerifier();
      if loaded.Failure? {
        return Failure(loaded.error);
      }
      if loaded.value.Some? {
        self.verifier := loaded.value;
        hasCache := true;
      }
      var refreshed := self.Refresh(fetched, writeError);
      if refreshed.Failure? && !hasCache {
        return Failure(StartupNoKeys);
      }
      return Success(self);
    }

    method VerifyOnce(token: Token) returns (r: Result<(), JwksError>)
      ensures verifier.None? ==> r == Failure(StartupNoKeys)
      ensures verifier.Some? ==> r == match Decode(verifier.value, token) {
                                       case Success(_) => Success(())
                                       case Failure(message) => Failure(Verify(message))
                                     }
    {
      if verifier.None? {
        return Failure(StartupNoKeys);
      }
      var decoded := Decode(verifier.value, token);
      if decoded.Failure? {
        return Failure(Verify(decoded.error));
      }
      return Success(());
    }

    /** Verifies, and on an unknown or missing `kid` refreshes once and verifies once more. */
    method VerifyToken(token: Token, fetched: Result<JwksDocument, JwksError>, writeError: Option<JwksError>)
      returns (r: Result<(), JwksError>)
      modifies this
      ensures old(verifier).None? ==> r == Failure(StartupNoKeys)
      ensures old(verifier).Some? ==>
                r == VerifyOutcome(old(verifier).value, token, Refreshed(hasCachePath, fetched, writeError))
      ensures old(verifier).Some? && NeedsRefresh(old(verifier).value, token)
              && Refreshes(hasCachePath, fetched, writeError)
              ==> verifier == Some(CodecOf(fetched.value))
                  && cache == if hasCachePath then Readable(fetched.value) else old(cache)
      ensures || old(verifier).None? || !NeedsRefresh(old(verifier).value, token)
              || !Refreshes(hasCachePath, fetched, writeError)
              ==> verifier == old(verifier) && cache == old(cache)
    {
      var first := VerifyOnce(token);
      if first.Success? || !first.error.Verify? || !AsksForRefresh(first.error.message) {
        return first;
      }
      var refresh := Refresh(fetched, writeError);
      if refresh.Failure? {
        return Failure(refresh.error);
      }
      var second := VerifyOnce(token);
      if second.Failure? && second.error.Verify? {
        r := Failure(Classify(second.error.message));
      } else {
        r := second;
      }
    }
  }
}
