/** Creating and loading an ES384 key pair kept in two files, over any number of startups of
    one process at a time that may fail or crash while they write. PEM parsing is abstract:
    a partly written file does not parse. */
module KeyPair {
  import opened Wrappers

  type KeyId = nat

  datatype Content = PrivateKey(id: KeyId) | PublicKey(id: KeyId) | Torn

  datatype Files = Files(privateKey: Option<Content>, publicKey: Option<Content>)

  datatype Es384KeyPair = Es384KeyPair(privatePem: Content, publicPem: Content)

  datatype KeyPairError = OnlyOneFile | NoDirectory | WritePrivate | WritePublic | Unread | Invalid

  datatype Outcome = Initialized(pair: Es384KeyPair) | Refused(error: KeyPairError) | Died

  /** How much of a new file an interrupted write leaves. */
  datatype Leftover = Nothing | Part | All

  datatype Write = Completed | Failed(left: Leftover) | Crashed(left: Leftover)

  datatype Reading = Readable | Unreadable | ReadCrashed

  /** What one startup meets: the key it would mint, and how directories, writes and reads go. */
  datatype Environment = Environment(minted: KeyId, directories: bool, privateWrite: Write, publicWrite: Write,
                                     reading: Reading)

  function Left(write: Write, content: Content): Option<Content> {
    if write.Completed? || write.left.All? then Some(content)
    else if write.left.Part? then Some(Torn)
    else None
  }

  /** Each file parses as its kind of key; whether the two belong together is not looked at. */
  predicate Parses(pair: Es384KeyPair) {
    pair.privatePem.PrivateKey? && pair.publicPem.PublicKey?
  }

  function Validated(pair: Es384KeyPair): Outcome {
    if Parses(pair) then Initialized(pair) else Refused(Invalid)
  }

  function Loaded(files: Files, reading: Reading): Outcome {
    match reading
    case ReadCrashed => Died
    case Unreadable => Refused(Unread)
    case Readable =>
      if files.privateKey.None? || files.publicKey.None? then Refused(Unread)
      else Validated(Es384KeyPair(files.privateKey.value, files.publicKey.value))
  }

  function Interrupted(write: Write, error: KeyPairError): Outcome {
    if write.Crashed? then Died else Refused(error)
  }

  /** The files after a startup, and its answer. */
  function Startup(files: Files, env: Environment): (Files, Outcome) {
    if files.privateKey.Some? && files.publicKey.Some? then (files, Loaded(files, env.reading))
    else if files.privateKey.Some? || files.publicKey.Some? then (files, Refused(OnlyOneFile))
    else if !env.directories then (files, Refused(NoDirectory))
    else
      var privateKey := Left(env.privateWrite, PrivateKey(env.minted));
      if !env.privateWrite.Completed? then (Files(privateKey, None), Interrupted(env.privateWrite, WritePrivate))
      else
        var written := Files(privateKey, Left(env.publicWrite, PublicKey(env.minted)));
        if !env.publicWrite.Completed? then (written, Interrupted(env.publicWrite, WritePublic))
        else (written, Validated(Es384KeyPair(PrivateKey(env.minted), PublicKey(env.minted))))
  }

  class Es384KeyPairLoader {
    var privateKeyFile: Option<Content>
    var publicKeyFile: Option<Content>

    constructor (files: Files)
      ensures OnDisk() == files
    {
      privateKeyFile, publicKeyFile := files.privateKey, files.publicKey;
    }

    ghost function OnDisk(): Files
      reads this
    {
      Files(privateKeyFile, publicKeyFile)
    }

    method Load(reading: Reading) returns (outcome: Outcome)
      ensures outcome == Loaded(OnDisk(), reading)
    {
      if reading.ReadCrashed? {
        return Died;
      }
      if reading.Unreadable? || privateKeyFile.None? {
        return Refused(Unread);
      }
      var privatePem := privateKeyFile.value;
      if publicKeyFile.None? {
        return Refused(Unread);
      }
      outcome := ValidateLoadedPair(Es384KeyPair(privatePem, publicKeyFile.value));
    }

    static method ValidateLoadedPair(pair: Es384KeyPair) returns (outcome: Outcome)
      ensures outcome == if Parses(pair) then Initialized(pair) else Refused(Invalid)
    {
      if pair.privatePem.PrivateKey? && pair.publicPem.PublicKey? {
        return Initialized(pair);
      }
      return Refused(Invalid);
    }

    method InitializeIfRequired(env: Environment) returns (outcome: Outcome)
      modifies this
      ensures (OnDisk(), outcome) == Startup(old(OnDisk()), env)
    {
      var privateExists, publicExists := privateKeyFile.Some?, publicKeyFile.Some?;
      if privateExists && publicExists {
        outcome := Load(env.reading);
        return;
      }
      if privateExists || publicExists {
        return Refused(OnlyOneFile);
      }
      if !env.directories {
        return Refused(NoDirectory);
      }
      var privatePem, publicPem := PrivateKey(env.minted), PublicKey(env.minted);
      privateKeyFile := Left(env.privateWrite, privatePem);
      if !env.privateWrite.Completed? {
        return Interrupted(env.privateWrite, WritePrivate);
      }
      publicKeyFile := Left(env.publicWrite, publicPem);
      if !env.publicWrite.Completed? {
        return Interrupted(env.publicWrite, WritePublic);
      }
      outcome := ValidateLoadedPair(Es384KeyPair(privatePem, publicPem));
    }
  }

  // ---- runs of startups ----

  function After(files: Files, envs: seq<Environment>): Files {
    if envs == [] then files else Startup(After(files, envs[..|envs| - 1]), envs[|envs| - 1]).0
  }

  /** The answer of startup `i`. */
  function Answer(files: Files, envs: seq<Environment>, i: nat): Outcome
    requires i < |envs|
  {
    Startup(After(files, envs[..i]), envs[i]).1
  }

  lemma AfterOneMore(files: Files, envs: seq<Environment>, i: nat)
    requires i < |envs|
    ensures After(files, envs[..i + 1]) == Startup(After(files, envs[..i]), envs[i]).0
  {
    assert envs[..i + 1][..i] == envs[..i];
  }

  /** No file that exists is ever overwritten or removed. */
  lemma {:induction false} ExistingFilesStay(files: Files, envs: seq<Environment>, i: nat, j: nat)
    requires i <= j <= |envs|
    ensures var was, now := After(files, envs[..i]), After(files, envs[..j]);
            && (was.privateKey.Some? ==> now.privateKey == was.privateKey)
            && (was.publicKey.Some? ==> now.publicKey == was.publicKey)
  {
    if i < j {
      ExistingFilesStay(files, envs, i, j - 1);
      AfterOneMore(files, envs, j - 1);
    }
  }

  /** Once any file exists neither file changes again. */
  lemma {:induction false} FilesAreSettled(files: Files, envs: seq<Environment>, i: nat, j: nat)
    requires i <= j <= |envs| && After(files, envs[..i]) != Files(None, None)
    ensures After(files, envs[..j]) == After(files, envs[..i])
  {
    if i < j {
      FilesAreSettled(files, envs, i, j - 1);
      AfterOneMore(files, envs, j - 1);
    }
  }

  /** The files hold a pair that loads. */
  predicate Usable(files: Files) {
    && files.privateKey.Some? && files.publicKey.Some?
    && Parses(Es384KeyPair(files.privateKey.value, files.publicKey.value))
  }

  /** From the moment that any file exists the fate of all later startups is sealed: with two
      whole files each succeeds exactly when it can read them, and otherwise none ever does. */
  lemma FateIsSealed(files: Files, envs: seq<Environment>, i: nat, j: nat)
    requires i <= j < |envs| && After(files, envs[..i]) != Files(None, None)
    ensures var settled := After(files, envs[..i]);
            && (Answer(files, envs, j).Initialized? <==> Usable(settled) && envs[j].reading.Readable?)
            && (Answer(files, envs, j).Initialized? ==>
                  Answer(files, envs, j).pair == Es384KeyPair(settled.privateKey.value, settled.publicKey.value))
  {
    FilesAreSettled(files, envs, i, j);
  }

  /** Exactly one file makes every later startup fail with the same error and mint nothing. */
  lemma OneFileIsRefusedForever(files: Files, envs: seq<Environment>, i: nat, j: nat)
    requires i <= j < |envs|
    requires After(files, envs[..i]).privateKey.Some? != After(files, envs[..i]).publicKey.Some?
    ensures Answer(files, envs, j) == Refused(OnlyOneFile)
    ensures After(files, envs[..j + 1]) == After(files, envs[..i])
  {
    FilesAreSettled(files, envs, i, j);
    FilesAreSettled(files, envs, i, j + 1);
  }

  /** A successful startup leaves the pair it returns in the files. */
  lemma SuccessIsOnDisk(files: Files, envs: seq<Environment>, i: nat)
    requires i < |envs| && Answer(files, envs, i).Initialized?
    ensures var pair := Answer(files, envs, i).pair;
            Parses(pair) && After(files, envs[..i + 1]) == Files(Some(pair.privatePem), Some(pair.publicPem))
  {
    AfterOneMore(files, envs, i);
  }

  /** All successful startups return one pair. */
  lemma SuccessesAgree(files: Files, envs: seq<Environment>, i: nat, j: nat)
    requires i <= j < |envs| && Answer(files, envs, i).Initialized? && Answer(files, envs, j).Initialized?
    ensures Answer(files, envs, i) == Answer(files, envs, j)
  {
    if i < j {
      SuccessIsOnDisk(files, envs, i);
      FateIsSealed(files, envs, i + 1, j);
    }
  }

  /** Both files are parts of one minted pair. */
  predicate OneMint(files: Files, minted: KeyId) {
    && files.privateKey in {None, Some(Torn), Some(PrivateKey(minted))}
    && files.publicKey in {None, Some(Torn), Some(PublicKey(minted))}
  }

  lemma {:induction false} FilesComeFromOneMint(envs: seq<Environment>)
    ensures var files := After(Files(None, None), envs);
            files == Files(None, None) || exists k :: 0 <= k < |envs| && OneMint(files, envs[k].minted)
  {
    if envs != [] {
      var last := |envs| - 1;
      FilesComeFromOneMint(envs[..last]);
      var before := After(Files(None, None), envs[..last]);
      if before == Files(None, None) {
        assert After(Files(None, None), envs) == before || OneMint(After(Files(None, None), envs), envs[last].minted);
      } else {
        var k :| 0 <= k < last && OneMint(before, envs[..last][k].minted);
        assert After(Files(None, None), envs) == before && envs[..last][k] == envs[k];
      }
    }
  }

  /** Started on an empty disk, a startup that succeeds returns the two halves of one key that
      some startup minted. */
  lemma SuccessReturnsOneMint(envs: seq<Environment>, i: nat)
    requires i < |envs| && Answer(Files(None, None), envs, i).Initialized?
    ensures exists k :: 0 <= k <= i && Answer(Files(None, None), envs, i).pair ==
              Es384KeyPair(PrivateKey(envs[k].minted), PublicKey(envs[k].minted))
  {
    var none := Files(None, None);
    SuccessIsOnDisk(none, envs, i);
    FilesComeFromOneMint(envs[..i + 1]);
    var k :| 0 <= k < i + 1 && OneMint(After(none, envs[..i + 1]), envs[..i + 1][k].minted);
    assert envs[..i + 1][k] == envs[k];
  }

  /** Files put in place from outside need not belong together: loading accepts exactly the
      pairs whose halves parse. */
  lemma LoadingIgnoresWhetherKeysMatch(files: Files, env: Environment)
    requires files.privateKey.Some? && files.publicKey.Some? && env.reading.Readable?
    ensures Startup(files, env).1.Initialized? <==>
            files.privateKey.value.PrivateKey? && files.publicKey.value.PublicKey?
    ensures Startup(Files(Some(PrivateKey(1)), Some(PublicKey(2))), env).1 ==
            Initialized(Es384KeyPair(PrivateKey(1), PublicKey(2)))
  {
  }

  /** What the interrupted write of `content` can leave in a file that did not exist. */
  predicate IsLeftBy(file: Option<Content>, write: Write, content: Content) {
    match write
    case Completed => file == Some(content)
    case Failed(left) => IsLeftover(file, left, content)
    case Crashed(left) => IsLeftover(file, left, content)
  }

  predicate IsLeftover(file: Option<Content>, left: Leftover, content: Content) {
    match left
    case Nothing => file.None?
    case Part => file == Some(Torn)
    case All => file == Some(content)
  }

  /** A first start creates a pair if and only if the directories can be made and both writes
      complete; it returns and leaves the two halves of the minted key. Otherwise it answers with
      the first thing that went wrong and leaves what was written until then. */
  lemma FirstStartup(env: Environment)
    ensures var (files, outcome) := Startup(Files(None, None), env);
            && (outcome.Initialized? <==> env.directories && env.privateWrite.Completed? && env.publicWrite.Completed?)
            && (outcome.Initialized? ==>
                  && outcome.pair == Es384KeyPair(PrivateKey(env.minted), PublicKey(env.minted))
                  && files == Files(Some(PrivateKey(env.minted)), Some(PublicKey(env.minted))))
            && (!env.directories ==> files == Files(None, None) && outcome == Refused(NoDirectory))
            && (env.directories && !env.privateWrite.Completed? ==>
                  && IsLeftBy(files.privateKey, env.privateWrite, PrivateKey(env.minted)) && files.publicKey.None?
                  && outcome == (if env.privateWrite.Crashed? then Died else Refused(WritePrivate)))
            && (env.directories && env.privateWrite.Completed? && !env.publicWrite.Completed? ==>
                  && files.privateKey == Some(PrivateKey(env.minted))
                  && IsLeftBy(files.publicKey, env.publicWrite, PublicKey(env.minted))
                  && outcome == (if env.publicWrite.Crashed? then Died else Refused(WritePublic)))
  {
  }

  /** A startup that finds both files changes neither and returns them exactly if it can read them
      and each parses as its kind of key; otherwise it says whether reading or parsing failed. */
  lemma LaterStartup(files: Files, env: Environment)
    requires files.privateKey.Some? && files.publicKey.Some?
    ensures var (after, outcome) := Startup(files, env);
            && after == files
            && (outcome == Died <==> env.reading.ReadCrashed?)
            && (outcome == Refused(Unread) <==> env.reading.Unreadable?)
            && (env.reading.Readable? ==>
                  if files.privateKey.value.PrivateKey? && files.publicKey.value.PublicKey?
                  then outcome == Initialized(Es384KeyPair(files.privateKey.value, files.publicKey.value))
                  else outcome == Refused(Invalid))
  {
  }
}
