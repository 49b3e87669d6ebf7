/** What holds in every run of the JWKS verifier. */
module JwksTheorems {
  import opened Wrappers
  import opened Text
  import opened JwtCodec
  import opened V = JwksVerifier
  import opened JwksRuns
  import opened TokenVerdicts

  // ---- installed keys ----

  /** A verifier that is up has keys: at least one, without fallback, all of them ES384 signing
      keys of the document they were built from. */
  lemma UpHasWorkingKeys(hasCachePath: bool, cache: Option<JwksDocument>, states: seq<Service>, steps: seq<Step>,
                         i: nat)
    requires IsRun(Initial(hasCachePath, cache), states, steps) && i < |states| && states[i].mode.Up?
    ensures HasUsableKeys(states[i].installed)
    ensures var document := states[i].installed.value.document;
            && CodecOf(document).byKid.Keys != {} && CodecOf(document).fallback == None
            && forall kid | kid in CodecOf(document).byKid ::
                 exists key :: key in document.keys && IsEs384Signing(key) && key.kid == kid
                               && key.point == Some(CodecOf(document).byKid[kid])
  {
    InvAlways(hasCachePath, cache, states, steps, i);
    LoadedKeysSign(states[i].installed.value.document);
  }

  function PurposeOf(task: Task): Option<Purpose> {
    match task
    case Waiting(purpose) => Some(purpose)
    case Holding(purpose) => Some(purpose)
    case Fetched(purpose, _) => Some(purpose)
    case Persisted(purpose, _) => Some(purpose)
    case _ => None
  }

  /** While a verifier is starting, its startup refresh is in progress. */
  predicate StartupIsRunning(s: Service) {
    s.mode.Starting? ==> s.mode.task in s.tasks && PurposeOf(s.tasks[s.mode.task]) == Some(Startup)
  }

  lemma StartupKeepsRunning(s: Service, step: Step)
    requires StartupIsRunning(s) && Ready(s, step)
    ensures StartupIsRunning(Next(s, step))
  {
  }

  /** In every run a startup whose refresh has ended, failed or been cancelled is over: the verifier
      is up or down, never left half-started. */
  lemma {:induction false} NeverHalfStarted(hasCachePath: bool, cache: Option<JwksDocument>, states: seq<Service>,
                                            steps: seq<Step>, i: nat)
    requires IsRun(Initial(hasCachePath, cache), states, steps) && i < |states|
    ensures StartupIsRunning(states[i])
  {
    if i > 0 {
      NeverHalfStarted(hasCachePath, cache, states, steps, i - 1);
      StartupKeepsRunning(states[i - 1], steps[i - 1]);
    }
  }

  /** The task has installed keys at some point, or was stopped. */
  predicate PastInstall(task: Task) {
    task.Rejudging? || (task.Answered? && task.retry.Retried?) || task == Finished(true) || task.Gone?
  }

  lemma StaysPastInstall(s: Service, step: Step, t: TaskId)
    requires Ready(s, step) && t in s.tasks && PastInstall(s.tasks[t])
    ensures t in Next(s, step).tasks && PastInstall(Next(s, step).tasks[t])
  {
    if !step.Crash? && step.task == t {
      ActorMovesOn(s, step);
    } else {
      OthersKeepOrGo(s, step, t);
    }
  }

  lemma {:induction false} PastInstallAfterwards(start: Service, states: seq<Service>, steps: seq<Step>, i: nat, k: nat,
                                                 t: TaskId)
    requires IsRun(start, states, steps) && k < i < |states| && steps[k] == Install(t)
    ensures t in states[i].tasks && PastInstall(states[i].tasks[t])
  {
    if k + 1 < i {
      PastInstallAfterwards(start, states, steps, i - 1, k, t);
      StaysPastInstall(states[i - 1], steps[i - 1], t);
    } else {
      ActorMovesOn(states[k], steps[k]);
    }
  }

  /** The refresh of the task has failed. */
  predicate RefreshHasFailed(task: Task) {
    task == Finished(false) || (task.Answered? && task.retry.RefreshFailed?)
  }

  /** A refresh that failed, whether in the background, at startup or for a token, installed
      nothing at any time. */
  lemma FailedRefreshInstallsNothing(start: Service, states: seq<Service>, steps: seq<Step>, i: nat, k: nat, t: TaskId)
    requires IsRun(start, states, steps) && k < i < |states|
    requires t in states[i].tasks && RefreshHasFailed(states[i].tasks[t])
    ensures steps[k] != Install(t)
  {
    if steps[k] == Install(t) {
      PastInstallAfterwards(start, states, steps, i, k, t);
    }
  }

  /** While the verifier is up only an installing task changes the keys, and to its own document. */
  lemma OnlyInstallChangesKeys(s: Service, step: Step)
    requires Ready(s, step) && s.mode.Up? && Next(s, step).mode.Up? && Next(s, step).installed != s.installed
    ensures step.Install? && Next(s, step).installed == Some(s.tasks[step.task].document)
  {
    WhereInstalledComesFrom(s, step);
  }

  // ---- keys never go back ----

  /** The number of the fetch behind the newest keys that the process, or else its cache, has. */
  function Newest(s: Service): nat {
    if s.installed.Some? then s.installed.value.at
    else if s.hasCachePath && s.cache.Some? then s.cache.value.at
    else 0
  }

  lemma NewestGrows(s: Service, step: Step)
    requires Inv(s) && Ready(s, step)
    requires s.hasCachePath || Next(s, step).installed.Some?
    ensures Newest(s) <= Newest(Next(s, step))
  {
    WhereInstalledComesFrom(s, step);
    WhereCacheComesFrom(s, step);
    if step.Install? || step.Persist? {
      assert TaskAgrees(s, step.task, s.tasks[step.task]);
    }
    StopsKeepTheCache(s, step);
  }

  lemma StopsKeepTheCache(s: Service, step: Step)
    requires Ready(s, step)
    ensures Next(s, step).hasCachePath == s.hasCachePath
    ensures s.installed.Some? && Next(s, step).installed.None? ==> Next(s, step).cache == s.cache
    ensures step.Start? ==> Next(s, step).cache == s.cache
  {
  }

  /** With a cache path keys never give way to keys fetched earlier, not even over crashes and
      restarts. */
  lemma {:induction false} KeysNeverGoBack(hasCachePath: bool, cache: Option<JwksDocument>, states: seq<Service>,
                                           steps: seq<Step>, i: nat, j: nat)
    requires IsRun(Initial(hasCachePath, cache), states, steps) && i <= j < |states|
    requires hasCachePath || forall k | i <= k <= j :: states[k].installed.Some?
    ensures Newest(states[i]) <= Newest(states[j])
    ensures states[i].installed.Some? && states[j].installed.Some? ==>
            states[i].installed.value.at <= states[j].installed.value.at
  {
    if i < j {
      KeysNeverGoBack(hasCachePath, cache, states, steps, i, j - 1);
      InvAlways(hasCachePath, cache, states, steps, j - 1);
      NewestGrows(states[j - 1], steps[j - 1]);
    }
  }

  // ---- the cache ----

  /** Whenever keys are installed, the cache holds the document behind them or one fetched
      later; and whatever a refresh wrote there loads. */
  lemma CacheIsInstalledOrNewer(hasCachePath: bool, cache: Option<JwksDocument>, states: seq<Service>, steps: seq<Step>,
                                i: nat)
    requires IsRun(Initial(hasCachePath, cache), states, steps) && i < |states|
    ensures hasCachePath && states[i].installed.Some? ==>
              && HasUsableKeys(states[i].cache)
              && (states[i].cache == states[i].installed || states[i].installed.value.at < states[i].cache.value.at)
    ensures states[i].cache.Some? && states[i].cache.value.at > 0 ==> HasUsableKeys(states[i].cache)
  {
    InvAlways(hasCachePath, cache, states, steps, i);
  }

  /** Some task has written the cache and is about to install. */
  ghost predicate IsAboutToInstall(s: Service, document: Stamped) {
    exists t :: t in s.tasks && s.tasks[t].Persisted? && s.tasks[t].document == document
  }

  /** The cache is ahead of the installed keys and no task is about to install it. */
  ghost predicate CacheIsStranded(s: Service) {
    && s.hasCachePath && s.installed.Some? && s.cache.Some? && s.cache != s.installed
    && !IsAboutToInstall(s, s.cache.value)
  }

  /** The step cancels a refresh between its write of the cache and its installation. */
  predicate CancelsAfterWrite(s: Service, step: Step) {
    step.Cancel? && step.task in s.tasks && s.tasks[step.task].Persisted?
  }

  /** Step `k` cancelled such a refresh, and until state `i` nothing was written and the process
      did not end. */
  ghost predicate StrandedSince(states: seq<Service>, steps: seq<Step>, k: nat, i: nat)
    requires k < i < |states| == |steps| + 1
  {
    && CancelsAfterWrite(states[k], steps[k])
    && forall m | k < m <= i ::
         states[m].installed.Some? && states[m].cache == Some(states[k].tasks[steps[k].task].document)
  }

  lemma PersistedStays(s: Service, step: Step, t: TaskId)
    requires Ready(s, step) && t in s.tasks && s.tasks[t].Persisted? && LockAgrees(s)
    requires Next(s, step).installed.Some? && step != Install(t) && step != Cancel(t)
    ensures t in Next(s, step).tasks && Next(s, step).tasks[t] == s.tasks[t]
  {
  }

  /** A cache becomes stranded only by a cancellation after the write. */
  lemma StrandedByCancel(s: Service, step: Step)
    requires Inv(s) && Ready(s, step) && CacheIsStranded(Next(s, step)) && !CacheIsStranded(s)
    ensures CancelsAfterWrite(s, step) && Next(s, step).cache == Some(s.tasks[step.task].document)
  {
    var s' := Next(s, step);
    WhereInstalledComesFrom(s, step);
    WhereCacheComesFrom(s, step);
    if step.Persist? || step.Install? {
      assert TaskAgrees(s, step.task, s.tasks[step.task]);
      ActorMovesOn(s, step);
    }
    var t :| t in s.tasks && s.tasks[t].Persisted? && s.tasks[t].document == s.cache.value;
    if step != Cancel(t) {
      PersistedStays(s, step, t);
    }
  }

  /** A stranded cache keeps its document and the process goes on, as long as it stays stranded. */
  lemma StrandedStays(s: Service, step: Step)
    requires Inv(s) && Ready(s, step) && CacheIsStranded(s) && CacheIsStranded(Next(s, step))
    ensures Next(s, step).cache == s.cache
  {
    WhereCacheComesFrom(s, step);
    if step.Persist? {
      ActorMovesOn(s, step);
    }
  }

  /** No task is about to install a document fetched as number `at`. */
  ghost predicate NobodyBrings(s: Service, at: nat) {
    && at <= s.fetches
    && forall t | t in s.tasks && (s.tasks[t].Fetched? || s.tasks[t].Persisted?) ::
         s.tasks[t].document.at != at
  }

  lemma NobodyBringsStill(s: Service, step: Step, at: nat)
    requires NobodyBrings(s, at) && Ready(s, step)
    ensures NobodyBrings(Next(s, step), at)
  {
    var s' := Next(s, step);
    forall t | t in s'.tasks && (s'.tasks[t].Fetched? || s'.tasks[t].Persisted?) ensures s'.tasks[t].document.at != at {
      if !step.Crash? && step.task == t {
        if t in s.tasks {
          ActorMovesOn(s, step);
        }
      } else {
        OthersKeepOrGo(s, step, t);
      }
    }
  }

  lemma CancelStrands(s: Service, step: Step)
    requires Inv(s) && Ready(s, step) && CancelsAfterWrite(s, step) && Next(s, step).installed.Some?
    ensures var s', at := Next(s, step), s.tasks[step.task].document.at;
            s'.cache == Some(s.tasks[step.task].document) && Older(s'.installed, at) && NobodyBrings(s', at)
  {
    assert TaskAgrees(s, step.task, s.tasks[step.task]);
  }

  /** Nothing but the end of the process or a further write frees a stranded cache. */
  lemma StrandedGoesOn(s: Service, step: Step, at: nat)
    requires Inv(s) && Ready(s, step) && s.hasCachePath && s.installed.Some? && s.cache.Some? && s.cache.value.at == at
    requires Older(s.installed, at) && NobodyBrings(s, at)
    requires Next(s, step).installed.Some? && Next(s, step).cache == s.cache
    ensures Older(Next(s, step).installed, at) && NobodyBrings(Next(s, step), at)
  {
    NobodyBringsStill(s, step, at);
    WhereInstalledComesFrom(s, step);
    if step.Install? {
      assert TaskAgrees(s, step.task, s.tasks[step.task]);
    }
  }

  lemma {:induction false} StrandedSinceCancel(hasCachePath: bool, cache: Option<JwksDocument>,
                                               states: seq<Service>, steps: seq<Step>, k: nat, i: nat)
    requires IsRun(Initial(hasCachePath, cache), states, steps) && hasCachePath && k < i < |states|
    requires StrandedSince(states, steps, k, i)
    ensures var s, at := states[i], states[k].tasks[steps[k].task].document.at;
            && Older(s.installed, at) && NobodyBrings(s, at)
  {
    InvAlways(hasCachePath, cache, states, steps, i - 1);
    if k + 1 < i {
      assert StrandedSince(states, steps, k, i - 1);
      StrandedSinceCancel(hasCachePath, cache, states, steps, k, i - 1);
      StrandedGoesOn(states[i - 1], steps[i - 1], states[k].tasks[steps[k].task].document.at);
    } else {
      CancelStrands(states[k], steps[k]);
    }
  }

  lemma {:induction false} StrandedHasCancel(hasCachePath: bool, cache: Option<JwksDocument>,
                                             states: seq<Service>, steps: seq<Step>, i: nat) returns (k: nat)
    requires IsRun(Initial(hasCachePath, cache), states, steps) && i < |states| && CacheIsStranded(states[i])
    ensures k < i && StrandedSince(states, steps, k, i)
  {
    var s, step := states[i - 1], steps[i - 1];
    InvAlways(hasCachePath, cache, states, steps, i - 1);
    if CacheIsStranded(s) {
      k := StrandedHasCancel(hasCachePath, cache, states, steps, i - 1);
      StrandedStays(s, step);
    } else {
      k := i - 1;
      StrandedByCancel(s, step);
    }
  }

  /** In every run, whenever the cache is ahead of the installed keys, some refresh is about to
      install the cached document, except exactly if such a refresh was cancelled after its write
      and since then nothing was written and the process did not end. */
  lemma CacheLeadsOnlyDuringRefresh(hasCachePath: bool, cache: Option<JwksDocument>, states: seq<Service>,
                                    steps: seq<Step>, i: nat)
    requires IsRun(Initial(hasCachePath, cache), states, steps) && i < |states|
    requires hasCachePath && states[i].installed.Some? && states[i].cache != states[i].installed
    ensures states[i].cache.Some?
    ensures !IsAboutToInstall(states[i], states[i].cache.value) <==>
            exists k :: 0 <= k < i && StrandedSince(states, steps, k, i)
  {
    InvAlways(hasCachePath, cache, states, steps, i);
    if !IsAboutToInstall(states[i], states[i].cache.value) {
      var k := StrandedHasCancel(hasCachePath, cache, states, steps, i);
    }
    if k :| 0 <= k < i && StrandedSince(states, steps, k, i) {
      StrandedSinceCancel(hasCachePath, cache, states, steps, k, i);
    }
  }

  lemma RefreshFetches(s: Service, t: TaskId, document: JwksDocument) returns (states: seq<Service>, steps: seq<Step>)
    requires s.mode.Up? && s.holder.None? && t !in s.tasks && Loads(document)
    ensures IsRun(s, states, steps) && |steps| == 3
    ensures var end := states[3];
            && t in end.tasks && end.tasks[t] == Fetched(Background, Stamped(document, s.fetches + 1))
            && end == s.(holder := Some(t), fetches := s.fetches + 1, tasks := end.tasks)
            && forall other | other in end.tasks && other != t :: other in s.tasks && end.tasks[other] == s.tasks[other]
  {
    var s1 := Next(s, BeginRefresh(t));
    var s2 := Next(s1, Lock(t));
    states := [s, s1, s2, Next(s2, Step.Fetch(t, Success(document)))];
    steps := [BeginRefresh(t), Lock(t), Step.Fetch(t, Success(document))];
  }

  /** A refresh that is cancelled between its write and its installation strands the cache: an
      input on which the cache stays ahead without a refresh in flight. */
  lemma CancelledRefreshStrandsTheCache(s: Service, t: TaskId, document: JwksDocument)
    returns (states: seq<Service>, steps: seq<Step>)
    requires Inv(s) && s.mode.Up? && s.hasCachePath && s.holder.None? && t !in s.tasks && Loads(document)
    ensures IsRun(s, states, steps) && CacheIsStranded(states[|states| - 1])
  {
    states, steps := RefreshFetches(s, t, document);
    var written := Next(states[3], Persist(t, None));
    states, steps := states + [written, Next(written, Cancel(t))], steps + [Persist(t, None), Cancel(t)];
    assert LockAgrees(s) && StampsAgree(s);
  }

  /** After a crash at any moment a restart comes up with the cached document although the
      endpoint never answers, and its keys are no older than those of before the crash. */
  lemma RestartNeedsNoEndpoint(hasCachePath: bool, cache: Option<JwksDocument>, states: seq<Service>, steps: seq<Step>,
                               i: nat,
                               t: TaskId, error: JwksError)
    requires IsRun(Initial(hasCachePath, cache), states, steps) && i < |states|
    requires hasCachePath && states[i].installed.Some? && !states[i].mode.Down? && t !in states[i].tasks
    ensures var s0 := Next(states[i], Crash);
            && Enabled(s0, Start(t, true)) && var s1 := Next(s0, Start(t, true));
            && Enabled(s1, Lock(t)) && var s2 := Next(s1, Lock(t));
            && Enabled(s2, Step.Fetch(t, Failure(error))) && var s3 := Next(s2, Step.Fetch(t, Failure(error)));
            && s3.mode.Up? && s3.installed == states[i].cache && HasUsableKeys(s3.installed)
            && states[i].installed.value.at <= s3.installed.value.at
  {
    InvAlways(hasCachePath, cache, states, steps, i);
    CacheIsInstalledOrNewer(hasCachePath, cache, states, steps, i);
    var s0 := Next(states[i], Crash);
    assert s0.cache == states[i].cache && t !in s0.tasks;
    var s1 := Next(s0, Start(t, true));
    assert s1.mode == Starting(t, true) && s1.tasks[t] == Waiting(Startup) && s1.holder.None?;
    var s2 := Next(s1, Lock(t));
    assert s2.mode == Starting(t, true) && s2.tasks[t] == Holding(Startup) && s2.installed == s1.installed;
  }

  /** A cache file that does not load keeps the verifier from ever coming up, whatever the
      endpoint answers. */
  lemma {:induction false} UnusableCacheNeverStarts(cache: JwksDocument, states: seq<Service>, steps: seq<Step>, i: nat)
    requires IsRun(Initial(true, Some(cache)), states, steps) && i < |states| && !Loads(cache)
    ensures states[i].mode.Down? && states[i].cache == Some(Stamped(cache, 0))
  {
    if i > 0 {
      UnusableCacheNeverStarts(cache, states, steps, i - 1);
      InvAlways(true, Some(cache), states, steps, i - 1);
      StaysDown(states[i - 1], steps[i - 1]);
    }
  }

  lemma StaysDown(s: Service, step: Step)
    requires TasksAgree(s) && StampsAgree(s) && s.hasCachePath && s.mode.Down? && s.cache.Some?
    requires !HasUsableKeys(s.cache)
    requires Enabled(s, step)
    ensures Next(s, step).mode.Down? && Next(s, step).cache == s.cache
  {
    if step.task in s.tasks {
      assert TaskAgrees(s, step.task, s.tasks[step.task]);
    }
  }

  /** A background refresh that nothing interrupts: what it does to keys and cache is what the
      sequential refresh does. */
  lemma RefreshAlone(s: Service, t: TaskId, response: Result<JwksDocument, JwksError>, writeError: Option<JwksError>)
    returns (states: seq<Service>, steps: seq<Step>)
    requires s.mode.Up? && s.holder.None? && t !in s.tasks && (response.Success? ==> Loads(response.value))
    ensures IsRun(s, states, steps)
    ensures var end, succeeds := states[|states| - 1], Refreshes(s.hasCachePath, response, writeError);
            && end.mode.Up? && end.holder.None? && t in end.tasks && end.tasks[t] == Finished(succeeds)
            && end.installed == (if succeeds then Some(Stamped(response.value, s.fetches + 1)) else s.installed)
            && end.cache == (if succeeds && s.hasCachePath then end.installed else s.cache)
  {
    if response.Success? {
      states, steps := RefreshFetches(s, t, response.value);
      var end := states[3];
      if s.hasCachePath {
        end := Next(end, Persist(t, writeError));
        states, steps := states + [end], steps + [Persist(t, writeError)];
      }
      if !s.hasCachePath || writeError.None? {
        states, steps := states + [Next(end, Install(t))], steps + [Install(t)];
      }
    } else {
      var s1 := Next(s, BeginRefresh(t));
      var s2 := Next(s1, Lock(t));
      states := [s, s1, s2, Next(s2, Step.Fetch(t, response))];
      steps := [BeginRefresh(t), Lock(t), Step.Fetch(t, response)];
    }
  }

  // ---- verified tokens ----

  lemma FirstVerdictMeans(keys: KeySet, token: Token)
    ensures FirstVerdict(keys, token).AskRefresh? <==> NeedsRefresh(keys, token)
    ensures FirstVerdict(keys, token).Settled? ==>
              forall refreshed: Result<KeySet, JwksError> ::
                VerifyOutcome(keys, token, refreshed) == FirstVerdict(keys, token).answer
    ensures FirstVerdict(keys, token).AskRefresh? ==>
              && (forall error :: VerifyOutcome(keys, token, Failure(error)) == Failure(error))
              && forall newer :: SecondVerdict(newer, token) == Settled(VerifyOutcome(keys, token, Success(newer)))
  {
  }

  /** Every answer is the one of a verification alone, given the keys it saw: the installed
      ones first, and after a refresh of its own keys fetched later, no earlier than the
      document of that refresh. */
  lemma AnswersAreJustified(hasCachePath: bool, cache: Option<JwksDocument>, states: seq<Service>, steps: seq<Step>,
                            i: nat, t: TaskId)
    requires IsRun(Initial(hasCachePath, cache), states, steps) && i < |states| && t in states[i].tasks
    requires states[i].tasks[t].Answered?
    ensures var task := states[i].tasks[t];
            && Loads(task.first.document)
            && var keys := CodecOf(task.first.document);
            && (task.retry.NotAsked? <==> !NeedsRefresh(keys, task.token))
            && match task.retry
               case NotAsked =>
                 forall refreshed: Result<KeySet, JwksError> ::
                   task.answer == VerifyOutcome(keys, task.token, refreshed)
               case RefreshFailed(error) => task.answer == VerifyOutcome(keys, task.token, Failure(error))
               case Retried(own, used) =>
                 && task.first.at < own.at <= used.at && Loads(used.document)
                 && task.answer == VerifyOutcome(keys, task.token, Success(CodecOf(used.document)))
  {
    InvAlways(hasCachePath, cache, states, steps, i);
    var task := states[i].tasks[t];
    assert IsFounded(task) && TaskAgrees(states[i], t, task);
    FirstVerdictMeans(CodecOf(task.first.document), task.token);
  }

  /** The header is that of an ES384 JWT, and the key of the last signing entry with its `kid`
      does not reject the token. */
  predicate IsAcceptedBy(document: JwksDocument, token: Token) {
    && token.header.Success? && token.header.value.alg == "ES384" && token.header.value.typ == Some("JWT")
    && token.header.value.kid.Some?
    && exists i :: 0 <= i < |document.keys| && IsPublished(document, i, token.header.value.kid.value)
                   && document.keys[i].point.Some? && document.keys[i].point.value !in token.rejections
  }

  lemma AcceptedByItsEntry(document: JwksDocument, token: Token)
    requires Loads(document)
    ensures Accepts(CodecOf(document), token) <==> IsAcceptedBy(document, token)
  {
    if token.header.Success? && token.header.value.kid.Some? {
      var kid := token.header.value.kid.value;
      if kid in CodecOf(document).byKid {
        PublishedKeyIsUsed(document, kid, CodecOf(document).byKid[kid]);
      }
      if i :| 0 <= i < |document.keys| && IsPublished(document, i, kid) && document.keys[i].point.Some?
              && document.keys[i].point.value !in token.rejections {
        PublishedKeyIsUsed(document, kid, document.keys[i].point.value);
      }
    }
  }

  /** The document whose keys gave the last verdict. */
  function LastJudged(task: Task): JwksDocument
    requires task.Answered?
  {
    if task.retry.Retried? then task.retry.used.document else task.first.document
  }

  /** In every run a token is accepted if and only if the document it was last judged by publishes,
      for its `kid`, an ES384 key that does not reject it; a failed refresh accepts nothing. */
  lemma AcceptedExactlyWhen(hasCachePath: bool, cache: Option<JwksDocument>, states: seq<Service>, steps: seq<Step>,
                            i: nat, t: TaskId)
    requires IsRun(Initial(hasCachePath, cache), states, steps) && i < |states| && t in states[i].tasks
    requires states[i].tasks[t].Answered?
    ensures var task := states[i].tasks[t];
            task.answer == Success(()) <==> !task.retry.RefreshFailed? && IsAcceptedBy(LastJudged(task), task.token)
  {
    AnswersAreJustified(hasCachePath, cache, states, steps, i, t);
    var task := states[i].tasks[t];
    var keys := CodecOf(task.first.document);
    AcceptedByItsEntry(LastJudged(task), task.token);
    DecodesExactlyWhenAccepted(keys, task.token);
    match task.retry
    case NotAsked => VerifiedExactlyWhen(keys, task.token, Failure(StartupNoKeys));
    case RefreshFailed(_) =>
    case Retried(_, used) => VerifiedExactlyWhen(keys, task.token, Success(CodecOf(used.document)));
  }

  /** In every run a token that its published key rejects is answered with the message of that
      rejection, as it stands or as classified after a refresh. */
  lemma RejectionIsAnswered(hasCachePath: bool, cache: Option<JwksDocument>, states: seq<Service>, steps: seq<Step>,
                            i: nat, t: TaskId, kid: string, n: nat)
    requires IsRun(Initial(hasCachePath, cache), states, steps) && i < |states| && t in states[i].tasks
    requires states[i].tasks[t].Answered? && HasKid(states[i].tasks[t].token, kid)
    requires var keys := LastJudged(states[i].tasks[t]).keys;
             && n < |keys| && IsPublished(LastJudged(states[i].tasks[t]), n, kid)
             && keys[n].point.Some? && keys[n].point.value in states[i].tasks[t].token.rejections
    ensures var task := states[i].tasks[t];
            var message := task.token.rejections[LastJudged(task).keys[n].point.value];
            match task.retry
            case NotAsked => task.answer == Failure(Verify(message))
            case RefreshFailed(error) => task.answer == Failure(error)
            case Retried(_, _) =>
              task.answer.Failure? && task.answer.error ==
                if Contains(message, "missing `kid`") then MissingKidWithoutFallback
                else if KidFromTokenError(message).Some? then UnknownKid(KidFromTokenError(message).value)
                else Verify(message)
  {
    AnswersAreJustified(hasCachePath, cache, states, steps, i, t);
    var task := states[i].tasks[t];
    var key := LastJudged(task).keys[n].point.value;
    PublishedKeyIsUsed(LastJudged(task), kid, key);
    DecodesExactlyWhenAccepted(CodecOf(LastJudged(task)), task.token);
    if task.retry.NotAsked? {
      RefusedWith(CodecOf(task.first.document), task.token, task.token.rejections[key], Failure(StartupNoKeys));
    } else if task.retry.Retried? {
      var first := Decode(CodecOf(task.first.document), task.token);
      RefusedWith(CodecOf(task.first.document), task.token, first.error, Success(CodecOf(task.retry.used.document)));
    }
  }

  /** A verification that nothing interrupts goes through to its answer, which is that of the
      sequential one, at most one refresh included. */
  lemma VerificationAlone(s: Service, t: TaskId, token: Token, response: Result<JwksDocument, JwksError>,
                          writeError: Option<JwksError>)
    returns (states: seq<Service>, steps: seq<Step>)
    requires s.mode.Up? && s.holder.None? && t !in s.tasks && HasUsableKeys(s.installed)
    requires response.Success? ==> Loads(response.value)
    ensures IsRun(s, states, steps)
    ensures var end, keys := states[|states| - 1], CodecOf(s.installed.value.document);
            var refreshed := Refreshed(s.hasCachePath, response, writeError);
            var refreshes := NeedsRefresh(keys, token) && refreshed.Success?;
            && end.mode.Up? && end.holder.None? && t in end.tasks && end.tasks[t].Answered?
            && end.tasks[t].answer == VerifyOutcome(keys, token, refreshed)
            && end.installed == (if refreshes then Some(Stamped(response.value, s.fetches + 1)) else s.installed)
            && end.cache == (if refreshes && s.hasCachePath then end.installed else s.cache)
  {
    var keys := CodecOf(s.installed.value.document);
    var verdict := FirstVerdict(keys, token);
    FirstVerdictMeans(keys, token);
    var s1 := Next(s, BeginVerify(t, token));
    var s2 := Next(s1, DecodeFirst(t, verdict));
    states, steps := [s, s1, s2], [BeginVerify(t, token), DecodeFirst(t, verdict)];
    if verdict.AskRefresh? {
      states, steps := RetryAlone(s, s2, t, token, response, writeError, states, steps);
    }
  }

  lemma RunGrowsBy(start: Service, states: seq<Service>, steps: seq<Step>, step: Step)
    requires IsRun(start, states, steps) && Enabled(states[|steps|], step)
    ensures IsRun(start, states + [Next(states[|steps|], step)], steps + [step])
  {
    var states', steps' := states + [Next(states[|steps|], step)], steps + [step];
    forall i {:trigger steps'[i]} | 0 <= i < |steps'|
      ensures Enabled(states'[i], steps'[i]) && states'[i + 1] == Next(states'[i], steps'[i])
    {
      if i < |steps| {
        assert steps'[i] == steps[i] && states'[i] == states[i] && states'[i + 1] == states[i + 1];
      }
    }
  }

  /** The part of such a verification from the request for a refresh on. */
  lemma RetryAlone(s: Service, asked: Service, t: TaskId, token: Token, response: Result<JwksDocument, JwksError>,
                   writeError: Option<JwksError>, before: seq<Service>, done: seq<Step>)
    returns (states: seq<Service>, steps: seq<Step>)
    requires s.mode.Up? && s.holder.None? && HasUsableKeys(s.installed) && (response.Success? ==> Loads(response.value))
    requires IsRun(s, before, done) && before[|done|] == asked && t in asked.tasks
    requires asked == s.(tasks := asked.tasks) && asked.tasks[t] == Waiting(Verifying(token, s.installed.value))
    requires NeedsRefresh(CodecOf(s.installed.value.document), token)
    ensures IsRun(s, states, steps)
    ensures var end, keys := states[|states| - 1], CodecOf(s.installed.value.document);
            var refreshed := Refreshed(s.hasCachePath, response, writeError);
            && end.mode.Up? && end.holder.None? && t in end.tasks && end.tasks[t].Answered?
            && end.tasks[t].answer == VerifyOutcome(keys, token, refreshed)
            && end.installed ==
               (if refreshed.Success? then Some(Stamped(response.value, s.fetches + 1)) else s.installed)
            && end.cache == (if refreshed.Success? && s.hasCachePath then end.installed else s.cache)
  {
    var keys, fetch := CodecOf(s.installed.value.document), Step.Fetch(t, response);
    FirstVerdictMeans(keys, token);
    RunGrowsBy(s, before, done, Lock(t));
    var holding := Next(asked, Lock(t));
    states, steps := before + [holding], done + [Lock(t)];
    RunGrowsBy(s, states, steps, fetch);
    var end := Next(holding, fetch);
    states, steps := states + [end], steps + [fetch];
    if response.Success? {
      if s.hasCachePath {
        RunGrowsBy(s, states, steps, Persist(t, writeError));
        end := Next(end, Persist(t, writeError));
        states, steps := states + [end], steps + [Persist(t, writeError)];
      }
      if !s.hasCachePath || writeError.None? {
        RunGrowsBy(s, states, steps, Install(t));
        end := Next(end, Install(t));
        states, steps := states + [end], steps + [Install(t)];
        var second := DecodeSecond(t, SecondVerdict(CodecOf(response.value), token));
        RunGrowsBy(s, states, steps, second);
        states, steps := states + [Next(end, second)], steps + [second];
      }
    }
  }

  /** A `kid` still absent from the keys of the second decode is reported as unknown, with
      exactly that `kid` if and only if it holds no back-tick. */
  lemma AbsentKidIsReported(hasCachePath: bool, cache: Option<JwksDocument>, states: seq<Service>, steps: seq<Step>,
                            i: nat, t: TaskId, kid: string)
    requires IsRun(Initial(hasCachePath, cache), states, steps) && i < |states| && t in states[i].tasks
    requires states[i].tasks[t].Answered? && states[i].tasks[t].retry.Retried? && HasKid(states[i].tasks[t].token, kid)
    requires forall key | key in states[i].tasks[t].retry.used.document.keys :: key.kid != kid
    ensures states[i].tasks[t].answer == Failure(UnknownKid(kid)) <==> '`' !in kid
  {
    InvAlways(hasCachePath, cache, states, steps, i);
    var task := states[i].tasks[t];
    assert IsFounded(task);
    var document := task.retry.used.document;
    LoadedKeysSign(document);
    assert kid !in CodecOf(document).byKid;
    AbsentKidVerdict(CodecOf(document), task.token, kid);
  }

  lemma AbsentKidVerdict(keys: KeySet, token: Token, kid: string)
    requires HasKid(token, kid) && kid !in keys.byKid
    ensures SecondVerdict(keys, token) == Settled(Failure(UnknownKid(kid))) <==> '`' !in kid
  {
    UnknownKidIsReported(kid);
  }

  predicate IsDecodeBy(step: Step, t: TaskId) {
    (step.DecodeFirst? || step.DecodeSecond?) && step.task == t
  }

  predicate IsFetchBy(step: Step, t: TaskId) {
    step.Fetch? && step.task == t
  }

  function Decodes(steps: seq<Step>, t: TaskId): nat {
    if steps == [] then 0
    else Decodes(steps[..|steps| - 1], t) + if IsDecodeBy(steps[|steps| - 1], t) then 1 else 0
  }

  function Fetches(steps: seq<Step>, t: TaskId): nat {
    if steps == [] then 0
    else Fetches(steps[..|steps| - 1], t) + if IsFetchBy(steps[|steps| - 1], t) then 1 else 0
  }

  function DecodesLeft(s: Service, t: TaskId): nat {
    if t !in s.tasks || s.tasks[t].Judging? then 2
    else if Ended(s.tasks[t]) then 0
    else 1
  }

  function FetchesLeft(s: Service, t: TaskId): nat {
    if t !in s.tasks || s.tasks[t].Judging? || s.tasks[t].Waiting? || s.tasks[t].Holding? then 1 else 0
  }

  lemma StepSpends(s: Service, step: Step, t: TaskId)
    requires Ready(s, step)
    ensures DecodesLeft(Next(s, step), t) + (if IsDecodeBy(step, t) then 1 else 0) <= DecodesLeft(s, t)
    ensures FetchesLeft(Next(s, step), t) + (if IsFetchBy(step, t) then 1 else 0) <= FetchesLeft(s, t)
  {
    if t in s.tasks {
      if !step.Crash? && step.task == t {
        ActorMovesOn(s, step);
      } else {
        OthersKeepOrGo(s, step, t);
      }
    }
  }

  /** In every run each verification decodes at most twice and each task fetches at most once. */
  lemma {:induction false} TwoDecodesOneRefresh(start: Service, states: seq<Service>, steps: seq<Step>, i: nat,
                                                t: TaskId)
    requires IsRun(start, states, steps) && i <= |steps| && t !in start.tasks
    ensures Decodes(steps[..i], t) + DecodesLeft(states[i], t) <= 2
    ensures Fetches(steps[..i], t) + FetchesLeft(states[i], t) <= 1
  {
    if i > 0 {
      TwoDecodesOneRefresh(start, states, steps, i - 1, t);
      assert steps[..i][..i - 1] == steps[..i - 1];
      StepSpends(states[i - 1], steps[i - 1], t);
    }
  }
}
