/** The life of a JWKS verifier over restarts: background and on-demand refreshes, token
    verifications, cancellations and crashes, interleaved. Cache writes are atomic. */
module JwksRuns {
  import opened Wrappers
  import opened JwtCodec
  import opened V = JwksVerifier

  type TaskId = nat

  /** A document and the number of the fetch that brought it; 0 for a cache file found at the
      very start. */
  datatype Stamped = Stamped(document: JwksDocument, at: nat)

  datatype Purpose = Startup | Background | Verifying(token: Token, first: Stamped)

  /** What followed the first decode. */
  datatype Retry =
    | NotAsked
    | RefreshFailed(error: JwksError)
    | Retried(own: Stamped, used: Stamped)

  datatype Verdict = Settled(answer: Result<(), JwksError>) | AskRefresh

  datatype Task =
    | Judging(token: Token)
    | Waiting(purpose: Purpose)
    | Holding(purpose: Purpose)
    | Fetched(purpose: Purpose, document: Stamped)
    | Persisted(purpose: Purpose, document: Stamped)
    | Rejudging(token: Token, first: Stamped, own: Stamped)
    | Answered(token: Token, first: Stamped, retry: Retry, answer: Result<(), JwksError>)
    | Finished(succeeded: bool)
    | Gone

  datatype Mode = Down | Starting(task: TaskId, hasCache: bool) | Up

  /** `holder` is the task inside the refresh lock. */
  datatype Service = Service(
    hasCachePath: bool, mode: Mode, installed: Option<Stamped>, cache: Option<Stamped>,
    holder: Option<TaskId>, fetches: nat, tasks: map<TaskId, Task>)

  /** Steps carry what the environment, or decoding, answers. A response that is no document,
      or no document that loads, is a failure. */
  datatype Step =
    | Start(task: TaskId, usable: bool)
    | BeginRefresh(task: TaskId)
    | BeginVerify(task: TaskId, token: Token)
    | DecodeFirst(task: TaskId, verdict: Verdict)
    | Lock(task: TaskId)
    | Fetch(task: TaskId, response: Result<JwksDocument, JwksError>)
    | Persist(task: TaskId, writeError: Option<JwksError>)
    | Install(task: TaskId)
    | DecodeSecond(task: TaskId, verdict: Verdict)
    | Cancel(task: TaskId)
    | Crash

  function Initial(hasCachePath: bool, cache: Option<JwksDocument>): Service {
    Service(hasCachePath, Down, None, if cache.Some? then Some(Stamped(cache.value, 0)) else None, None, 0, map[])
  }

  predicate Critical(task: Task) {
    task.Holding? || task.Fetched? || task.Persisted?
  }

  predicate Ended(task: Task) {
    task.Answered? || task.Finished? || task.Gone?
  }

  predicate HasUsableKeys(held: Option<Stamped>) {
    held.Some? && Loads(held.value.document)
  }

  function FirstVerdict(keys: KeySet, token: Token): Verdict {
    match Decode(keys, token)
    case Success(_) => Settled(Success(()))
    case Failure(message) => if AsksForRefresh(message) then AskRefresh else Settled(Failure(Verify(message)))
  }

  function SecondVerdict(keys: KeySet, token: Token): Verdict {
    match Decode(keys, token)
    case Success(_) => Settled(Success(()))
    case Failure(message) => Settled(Failure(Classify(message)))
  }

  /** The program is at a point where it can take the step. */
  predicate Ready(s: Service, step: Step) {
    match step
    case Start(t, _) => s.mode.Down? && t !in s.tasks
    case BeginRefresh(t) => s.mode.Up? && t !in s.tasks
    case BeginVerify(t, _) => s.mode.Up? && t !in s.tasks
    case DecodeFirst(t, _) => t in s.tasks && s.tasks[t].Judging? && s.installed.Some?
    case Lock(t) => t in s.tasks && s.tasks[t].Waiting? && s.holder.None?
    case Fetch(t, _) => t in s.tasks && s.tasks[t].Holding?
    case Persist(t, _) => t in s.tasks && s.tasks[t].Fetched? && s.hasCachePath
    case Install(t) => t in s.tasks && (s.tasks[t].Persisted? || (s.tasks[t].Fetched? && !s.hasCachePath))
    case DecodeSecond(t, verdict) => t in s.tasks && s.tasks[t].Rejudging? && s.installed.Some? && verdict.Settled?
    case Cancel(t) => t in s.tasks && !Ended(s.tasks[t])
    case Crash => !s.mode.Down?
  }

  /** What the step carries is what loading or decoding gives. */
  predicate Judged(s: Service, step: Step)
    requires Ready(s, step)
  {
    match step
    case Start(_, usable) => usable <==> HasUsableKeys(s.cache)
    case DecodeFirst(t, verdict) =>
      HasUsableKeys(s.installed) && verdict == FirstVerdict(CodecOf(s.installed.value.document), s.tasks[t].token)
    case DecodeSecond(t, verdict) =>
      HasUsableKeys(s.installed) && verdict == SecondVerdict(CodecOf(s.installed.value.document), s.tasks[t].token)
    case Fetch(_, response) => response.Success? ==> Loads(response.value)
    case _ => true
  }

  predicate Enabled(s: Service, step: Step) {
    Ready(s, step) && Judged(s, step)
  }

  /** The process ends, in a crash or because its startup failed; the cache file stays. */
  function Stop(s: Service): Service {
    s.(mode := Down, installed := None, holder := None,
       tasks := map t | t in s.tasks :: if Ended(s.tasks[t]) then s.tasks[t] else Gone)
  }

  /** The refresh of `t`, which holds the lock, fails. */
  function Fail(s: Service, t: TaskId, purpose: Purpose, error: JwksError): Service {
    match purpose
    case Startup =>
      var s' := s.(tasks := s.tasks[t := Finished(false)]);
      if s.mode == Starting(t, true) then s'.(mode := Up, holder := None) else Stop(s')
    case Background => s.(holder := None, tasks := s.tasks[t := Finished(false)])
    case Verifying(token, first) =>
      s.(holder := None, tasks := s.tasks[t := Answered(token, first, RefreshFailed(error), Failure(error))])
  }

  /** The refresh of `t` installs `document` and gives up the lock. */
  function Succeed(s: Service, t: TaskId, purpose: Purpose, document: Stamped): Service {
    var s' := s.(holder := None, installed := Some(document));
    match purpose
    case Startup => s'.(mode := Up, tasks := s.tasks[t := Finished(true)])
    case Background => s'.(tasks := s.tasks[t := Finished(true)])
    case Verifying(token, first) => s'.(tasks := s.tasks[t := Rejudging(token, first, document)])
  }

  function Next(s: Service, step: Step): Service
    requires Ready(s, step)
  {
    match step
    case Start(t, usable) =>
      if !s.hasCachePath || s.cache.None? then s.(mode := Starting(t, false), tasks := s.tasks[t := Waiting(Startup)])
      else if usable then s.(mode := Starting(t, true), installed := s.cache, tasks := s.tasks[t := Waiting(Startup)])
      else s.(tasks := s.tasks[t := Finished(false)])
    case BeginRefresh(t) => s.(tasks := s.tasks[t := Waiting(Background)])
    case BeginVerify(t, token) => s.(tasks := s.tasks[t := Judging(token)])
    case DecodeFirst(t, verdict) =>
      var token, first := s.tasks[t].token, s.installed.value;
      s.(tasks := s.tasks[t := if verdict.Settled? then Answered(token, first, NotAsked, verdict.answer)
                               else Waiting(Verifying(token, first))])
    case Lock(t) => s.(holder := Some(t), tasks := s.tasks[t := Holding(s.tasks[t].purpose)])
    case Fetch(t, response) =>
      var s', purpose := s.(fetches := s.fetches + 1), s.tasks[t].purpose;
      if response.Failure? then Fail(s', t, purpose, response.error)
      else s'.(tasks := s.tasks[t := Fetched(purpose, Stamped(response.value, s'.fetches))])
    case Persist(t, writeError) =>
      var purpose, document := s.tasks[t].purpose, s.tasks[t].document;
      if writeError.Some? then Fail(s, t, purpose, writeError.value)
      else s.(cache := Some(document), tasks := s.tasks[t := Persisted(purpose, document)])
    case Install(t) => Succeed(s, t, s.tasks[t].purpose, s.tasks[t].document)
    case DecodeSecond(t, verdict) =>
      var task := s.tasks[t];
      s.(tasks := s.tasks[t := Answered(task.token, task.first, Retried(task.own, s.installed.value), verdict.answer)])
    case Cancel(t) =>
      if s.mode.Starting? then Stop(s)
      else s.(holder := if s.holder == Some(t) then None else s.holder, tasks := s.tasks[t := Gone])
    case Crash => Stop(s)
  }

  ghost predicate IsRun(start: Service, states: seq<Service>, steps: seq<Step>) {
    && |states| == |steps| + 1
    && states[0] == start
    && forall i {:trigger steps[i]} | 0 <= i < |steps| ::
         Enabled(states[i], steps[i]) && states[i + 1] == Next(states[i], steps[i])
  }

  // ---- the lock ----

  predicate LockAgrees(s: Service) {
    && (s.holder.Some? ==> s.holder.value in s.tasks)
    && forall t | t in s.tasks :: Critical(s.tasks[t]) <==> s.holder == Some(t)
  }

  lemma LockPreserved(s: Service, step: Step)
    requires LockAgrees(s) && Ready(s, step)
    ensures LockAgrees(Next(s, step))
  {
  }

  // ---- which keys are older ----

  predicate Older(held: Option<Stamped>, at: nat) {
    held.Some? ==> held.value.at < at
  }

  predicate AtLeast(held: Option<Stamped>, at: nat) {
    held.Some? && at <= held.value.at
  }

  predicate PurposeAgrees(s: Service, t: TaskId, purpose: Purpose) {
    match purpose
    case Startup => s.mode == Starting(t, s.installed.Some?)
    case Background => s.mode.Up?
    case Verifying(_, first) => s.mode.Up? && AtLeast(s.installed, first.at)
  }

  predicate TaskAgrees(s: Service, t: TaskId, task: Task) {
    match task
    case Judging(_) => s.mode.Up?
    case Waiting(purpose) => PurposeAgrees(s, t, purpose)
    case Holding(purpose) => PurposeAgrees(s, t, purpose)
    case Fetched(purpose, document) =>
      && PurposeAgrees(s, t, purpose) && document.at == s.fetches
      && Older(s.installed, s.fetches) && Older(s.cache, s.fetches)
    case Persisted(purpose, document) =>
      && PurposeAgrees(s, t, purpose) && document.at == s.fetches && s.hasCachePath
      && Older(s.installed, s.fetches) && s.cache == Some(document)
    case Rejudging(_, first, own) => s.mode.Up? && first.at < own.at && AtLeast(s.installed, own.at)
    case Answered(_, first, retry, _) => retry.Retried? ==> first.at < retry.own.at <= retry.used.at
    case Finished(_) => true
    case Gone => true
  }

  predicate StampsAgree(s: Service) {
    && Older(s.installed, s.fetches + 1) && Older(s.cache, s.fetches + 1)
    && (s.mode.Down? ==> s.installed.None?)
    && (s.mode.Up? ==> s.installed.Some?)
    && (s.hasCachePath && s.installed.Some? ==>
          s.cache == s.installed || (s.cache.Some? && s.installed.value.at < s.cache.value.at))
  }

  predicate TasksAgree(s: Service) {
    forall t | t in s.tasks :: TaskAgrees(s, t, s.tasks[t])
  }

  lemma StampsPreserved(s: Service, step: Step)
    requires StampsAgree(s) && ActorAgrees(s, step) && Ready(s, step)
    ensures StampsAgree(Next(s, step))
  {
  }

  /** The task of the step, if there is one, agrees. */
  predicate ActorAgrees(s: Service, step: Step) {
    !step.Crash? && step.task in s.tasks ==>
      && TaskAgrees(s, step.task, s.tasks[step.task])
      && (Critical(s.tasks[step.task]) <==> s.holder == Some(step.task))
  }

  /** The steps of a refresh that holds the lock. */
  predicate IsRefreshing(step: Step) {
    step.Fetch? || step.Persist? || step.Install?
  }

  lemma OthersAgreeWithRefresh(s: Service, step: Step, t: TaskId)
    requires StampsAgree(s) && ActorAgrees(s, step) && Ready(s, step) && IsRefreshing(step)
    requires t in s.tasks && TaskAgrees(s, t, s.tasks[t]) && (Critical(s.tasks[t]) <==> s.holder == Some(t))
    requires step.task != t
    ensures TaskAgrees(Next(s, step), t, Next(s, step).tasks[t])
  {
  }

  lemma OthersAgree(s: Service, step: Step, t: TaskId)
    requires StampsAgree(s) && Ready(s, step) && !IsRefreshing(step)
    requires t in s.tasks && TaskAgrees(s, t, s.tasks[t])
    requires step.Crash? || step.task != t
    ensures TaskAgrees(Next(s, step), t, Next(s, step).tasks[t])
  {
  }

  lemma RefresherAgrees(s: Service, step: Step)
    requires StampsAgree(s) && ActorAgrees(s, step) && Ready(s, step) && IsRefreshing(step)
    ensures TaskAgrees(Next(s, step), step.task, Next(s, step).tasks[step.task])
  {
  }

  lemma ActorStillAgrees(s: Service, step: Step)
    requires StampsAgree(s) && ActorAgrees(s, step) && Ready(s, step) && !IsRefreshing(step) && !step.Crash?
    ensures TaskAgrees(Next(s, step), step.task, Next(s, step).tasks[step.task])
  {
  }

  lemma TasksPreserved(s: Service, step: Step)
    requires StampsAgree(s) && TasksAgree(s) && LockAgrees(s) && Ready(s, step)
    ensures TasksAgree(Next(s, step))
  {
    var s' := Next(s, step);
    forall t | t in s'.tasks ensures TaskAgrees(s', t, s'.tasks[t]) {
      if IsRefreshing(step) {
        if step.task == t {
          RefresherAgrees(s, step);
        } else {
          OthersAgreeWithRefresh(s, step, t);
        }
      } else if !step.Crash? && step.task == t {
        ActorStillAgrees(s, step);
      } else {
        OthersAgree(s, step, t);
      }
    }
  }

  // ---- what keys and answers rest on ----

  predicate Asked(first: Stamped, token: Token) {
    Loads(first.document) && FirstVerdict(CodecOf(first.document), token).AskRefresh?
  }

  predicate PurposeIsFounded(purpose: Purpose) {
    purpose.Verifying? ==> Asked(purpose.first, purpose.token)
  }

  predicate AnswerIsFounded(token: Token, first: Stamped, retry: Retry, answer: Result<(), JwksError>) {
    match retry
    case NotAsked => Loads(first.document) && FirstVerdict(CodecOf(first.document), token) == Settled(answer)
    case RefreshFailed(error) => Asked(first, token) && answer == Failure(error)
    case Retried(_, used) =>
      Asked(first, token) && Loads(used.document) && SecondVerdict(CodecOf(used.document), token) == Settled(answer)
  }

  predicate IsFounded(task: Task) {
    match task
    case Waiting(purpose) => PurposeIsFounded(purpose)
    case Holding(purpose) => PurposeIsFounded(purpose)
    case Fetched(purpose, document) => PurposeIsFounded(purpose) && Loads(document.document)
    case Persisted(purpose, document) => PurposeIsFounded(purpose) && Loads(document.document)
    case Rejudging(token, first, _) => Asked(first, token)
    case Answered(token, first, retry, answer) => AnswerIsFounded(token, first, retry, answer)
    case _ => true
  }

  predicate KeysLoad(s: Service) {
    && (s.installed.Some? ==> Loads(s.installed.value.document))
    && (s.cache.Some? && s.cache.value.at > 0 ==> Loads(s.cache.value.document))
  }

  predicate TasksAreFounded(s: Service) {
    forall t | t in s.tasks :: IsFounded(s.tasks[t])
  }

  /** Installed keys come from the cache at startup and from an installing task afterwards. */
  lemma WhereInstalledComesFrom(s: Service, step: Step)
    requires Ready(s, step)
    ensures var now := Next(s, step).installed;
            || now.None? || now == s.installed
            || (step.Start? && step.usable && s.cache.Some? && now == s.cache)
            || (step.Install? && now == Some(s.tasks[step.task].document))
  {
  }

  lemma WhereCacheComesFrom(s: Service, step: Step)
    requires Ready(s, step)
    ensures || Next(s, step).cache == s.cache
            || (step.Persist? && Next(s, step).cache == Some(s.tasks[step.task].document))
  {
  }

  lemma KeysStillLoad(s: Service, step: Step)
    requires KeysLoad(s) && Ready(s, step)
    requires step.Start? && step.usable ==> HasUsableKeys(s.cache)
    requires step.Install? || step.Persist? ==> Loads(s.tasks[step.task].document.document)
    ensures KeysLoad(Next(s, step))
  {
    WhereInstalledComesFrom(s, step);
    WhereCacheComesFrom(s, step);
  }

  /** How the task of a step moves on. */
  predicate MovesOn(s: Service, step: Step, task: Task, task': Task) {
    match step
    case DecodeFirst(_, verdict) =>
      && task.Judging? && s.installed.Some?
      && task' == if verdict.Settled? then Answered(task.token, s.installed.value, NotAsked, verdict.answer)
                  else Waiting(Verifying(task.token, s.installed.value))
    case DecodeSecond(_, verdict) =>
      && task.Rejudging? && s.installed.Some? && verdict.Settled?
      && task' == Answered(task.token, task.first, Retried(task.own, s.installed.value), verdict.answer)
    case Lock(_) => task.Waiting? && task' == Holding(task.purpose)
    case Fetch(_, response) =>
      task.Holding? && (if response.Failure? then HasFailed(task.purpose, response.error, task')
                        else task' == Fetched(task.purpose, Stamped(response.value, s.fetches + 1)))
    case Persist(_, writeError) =>
      task.Fetched? && (if writeError.Some? then HasFailed(task.purpose, writeError.value, task')
                        else task' == Persisted(task.purpose, task.document))
    case Install(_) =>
      && (task.Persisted? || task.Fetched?)
      && task' == if task.purpose.Verifying? then Rejudging(task.purpose.token, task.purpose.first, task.document)
                  else Finished(true)
    case Cancel(_) => !Ended(task) && task' == Gone
    case _ => false
  }

  predicate HasFailed(purpose: Purpose, error: JwksError, task': Task) {
    task' == if purpose.Verifying? then Answered(purpose.token, purpose.first, RefreshFailed(error), Failure(error))
             else Finished(false)
  }

  lemma ActorMovesOn(s: Service, step: Step)
    requires Ready(s, step) && !step.Crash? && step.task in s.tasks
    ensures MovesOn(s, step, s.tasks[step.task], Next(s, step).tasks[step.task])
  {
  }

  lemma MoverIsFounded(s: Service, step: Step, task: Task, task': Task)
    requires MovesOn(s, step, task, task') && IsFounded(task)
    requires !step.DecodeFirst? && !step.DecodeSecond?
    requires step.Fetch? && step.response.Success? ==> Loads(step.response.value)
    ensures IsFounded(task')
  {
  }

  lemma FirstAnswerIsFounded(s: Service, step: Step, task: Task, task': Task)
    requires step.DecodeFirst? && MovesOn(s, step, task, task') && HasUsableKeys(s.installed)
    requires step.verdict == FirstVerdict(CodecOf(s.installed.value.document), task.token)
    ensures IsFounded(task')
  {
  }

  lemma SecondAnswerIsFounded(s: Service, step: Step, task: Task, task': Task)
    requires step.DecodeSecond? && MovesOn(s, step, task, task') && IsFounded(task) && HasUsableKeys(s.installed)
    requires step.verdict == SecondVerdict(CodecOf(s.installed.value.document), task.token)
    ensures IsFounded(task')
  {
  }

  lemma ActorIsFounded(s: Service, step: Step)
    requires Enabled(s, step) && !step.Crash? && step.task in s.tasks && IsFounded(s.tasks[step.task])
    ensures IsFounded(Next(s, step).tasks[step.task])
  {
    ActorMovesOn(s, step);
    var task, task' := s.tasks[step.task], Next(s, step).tasks[step.task];
    if step.DecodeFirst? {
      FirstAnswerIsFounded(s, step, task, task');
    } else if step.DecodeSecond? {
      SecondAnswerIsFounded(s, step, task, task');
    } else {
      MoverIsFounded(s, step, task, task');
    }
  }

  lemma OthersKeepOrGo(s: Service, step: Step, t: TaskId)
    requires Ready(s, step) && t in s.tasks && (step.Crash? || step.task != t)
    ensures t in Next(s, step).tasks && (Next(s, step).tasks[t] == s.tasks[t] || Next(s, step).tasks[t].Gone?)
    ensures Next(s, step).tasks[t] != s.tasks[t] ==> !Ended(s.tasks[t])
  {
  }

  ghost predicate Inv(s: Service) {
    LockAgrees(s) && StampsAgree(s) && TasksAgree(s) && KeysLoad(s) && TasksAreFounded(s)
  }

  lemma TasksStayFounded(s: Service, step: Step)
    requires KeysLoad(s) && TasksAreFounded(s) && Enabled(s, step)
    ensures TasksAreFounded(Next(s, step))
  {
    var s' := Next(s, step);
    forall t | t in s'.tasks ensures IsFounded(s'.tasks[t]) {
      if !step.Crash? && step.task == t {
        if t in s.tasks {
          ActorIsFounded(s, step);
        }
      } else {
        OthersKeepOrGo(s, step, t);
      }
    }
  }

  lemma InvPreserved(s: Service, step: Step)
    requires Inv(s) && Enabled(s, step)
    ensures Inv(Next(s, step))
  {
    LockPreserved(s, step);
    StampsPreserved(s, step);
    TasksPreserved(s, step);
    KeysStillLoad(s, step);
    TasksStayFounded(s, step);
  }

  lemma {:induction false} InvAlways(hasCachePath: bool, cache: Option<JwksDocument>, states: seq<Service>,
                                     steps: seq<Step>, i: nat)
    requires IsRun(Initial(hasCachePath, cache), states, steps) && i < |states|
    ensures Inv(states[i]) && states[i].hasCachePath == hasCachePath
  {
    if i > 0 {
      InvAlways(hasCachePath, cache, states, steps, i - 1);
      InvPreserved(states[i - 1], steps[i - 1]);
    }
  }
}
