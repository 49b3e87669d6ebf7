/** Decodes and key replacements through any number of clones of one codec, interleaved.

    A replacement converts its entries one by one outside the lock and then writes the two
    fields of the shared state one after the other under the write lock. A decode checks its
    header, takes its key under the read lock and verifies afterwards. */
module CodecRuns {
  import opened Wrappers
  import opened JwtCodec

  type TaskId = nat

  datatype Task =
    | Decoding(header: Header, since: nat)
    | Reading(header: Header, since: nat)
    | Picked(header: Header, since: nat, at: nat, key: Result<DecodingKey, string>)
    | Selected(header: Header, since: nat, at: nat, key: Result<DecodingKey, string>)
    | Converting(keys: seq<Jwk>, allowMissingKid: bool, done: nat, byKid: map<string, DecodingKey>)
    | Locked(keys: seq<Jwk>, allowMissingKid: bool, written: KeySet)
    | HalfWritten(keys: seq<Jwk>, allowMissingKid: bool, written: KeySet)
    | Written(keys: seq<Jwk>, allowMissingKid: bool, written: KeySet)
    | Replaced(keys: seq<Jwk>, allowMissingKid: bool, at: nat)
    | Refused(keys: seq<Jwk>)

  /** The two fields, who holds the lock, and as history the key sets installed so far, the
      initial one first. */
  datatype Codec = Codec(
    byKid: map<string, DecodingKey>, fallback: Option<DecodingKey>,
    writer: Option<TaskId>, readers: set<TaskId>,
    installed: seq<KeySet>, tasks: map<TaskId, Task>)

  datatype Step =
    | BeginDecode(task: TaskId, header: Header)
    | RejectHeader(task: TaskId)
    | LockRead(task: TaskId)
    | ReadKey(task: TaskId)
    | UnlockRead(task: TaskId)
    | BeginReplace(task: TaskId, keys: seq<Jwk>, allowMissingKid: bool)
    | Convert(task: TaskId)
    | LockWrite(task: TaskId, fallback: Option<DecodingKey>)
    | WriteByKid(task: TaskId)
    | WriteFallback(task: TaskId)
    | UnlockWrite(task: TaskId)

  function Initial(keys: KeySet): Codec {
    Codec(keys.byKid, keys.fallback, None, {}, [keys], map[])
  }

  predicate IsEs384Jwt(header: Header) {
    header.alg == "ES384" && header.typ == Some("JWT")
  }

  predicate Enabled(c: Codec, step: Step) {
    c.installed != [] &&
    match step
    case BeginDecode(t, _) => t !in c.tasks
    case RejectHeader(t) => t in c.tasks && c.tasks[t].Decoding? && !IsEs384Jwt(c.tasks[t].header)
    case LockRead(t) => t in c.tasks && c.tasks[t].Decoding? && IsEs384Jwt(c.tasks[t].header) && c.writer.None?
    case ReadKey(t) => t in c.tasks && c.tasks[t].Reading?
    case UnlockRead(t) => t in c.tasks && c.tasks[t].Picked?
    case BeginReplace(t, _, _) => t !in c.tasks
    case Convert(t) => t in c.tasks && c.tasks[t].Converting? && c.tasks[t].done < |c.tasks[t].keys|
    case LockWrite(t, fallback) =>
      && t in c.tasks && c.tasks[t].Converting? && c.tasks[t].done == |c.tasks[t].keys|
      && c.writer.None? && c.readers == {}
      && IsFallback(KeySet(c.tasks[t].byKid, fallback), c.tasks[t].allowMissingKid)
    case WriteByKid(t) => t in c.tasks && c.tasks[t].Locked?
    case WriteFallback(t) => t in c.tasks && c.tasks[t].HalfWritten?
    case UnlockWrite(t) => t in c.tasks && c.tasks[t].Written?
  }

  function Next(c: Codec, step: Step): Codec
    requires Enabled(c, step)
  {
    var last := |c.installed| - 1;
    match step
    case BeginDecode(t, header) => c.(tasks := c.tasks[t := Decoding(header, last)])
    case RejectHeader(t) =>
      var task := c.tasks[t];
      c.(tasks := c.tasks[t := Selected(task.header, task.since, last, SelectKey(KeySet(map[], None), task.header))])
    case LockRead(t) =>
      c.(readers := c.readers + {t}, tasks := c.tasks[t := Reading(c.tasks[t].header, c.tasks[t].since)])
    case ReadKey(t) =>
      var task := c.tasks[t];
      c.(tasks :=
           c.tasks[t := Picked(task.header, task.since, last, SelectKey(KeySet(c.byKid, c.fallback), task.header))])
    case UnlockRead(t) =>
      var task := c.tasks[t];
      c.(readers := c.readers - {t}, tasks := c.tasks[t := Selected(task.header, task.since, task.at, task.key)])
    case BeginReplace(t, keys, allow) => c.(tasks := c.tasks[t := Converting(keys, allow, 0, map[])])
    case Convert(t) =>
      var task := c.tasks[t];
      var key := task.keys[task.done];
      c.(tasks := c.tasks[t :=
        if Convertible(key) then task.(done := task.done + 1, byKid := task.byKid[key.kid := key.point.value])
        else Refused(task.keys)])
    case LockWrite(t, fallback) =>
      var task := c.tasks[t];
      c.(writer := Some(t),
         tasks := c.tasks[t := Locked(task.keys, task.allowMissingKid, KeySet(task.byKid, fallback))])
    case WriteByKid(t) =>
      var task := c.tasks[t];
      c.(byKid := task.written.byKid, tasks := c.tasks[t := HalfWritten(task.keys, task.allowMissingKid, task.written)])
    case WriteFallback(t) =>
      var task := c.tasks[t];
      c.(fallback := task.written.fallback,
         tasks := c.tasks[t := Written(task.keys, task.allowMissingKid, task.written)])
    case UnlockWrite(t) =>
      var task := c.tasks[t];
      c.(writer := None, installed := c.installed + [task.written],
         tasks := c.tasks[t := Replaced(task.keys, task.allowMissingKid, last + 1)])
  }

  ghost predicate IsRun(keys: KeySet, states: seq<Codec>, steps: seq<Step>) {
    && |states| == |steps| + 1
    && states[0] == Initial(keys)
    && forall i {:trigger steps[i]} | 0 <= i < |steps| ::
         Enabled(states[i], steps[i]) && states[i + 1] == Next(states[i], steps[i])
  }

  // ---- the lock ----

  predicate HoldsWrite(task: Task) {
    task.Locked? || task.HalfWritten? || task.Written?
  }

  predicate HoldsRead(task: Task) {
    task.Reading? || task.Picked?
  }

  predicate WriterAgrees(c: Codec) {
    && (c.writer.Some? ==> c.writer.value in c.tasks)
    && forall t | t in c.tasks :: HoldsWrite(c.tasks[t]) <==> c.writer == Some(t)
  }

  predicate ReadersAgree(c: Codec) {
    c.readers <= c.tasks.Keys && forall t | t in c.tasks :: HoldsRead(c.tasks[t]) <==> t in c.readers
  }

  /** Inside the lock are one writer or any readers. */
  predicate HoldersAgree(c: Codec) {
    WriterAgrees(c) && ReadersAgree(c) && (c.writer.Some? ==> c.readers == {})
  }

  /** The fields are the last installed set except for what the writer has overwritten. */
  predicate FieldsAgree(c: Codec) {
    && c.installed != []
    && (c.writer.Some? ==> c.writer.value in c.tasks && HoldsWrite(c.tasks[c.writer.value]))
    && var last := c.installed[|c.installed| - 1];
       if c.writer.None? then KeySet(c.byKid, c.fallback) == last
       else match c.tasks[c.writer.value]
         case HalfWritten(_, _, written) => c.byKid == written.byKid && c.fallback == last.fallback
         case Written(_, _, written) => KeySet(c.byKid, c.fallback) == written
         case _ => KeySet(c.byKid, c.fallback) == last
  }

  lemma WriterPreserved(c: Codec, step: Step)
    requires WriterAgrees(c) && Enabled(c, step)
    ensures WriterAgrees(Next(c, step))
  {
  }

  lemma ReadersPreserved(c: Codec, step: Step)
    requires ReadersAgree(c) && Enabled(c, step)
    ensures ReadersAgree(Next(c, step))
  {
  }

  lemma HoldersPreserved(c: Codec, step: Step)
    requires HoldersAgree(c) && Enabled(c, step)
    ensures HoldersAgree(Next(c, step))
  {
    WriterPreserved(c, step);
    ReadersPreserved(c, step);
  }

  predicate IsWriting(step: Step) {
    step.LockWrite? || step.WriteByKid? || step.WriteFallback? || step.UnlockWrite?
  }

  lemma FieldsPreservedByWriter(c: Codec, step: Step)
    requires FieldsAgree(c) && Enabled(c, step) && IsWriting(step)
    requires HoldsWrite(c.tasks[step.task]) ==> c.writer == Some(step.task)
    ensures FieldsAgree(Next(c, step))
  {
  }

  lemma FieldsPreservedByOthers(c: Codec, step: Step)
    requires FieldsAgree(c) && Enabled(c, step) && !IsWriting(step)
    ensures FieldsAgree(Next(c, step))
  {
  }

  // ---- the tasks ----

  /** The key set a JWKS replacement may write. */
  predicate IsWhole(written: KeySet, keys: seq<Jwk>, allowMissingKid: bool) {
    AllConvertible(keys) && written.byKid == KeysByKid(keys) && IsFallback(written, allowMissingKid)
  }

  predicate TaskAgrees(installed: seq<KeySet>, task: Task) {
    match task
    case Decoding(_, since) => since < |installed|
    case Reading(header, since) => since < |installed|
    case Picked(header, since, at, key) => since <= at < |installed| && key == SelectKey(installed[at], header)
    case Selected(header, since, at, key) => since <= at < |installed| && key == SelectKey(installed[at], header)
    case Converting(keys, _, done, byKid) =>
      done <= |keys| && AllConvertible(keys[..done]) && byKid == KeysByKid(keys[..done])
    case Locked(keys, allow, written) => IsWhole(written, keys, allow)
    case HalfWritten(keys, allow, written) => IsWhole(written, keys, allow)
    case Written(keys, allow, written) => IsWhole(written, keys, allow)
    case Replaced(keys, allow, at) => 0 < at < |installed| && IsWhole(installed[at], keys, allow)
    case Refused(keys) => !AllConvertible(keys)
  }

  /** Every set that was installed after the initial one came whole from one replacement. */
  ghost predicate WrittenBySomeTask(c: Codec, at: nat) {
    exists t :: t in c.tasks && c.tasks[t].Replaced? && c.tasks[t].at == at
  }

  ghost predicate Inv(c: Codec) {
    && HoldersAgree(c) && FieldsAgree(c)
    && (forall t | t in c.tasks :: TaskAgrees(c.installed, c.tasks[t]))
    && forall at: nat | 0 < at < |c.installed| :: WrittenBySomeTask(c, at)
  }

  lemma OthersStay(c: Codec, step: Step, t: TaskId)
    requires Enabled(c, step) && t in c.tasks && t != step.task
    ensures t in Next(c, step).tasks && Next(c, step).tasks[t] == c.tasks[t]
    ensures c.installed <= Next(c, step).installed
  {
  }

  lemma StillAgrees(installed: seq<KeySet>, installed': seq<KeySet>, task: Task)
    requires TaskAgrees(installed, task) && installed <= installed'
    ensures TaskAgrees(installed', task)
  {
  }

  /** A read finds no half-written state, since a reader excludes the writer. */
  lemma ReaderAgrees(c: Codec, step: Step)
    requires Inv(c) && Enabled(c, step) && (step.RejectHeader? || step.ReadKey?)
    ensures TaskAgrees(Next(c, step).installed, Next(c, step).tasks[step.task])
  {
    assert TaskAgrees(c.installed, c.tasks[step.task]);
    if step.ReadKey? {
      assert c.writer.None?;
    }
  }

  lemma ConverterAgrees(c: Codec, step: Step)
    requires Inv(c) && Enabled(c, step) && (step.Convert? || step.LockWrite?)
    ensures TaskAgrees(Next(c, step).installed, Next(c, step).tasks[step.task])
  {
    var task := c.tasks[step.task];
    assert TaskAgrees(c.installed, task);
    if step.Convert? {
      assert task.keys[..task.done + 1] == task.keys[..task.done] + [task.keys[task.done]];
      assert task.keys[..task.done + 1][..task.done] == task.keys[..task.done];
    } else {
      assert task.keys[..task.done] == task.keys;
    }
  }

  lemma ActorAgrees(c: Codec, step: Step)
    requires Inv(c) && Enabled(c, step)
    ensures TaskAgrees(Next(c, step).installed, Next(c, step).tasks[step.task])
  {
    if step.RejectHeader? || step.ReadKey? {
      ReaderAgrees(c, step);
    } else if step.Convert? || step.LockWrite? {
      ConverterAgrees(c, step);
    } else if step.task in c.tasks {
      assert TaskAgrees(c.installed, c.tasks[step.task]);
    }
  }

  lemma InvPreserved(c: Codec, step: Step)
    requires Inv(c) && Enabled(c, step)
    ensures Inv(Next(c, step))
  {
    var c' := Next(c, step);
    HoldersPreserved(c, step);
    if IsWriting(step) {
      FieldsPreservedByWriter(c, step);
    } else {
      FieldsPreservedByOthers(c, step);
    }
    forall t | t in c'.tasks ensures TaskAgrees(c'.installed, c'.tasks[t]) {
      if t == step.task {
        ActorAgrees(c, step);
      } else {
        OthersStay(c, step, t);
        StillAgrees(c.installed, c'.installed, c.tasks[t]);
      }
    }
    forall at: nat | 0 < at < |c'.installed| ensures WrittenBySomeTask(c', at) {
      if at < |c.installed| {
        assert WrittenBySomeTask(c, at);
        var t :| t in c.tasks && c.tasks[t].Replaced? && c.tasks[t].at == at;
        OthersStay(c, step, t);
      } else {
        assert c'.tasks[step.task].at == at;
      }
    }
  }

  lemma {:induction false} InvAlways(keys: KeySet, states: seq<Codec>, steps: seq<Step>, i: nat)
    requires IsRun(keys, states, steps) && i < |states|
    ensures Inv(states[i]) && states[i].installed[0] == keys
  {
    if i > 0 {
      InvAlways(keys, states, steps, i - 1);
      InvPreserved(states[i - 1], steps[i - 1]);
    }
  }

  /** Every decode takes its key from one whole set that was the last installed one at some
      moment between its start and its selection; the set is the initial one or stems from one
      replacement, all of whose entries were convertible. */
  lemma DecodeSeesOneWholeSet(keys: KeySet, states: seq<Codec>, steps: seq<Step>, i: nat, t: TaskId)
    requires IsRun(keys, states, steps) && i < |states| && t in states[i].tasks && states[i].tasks[t].Selected?
    ensures var c, task := states[i], states[i].tasks[t];
            && task.since <= task.at < |c.installed|
            && task.key == SelectKey(c.installed[task.at], task.header)
            && (if task.at == 0 then c.installed[task.at] == keys else
                exists r :: r in c.tasks && c.tasks[r].Replaced? && c.tasks[r].at == task.at
                            && IsWhole(c.installed[task.at], c.tasks[r].keys, c.tasks[r].allowMissingKid))
  {
    InvAlways(keys, states, steps, i);
    var c, task := states[i], states[i].tasks[t];
    assert TaskAgrees(c.installed, task);
    if task.at > 0 {
      assert WrittenBySomeTask(c, task.at);
      var r :| r in c.tasks && c.tasks[r].Replaced? && c.tasks[r].at == task.at;
      assert TaskAgrees(c.installed, c.tasks[r]);
    }
  }

  /** Between two moments at which no writer is inside the lock the fields hold one whole set. */
  lemma FieldsAreWholeOutsideTheLock(keys: KeySet, states: seq<Codec>, steps: seq<Step>, i: nat)
    requires IsRun(keys, states, steps) && i < |states| && states[i].writer.None?
    ensures var c := states[i];
            c.installed != [] && KeySet(c.byKid, c.fallback) == c.installed[|c.installed| - 1]
  {
    InvAlways(keys, states, steps, i);
  }

  /** A replacement with an entry that cannot be converted never enters the lock, so it changes
      neither field at any time. */
  lemma RefusedNeverWrites(keys: KeySet, states: seq<Codec>, steps: seq<Step>, i: nat, t: TaskId)
    requires IsRun(keys, states, steps) && i < |states| && t in states[i].tasks
    requires HoldsWrite(states[i].tasks[t]) || states[i].tasks[t].Replaced?
    ensures AllConvertible(states[i].tasks[t].keys)
  {
    InvAlways(keys, states, steps, i);
    assert TaskAgrees(states[i].installed, states[i].tasks[t]);
  }

  /** A replacement that was refused has an entry that cannot be converted, and the step that
      refused it changed neither field, lock nor history. */
  lemma RefusalChangesNothing(c: Codec, step: Step)
    requires Inv(c) && Enabled(c, step) && step.Convert? && Next(c, step).tasks[step.task].Refused?
    ensures !AllConvertible(c.tasks[step.task].keys)
    ensures Next(c, step) == c.(tasks := Next(c, step).tasks)
  {
  }

  // ---- a decode and a replacement that nothing interrupts ----

  lemma RunExtends(start: Codec, states: seq<Codec>, steps: seq<Step>, step: Step)
    requires IsRunFrom(start, states, steps) && Enabled(states[|steps|], step)
    ensures IsRunFrom(start, states + [Next(states[|steps|], step)], steps + [step])
  {
    var states', steps' := states + [Next(states[|steps|], step)], steps + [step];
    forall i {:trigger steps'[i]} | 0 <= i < |steps'|
      ensures Enabled(states'[i], steps'[i]) && states'[i + 1] == Next(states'[i], steps'[i])
    {
      if i < |steps| {
        assert steps'[i] == steps[i] && states'[i] == states[i] && states'[i + 1] == states[i + 1];
      }
    }
  }

  ghost predicate IsRunFrom(start: Codec, states: seq<Codec>, steps: seq<Step>) {
    && |states| == |steps| + 1
    && states[0] == start
    && forall i {:trigger steps[i]} | 0 <= i < |steps| ::
         Enabled(states[i], steps[i]) && states[i + 1] == Next(states[i], steps[i])
  }

  lemma ReadAlone(c: Codec, begun: Codec, t: TaskId, header: Header, since: nat)
    returns (states: seq<Codec>, steps: seq<Step>)
    requires c.installed != [] && c.writer.None? && t !in c.readers && IsEs384Jwt(header)
    requires begun == c.(tasks := c.tasks[t := Decoding(header, since)])
    ensures |states| == |steps| + 1 && IsRunFrom(begun, states, steps)
    ensures var key := SelectKey(KeySet(c.byKid, c.fallback), header);
            states[|steps|] == c.(tasks := c.tasks[t := Selected(header, since, |c.installed| - 1, key)])
  {
    var reading := Next(begun, LockRead(t));
    var picked := Next(reading, ReadKey(t));
    states, steps := [begun, reading, picked, Next(picked, UnlockRead(t))], [LockRead(t), ReadKey(t), UnlockRead(t)];
    assert c.readers + {t} - {t} == c.readers;
    var key := SelectKey(KeySet(c.byKid, c.fallback), header);
    assert states[3].tasks == c.tasks[t := Selected(header, since, |c.installed| - 1, key)];
  }

  lemma RunsPrepend(start: Codec, step: Step, states: seq<Codec>, steps: seq<Step>)
    requires Enabled(start, step) && IsRunFrom(Next(start, step), states, steps)
    ensures IsRunFrom(start, [start] + states, [step] + steps)
    ensures ([start] + states)[|steps| + 1] == states[|steps|]
  {
    var all, done := [start] + states, [step] + steps;
    forall i {:trigger done[i]} | 0 <= i < |done|
      ensures Enabled(all[i], done[i]) && all[i + 1] == Next(all[i], done[i])
    {
      if i > 0 {
        assert done[i] == steps[i - 1] && all[i] == states[i - 1] && all[i + 1] == states[i];
      }
    }
  }

  /** A decode goes through and takes its key from the last installed set. */
  lemma DecodeAlone(c: Codec, t: TaskId, header: Header) returns (states: seq<Codec>, steps: seq<Step>)
    requires Inv(c) && c.writer.None? && t !in c.tasks
    ensures IsRunFrom(c, states, steps)
    ensures var end, last := states[|steps|], |c.installed| - 1;
            && t in end.tasks && end.tasks[t] == Selected(header, last, last, SelectKey(c.installed[last], header))
            && end == c.(tasks := end.tasks)
  {
    var begin := BeginDecode(t, header);
    var begun := Next(c, begin);
    if !IsEs384Jwt(header) {
      states, steps := [c, begun, Next(begun, RejectHeader(t))], [begin, RejectHeader(t)];
    } else {
      states, steps := ReadAlone(c, begun, t, header, |c.installed| - 1);
      RunsPrepend(c, begin, states, steps);
      states, steps := [c] + states, [begin] + steps;
    }
  }

  /** The state in which the first `n` entries have been converted. */
  function Converted(c: Codec, t: TaskId, keys: seq<Jwk>, allow: bool, n: nat): Codec
    requires n <= |keys| && AllConvertible(keys[..n])
  {
    c.(tasks := c.tasks[t := Converting(keys, allow, n, KeysByKid(keys[..n]))])
  }

  lemma OneMoreKey(keys: seq<Jwk>, n: nat)
    requires n < |keys| && AllConvertible(keys[..n + 1])
    ensures Convertible(keys[n]) && AllConvertible(keys[..n])
    ensures KeysByKid(keys[..n + 1]) == KeysByKid(keys[..n])[keys[n].kid := keys[n].point.value]
  {
    assert keys[..n + 1][..n] == keys[..n] && keys[..n + 1][n] == keys[n];
    forall i | 0 <= i < n ensures Convertible(keys[..n][i]) {
      assert keys[..n + 1][i] == keys[..n][i];
    }
  }

  lemma ConvertOne(c: Codec, t: TaskId, keys: seq<Jwk>, allow: bool, n: nat)
    requires c.installed != [] && n < |keys| && AllConvertible(keys[..n]) && AllConvertible(keys[..n + 1])
    ensures Enabled(Converted(c, t, keys, allow, n), Convert(t))
    ensures Next(Converted(c, t, keys, allow, n), Convert(t)) == Converted(c, t, keys, allow, n + 1)
  {
    OneMoreKey(keys, n);
    assert Next(Converted(c, t, keys, allow, n), Convert(t)).tasks == Converted(c, t, keys, allow, n + 1).tasks;
  }

  lemma {:induction false} ConvertAlone(c: Codec, t: TaskId, keys: seq<Jwk>, allow: bool, n: nat)
    returns (states: seq<Codec>, steps: seq<Step>)
    requires c.installed != [] && t !in c.tasks && n <= |keys| && AllConvertible(keys[..n])
    ensures IsRunFrom(c, states, steps)
    ensures states[|steps|] == Converted(c, t, keys, allow, n)
  {
    if n == 0 {
      states, steps := [c, Next(c, BeginReplace(t, keys, allow))], [BeginReplace(t, keys, allow)];
    } else {
      OneMoreKey(keys, n - 1);
      states, steps := ConvertAlone(c, t, keys, allow, n - 1);
      ConvertOne(c, t, keys, allow, n - 1);
      RunExtends(c, states, steps, Convert(t));
      states, steps := states + [Converted(c, t, keys, allow, n)], steps + [Convert(t)];
    }
  }

  /** A replacement whose entries all convert installs them. */
  lemma ReplacementAlone(c: Codec, t: TaskId, keys: seq<Jwk>, allow: bool, written: KeySet)
    returns (states: seq<Codec>, steps: seq<Step>)
    requires Inv(c) && c.writer.None? && c.readers == {} && t !in c.tasks && IsWhole(written, keys, allow)
    ensures IsRunFrom(c, states, steps)
    ensures var end := states[|steps|];
            && KeySet(end.byKid, end.fallback) == written && end.installed == c.installed + [written]
            && end.writer.None? && end.readers == {}
            && t in end.tasks && end.tasks[t] == Replaced(keys, allow, |c.installed|)
  {
    assert keys[..|keys|] == keys;
    states, steps := ConvertAlone(c, t, keys, allow, |keys|);
    var s0 := states[|steps|];
    RunExtends(c, states, steps, LockWrite(t, written.fallback));
    var s1 := Next(s0, LockWrite(t, written.fallback));
    states, steps := states + [s1], steps + [LockWrite(t, written.fallback)];
    RunExtends(c, states, steps, WriteByKid(t));
    var s2 := Next(s1, WriteByKid(t));
    states, steps := states + [s2], steps + [WriteByKid(t)];
    RunExtends(c, states, steps, WriteFallback(t));
    var s3 := Next(s2, WriteFallback(t));
    states, steps := states + [s3], steps + [WriteFallback(t)];
    RunExtends(c, states, steps, UnlockWrite(t));
    states, steps := states + [Next(s3, UnlockWrite(t))], steps + [UnlockWrite(t)];
  }

  /** One that has an entry which does not convert is refused at the first such entry. */
  lemma RefusalAlone(c: Codec, t: TaskId, keys: seq<Jwk>, allow: bool, n: nat)
    returns (states: seq<Codec>, steps: seq<Step>)
    requires c.installed != [] && t !in c.tasks && n < |keys| && AllConvertible(keys[..n]) && !Convertible(keys[n])
    ensures IsRunFrom(c, states, steps)
    ensures states[|steps|] == c.(tasks := c.tasks[t := Refused(keys)])
  {
    states, steps := ConvertAlone(c, t, keys, allow, n);
    var now := states[|steps|];
    RunExtends(c, states, steps, Convert(t));
    var next := Next(now, Convert(t));
    assert next.tasks == c.tasks[t := Refused(keys)];
    states, steps := states + [next], steps + [Convert(t)];
  }
}
