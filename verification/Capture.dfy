/**
 The bounded output capture of the native executor: two drain threads share one
 limit, one lock and one flag, and the caller copies their buffers while they may
 still be running.  One action is one indivisible access to shared data, so a
 schedule (a sequence of actions) is an interleaving of the three threads.
 */
module Capture {
  import opened Bytes

  const CHUNK: nat := 64 * 1024

  datatype Name = Stdout | Stderr

  /** Where a drain stands in its loop; the payload is what its locals hold there. */
  datatype Pc =
    | Reading
    | Counting(chunk: Bytes)
    | Locking(chunk: Bytes)
    | Measuring(chunk: Bytes)
    | Extending(chunk: Bytes, remaining: nat)
    | Storing(chunk: Bytes, remaining: nat)
    | Checking
    | Comparing(seen: nat)
    | Flagging
    | Releasing
    | Finished(eof: bool)
  {
    predicate InCritical() {
      Measuring? || Extending? || Storing? || Checking? || Comparing? || Flagging? || Releasing?
    }

    /** Bytes taken from the stream whose fate (stored or dropped) is not decided yet. */
    function Held(): nat {
      if Counting? || Locking? || Measuring? || Extending? then |chunk| else 0
    }

    /** Bytes already in a buffer but not yet added to the shared total. */
    function Owed(): int {
      if Storing? then Min(|chunk|, remaining) else 0
    }

    /** True while this drain has yet to take the fresh look at both counters. */
    predicate WillCheck() {
      Locking? || Measuring? || Extending? || Storing? || Checking?
    }
  }

  function Min(a: int, b: int): int {
    if a <= b then a else b
  }

  datatype Drain = Drain(stream: Bytes, read: nat, count: nat, output: Bytes, pc: Pc) {
    function Decided(): int {
      read - pc.Held()
    }
  }

  datatype Report = Report(stdout: Bytes, stderr: Bytes, stdoutBytes: nat, stderrBytes: nat, exceeded: bool)

  /** The caller copies the two buffers, the two counters and the flag, in this order. */
  datatype Caller =
    | Waiting
    | CopiedStdout(stdout: Bytes)
    | CopiedStderr(stdout: Bytes, stderr: Bytes)
    | CountedStdout(stdout: Bytes, stderr: Bytes, stdoutBytes: nat)
    | CountedStderr(stdout: Bytes, stderr: Bytes, stdoutBytes: nat, stderrBytes: nat)
    | Returned(report: Report)

  datatype Lock = Free | HeldBy(owner: Name)

  datatype State = State(limit: nat, out: Drain, err: Drain, stored: nat, limited: bool, lock: Lock, caller: Caller) {
    function Get(t: Name): Drain {
      if t.Stdout? then out else err
    }

    function Set(t: Name, d: Drain): State {
      if t.Stdout? then this.(out := d) else this.(err := d)
    }

    function SetPc(t: Name, pc: Pc): State {
      Set(t, Get(t).(pc := pc))
    }

    function Total(): nat {
      out.count + err.count
    }
  }

  /** `size` is the length of the chunk a read returns; the other steps ignore it. */
  datatype Action = Advance(name: Name, size: nat) | Abort(name: Name) | Copy

  function Init(limit: nat, out: Bytes, err: Bytes): State {
    State(limit, Drain(out, 0, 0, [], Reading), Drain(err, 0, 0, [], Reading), 0, false, Free, Waiting)
  }

  predicate Enabled(s: State, a: Action) {
    match a
    case Copy => !s.caller.Returned?
    case Abort(t) => s.Get(t).pc.Reading?
    case Advance(t, size) =>
      var d := s.Get(t);
      match d.pc
      case Reading => if d.read >= |d.stream| then size == 0 else 1 <= size <= CHUNK && d.read + size <= |d.stream|
      case Locking(_) => s.lock == Free
      case Finished(_) => false
      case _ => true
  }

  /** What one step of a drain does to its own data, given the shared values it may read. */
  function NextDrain(d: Drain, size: nat, limit: nat, stored: nat, outCount: nat, errCount: nat): Drain
    requires d.pc.Reading? ==> d.read + size <= |d.stream| || size == 0
  {
    match d.pc
    case Reading =>
      if size == 0 then d.(pc := Finished(true))
      else d.(read := d.read + size, pc := Counting(d.stream[d.read..d.read + size]))
    case Counting(chunk) => d.(count := d.count + |chunk|, pc := Locking(chunk))
    case Locking(chunk) => d.(pc := Measuring(chunk))
    case Measuring(chunk) => d.(pc := if limit > stored then Extending(chunk, limit - stored) else Checking)
    case Extending(chunk, remaining) =>
      d.(output := d.output + chunk[..Min(|chunk|, remaining)], pc := Storing(chunk, remaining))
    case Storing(_, _) => d.(pc := Checking)
    case Checking => d.(pc := Comparing(outCount))
    case Comparing(seen) => d.(pc := if seen + errCount > limit then Flagging else Releasing)
    case Flagging => d.(pc := Releasing)
    case Releasing => d.(pc := Reading)
    case Finished(_) => d
  }

  function AdvanceDrain(s: State, t: Name, size: nat): State
    requires Enabled(s, Advance(t, size))
  {
    var d := s.Get(t);
    s.Set(t, NextDrain(d, size, s.limit, s.stored, s.out.count, s.err.count)).(
      stored := s.stored + d.pc.Owed(),
      limited := s.limited || d.pc.Flagging?,
      lock := if d.pc.Locking? then HeldBy(t) else if d.pc.Releasing? then Free else s.lock)
  }

  function CopyNext(s: State): State {
    var c := s.caller;
    s.(caller :=
      match c
      case Waiting => CopiedStdout(s.out.output)
      case CopiedStdout(o) => CopiedStderr(o, s.err.output)
      case CopiedStderr(o, e) => CountedStdout(o, e, s.out.count)
      case CountedStdout(o, e, n) => CountedStderr(o, e, n, s.err.count)
      case CountedStderr(o, e, n, m) => Returned(Report(o, e, n, m, s.limited))
      case Returned(_) => c)
  }

  /** One action; an action that is not enabled is a scheduling attempt that changes nothing. */
  function Step(s: State, a: Action): State {
    if !Enabled(s, a) then s
    else match a
      case Copy => CopyNext(s)
      case Abort(t) => s.SetPc(t, Finished(false))
      case Advance(t, size) => AdvanceDrain(s, t, size)
  }

  function Run(s: State, schedule: seq<Action>): State
    decreases |schedule|
  {
    if schedule == [] then s else Run(Step(s, schedule[0]), schedule[1..])
  }

  /******* What every step keeps *******/

  predicate DrainInv(d: Drain) {
    && d.read <= |d.stream|
    && d.pc.Held() <= d.read
    && (d.pc.Counting? || d.pc.Locking? || d.pc.Measuring? || d.pc.Extending?
        ==> d.pc.chunk == d.stream[d.read - |d.pc.chunk|..d.read])
    && d.count == d.read - (if d.pc.Counting? then |d.pc.chunk| else 0)
    && |d.output| <= d.Decided()
    && d.output == d.stream[..|d.output|]
  }

  predicate LockInv(s: State) {
    && (s.out.pc.InCritical() <==> s.lock == HeldBy(Stdout))
    && (s.err.pc.InCritical() <==> s.lock == HeldBy(Stderr))
  }

  /** Conservation: what is in the buffers is exactly the decided input, cut at the limit. */
  predicate StoreInv(s: State) {
    && |s.out.output| + |s.err.output| == Min(s.limit, s.out.Decided() + s.err.Decided())
    && s.stored + s.out.pc.Owed() + s.err.pc.Owed() == |s.out.output| + |s.err.output|
    && Fits(s, s.out.pc) && Fits(s, s.err.pc)
  }

  /** The room measured under the lock is still the room when it is used. */
  predicate Fits(s: State, pc: Pc) {
    pc.Extending? || pc.Storing? ==> pc.remaining > 0 && pc.remaining == s.limit - s.stored
  }

  /** A drain that will certainly notice a total above the limit. */
  predicate WillFlag(s: State, t: Name) {
    var pc := s.Get(t).pc;
    pc.WillCheck() || pc.Flagging? || (pc.Comparing? && pc.seen == s.out.count)
  }

  predicate LookedBack(s: State, pc: Pc) {
    (pc.Flagging? ==> s.Total() > s.limit) && (pc.Comparing? ==> pc.seen <= s.out.count)
  }

  predicate FlagInv(s: State) {
    && (s.limited ==> s.Total() > s.limit)
    && LookedBack(s, s.out.pc) && LookedBack(s, s.err.pc)
    && (s.Total() > s.limit ==> s.limited || WillFlag(s, Stdout) || WillFlag(s, Stderr))
  }

  /** Whatever the caller has copied so far is a part of what is there now. */
  predicate CallerInv(s: State) {
    var c := s.caller;
    match c
    case Waiting => true
    case CopiedStdout(o) => o <= s.out.output
    case CopiedStderr(o, e) => o <= s.out.output && e <= s.err.output
    case CountedStdout(o, e, n) => o <= s.out.output && e <= s.err.output && n <= s.out.count
    case CountedStderr(o, e, n, m) => o <= s.out.output && e <= s.err.output && n <= s.out.count && m <= s.err.count
    case Returned(r) =>
      r.stdout <= s.out.output && r.stderr <= s.err.output && r.stdoutBytes <= s.out.count
      && r.stderrBytes <= s.err.count && (r.exceeded ==> s.limited)
  }

  predicate Inv(s: State) {
    DrainInv(s.out) && DrainInv(s.err) && LockInv(s) && StoreInv(s) && FlagInv(s) && CallerInv(s)
  }

  lemma NextDrainInv(d: Drain, size: nat, limit: nat, stored: nat, outCount: nat, errCount: nat)
    requires DrainInv(d) && (d.pc.Reading? ==> d.read + size <= |d.stream|)
    requires d.pc.Extending? ==> |d.output| == d.Decided()
    ensures DrainInv(NextDrain(d, size, limit, stored, outCount, errCount))
  {
    var d' := NextDrain(d, size, limit, stored, outCount, errCount);
    if d.pc.Extending? {
      assert d.stream[..d.read] == d.stream[..d.Decided()] + d.pc.chunk;
      assert d'.output == (d.stream[..d.Decided()] + d.pc.chunk)[..|d'.output|];
    }
  }

  lemma NextDrainSizes(d: Drain, size: nat, limit: nat, stored: nat, outCount: nat, errCount: nat)
    requires DrainInv(d) && (d.pc.Reading? ==> d.read + size <= |d.stream|)
    ensures
      var d' := NextDrain(d, size, limit, stored, outCount, errCount);
      var full := d.pc.Measuring? && limit <= stored;
      && |d'.output| == |d.output| + (if d.pc.Extending? then Min(|d.pc.chunk|, d.pc.remaining) else 0)
      && d'.Decided() == d.Decided() + (if d.pc.Extending? || full then |d.pc.chunk| else 0)
      && d'.pc.Owed() == (if d.pc.Extending? then Min(|d.pc.chunk|, d.pc.remaining) else 0)
      && (d'.pc.Extending? ==> d.pc.Measuring? && d'.pc.remaining == limit - stored > 0)
      && (d'.pc.Storing? ==> d.pc.Extending? && d'.pc.remaining == d.pc.remaining)
  {
  }

  lemma StoreStep(limit: nat, stored: nat, d: Drain, other: Drain, size: nat, outCount: nat, errCount: nat)
    requires DrainInv(d) && DrainInv(other) && (d.pc.Reading? ==> d.read + size <= |d.stream|)
    requires |d.output| + |other.output| == Min(limit, d.Decided() + other.Decided())
    requires stored + d.pc.Owed() + other.pc.Owed() == |d.output| + |other.output|
    requires d.pc.Extending? || d.pc.Storing? ==> d.pc.remaining > 0 && d.pc.remaining == limit - stored
    requires d.pc.InCritical() ==> !other.pc.InCritical()
    ensures
      var d' := NextDrain(d, size, limit, stored, outCount, errCount);
      var stored' := stored + d.pc.Owed();
      && |d'.output| + |other.output| == Min(limit, d'.Decided() + other.Decided())
      && stored' + d'.pc.Owed() + other.pc.Owed() == |d'.output| + |other.output|
      && (d'.pc.Extending? || d'.pc.Storing? ==> d'.pc.remaining > 0 && d'.pc.remaining == limit - stored')
  {
    NextDrainSizes(d, size, limit, stored, outCount, errCount);
    assert d.pc.InCritical() ==> other.pc.Owed() == 0;
    assert d.pc.Storing? ==> d.pc.Owed() == Min(|d.pc.chunk|, d.pc.remaining);
    assert !d.pc.Storing? ==> d.pc.Owed() == 0;
    hide NextDrain, Drain.Decided, Pc.Owed;
  }

  function Other(t: Name): Name {
    if t.Stdout? then Stderr else Stdout
  }

  lemma AdvanceShape(s: State, t: Name, size: nat)
    requires Enabled(s, Advance(t, size))
    ensures
      var s' := AdvanceDrain(s, t, size);
      var d := s.Get(t);
      && s'.Get(t) == NextDrain(d, size, s.limit, s.stored, s.out.count, s.err.count)
      && s'.Get(Other(t)) == s.Get(Other(t))
      && s'.limit == s.limit && s'.stored == s.stored + d.pc.Owed()
  {
    hide NextDrain;
  }

  lemma StoreInvBySides(s: State, t: Name)
    ensures
      StoreInv(s) <==>
      var d, other := s.Get(t), s.Get(Other(t));
      && |d.output| + |other.output| == Min(s.limit, d.Decided() + other.Decided())
      && s.stored + d.pc.Owed() + other.pc.Owed() == |d.output| + |other.output|
      && Fits(s, d.pc) && Fits(s, other.pc)
  {
    hide Drain.Decided, Pc.Owed, Fits, Min;
  }

  lemma LockBySides(s: State, t: Name)
    requires LockInv(s)
    ensures s.Get(t).pc.InCritical() ==> !s.Get(Other(t)).pc.InCritical()
  {
    hide Pc.InCritical;
  }

  lemma AdvanceKeepsStore(s: State, t: Name, size: nat)
    requires DrainInv(s.out) && DrainInv(s.err) && LockInv(s) && StoreInv(s) && Enabled(s, Advance(t, size))
    ensures StoreInv(AdvanceDrain(s, t, size))
  {
    hide *;
    var d, other := s.Get(t), s.Get(Other(t));
    SidesAreSound(s, t, size);
    AdvanceShape(s, t, size);
    StoreInvBySides(s, t);
    StoreInvBySides(AdvanceDrain(s, t, size), t);
    LockBySides(s, t);
    FitsHere(s, d.pc);
    FitsHere(s, other.pc);
    StoreStep(s.limit, s.stored, d, other, size, s.out.count, s.err.count);
    NotOwing(d, other);
    FitsHere(AdvanceDrain(s, t, size), AdvanceDrain(s, t, size).Get(t).pc);
    FitsHere(AdvanceDrain(s, t, size), other.pc);
  }

  lemma FitsHere(s: State, pc: Pc)
    ensures Fits(s, pc) <==> (pc.Extending? || pc.Storing? ==> pc.remaining > 0 && pc.remaining == s.limit - s.stored)
  {
  }

  lemma SidesAreSound(s: State, t: Name, size: nat)
    requires DrainInv(s.out) && DrainInv(s.err) && Enabled(s, Advance(t, size))
    ensures DrainInv(s.Get(t)) && DrainInv(s.Get(Other(t)))
    ensures var d := s.Get(t); d.pc.Reading? ==> d.read + size <= |d.stream|
  {
  }

  lemma NotOwing(d: Drain, other: Drain)
    requires d.pc.InCritical() ==> !other.pc.InCritical()
    ensures other.pc.Extending? || other.pc.Storing? ==> d.pc.Owed() == 0
  {
  }

  lemma AdvanceKeepsFlag(s: State, t: Name, size: nat)
    requires DrainInv(s.out) && DrainInv(s.err) && LockInv(s) && FlagInv(s) && Enabled(s, Advance(t, size))
    ensures LockInv(AdvanceDrain(s, t, size)) && FlagInv(AdvanceDrain(s, t, size))
  {
    hide DrainInv;
  }

  lemma AdvanceKeepsDrains(s: State, t: Name, size: nat)
    requires Inv(s) && Enabled(s, Advance(t, size))
    ensures DrainInv(AdvanceDrain(s, t, size).out) && DrainInv(AdvanceDrain(s, t, size).err)
  {
    assert s.Get(t).pc.Extending? ==> |s.Get(t).output| == s.Get(t).Decided();
    NextDrainInv(s.Get(t), size, s.limit, s.stored, s.out.count, s.err.count);
    hide NextDrain, DrainInv, LockInv, StoreInv, FlagInv, CallerInv;
  }

  lemma AdvanceKeepsCaller(s: State, t: Name, size: nat)
    requires CallerInv(s) && Enabled(s, Advance(t, size))
    ensures CallerInv(AdvanceDrain(s, t, size))
  {
    var d, s' := s.Get(t), AdvanceDrain(s, t, size);
    assert d.output <= s'.Get(t).output && d.count <= s'.Get(t).count && (s.limited ==> s'.limited);
    assert s.out.output <= s'.out.output && s.err.output <= s'.err.output;
    hide NextDrain, AdvanceDrain, Enabled;
  }

  lemma AdvanceKeepsInv(s: State, t: Name, size: nat)
    requires Inv(s) && Enabled(s, Advance(t, size))
    ensures Inv(AdvanceDrain(s, t, size))
  {
    hide DrainInv, LockInv, StoreInv, FlagInv, CallerInv, AdvanceDrain, Enabled;
    AdvanceKeepsStore(s, t, size);
    AdvanceKeepsFlag(s, t, size);
    AdvanceKeepsDrains(s, t, size);
    AdvanceKeepsCaller(s, t, size);
  }

  lemma AbortKeepsInv(s: State, t: Name)
    requires Inv(s) && s.Get(t).pc.Reading?
    ensures Inv(s.SetPc(t, Finished(false)))
  {
    var d, s' := s.Get(t), s.SetPc(t, Finished(false));
    assert DrainInv(s'.Get(t)) && s'.Get(t).Decided() == d.Decided();
    assert s'.Get(t).pc.Owed() == d.pc.Owed() == 0;
    hide DrainInv, Drain.Decided, Pc.Owed;
  }

  lemma CopyKeepsInv(s: State)
    requires Inv(s)
    ensures Inv(CopyNext(s))
  {
    hide DrainInv, Drain.Decided, Pc.Owed, Pc.InCritical;
  }

  lemma StepKeepsInv(s: State, a: Action)
    requires Inv(s)
    ensures Inv(Step(s, a))
  {
    hide Inv, AdvanceDrain, CopyNext;
    if Enabled(s, a) {
      match a
      case Advance(t, size) => AdvanceKeepsInv(s, t, size);
      case Abort(t) => AbortKeepsInv(s, t);
      case Copy => CopyKeepsInv(s);
    }
  }

  lemma {:induction false} RunKeepsInv(s: State, schedule: seq<Action>)
    requires Inv(s)
    ensures Inv(Run(s, schedule))
    decreases |schedule|
  {
    hide Inv, Step;
    if schedule != [] {
      StepKeepsInv(s, schedule[0]);
      RunKeepsInv(Step(s, schedule[0]), schedule[1..]);
    }
  }

  lemma {:induction false} RunKeepsInputs(s: State, schedule: seq<Action>)
    ensures var s' := Run(s, schedule); s'.limit == s.limit && s'.out.stream == s.out.stream && s'.err.stream == s.err.stream
    decreases |schedule|
  {
    if schedule != [] {
      var a := schedule[0];
      assert Step(s, a).limit == s.limit && Step(s, a).out.stream == s.out.stream && Step(s, a).err.stream == s.err.stream;
      hide Step;
      RunKeepsInputs(Step(s, a), schedule[1..]);
    }
  }

  lemma ReachableInv(limit: nat, out: Bytes, err: Bytes, schedule: seq<Action>)
    ensures
      var s := Run(Init(limit, out, err), schedule);
      Inv(s) && s.limit == limit && s.out.stream == out && s.err.stream == err
  {
    InitInv(limit, out, err);
    RunKeepsInv(Init(limit, out, err), schedule);
    RunKeepsInputs(Init(limit, out, err), schedule);
    hide Run, Inv;
  }

  lemma InitInv(limit: nat, out: Bytes, err: Bytes)
    ensures Inv(Init(limit, out, err))
  {
  }

  /******* What the caller can rely on *******/

  /**
   In every interleaving the report never holds more than the limit, even though its two
   buffers are copied at different moments, and each buffer is a prefix of its stream.
   */
  lemma ReportIsBounded(limit: nat, out: Bytes, err: Bytes, schedule: seq<Action>)
    ensures
      var c := Run(Init(limit, out, err), schedule).caller;
      c.Returned? ==>
        && c.report.stdout <= out && c.report.stderr <= err
        && |c.report.stdout| + |c.report.stderr| <= limit
        && c.report.stdoutBytes <= |out| && c.report.stderrBytes <= |err|
        && (c.report.exceeded ==> |out| + |err| > limit)
  {
    ReachableInv(limit, out, err, schedule);
    hide Init, Run;
  }

  predicate Quiescent(pc: Pc) {
    pc.Reading? || pc.Finished?
  }

  /**
   Whenever neither drain is between its count and its release, the flag says exactly
   whether the bytes read exceed the limit, and the buffers hold exactly as much as fits:
   all that was read if the flag is unset.
   */
  lemma FlagIsExactWhenQuiescent(limit: nat, out: Bytes, err: Bytes, schedule: seq<Action>)
    ensures
      var s := Run(Init(limit, out, err), schedule);
      Quiescent(s.out.pc) && Quiescent(s.err.pc) ==>
        && (s.limited <==> s.out.read + s.err.read > limit)
        && |s.out.output| + |s.err.output| == Min(limit, s.out.read + s.err.read)
        && s.out.output <= out && s.err.output <= err
        && (!s.limited ==> |s.out.output| == s.out.read && |s.err.output| == s.err.read)
  {
    ReachableInv(limit, out, err, schedule);
    hide Init, Run;
  }

  /** Both drains ended before the caller began to copy. */
  predicate Joined(s: State) {
    s.out.pc.Finished? && s.err.pc.Finished? && s.caller.Waiting?
  }

  predicate JoinedProgress(s: State, c: Caller) {
    match c
    case Waiting => true
    case CopiedStdout(o) => o == s.out.output
    case CopiedStderr(o, e) => o == s.out.output && e == s.err.output
    case CountedStdout(o, e, n) => o == s.out.output && e == s.err.output && n == s.out.count
    case CountedStderr(o, e, n, m) => o == s.out.output && e == s.err.output && n == s.out.count && m == s.err.count
    case Returned(r) => r == Report(s.out.output, s.err.output, s.out.count, s.err.count, s.limited)
  }

  lemma {:induction false} JoinedRunCopies(s: State, c: Caller, schedule: seq<Action>)
    requires Joined(s) && JoinedProgress(s, c)
    ensures
      var s' := Run(s.(caller := c), schedule);
      s' == s.(caller := s'.caller) && JoinedProgress(s, s'.caller)
    decreases |schedule|
  {
    if schedule != [] {
      var next := Step(s.(caller := c), schedule[0]);
      assert next == s.(caller := next.caller) && JoinedProgress(s, next.caller);
      JoinedRunCopies(s, next.caller, schedule[1..]);
      assert Run(s.(caller := c), schedule) == Run(next, schedule[1..]);
    }
  }

  /**
   If the join succeeded, the report is exact: its flag says whether the reported byte
   counts exceed the limit, and without the flag its buffers are everything that was read,
   which is the whole stream of a drain that ended at end of file.
   */
  lemma ReportIsExactAfterJoin(limit: nat, out: Bytes, err: Bytes, before: seq<Action>, after: seq<Action>)
    requires Joined(Run(Init(limit, out, err), before))
    ensures
      var s := Run(Init(limit, out, err), before);
      var c := Run(s, after).caller;
      c.Returned? ==>
        var r := c.report;
        && (r.exceeded <==> r.stdoutBytes + r.stderrBytes > limit)
        && |r.stdout| + |r.stderr| == Min(limit, r.stdoutBytes + r.stderrBytes)
        && r.stdout <= out && r.stderr <= err
        && (!r.exceeded ==> |r.stdout| == r.stdoutBytes && |r.stderr| == r.stderrBytes)
        && r.stdoutBytes == s.out.read && r.stderrBytes == s.err.read
  {
    var s := Run(Init(limit, out, err), before);
    JoinedRunCopies(s, Waiting, after);
    FlagIsExactWhenQuiescent(limit, out, err, before);
    ReachableInv(limit, out, err, before);
    hide Init, Run;
    assert s.(caller := Waiting) == s;
  }

  predicate AtEnd(d: Drain) {
    d.pc == Finished(true) ==> d.read == |d.stream|
  }

  lemma StepKeepsAtEnd(s: State, a: Action)
    requires DrainInv(s.out) && DrainInv(s.err) && AtEnd(s.out) && AtEnd(s.err)
    ensures AtEnd(Step(s, a).out) && AtEnd(Step(s, a).err)
  {
  }

  /** A drain that ended by itself, not because its pipe was closed, read its whole stream. */
  lemma {:induction false} EndOfFileMeansWholeStream(s: State, schedule: seq<Action>)
    requires Inv(s) && AtEnd(s.out) && AtEnd(s.err)
    ensures AtEnd(Run(s, schedule).out) && AtEnd(Run(s, schedule).err)
    decreases |schedule|
  {
    if schedule != [] {
      StepKeepsInv(s, schedule[0]);
      StepKeepsAtEnd(s, schedule[0]);
      hide Inv, Step, AtEnd;
      EndOfFileMeansWholeStream(Step(s, schedule[0]), schedule[1..]);
    }
  }

  /******* Progress *******/

  function Rank(pc: Pc): nat {
    match pc
    case Reading => 1
    case Counting(_) => 10
    case Locking(_) => 9
    case Measuring(_) => 8
    case Extending(_, _) => 7
    case Storing(_, _) => 6
    case Checking => 5
    case Comparing(_) => 4
    case Flagging => 3
    case Releasing => 2
    case Finished(_) => 0
  }

  function Left(d: Drain): int {
    10 * (|d.stream| - d.read) + Rank(d.pc)
  }

  function CopiesLeft(c: Caller): nat {
    match c
    case Waiting => 5
    case CopiedStdout(_) => 4
    case CopiedStderr(_, _) => 3
    case CountedStdout(_, _, _) => 2
    case CountedStderr(_, _, _, _) => 1
    case Returned(_) => 0
  }

  function Work(s: State): int {
    Left(s.out) + Left(s.err) + CopiesLeft(s.caller)
  }

  lemma NextDrainUsesWork(d: Drain, size: nat, limit: nat, stored: nat, outCount: nat, errCount: nat)
    requires DrainInv(d) && !d.pc.Finished?
    requires d.pc.Reading? ==> d.read + size <= |d.stream|
    ensures Left(NextDrain(d, size, limit, stored, outCount, errCount)) < Left(d)
  {
  }

  lemma AdvanceUsesWork(s: State, t: Name, size: nat)
    requires Inv(s) && Enabled(s, Advance(t, size))
    ensures Work(AdvanceDrain(s, t, size)) < Work(s)
  {
    NextDrainUsesWork(s.Get(t), size, s.limit, s.stored, s.out.count, s.err.count);
    assert s.Get(t).pc.Reading? ==> s.Get(t).read + size <= |s.Get(t).stream|;
    hide NextDrain, Inv, Left, Enabled;
  }

  /** Every enabled action uses up some of a finite amount of work. */
  lemma StepUsesWork(s: State, a: Action)
    requires Inv(s) && Enabled(s, a)
    ensures 0 <= Work(Step(s, a)) < Work(s)
  {
    StepKeepsInv(s, a);
    LeftIsNatural(Step(s, a));
    hide Inv, AdvanceDrain;
    match a
    case Advance(t, size) => AdvanceUsesWork(s, t, size); hide Left;
    case Abort(t) => AbortUsesWork(s, t); hide Work;
    case Copy => hide Left;
  }

  lemma AbortUsesWork(s: State, t: Name)
    requires s.Get(t).pc.Reading?
    ensures Work(s.SetPc(t, Finished(false))) < Work(s)
  {
  }

  lemma LeftIsNatural(s: State)
    requires Inv(s)
    ensures 0 <= Left(s.out) && 0 <= Left(s.err)
  {
    hide LockInv, StoreInv, FlagInv, CallerInv;
  }

  function Effective(s: State, schedule: seq<Action>): nat
    decreases |schedule|
  {
    if schedule == [] then 0
    else (if Enabled(s, schedule[0]) then 1 else 0) + Effective(Step(s, schedule[0]), schedule[1..])
  }

  /** No interleaving runs for ever: ten steps a byte, one end of file each, five copies. */
  lemma {:induction false} SchedulesAreFinite(s: State, schedule: seq<Action>)
    requires Inv(s)
    ensures Effective(s, schedule) + Work(Run(s, schedule)) <= Work(s)
    decreases |schedule|
  {
    hide Inv, Step, Enabled, Work;
    if schedule != [] {
      var a := schedule[0];
      StepKeepsInv(s, a);
      SchedulesAreFinite(Step(s, a), schedule[1..]);
      if Enabled(s, a) { StepUsesWork(s, a); } else { DisabledStepIsIdle(s, a); }
    }
  }

  lemma DisabledStepIsIdle(s: State, a: Action)
    requires !Enabled(s, a)
    ensures Step(s, a) == s
  {
  }

  function NextChunk(d: Drain): nat {
    if d.read >= |d.stream| then 0 else Min(CHUNK, |d.stream| - d.read)
  }

  /** The lock never leaves both drains stuck. */
  lemma SomeDrainCanMove(s: State)
    requires Inv(s) && !(s.out.pc.Finished? && s.err.pc.Finished?)
    ensures Enabled(s, Advance(Stdout, NextChunk(s.out))) || Enabled(s, Advance(Stderr, NextChunk(s.err)))
  {
    hide StoreInv, FlagInv, CallerInv;
  }

  /******* When the join times out *******/

  lemma {:induction false} RunSplits(s: State, a: seq<Action>, b: seq<Action>)
    ensures Run(s, a + b) == Run(Run(s, a), b)
    decreases |a|
  {
    hide Step;
    if a == [] {
      assert a + b == b;
    } else {
      RunSplits(Step(s, a[0]), a[1..], b);
      assert (a + b)[1..] == a[1..] + b;
    }
  }

  function Repeat(a: Action, n: nat): seq<Action> {
    seq(n, _ => a)
  }

  function Iterate(s: State, a: Action, n: nat): State
    decreases n
  {
    if n == 0 then s else Iterate(Step(s, a), a, n - 1)
  }

  lemma {:induction false} RepeatRuns(s: State, a: Action, n: nat)
    ensures Run(s, Repeat(a, n)) == Iterate(s, a, n)
    decreases n
  {
    hide Step;
    if n > 0 {
      RepeatRuns(Step(s, a), a, n - 1);
      assert Repeat(a, n)[1..] == Repeat(a, n - 1);
    }
  }

  lemma FiveCopies(s: State)
    requires s.caller.Waiting?
    ensures Iterate(s, Copy, 5).caller == Returned(Report(s.out.output, s.err.output, s.out.count, s.err.count, s.limited))
  {
    var s1 := Step(s, Copy);
    var s2 := Step(s1, Copy);
    var s3 := Step(s2, Copy);
    var s4 := Step(s3, Copy);
    assert Iterate(s, Copy, 5) == Iterate(s1, Copy, 4) == Iterate(s2, Copy, 3) == Iterate(s3, Copy, 2) == Iterate(s4, Copy, 1);
    assert Iterate(s4, Copy, 1) == Iterate(Step(s4, Copy), Copy, 0);
  }

  /** Both drains wait for input, and everything read fits and is stored. */
  predicate AtRest(s: State) {
    && s.out.pc.Reading? && s.err.pc.Reading? && s.lock.Free? && !s.limited && s.caller.Waiting?
    && s.out.read <= |s.out.stream| && s.out.count == s.out.read && s.out.output == s.out.stream[..s.out.read]
    && s.err.read <= |s.err.stream| && s.err.count == s.err.read && s.err.output == s.err.stream[..s.err.read]
    && s.stored == s.out.read + s.err.read <= s.limit
  }

  /** The rest state after so many bytes of each stream. */
  function Rest(limit: nat, out: Bytes, err: Bytes, p: nat, q: nat): State
    requires p <= |out| && q <= |err|
  {
    State(limit, Drain(out, p, p, out[..p], Reading), Drain(err, q, q, err[..q], Reading), p + q, false, Free, Waiting)
  }

  /** A drain in the middle of handling its next byte. */
  function Handling(s: State, t: Name, pc: Pc, shown: nat, stored: nat, lock: Lock): State
    requires s.Get(t).read < |s.Get(t).stream| && shown <= |s.Get(t).stream|
  {
    var d := s.Get(t);
    s.Set(t, Drain(d.stream, d.read + 1, d.read + 1, d.stream[..shown], pc)).(stored := stored, lock := lock)
  }

  /** The byte has been counted and nothing else. */
  lemma CountByte(s: State, t: Name)
    requires AtRest(s) && s.Get(t).read < |s.Get(t).stream|
    ensures
      var d, go := s.Get(t), Advance(t, 1);
      Iterate(s, go, 2) == Handling(s, t, Locking(d.stream[d.read..d.read + 1]), d.read, s.stored, Free)
  {
    var go := Advance(t, 1);
    var s1 := Step(s, go);
    assert Iterate(s, go, 2) == Iterate(s1, go, 1) == Iterate(Step(s1, go), go, 0);
  }

  lemma EnterLock(s: State, t: Name, chunk: Bytes, n: nat)
    requires s.Get(t).read < |s.Get(t).stream| && n <= |s.Get(t).stream| && s.stored < s.limit
    ensures
      var m, go := s.stored, Advance(t, 1);
      && Step(Handling(s, t, Locking(chunk), n, m, Free), go) == Handling(s, t, Measuring(chunk), n, m, HeldBy(t))
      && Step(Handling(s, t, Measuring(chunk), n, m, HeldBy(t)), go)
         == Handling(s, t, Extending(chunk, s.limit - m), n, m, HeldBy(t))
  {
  }

  lemma StoreInLock(s: State, t: Name, chunk: Bytes)
    requires AtRest(s) && s.Get(t).read < |s.Get(t).stream| && s.stored < s.limit
    requires chunk == s.Get(t).stream[s.Get(t).read..s.Get(t).read + 1]
    ensures
      var n, m, go := s.Get(t).read, s.stored, Advance(t, 1);
      && Step(Handling(s, t, Extending(chunk, s.limit - m), n, m, HeldBy(t)), go)
         == Handling(s, t, Storing(chunk, s.limit - m), n + 1, m, HeldBy(t))
      && Step(Handling(s, t, Storing(chunk, s.limit - m), n + 1, m, HeldBy(t)), go)
         == Handling(s, t, Checking, n + 1, m + 1, HeldBy(t))
  {
    var d := s.Get(t);
    assert d.stream[..d.read] + chunk[..1] == d.stream[..d.read + 1];
    assert Min(1, s.limit - s.stored) == 1;
  }

  lemma LeaveLock(s: State, t: Name)
    requires AtRest(s) && s.Get(t).read < |s.Get(t).stream| && s.stored < s.limit
    ensures
      var n, m, go := s.Get(t).read, s.stored, Advance(t, 1);
      var seen := s.out.read + if t.Stdout? then 1 else 0;
      && Step(Handling(s, t, Checking, n + 1, m + 1, HeldBy(t)), go) == Handling(s, t, Comparing(seen), n + 1, m + 1, HeldBy(t))
      && Step(Handling(s, t, Comparing(seen), n + 1, m + 1, HeldBy(t)), go) == Handling(s, t, Releasing, n + 1, m + 1, HeldBy(t))
      && Step(Handling(s, t, Releasing, n + 1, m + 1, HeldBy(t)), go) == Handling(s, t, Reading, n + 1, m + 1, Free)
  {
  }

  lemma IterateStep(s: State, a: Action, n: nat)
    ensures Iterate(s, a, n + 1) == Iterate(Step(s, a), a, n)
    ensures Iterate(s, a, 0) == s
  {
    hide Step;
  }

  /** One byte that still fits takes nine steps, back to rest. */
  lemma StoreByte(s: State, t: Name)
    requires AtRest(s) && s.Get(t).read < |s.Get(t).stream| && s.stored < s.limit
    ensures Iterate(s, Advance(t, 1), 9) == Handling(s, t, Reading, s.Get(t).read + 1, s.stored + 1, Free)
  {
    hide Step, AtRest, Iterate, Handling, State.Get;
    var d, n, m, go := s.Get(t), s.Get(t).read, s.stored, Advance(t, 1);
    var chunk := d.stream[n..n + 1];
    var seen := s.out.read + if t.Stdout? then 1 else 0;
    CountByte(s, t);
    EnterLock(s, t, chunk, n);
    StoreInLock(s, t, chunk);
    LeaveLock(s, t);
    IterateSplits(s, go, 2, 7);
    IterateStep(Handling(s, t, Locking(chunk), n, m, Free), go, 6);
    IterateStep(Handling(s, t, Measuring(chunk), n, m, HeldBy(t)), go, 5);
    IterateStep(Handling(s, t, Extending(chunk, s.limit - m), n, m, HeldBy(t)), go, 4);
    IterateStep(Handling(s, t, Storing(chunk, s.limit - m), n + 1, m, HeldBy(t)), go, 3);
    IterateStep(Handling(s, t, Checking, n + 1, m + 1, HeldBy(t)), go, 2);
    IterateStep(Handling(s, t, Comparing(seen), n + 1, m + 1, HeldBy(t)), go, 1);
    IterateStep(Handling(s, t, Releasing, n + 1, m + 1, HeldBy(t)), go, 0);
    IterateStep(Handling(s, t, Reading, n + 1, m + 1, Free), go, 0);
  }

  lemma {:induction false} IterateSplits(s: State, a: Action, m: nat, n: nat)
    ensures Iterate(s, a, m + n) == Iterate(Iterate(s, a, m), a, n)
    decreases m
  {
    hide Step;
    if m > 0 { IterateSplits(Step(s, a), a, m - 1, n); }
  }

  lemma RestIsAtRest(limit: nat, out: Bytes, err: Bytes, p: nat, q: nat)
    requires p <= |out| && q <= |err| && p + q <= limit
    ensures AtRest(Rest(limit, out, err, p, q))
    ensures p < |out| ==>
              Handling(Rest(limit, out, err, p, q), Stdout, Reading, p + 1, p + q + 1, Free) == Rest(limit, out, err, p + 1, q)
    ensures q < |err| ==>
              Handling(Rest(limit, out, err, p, q), Stderr, Reading, q + 1, p + q + 1, Free) == Rest(limit, out, err, p, q + 1)
  {
  }

  /** Byte by byte, every rest state within the limit is reached. */
  lemma {:induction false} RestIsReachable(limit: nat, out: Bytes, err: Bytes, p: nat, q: nat) returns (schedule: seq<Action>)
    requires p <= |out| && q <= |err| && p + q <= limit
    ensures Run(Init(limit, out, err), schedule) == Rest(limit, out, err, p, q)
    decreases p + q
  {
    hide Step, AtRest, Iterate, Handling, Repeat;
    if p == 0 && q == 0 {
      schedule := [];
    } else {
      var t, i, j := if p > 0 then Stdout else Stderr, if p > 0 then p - 1 else p, if p > 0 then q else q - 1;
      var before := RestIsReachable(limit, out, err, i, j);
      var s := Rest(limit, out, err, i, j);
      RestIsAtRest(limit, out, err, i, j);
      StoreByte(s, t);
      RepeatRuns(s, Advance(t, 1), 9);
      RunSplits(Init(limit, out, err), before, Repeat(Advance(t, 1), 9));
      schedule := before + Repeat(Advance(t, 1), 9);
    }
  }

  lemma CountedReport(s: State, t: Name)
    requires AtRest(s) && s.Get(t).read < |s.Get(t).stream|
    ensures
      var c := Iterate(Iterate(s, Advance(t, 1), 2), Copy, 5).caller;
      && c.Returned? && !c.report.exceeded
      && c.report.stdout == s.out.output && c.report.stderr == s.err.output
      && c.report.stdoutBytes == s.out.read + (if t.Stdout? then 1 else 0)
      && c.report.stderrBytes == s.err.read + (if t.Stdout? then 0 else 1)
  {
    CountByte(s, t);
    hide Step, Iterate;
    FiveCopies(Iterate(s, Advance(t, 1), 2));
  }

  /** The join times out with everything at rest but one byte that is counted and not yet looked at. */
  lemma ReportOneByteEarly(limit: nat, out: Bytes, err: Bytes, p: nat, q: nat, t: Name) returns (schedule: seq<Action>)
    requires p <= |out| && q <= |err| && p + q <= limit && (if t.Stdout? then p < |out| else q < |err|)
    ensures
      var c := Run(Init(limit, out, err), schedule).caller;
      && c.Returned? && !c.report.exceeded
      && c.report.stdout == out[..p] && c.report.stderr == err[..q]
      && c.report.stdoutBytes == p + (if t.Stdout? then 1 else 0) && c.report.stderrBytes == q + (if t.Stdout? then 0 else 1)
  {
    var before := RestIsReachable(limit, out, err, p, q);
    var s, count, copies := Rest(limit, out, err, p, q), Repeat(Advance(t, 1), 2), Repeat(Copy, 5);
    RestIsAtRest(limit, out, err, p, q);
    CountedReport(s, t);
    hide Step, AtRest, Iterate, Repeat;
    RepeatRuns(s, Advance(t, 1), 2);
    RepeatRuns(Iterate(s, Advance(t, 1), 2), Copy, 5);
    RunSplits(Init(limit, out, err), before, count);
    RunSplits(Init(limit, out, err), before + count, copies);
    schedule := before + count + copies;
  }

  /** The report claims that all is within the limit while its own counts are above it. */
  predicate CountsUnflagged(limit: nat, c: Caller) {
    c.Returned? && !c.report.exceeded && c.report.stdoutBytes + c.report.stderrBytes > limit
  }

  /** The report lacks bytes of this stream that it counts, and claims that nothing was cut. */
  predicate CutUnflagged(c: Caller, t: Name) {
    && c.Returned? && !c.report.exceeded
    && if t.Stdout? then |c.report.stdout| < c.report.stdoutBytes else |c.report.stderr| < c.report.stderrBytes
  }

  /**
   Exactness needs the join.  A caller that stops waiting can return counts above the limit
   without the flag for exactly those inputs that exceed the limit.
   */
  lemma UnflaggedCountsExactlyWhen(limit: nat, out: Bytes, err: Bytes)
    ensures (exists schedule :: CountsUnflagged(limit, Run(Init(limit, out, err), schedule).caller)) <==> |out| + |err| > limit
  {
    hide Init, Run;
    if schedule :| CountsUnflagged(limit, Run(Init(limit, out, err), schedule).caller) {
      ReportIsBounded(limit, out, err, schedule);
    }
    if |out| + |err| > limit {
      var p := Min(|out|, limit);
      var schedule := ReportOneByteEarly(limit, out, err, p, limit - p, if p < |out| then Stdout else Stderr);
    }
  }

  /**
   And since the buffers are copied before the counters, it can return a cut stream without
   the flag, however generous the limit, for exactly the streams that are not empty.
   */
  lemma UnflaggedCutExactlyWhen(limit: nat, out: Bytes, err: Bytes, t: Name)
    ensures (exists schedule :: CutUnflagged(Run(Init(limit, out, err), schedule).caller, t)) <==>
              (if t.Stdout? then out else err) != []
  {
    hide Init, Run;
    if schedule :| CutUnflagged(Run(Init(limit, out, err), schedule).caller, t) {
      ReportIsBounded(limit, out, err, schedule);
    }
    if (if t.Stdout? then out else err) != [] {
      var schedule := ReportOneByteEarly(limit, out, err, 0, 0, t);
    }
  }
}
