/**
 The content-addressed artifact directory.  Several calls run at once, over a directory that
 may already hold files, and any of them may fail or be killed between two system calls.
 One action is one system call (or the return that follows it), so a sequence of actions is
 an interleaving.
 */
module ArtifactStore {
  import opened Bytes
  import opened Json

  const CHUNK: nat := 64 * 1024

  /** Where a call stands. */
  datatype Pc =
    | Opening                  // about to create the file exclusively
    | Writing(written: nat)    // it created the file and has written this much
    | Verifying(seen: Bytes)   // the file was there; it has read and hashed this much
    | Returned
    | Raised
    | Killed

  datatype Call = Call(content: Bytes, pc: Pc)

  datatype State = State(files: map<string, Bytes>, calls: seq<Call>)

  datatype Action =
    | Open(i: nat)
    | Write(i: nat, n: nat)
    | Close(i: nat)
    | WriteFails(i: nat)
    | Read(i: nat, n: nat)
    | Kill(i: nat)

  function Target(h: Hasher, s: State, i: nat): string
    requires i < |s.calls|
  {
    h.digest(s.calls[i].content)
  }

  predicate Enabled(h: Hasher, s: State, a: Action) {
    a.i < |s.calls| &&
    var call, name := s.calls[a.i], Target(h, s, a.i);
    match a
    case Open(_) => call.pc.Opening?
    case Write(_, n) => call.pc.Writing? && name in s.files && 0 < n <= |call.content| - call.pc.written
    case Close(_) => call.pc.Writing? && call.pc.written == |call.content|
    case WriteFails(_) => call.pc.Writing?
    case Read(_, n) =>
      call.pc.Verifying? && name in s.files
      && if |call.pc.seen| >= |s.files[name]| then n == 0 else 0 < n <= CHUNK && |call.pc.seen| + n <= |s.files[name]|
    case Kill(_) => call.pc.Opening? || call.pc.Writing? || call.pc.Verifying?
  }

  function At(s: State, i: nat, pc: Pc): State
    requires i < |s.calls|
  {
    s.(calls := s.calls[i := s.calls[i].(pc := pc)])
  }

  function Step(h: Hasher, s: State, a: Action): State
    requires Enabled(h, s, a)
  {
    var call, name := s.calls[a.i], Target(h, s, a.i);
    match a
    case Open(i) =>
      if name in s.files then At(s, i, Verifying([]))
      else At(s, i, Writing(0)).(files := s.files[name := []])
    case Write(i, n) =>
      var w := call.pc.written;
      At(s, i, Writing(w + n)).(files := s.files[name := s.files[name] + call.content[w..w + n]])
    case Close(i) => At(s, i, Returned)
    case WriteFails(i) => At(s, i, Raised)
    case Read(i, n) =>
      var seen := call.pc.seen;
      if n > 0 then At(s, i, Verifying(seen + s.files[name][|seen|..|seen| + n]))
      else if h.digest(seen) == name then At(s, i, Returned)
      else At(s, i, Raised)
    case Kill(i) => At(s, i, Killed)
  }

  ghost predicate Runs(h: Hasher, s: State, actions: seq<Action>, t: State)
    decreases |actions|
  {
    if actions == [] then s == t
    else Enabled(h, s, actions[0]) && Runs(h, Step(h, s, actions[0]), actions[1..], t)
  }

  /** Any directory, any calls, none of them begun. */
  predicate Initial(s: State) {
    forall i | 0 <= i < |s.calls| :: s.calls[i].pc.Opening?
  }

  predicate Complete(h: Hasher, s: State, name: string) {
    name in s.files && h.digest(s.files[name]) == name
  }

  predicate Kept(h: Hasher, s: State, t: State) {
    forall name | name in s.files && Complete(h, s, name) :: name in t.files && t.files[name] == s.files[name]
  }

  predicate CallInv(h: Hasher, s: State, i: nat)
    requires i < |s.calls|
  {
    var call, name := s.calls[i], Target(h, s, i);
    match call.pc
    case Writing(w) => w <= |call.content| && name in s.files && s.files[name] == call.content[..w]
    case Verifying(seen) => name in s.files && seen <= s.files[name]
    case Returned => name in s.files && s.files[name] == call.content
    case _ => true
  }

  predicate OneWriter(h: Hasher, s: State) {
    forall i, j | 0 <= i < j < |s.calls| && s.calls[i].pc.Writing? && s.calls[j].pc.Writing? ::
      Target(h, s, i) != Target(h, s, j)
  }

  predicate Inv(h: Hasher, s: State) {
    OneWriter(h, s) && forall i: nat | i < |s.calls| :: CallInv(h, s, i)
  }

  lemma NamesAreFixed(h: Hasher, s: State, a: Action)
    requires Enabled(h, s, a)
    ensures var t := Step(h, s, a); |t.calls| == |s.calls| && forall i: nat | i < |s.calls| :: t.calls[i].content == s.calls[i].content
  {
  }

  /** A write goes to the file of the one call that created it, before any call has returned it. */
  lemma WriterOwnsFile(h: Hasher, s: State, i: nat, n: nat, j: nat)
    requires h.Ideal() && Inv(h, s) && Enabled(h, s, Write(i, n)) && j < |s.calls| && j != i
    requires Target(h, s, j) == Target(h, s, i)
    ensures !s.calls[j].pc.Writing? && !s.calls[j].pc.Returned?
  {
    assert s.calls[j].content == s.calls[i].content;
    assert CallInv(h, s, i) && CallInv(h, s, j);
  }

  lemma WritesAreIncomplete(h: Hasher, s: State, i: nat, n: nat)
    requires h.Ideal() && Inv(h, s) && Enabled(h, s, Write(i, n))
    ensures !Complete(h, s, Target(h, s, i))
  {
    assert CallInv(h, s, i);
  }

  lemma WriterStep(h: Hasher, s: State, i: nat, n: nat)
    requires h.Ideal() && Inv(h, s) && Enabled(h, s, Write(i, n))
    ensures Inv(h, Step(h, s, Write(i, n)))
  {
    var t := Step(h, s, Write(i, n));
    var name, content, w := Target(h, s, i), s.calls[i].content, s.calls[i].pc.written;
    assert CallInv(h, s, i);
    assert content[..w] + content[w..w + n] == content[..w + n];
    forall j: nat | j < |t.calls| ensures CallInv(h, t, j) {
      assert CallInv(h, s, j);
      if j != i && Target(h, s, j) == name { WriterOwnsFile(h, s, i, n, j); }
    }
  }

  /** The returning case of the verification: what was read to the end of the file has the right digest. */
  lemma VerifierStep(h: Hasher, s: State, i: nat, n: nat)
    requires h.Ideal() && Inv(h, s) && Enabled(h, s, Read(i, n))
    ensures Inv(h, Step(h, s, Read(i, n)))
  {
    var t := Step(h, s, Read(i, n));
    assert CallInv(h, s, i);
    forall j: nat | j < |t.calls| ensures CallInv(h, t, j) { assert CallInv(h, s, j); }
  }

  lemma OpenStep(h: Hasher, s: State, i: nat)
    requires h.Ideal() && Inv(h, s) && Enabled(h, s, Open(i))
    ensures Inv(h, Step(h, s, Open(i)))
  {
    var t := Step(h, s, Open(i));
    forall j: nat | j < |t.calls| ensures CallInv(h, t, j) { assert CallInv(h, s, j); }
    forall j: nat | j < |t.calls| && j != i && t.calls[j].pc.Writing? && t.calls[i].pc.Writing?
      ensures Target(h, t, i) != Target(h, t, j)
    {
      assert CallInv(h, s, j);
    }
  }

  lemma LeaveStep(h: Hasher, s: State, a: Action)
    requires Inv(h, s) && Enabled(h, s, a) && (a.Close? || a.WriteFails? || a.Kill?)
    ensures Inv(h, Step(h, s, a))
  {
    var t := Step(h, s, a);
    forall j: nat | j < |t.calls| ensures CallInv(h, t, j) { assert CallInv(h, s, j); }
  }

  lemma StepKeepsInv(h: Hasher, s: State, a: Action)
    requires h.Ideal() && Inv(h, s) && Enabled(h, s, a)
    ensures Inv(h, Step(h, s, a))
  {
    hide *;
    match a
    case Open(i) => OpenStep(h, s, i);
    case Write(i, n) => WriterStep(h, s, i, n);
    case Read(i, n) => VerifierStep(h, s, i, n);
    case _ => LeaveStep(h, s, a);
  }

  /** A completed file is never touched again. */
  lemma CompleteIsFinal(h: Hasher, s: State, a: Action, name: string)
    requires h.Ideal() && Inv(h, s) && Enabled(h, s, a) && Complete(h, s, name)
    ensures Complete(h, Step(h, s, a), name) && Step(h, s, a).files[name] == s.files[name]
  {
    if a.Write? { WritesAreIncomplete(h, s, a.i, a.n); }
  }

  lemma {:induction false} RunKeepsInv(h: Hasher, s: State, actions: seq<Action>, t: State)
    requires h.Ideal() && Inv(h, s) && Runs(h, s, actions, t)
    ensures Inv(h, t) && |t.calls| == |s.calls|
    ensures forall i: nat | i < |s.calls| :: t.calls[i].content == s.calls[i].content
    ensures Kept(h, s, t)
    decreases |actions|
  {
    hide Inv, Step, Enabled, Hasher.Ideal;
    if actions != [] {
      var mid := Step(h, s, actions[0]);
      NamesAreFixed(h, s, actions[0]);
      StepKeepsInv(h, s, actions[0]);
      RunKeepsInv(h, mid, actions[1..], t);
      forall name | Complete(h, s, name) ensures name in t.files && t.files[name] == s.files[name] {
        CompleteIsFinal(h, s, actions[0], name);
      }
    }
  }

  lemma InitialInv(h: Hasher, s: State)
    requires Initial(s)
    ensures Inv(h, s)
  {
  }

  /**
   In every interleaving, from any directory: once a call has returned, the file it names
   holds its whole content, now and ever after.
   */
  lemma ReturnedNamesItsContent(h: Hasher, s: State, before: seq<Action>, t: State, i: nat, after: seq<Action>, u: State)
    requires h.Ideal() && Initial(s) && Runs(h, s, before, t) && Runs(h, t, after, u)
    requires i < |t.calls| && t.calls[i].pc.Returned?
    ensures Target(h, t, i) in u.files && u.files[Target(h, t, i)] == t.calls[i].content
  {
    hide Runs, OneWriter, Hasher.Ideal;
    InitialInv(h, s);
    RunKeepsInv(h, s, before, t);
    assert CallInv(h, t, i);
    RunKeepsInv(h, t, after, u);
  }

  /** Two calls that return one name were given one content. */
  lemma SameReferenceSameBytes(h: Hasher, s: State, actions: seq<Action>, t: State, i: nat, j: nat)
    requires h.Ideal() && Initial(s) && Runs(h, s, actions, t)
    requires i < |t.calls| && j < |t.calls| && t.calls[i].pc.Returned? && t.calls[j].pc.Returned?
    ensures Target(h, t, i) == Target(h, t, j) <==> t.calls[i].content == t.calls[j].content
    ensures Target(h, t, i) in t.files && t.files[Target(h, t, i)] == t.calls[i].content
  {
    assert Runs(h, t, [], t);
    hide Runs, OneWriter;
    ReturnedNamesItsContent(h, s, actions, t, i, [], t);
  }

  /******* What a crash leaves behind *******/

  /** A partial or foreign file that no call is still writing. */
  predicate Poisoned(h: Hasher, s: State, name: string) {
    && name in s.files && h.digest(s.files[name]) != name
    && forall i: nat | i < |s.calls| && Target(h, s, i) == name :: !s.calls[i].pc.Writing?
  }

  lemma PoisonStep(h: Hasher, s: State, a: Action, name: string)
    requires Inv(h, s) && Enabled(h, s, a) && Poisoned(h, s, name)
    ensures Poisoned(h, Step(h, s, a), name) && Step(h, s, a).files[name] == s.files[name]
  {
    var t := Step(h, s, a);
    NamesAreFixed(h, s, a);
    assert t.files[name] == s.files[name];
    forall i: nat | i < |t.calls| && Target(h, t, i) == name ensures !t.calls[i].pc.Writing? {
      assert Target(h, s, i) == name;
    }
  }

  /** Such a file stays as it is in every continuation, and no call for that content ever returns again. */
  lemma {:induction false} PoisonIsForever(h: Hasher, s: State, actions: seq<Action>, t: State, name: string)
    requires h.Ideal() && Inv(h, s) && Runs(h, s, actions, t) && Poisoned(h, s, name)
    ensures Poisoned(h, t, name) && t.files[name] == s.files[name]
    ensures forall i: nat | i < |t.calls| && Target(h, t, i) == name :: !t.calls[i].pc.Returned?
    decreases |actions|
  {
    if actions == [] {
      forall i: nat | i < |t.calls| && Target(h, t, i) == name ensures !t.calls[i].pc.Returned? {
        assert CallInv(h, t, i);
      }
    } else {
      hide Inv, Step, Enabled, Poisoned, Hasher.Ideal;
      StepKeepsInv(h, s, actions[0]);
      PoisonStep(h, s, actions[0], name);
      PoisonIsForever(h, Step(h, s, actions[0]), actions[1..], t, name);
    }
  }

  /** A call that stops while its file is incomplete, by an error or by being killed, poisons the name. */
  lemma StoppingEarlyPoisons(h: Hasher, s: State, a: Action)
    requires h.Ideal() && Inv(h, s) && Enabled(h, s, a) && (a.WriteFails? || a.Kill?)
    requires s.calls[a.i].pc.Writing? && s.calls[a.i].pc.written < |s.calls[a.i].content|
    ensures Poisoned(h, Step(h, s, a), Target(h, s, a.i))
  {
    var t, name := Step(h, s, a), Target(h, s, a.i);
    assert CallInv(h, s, a.i);
    assert |s.files[name]| < |s.calls[a.i].content|;
    forall i: nat | i < |t.calls| && Target(h, t, i) == name ensures !t.calls[i].pc.Writing? {
      assert Target(h, s, i) == name;
    }
  }

  /******* When a verification raises *******/

  /** A run in which every write succeeds. */
  predicate WritesSucceed(actions: seq<Action>) {
    forall a | a in actions :: !a.WriteFails?
  }

  /** Some interleaving without a failing write makes this call raise. */
  ghost predicate CanRaise(h: Hasher, s: State, i: nat)
    requires i < |s.calls|
  {
    exists actions, t ::
      WritesSucceed(actions) && Runs(h, s, actions, t) && |t.calls| == |s.calls| && t.calls[i].pc.Raised?
  }

  /** The name holds its content, or is free and its content is empty: there is no partial file to be found. */
  predicate Settled(h: Hasher, s: State, i: nat)
    requires i < |s.calls|
  {
    if Target(h, s, i) in s.files then Complete(h, s, Target(h, s, i)) else s.calls[i].content == []
  }

  /** No other call has this content, and the call itself has not met a file. */
  predicate Alone(h: Hasher, s: State, i: nat)
    requires i < |s.calls|
  {
    && (forall j: nat | j < |s.calls| && j != i :: s.calls[j].content != s.calls[i].content)
    && !s.calls[i].pc.Verifying? && (Target(h, s, i) in s.files ==> !s.calls[i].pc.Opening?)
  }

  lemma SettledWrite(h: Hasher, s: State, k: nat, n: nat, i: nat)
    requires h.Ideal() && Inv(h, s) && Enabled(h, s, Write(k, n)) && i < |s.calls| && Settled(h, s, i)
    ensures Target(h, s, k) != Target(h, s, i)
  {
    WritesAreIncomplete(h, s, k, n);
  }

  /** A verification of a settled name finds the whole content. */
  lemma SettledRead(h: Hasher, s: State, n: nat, i: nat)
    requires h.Ideal() && Inv(h, s) && Enabled(h, s, Read(i, n)) && Settled(h, s, i)
    ensures !Step(h, s, Read(i, n)).calls[i].pc.Raised?
  {
    assert CallInv(h, s, i);
    assert n == 0 ==> s.calls[i].pc.seen == s.files[Target(h, s, i)];
  }

  lemma SettledOpen(h: Hasher, s: State, k: nat, i: nat)
    requires h.Ideal() && Enabled(h, s, Open(k)) && i < |s.calls| && Settled(h, s, i)
    ensures Settled(h, Step(h, s, Open(k)), i)
  {
    if Target(h, s, k) == Target(h, s, i) { assert s.calls[k].content == s.calls[i].content; }
  }

  lemma SettledStep(h: Hasher, s: State, a: Action, i: nat)
    requires h.Ideal() && Inv(h, s) && Enabled(h, s, a) && !a.WriteFails?
    requires i < |s.calls| && Settled(h, s, i) && !s.calls[i].pc.Raised?
    ensures Settled(h, Step(h, s, a), i) && !Step(h, s, a).calls[i].pc.Raised?
  {
    match a
    case Open(k) => SettledOpen(h, s, k, i); hide Settled, Inv;
    case Write(k, n) => SettledWrite(h, s, k, n, i); hide Inv;
    case Read(k, n) => if k == i { SettledRead(h, s, n, i); } hide Inv;
    case _ => hide Inv;
  }

  lemma AloneStep(h: Hasher, s: State, a: Action, i: nat)
    requires h.Ideal() && Inv(h, s) && Enabled(h, s, a) && !a.WriteFails?
    requires i < |s.calls| && Alone(h, s, i) && !s.calls[i].pc.Raised?
    ensures Alone(h, Step(h, s, a), i) && !Step(h, s, a).calls[i].pc.Raised?
  {
    NamesAreFixed(h, s, a);
    if Target(h, s, a.i) == Target(h, s, i) { assert s.calls[a.i].content == s.calls[i].content; }
  }

  lemma {:induction false} NeverRaises(h: Hasher, s: State, actions: seq<Action>, t: State, i: nat)
    requires h.Ideal() && Inv(h, s) && Runs(h, s, actions, t) && WritesSucceed(actions)
    requires i < |s.calls| && !s.calls[i].pc.Raised? && (Settled(h, s, i) || Alone(h, s, i))
    ensures |t.calls| == |s.calls| && !t.calls[i].pc.Raised?
    decreases |actions|
  {
    hide Inv, Step, Enabled, Settled, Alone, Hasher.Ideal;
    if actions != [] {
      var a := actions[0];
      assert a in actions && forall b | b in actions[1..] :: b in actions;
      NamesAreFixed(h, s, a);
      StepKeepsInv(h, s, a);
      if Settled(h, s, i) { SettledStep(h, s, a, i); } else { AloneStep(h, s, a, i); }
      NeverRaises(h, Step(h, s, a), actions[1..], t, i);
    }
  }

  lemma RunsCons(h: Hasher, s: State, a: Action, rest: seq<Action>, end: State)
    requires Enabled(h, s, a) && Runs(h, Step(h, s, a), rest, end)
    ensures Runs(h, s, [a] + rest, end)
  {
    assert ([a] + rest)[1..] == rest;
    hide Step, Enabled;
  }

  /** Reading a wrong file to its end, one byte at a time, raises. */
  lemma {:induction false} WrongFileRaises(h: Hasher, s: State, i: nat) returns (actions: seq<Action>, t: State)
    requires i < |s.calls| && s.calls[i].pc.Verifying?
    requires var name := Target(h, s, i); name in s.files && s.calls[i].pc.seen <= s.files[name] && h.digest(s.files[name]) != name
    ensures WritesSucceed(actions) && Runs(h, s, actions, t) && |t.calls| == |s.calls| && t.calls[i].pc.Raised?
    decreases |s.files[Target(h, s, i)]| - |s.calls[i].pc.seen|
  {
    var file, seen := s.files[Target(h, s, i)], s.calls[i].pc.seen;
    if |seen| == |file| {
      assert seen == file;
      t := Step(h, s, Read(i, 0));
      assert Runs(h, t, [], t);
      RunsCons(h, s, Read(i, 0), [], t);
      actions := [Read(i, 0)] + [];
    } else {
      var next := Step(h, s, Read(i, 1));
      assert next.calls[i].pc.seen == seen + file[|seen|..|seen| + 1] <= file;
      var rest;
      rest, t := WrongFileRaises(h, next, i);
      RunsCons(h, s, Read(i, 1), rest, t);
      actions := [Read(i, 1)] + rest;
    }
  }

  /** One call creates the file, the other finds it empty and raises, and the first completes it and returns. */
  lemma LoserRaises(h: Hasher, s: State, i: nat, j: nat) returns (actions: seq<Action>, t: State)
    requires h.Ideal() && i < |s.calls| && j < |s.calls| && i != j && s.calls[i].content == s.calls[j].content != []
    requires s.calls[i].pc.Opening? && s.calls[j].pc.Opening? && Target(h, s, i) !in s.files
    ensures WritesSucceed(actions) && Runs(h, s, actions, t) && |t.calls| == |s.calls|
    ensures t.calls[i].pc.Raised? && t.calls[j].pc.Returned?
  {
    var n := |s.calls[j].content|;
    assert h.digest([]) != Target(h, s, i);
    var s1 := Step(h, s, Open(j));
    var s2 := Step(h, s1, Open(i));
    var s3 := Step(h, s2, Read(i, 0));
    var s4 := Step(h, s3, Write(j, n));
    t := Step(h, s4, Close(j));
    assert t.calls[i].pc.Raised? && t.calls[j].pc.Returned?;
    assert Runs(h, t, [], t);
    hide Step, Enabled;
    RunsCons(h, s4, Close(j), [], t);
    RunsCons(h, s3, Write(j, n), [Close(j)] + [], t);
    RunsCons(h, s2, Read(i, 0), [Write(j, n)] + ([Close(j)] + []), t);
    RunsCons(h, s1, Open(i), [Read(i, 0)] + ([Write(j, n)] + ([Close(j)] + [])), t);
    actions := [Open(j)] + ([Open(i)] + ([Read(i, 0)] + ([Write(j, n)] + ([Close(j)] + []))));
    RunsCons(h, s, Open(j), [Open(i)] + ([Read(i, 0)] + ([Write(j, n)] + ([Close(j)] + []))), t);
  }

  /**
   From any directory and for any calls: even when every write succeeds, a call can raise
   exactly when its name holds a wrong file, or is free while the content is not empty and
   another call was given it too.
   */
  lemma CallsRaiseExactlyWhen(h: Hasher, s: State, i: nat)
    requires h.Ideal() && Initial(s) && i < |s.calls|
    ensures
      var name, content := Target(h, s, i), s.calls[i].content;
      CanRaise(h, s, i) <==>
        if name in s.files then h.digest(s.files[name]) != name
        else content != [] && exists j: nat :: j < |s.calls| && j != i && s.calls[j].content == content
  {
    var name, content := Target(h, s, i), s.calls[i].content;
    InitialInv(h, s);
    if CanRaise(h, s, i) {
      var actions, t :| WritesSucceed(actions) && Runs(h, s, actions, t) && |t.calls| == |s.calls| && t.calls[i].pc.Raised?;
      if Settled(h, s, i) || Alone(h, s, i) { NeverRaises(h, s, actions, t, i); }
    }
    if name in s.files && h.digest(s.files[name]) != name {
      WrongFileIsFound(h, s, i);
    }
    if name !in s.files && content != [] && exists j: nat :: j < |s.calls| && j != i && s.calls[j].content == content {
      var j: nat :| j < |s.calls| && j != i && s.calls[j].content == content;
      var actions, t := LoserRaises(h, s, i, j);
    }
    hide Runs, OneWriter, WritesSucceed;
  }

  lemma WrongFileIsFound(h: Hasher, s: State, i: nat)
    requires i < |s.calls| && s.calls[i].pc.Opening?
    requires Target(h, s, i) in s.files && h.digest(s.files[Target(h, s, i)]) != Target(h, s, i)
    ensures CanRaise(h, s, i)
  {
    var s1 := Step(h, s, Open(i));
    var rest, t := WrongFileRaises(h, s1, i);
    RunsCons(h, s, Open(i), rest, t);
    assert WritesSucceed([Open(i)] + rest);
    hide Runs, Step, WritesSucceed, Enabled;
  }

  /** Two calls for one content over a free name: one can raise while the other returns if and only if the content is not empty. */
  lemma LosingTheRaceRaises(h: Hasher, s: State, i: nat, j: nat)
    requires h.Ideal() && Initial(s) && i < |s.calls| && j < |s.calls| && i != j
    requires s.calls[i].content == s.calls[j].content && Target(h, s, i) !in s.files
    ensures (exists actions, t ::
               WritesSucceed(actions) && Runs(h, s, actions, t) && |t.calls| == |s.calls|
               && t.calls[i].pc.Raised? && t.calls[j].pc.Returned?)
            <==> s.calls[i].content != []
  {
    InitialInv(h, s);
    if s.calls[i].content != [] {
      var actions, t := LoserRaises(h, s, i, j);
    } else {
      hide Runs, Inv, WritesSucceed;
      forall actions, t | WritesSucceed(actions) && Runs(h, s, actions, t) ensures |t.calls| == |s.calls| && !t.calls[i].pc.Raised? {
        NeverRaises(h, s, actions, t, i);
      }
    }
  }

  /******* One call on its own *******/

  class Directory {
    var files: map<string, Bytes>

    constructor ()
      ensures files == map[]
    {
      files := map[];
    }

    /** Reads and hashes a file in chunks; a read may return fewer bytes than asked for. */
    method HashFile(h: Hasher, name: string) returns (digest: string)
      requires name in files
      ensures digest == h.digest(files[name])
    {
      var seen: Bytes := [];
      while |seen| < |files[name]|
        invariant seen <= files[name]
      {
        var n :| 0 < n <= CHUNK && |seen| + n <= |files[name]|;
        seen := seen + files[name][|seen|..|seen| + n];
      }
      assert seen == files[name];
      return h.digest(seen);
    }

    /**
     Without interference the call returns exactly when the name was free (and the write
     does not fail) or already holds this content; otherwise nothing that was there changes.
     `fault` is how many bytes are written before the write fails.
     */
    method WriteArtifact(h: Hasher, content: Bytes, fault: Option<nat>) returns (ref: Option<string>)
      requires h.Ideal() && (fault.Some? ==> fault.value <= |content|)
      modifies this
      ensures
        var name := h.digest(content);
        && (ref.Some? <==> if name in old(files) then old(files)[name] == content else fault.None?)
        && (ref.Some? ==> ref.value == name && files == old(files)[name := content])
        && (ref.None? ==> files == if name in old(files) then old(files) else old(files)[name := content[..fault.value]])
    {
      var name := h.digest(content);
      if name in files {
        var found := HashFile(h, name);
        if found != name { return None; }
        assert files == files[name := content];
        return Some(name);
      }
      files := files[name := []];
      var stop := if fault.Some? then fault.value else |content|;
      var written := 0;
      while written < stop
        invariant written <= stop && files == old(files)[name := content[..written]]
      {
        var n :| 0 < n <= stop - written;
        assert content[..written] + content[written..written + n] == content[..written + n];
        files := files[name := files[name] + content[written..written + n]];
        written := written + n;
      }
      assert content[..|content|] == content;
      if fault.Some? { return None; }
      return Some(name);
    }
  }
}
