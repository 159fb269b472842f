/**
 The pipeline builder of the shell (recursive_call of les15_pipes/src/interpretator.c).
 Processes are descriptor tables; pipe, fork, dup2 and close change them. The stages run
 concurrently with the shell: a stage may take its next step between any two steps of the shell.
 pipe and fork are taken to succeed, as the code does.
 */
module Pipeline {
  import opened Sets

  /** One end of a pipe, or a file from outside such as the terminal. */
  datatype End = Outside | ReadEnd(pipe: nat) | WriteEnd(pipe: nat)

  type Table = map<nat, End>

  /** The program of a forked stage: dup2(fd[1], 1); close(fd[0]); exec; exit. */
  datatype Phase = Forked | Redirected | Running | Exited

  /** born is the table copied by fork, r and w are the numbers in the shell's fd array at that moment,
      and call is the number of calls completed before. */
  datatype Stage = Stage(born: Table, r: nat, w: nat, call: nat, phase: Phase)

  /** Where the shell stands in recursive_call. */
  datatype Pc = Idle | AtPipe | AtFork | AtDup | AtClose | Draining | AtLastClose

  /** Stage number k is the process forked for pipe number k; start is the size of the first table. */
  datatype World = World(pc: Pc, left: nat, r: nat, w: nat, shell: Table,
                         stages: seq<Stage>, calls: nat, start: nat)

  // ------------------------------------------------------------------ system calls

  function Range(n: nat): (s: set<nat>)
    ensures |s| == n && forall k :: k in s <==> 0 <= k < n
  {
    if n == 0 then {} else Range(n - 1) + {n - 1}
  }

  /** The lowest free number, which is what pipe hands out. */
  function LowestFree(t: Table, from: nat := 0): (fd: nat)
    requires forall k | 0 <= k < from :: k in t
    ensures fd !in t && forall k | 0 <= k < fd :: k in t
    decreases |t| - from
  {
    SubsetSize(Range(from), t.Keys);
    if from in t then
      SubsetSize(Range(from + 1), t.Keys);
      LowestFree(t, from + 1)
    else from
  }

  /** dup2 fails without effect when source is not open. */
  function Dup2(t: Table, source: nat, target: nat): Table {
    if source in t then t[target := t[source]] else t
  }

  function Close(t: Table, fd: nat): Table { t - {fd} }

  /** The descriptors a stage holds now. */
  function Descriptors(s: Stage): Table {
    match s.phase
    case Forked => s.born
    case Redirected => Dup2(s.born, s.w, 1)
    case Running => Close(Dup2(s.born, s.w, 1), s.r)
    case Exited => map[]
  }

  function Advance(s: Stage): Stage {
    match s.phase
    case Forked => s.(phase := Redirected)
    case Redirected => s.(phase := Running)
    case Running => s.(phase := Exited)
    case Exited => s
  }

  // ------------------------------------------------------------------ the machine

  datatype Action =
    | Call(count: int)
    | Pipe
    | Fork
    | DupStdin
    | CloseWrite
    | ReadEof
    | CloseRead
    | StageMoves(k: nat)

  predicate Holds(t: Table, e: End) { e in t.Values }

  /** read returns 0 on an empty pipe exactly when no process holds its write end. */
  predicate AtEof(w: World, k: nat) {
    && !Holds(w.shell, WriteEnd(k))
    && forall j | 0 <= j < |w.stages| :: !Holds(Descriptors(w.stages[j]), WriteEnd(k))
  }

  ghost predicate Enabled(w: World, a: Action) {
    match a
    case Call(_) => w.pc == Idle
    case Pipe => w.pc == AtPipe
    case Fork => w.pc == AtFork
    case DupStdin => w.pc == AtDup
    case CloseWrite => w.pc == AtClose && w.left > 0
    case ReadEof => w.pc == Draining && |w.stages| > 0 && AtEof(w, |w.stages| - 1)
    case CloseRead => w.pc == AtLastClose
    case StageMoves(k) => k < |w.stages|
  }

  function DoPipe(w: World): World
  {
    var r := LowestFree(w.shell);
    var t := w.shell[r := ReadEnd(|w.stages|)];
    var wr := LowestFree(t);
    w.(pc := AtFork, r := r, w := wr, shell := t[wr := WriteEnd(|w.stages|)])
  }

  ghost function Step(w: World, a: Action): World
    requires Enabled(w, a)
  {
    match a
    case Call(count) => if count <= 0 then w else w.(pc := AtPipe, left := count)
    case Pipe => DoPipe(w)
    case Fork => w.(pc := AtDup, stages := w.stages + [Stage(w.shell, w.r, w.w, w.calls, Forked)])
    case DupStdin => w.(pc := AtClose, shell := Dup2(w.shell, w.r, 0))
    case CloseWrite =>
      w.(pc := if w.left == 1 then Draining else AtPipe, left := w.left - 1, shell := Close(w.shell, w.w))
    case ReadEof => w.(pc := AtLastClose)
    case CloseRead => w.(pc := Idle, shell := Close(w.shell, w.r), calls := w.calls + 1)
    case StageMoves(k) => w.(stages := w.stages[k := Advance(w.stages[k])])
  }

  // ------------------------------------------------------------------ the invariant

  /** The only write end a stage is born with is that of its own pipe, and its stdin is the pipe before. */
  ghost predicate StageOk(s: Stage, k: nat) {
    && 1 < s.r && 1 < s.w && s.r != s.w
    && 0 in s.born && 1 in s.born && s.r in s.born && s.w in s.born
    && s.born[s.r] == ReadEnd(k)
    && s.born[s.w] == WriteEnd(k)
    && (forall fd | fd in s.born && s.born[fd].WriteEnd? :: fd == s.w)
    && (forall fd | fd in s.born && s.born[fd] == ReadEnd(k) :: fd == s.r)
    && (k > 0 ==> s.born[0] == ReadEnd(k - 1))
  }

  /** The pipe in the shell's hands: made, and its write end not yet closed. */
  predicate InHand(pc: Pc) { pc.AtFork? || pc.AtDup? || pc.AtClose? }

  function CurrentPipe(w: World): int { if w.pc.AtFork? then |w.stages| else |w.stages| - 1 }

  /** The pipe whose read end is the shell's stdin. */
  function StdinPipe(w: World): int { if w.pc.AtDup? then |w.stages| - 2 else |w.stages| - 1 }

  /** The numbers in fd are those of the pipe in hand, and its read end's while it is drained. */
  predicate NumbersOk(w: World) {
    && (!w.pc.AtFork? && !w.pc.Idle? && !w.pc.AtPipe? ==> |w.stages| > 0)
    && (InHand(w.pc) ==>
          && 1 < w.r && 1 < w.w && w.r != w.w && w.r in w.shell && w.w in w.shell
          && w.shell[w.r] == ReadEnd(CurrentPipe(w))
          && w.shell[w.w] == WriteEnd(CurrentPipe(w)))
    && (w.pc.Draining? || w.pc.AtLastClose? ==>
          1 < w.r && w.r in w.shell && w.shell[w.r] == ReadEnd(|w.stages| - 1))
  }

  ghost predicate Inv(w: World) {
    && 0 in w.shell && 1 in w.shell
    && (forall k | 0 <= k < |w.stages| :: StageOk(w.stages[k], k))
    && (forall fd | fd in w.shell && w.shell[fd].WriteEnd? :: InHand(w.pc) && fd == w.w)
    && (forall fd | fd in w.shell && w.shell[fd].ReadEnd? ::
          w.shell[fd].pipe < |w.stages| || (w.pc.AtFork? && fd == w.r))
    && (StdinPipe(w) >= 0 ==> w.shell[0] == ReadEnd(StdinPipe(w)))
    && NumbersOk(w)
    && (InHand(w.pc) || w.pc.AtPipe? ==> w.left > 0)
    && |w.shell| + w.calls == w.start + |w.stages|
         + (if w.pc.AtFork? then 2 else if InHand(w.pc) then 1 else 0)
  }

  ghost predicate Init(w: World) {
    && w.pc == Idle && w.stages == [] && w.calls == 0
    && 0 in w.shell && 1 in w.shell
    && (forall fd | fd in w.shell :: w.shell[fd] == Outside)
    && w.start == |w.shell|
  }

  lemma InitInv(w: World)
    requires Init(w)
    ensures Inv(w)
  {
  }

  lemma PipeInv(w: World)
    requires Inv(w) && w.pc == AtPipe
    ensures Inv(DoPipe(w))
  {
  }

  lemma ForkInv(w: World)
    requires Inv(w) && w.pc == AtFork
    ensures Inv(Step(w, Fork))
  {
  }

  lemma DupSize(t: Table, source: nat, target: nat)
    requires source in t && target in t
    ensures |Dup2(t, source, target)| == |t|
  {
  }

  lemma CloseReadInv(w: World)
    requires Inv(w) && w.pc.AtLastClose?
    ensures Inv(Step(w, CloseRead))
  {
  }

  lemma CloseWriteInv(w: World)
    requires Inv(w) && w.pc.AtClose?
    ensures Inv(Step(w, CloseWrite))
  {
  }

  lemma CallInv(w: World, count: nat)
    requires Inv(w) && w.pc.Idle? && count > 0
    ensures Inv(w.(pc := AtPipe, left := count))
  {
  }

  lemma DrainEnds(w: World)
    requires Inv(w) && w.pc.Draining?
    ensures Inv(w.(pc := Idle, shell := Close(w.shell, w.r), calls := w.calls + 1))
  {
  }

  lemma StageMovesInv(w: World, k: nat)
    requires Inv(w) && k < |w.stages|
    ensures Inv(Step(w, StageMoves(k)))
  {
  }

  /** Every step of the shell or of a stage keeps the invariant. */
  lemma StepInv(w: World, a: Action)
    requires Inv(w) && Enabled(w, a)
    ensures Inv(Step(w, a))
  {
    match a
    case Call(count) =>
      if count > 0 {
        CallInv(w, count);
      }
    case Pipe => PipeInv(w);
    case Fork => ForkInv(w);
    case DupStdin => DupSize(w.shell, w.r, 0);
    case CloseWrite => CloseWriteInv(w);
    case ReadEof =>
    case CloseRead => CloseReadInv(w);
    case StageMoves(k) => StageMovesInv(w, k);
  }

  // ------------------------------------------------- calls that end, and read ends that stay

  /** The call in which the stage after stage k is made, or would be made next. */
  function CallAfter(w: World, k: nat): nat
    requires k < |w.stages|
  {
    if k + 1 < |w.stages| then w.stages[k + 1].call else w.calls
  }

  /** A later stage belongs to a later call only if the stage before it has exited, and between two
      calls the last stage has exited. */
  ghost predicate StageEnds(w: World, k: nat)
    requires k < |w.stages|
  {
    && w.stages[k].call <= CallAfter(w, k)
    && (w.stages[k].call < CallAfter(w, k) ==> w.stages[k].phase.Exited?)
  }

  ghost predicate CallsInv(w: World) {
    && (forall k | 0 <= k < |w.stages| :: StageEnds(w, k))
    && (w.pc.Idle? && |w.stages| > 0 ==> w.stages[|w.stages| - 1].call < w.calls)
    && (w.pc.AtLastClose? && |w.stages| > 0 ==> w.stages[|w.stages| - 1].phase.Exited?)
  }

  lemma StageEndsStep(w: World, a: Action, k: nat)
    requires CallsInv(w) && Enabled(w, a) && k < |Step(w, a).stages|
    ensures StageEnds(Step(w, a), k)
  {
    if k < |w.stages| {
      assert StageEnds(w, k);
    }
  }

  lemma CallsStep(w: World, a: Action)
    requires Inv(w) && CallsInv(w) && Enabled(w, a)
    ensures CallsInv(Step(w, a))
  {
    var w' := Step(w, a);
    forall k | 0 <= k < |w'.stages| ensures StageEnds(w', k) {
      StageEndsStep(w, a, k);
    }
    if a.ReadEof? {
      EofIffExited(w, |w.stages| - 1);
    } else if a.CloseRead? {
      assert StageEnds(w, |w.stages| - 1);
    }
  }

  /** The shell keeps the read end of a stage's pipe at the number it got from pipe, unless the stage is
      the last of a call that has ended. */
  ghost predicate ReadKept(w: World, k: nat)
    requires k < |w.stages|
  {
    w.stages[k].call == CallAfter(w, k) ==>
      && 0 < w.stages[k].r
      && w.stages[k].r in w.shell && w.shell[w.stages[k].r] == ReadEnd(k)
  }

  /** There is no other copy in the shell, besides its stdin. */
  ghost predicate ReadKnown(w: World, fd: nat)
    requires fd in w.shell
  {
    fd != 0 && w.shell[fd].ReadEnd? && w.shell[fd].pipe < |w.stages| ==>
      var k := w.shell[fd].pipe;
      fd == w.stages[k].r && w.stages[k].call == CallAfter(w, k)
  }

  /** The shell still holds the numbers of the stage made last in fd. */
  predicate InCall(pc: Pc) { pc.AtDup? || pc.AtClose? || pc.Draining? || pc.AtLastClose? }

  /** The stage made last is that of fd and of this call. */
  predicate FdOk(w: World) {
    InCall(w.pc) ==>
      && |w.stages| > 0
      && w.r == w.stages[|w.stages| - 1].r && w.stages[|w.stages| - 1].call == w.calls
  }

  ghost predicate ReadsInv(w: World) {
    && FdOk(w)
    && (forall k | 0 <= k < |w.stages| :: ReadKept(w, k))
    && (forall fd | fd in w.shell :: ReadKnown(w, fd))
  }

  lemma ReadKeptStep(w: World, a: Action, k: nat)
    requires NumbersOk(w) && CallsInv(w) && FdOk(w) && Enabled(w, a) && !a.StageMoves?
    requires k < |Step(w, a).stages| && (k < |w.stages| ==> ReadKept(w, k))
    ensures ReadKept(Step(w, a), k)
  {
    if k < |w.stages| {
      assert StageEnds(w, k);
    }
  }

  lemma ReadKnownFork(w: World, fd: nat)
    requires Inv(w) && w.pc.AtFork? && fd in w.shell && ReadKnown(w, fd)
    ensures ReadKnown(Step(w, Fork), fd)
  {
    if w.shell[fd].ReadEnd? && w.shell[fd].pipe >= |w.stages| {
      assert fd == w.r;
    }
  }

  lemma ReadKnownClose(w: World, fd: nat)
    requires FdOk(w) && w.pc.AtLastClose? && fd in w.shell && fd != w.r && ReadKnown(w, fd)
    ensures ReadKnown(Step(w, CloseRead), fd)
  {
    if fd != 0 && w.shell[fd].ReadEnd? && w.shell[fd].pipe < |w.stages| {
      assert w.shell[fd].pipe != |w.stages| - 1;
    }
  }

  /** When neither the list of stages nor the count of calls grows. */
  lemma ReadKnownSame(w: World, a: Action, fd: nat)
    requires Enabled(w, a) && !a.StageMoves? && !a.Fork? && !a.CloseRead? && fd in Step(w, a).shell
    requires fd in w.shell ==> ReadKnown(w, fd)
    ensures ReadKnown(Step(w, a), fd)
  {
  }

  lemma ReadsMove(w: World, j: nat)
    requires ReadsInv(w) && j < |w.stages|
    ensures ReadsInv(Step(w, StageMoves(j)))
  {
    var w' := Step(w, StageMoves(j));
    forall k | 0 <= k < |w'.stages| ensures ReadKept(w', k) {
      assert ReadKept(w, k);
    }
    forall fd | fd in w'.shell ensures ReadKnown(w', fd) {
      assert ReadKnown(w, fd);
    }
  }

  lemma FdStep(w: World, a: Action)
    requires FdOk(w) && Enabled(w, a) && !a.StageMoves?
    ensures FdOk(Step(w, a))
  {
  }

  lemma AllReadsKept(w: World, a: Action)
    requires Inv(w) && CallsInv(w) && ReadsInv(w) && Enabled(w, a) && !a.StageMoves?
    ensures var w' := Step(w, a); forall k | 0 <= k < |w'.stages| :: ReadKept(w', k)
  {
    var w' := Step(w, a);
    forall k | 0 <= k < |w'.stages| ensures ReadKept(w', k) {
      ReadKeptStep(w, a, k);
    }
  }

  lemma AllReadsKnown(w: World, a: Action)
    requires Inv(w) && CallsInv(w) && ReadsInv(w) && Enabled(w, a) && !a.StageMoves?
    ensures var w' := Step(w, a); forall fd | fd in w'.shell :: ReadKnown(w', fd)
  {
    var w' := Step(w, a);
    forall fd | fd in w'.shell ensures ReadKnown(w', fd) {
      if a.Fork? {
        ReadKnownFork(w, fd);
      } else if a.CloseRead? {
        ReadKnownClose(w, fd);
      } else {
        ReadKnownSame(w, a, fd);
      }
    }
  }

  lemma ReadsStep(w: World, a: Action)
    requires Inv(w) && CallsInv(w) && ReadsInv(w) && Enabled(w, a)
    ensures ReadsInv(Step(w, a))
  {
    if a.StageMoves? {
      ReadsMove(w, a.k);
    } else {
      FdStep(w, a);
      AllReadsKept(w, a);
      AllReadsKnown(w, a);
    }
  }

  ghost predicate Follows(trace: seq<World>, i: nat)
    requires i + 1 < |trace|
  {
    exists a :: Enabled(trace[i], a) && trace[i + 1] == Step(trace[i], a)
  }

  ghost predicate Run(trace: seq<World>) {
    && |trace| > 0 && Init(trace[0])
    && forall i | 0 <= i < |trace| - 1 :: Follows(trace, i)
  }

  lemma {:induction false} RunInv(trace: seq<World>, i: nat)
    requires Run(trace) && i < |trace|
    ensures Inv(trace[i])
  {
    if i == 0 {
      InitInv(trace[0]);
    } else {
      RunInv(trace, i - 1);
      assert Follows(trace, i - 1);
      var a :| Enabled(trace[i - 1], a) && trace[i] == Step(trace[i - 1], a);
      StepInv(trace[i - 1], a);
    }
  }

  /** All three invariants together. */
  ghost predicate Sound(w: World) { Inv(w) && CallsInv(w) && ReadsInv(w) }

  lemma SoundStart(w: World)
    requires Init(w)
    ensures Sound(w)
  {
  }

  lemma SoundStep(w: World, a: Action)
    requires Sound(w) && Enabled(w, a)
    ensures Sound(Step(w, a))
  {
    StepInv(w, a);
    CallsStep(w, a);
    ReadsStep(w, a);
  }

  lemma {:induction false} SoundRun(trace: seq<World>, i: nat)
    requires Run(trace) && i < |trace|
    ensures Sound(trace[i])
  {
    if i == 0 {
      SoundStart(trace[0]);
    } else {
      SoundRun(trace, i - 1);
      assert Follows(trace, i - 1);
      var a :| Enabled(trace[i - 1], a) && trace[i] == Step(trace[i - 1], a);
      SoundStep(trace[i - 1], a);
    }
  }

  // ------------------------------------------------------------------- the theorems

  /** In every run: a stage that has exited was running its program before. */
  lemma {:induction false} ExitedStageRan(trace: seq<World>, i: nat, k: nat) returns (j: nat)
    requires Run(trace) && i < |trace| && k < |trace[i].stages| && trace[i].stages[k].phase.Exited?
    ensures j < i && k < |trace[j].stages| && trace[j].stages[k].phase.Running?
  {
    assert Follows(trace, i - 1);
    var a :| Enabled(trace[i - 1], a) && trace[i] == Step(trace[i - 1], a);
    StageComesFrom(trace[i - 1], a, k);
    if trace[i - 1].stages[k].phase.Running? {
      j := i - 1;
    } else {
      j := ExitedStageRan(trace, i - 1, k);
    }
  }

  lemma StageComesFrom(w: World, a: Action, k: nat)
    requires Enabled(w, a) && k < |Step(w, a).stages| && Step(w, a).stages[k].phase.Exited?
    ensures k < |w.stages| && (w.stages[k].phase.Running? || w.stages[k].phase.Exited?)
  {
  }

  /** Who holds a write end: the stage of the pipe until it exits, and the shell only while the pipe is in its hands. */
  lemma WriteEndHolders(w: World, k: nat)
    requires Inv(w)
    ensures Holds(w.shell, WriteEnd(k)) <==> InHand(w.pc) && k == CurrentPipe(w)
    ensures forall j | 0 <= j < |w.stages| ::
              Holds(Descriptors(w.stages[j]), WriteEnd(k)) <==> j == k && !w.stages[j].phase.Exited?
  {
    if InHand(w.pc) {
      assert w.shell[w.w] == WriteEnd(CurrentPipe(w));
    }
    forall j | 0 <= j < |w.stages|
      ensures Holds(Descriptors(w.stages[j]), WriteEnd(k)) <==> j == k && !w.stages[j].phase.Exited?
    {
      StageWriteEnds(w.stages[j], j, k);
    }
  }

  lemma StageWriteEnds(s: Stage, j: nat, k: nat)
    requires StageOk(s, j)
    ensures Holds(Descriptors(s), WriteEnd(k)) <==> j == k && !s.phase.Exited?
  {
    var d := Descriptors(s);
    if !s.phase.Exited? {
      assert s.w in d && d[s.w] == WriteEnd(j);
    }
    forall fd | fd in d && d[fd] == WriteEnd(k) ensures j == k {
      assert fd == 1 || s.born[fd] == d[fd];
    }
  }

  lemma EofIffExited(w: World, k: nat)
    requires Inv(w) && k < |w.stages| && !(InHand(w.pc) && k == CurrentPipe(w))
    ensures AtEof(w, k) <==> w.stages[k].phase.Exited?
  {
    WriteEndHolders(w, k);
  }

  /** In every state of every run: once the shell has closed its copy of a pipe's write end,
      the pipe is at end of file exactly when its stage has exited. */
  lemma EofExactlyWhenStageExited(trace: seq<World>, i: nat, k: nat)
    requires Run(trace) && i < |trace|
    requires k < |trace[i].stages| && !(InHand(trace[i].pc) && k == CurrentPipe(trace[i]))
    ensures Inv(trace[i])
    ensures AtEof(trace[i], k) <==> trace[i].stages[k].phase.Exited?
  {
    RunInv(trace, i);
    EofIffExited(trace[i], k);
  }

  /** In every state of every run: a stage that runs its program reads the pipe before its own and
      writes its own pipe, whose read end it does not hold; the very first stage reads what the shell
      first read. */
  lemma StagesAreWired(trace: seq<World>, i: nat, k: nat)
    requires Run(trace) && i < |trace|
    requires k < |trace[i].stages| && trace[i].stages[k].phase.Running?
    ensures Inv(trace[i])
    ensures var d := Descriptors(trace[i].stages[k]);
            && 0 in d && 1 in d && d[1] == WriteEnd(k)
            && d[0] == (if k > 0 then ReadEnd(k - 1) else trace[0].shell[0])
            && !Holds(d, ReadEnd(k))
  {
    RunInv(trace, i);
    if k == 0 {
      FirstStdin(trace, i);
    }
  }

  /** In every state of every run a stage that has not exited holds what the shell held when it forked it, except
      that its own pipe is its stdout once it has redirected it, and that its pipe's read end is closed before its
      program runs. */
  lemma StageHoldsCopy(trace: seq<World>, i: nat, k: nat) returns (j: nat)
    requires Run(trace) && i < |trace| && k < |trace[i].stages| && !trace[i].stages[k].phase.Exited?
    ensures j < i && trace[j].pc.AtFork? && |trace[j].stages| == k
    ensures var d, shell, phase := Descriptors(trace[i].stages[k]), trace[j].shell, trace[i].stages[k].phase;
            && (forall fd :: fd in d <==> fd in shell && !(phase.Running? && shell[fd] == ReadEnd(k)))
            && (forall fd | fd in d :: d[fd] == if fd == 1 && !phase.Forked? then WriteEnd(k) else shell[fd])
  {
    RunInv(trace, i);
    assert StageOk(trace[i].stages[k], k);
    j := BornAtFork(trace, i, k);
  }

  lemma {:induction false} BornAtFork(trace: seq<World>, i: nat, k: nat) returns (j: nat)
    requires Run(trace) && i < |trace| && k < |trace[i].stages|
    ensures j < i && trace[j].pc.AtFork? && |trace[j].stages| == k && trace[j].shell == trace[i].stages[k].born
  {
    assert Follows(trace, i - 1);
    var a :| Enabled(trace[i - 1], a) && trace[i] == Step(trace[i - 1], a);
    if k < |trace[i - 1].stages| {
      j := BornAtFork(trace, i - 1, k);
    } else {
      j := i - 1;
    }
  }

  lemma {:induction false} FirstStdin(trace: seq<World>, i: nat)
    requires Run(trace) && i < |trace|
    ensures Inv(trace[i])
    ensures StdinPipe(trace[i]) < 0 ==> trace[i].shell[0] == trace[0].shell[0]
    ensures |trace[i].stages| > 0 ==> trace[i].stages[0].born[0] == trace[0].shell[0]
  {
    RunInv(trace, i);
    if i > 0 {
      FirstStdin(trace, i - 1);
      var w := trace[i - 1];
      assert Follows(trace, i - 1);
      var a :| Enabled(w, a) && trace[i] == Step(w, a);
      StepStdin(w, a);
    }
  }

  lemma StepStdin(w: World, a: Action)
    requires Inv(w) && Enabled(w, a)
    ensures var w' := Step(w, a);
            && (StdinPipe(w') < 0 && 0 in w'.shell ==> StdinPipe(w) < 0 && w'.shell[0] == w.shell[0])
            && (|w'.stages| > 0 ==> w'.stages[0].born[0] == if |w.stages| > 0 then w.stages[0].born[0] else w.shell[0])
            && (|w.stages| == 0 ==> StdinPipe(w) < 0)
  {
  }

  /** Between two calls the shell's stdin is the last pipe of the last call, and nobody holds its write end. */
  lemma StdinHasEndedBetweenCalls(trace: seq<World>, i: nat)
    requires Run(trace) && i < |trace| && trace[i].pc.Idle? && |trace[i].stages| > 0
    ensures Inv(trace[i])
    ensures trace[i].shell[0] == ReadEnd(|trace[i].stages| - 1)
    ensures AtEof(trace[i], |trace[i].stages| - 1)
  {
    SoundRun(trace, i);
    EofIffExited(trace[i], |trace[i].stages| - 1);
    assert StageEnds(trace[i], |trace[i].stages| - 1);
  }

  /** So the first stage of every later call reads a pipe whose write end nobody holds. */
  lemma LaterCallsReadEndedPipe(trace: seq<World>, i: nat, k: nat)
    requires Run(trace) && i < |trace| && 0 < k < |trace[i].stages|
    requires trace[i].stages[k - 1].call < trace[i].stages[k].call && trace[i].stages[k].phase.Running?
    ensures var d := Descriptors(trace[i].stages[k]);
            0 in d && d[0] == ReadEnd(k - 1) && AtEof(trace[i], k - 1)
  {
    SoundRun(trace, i);
    StagesAreWired(trace, i, k);
    assert StageEnds(trace[i], k - 1);
    EofIffExited(trace[i], k - 1);
  }

  /** Of the pipes of the stages made, the shell holds the read ends of its stdin and of every stage that is
      not the last of a call that has ended. Those it never closes. */
  lemma ReadEndHolders(trace: seq<World>, i: nat, k: nat)
    requires Run(trace) && i < |trace| && k < |trace[i].stages|
    ensures Holds(trace[i].shell, ReadEnd(k)) <==>
            k == StdinPipe(trace[i]) || trace[i].stages[k].call == CallAfter(trace[i], k)
  {
    SoundRun(trace, i);
    var w := trace[i];
    assert ReadKept(w, k);
    if Holds(w.shell, ReadEnd(k)) {
      var fd :| fd in w.shell && w.shell[fd] == ReadEnd(k);
      assert ReadKnown(w, fd);
    }
  }

  /** A stage that has not exited never writes to a pipe without a reader: the shell is one. */
  lemma WritersHaveAReader(trace: seq<World>, i: nat, k: nat)
    requires Run(trace) && i < |trace| && k < |trace[i].stages| && !trace[i].stages[k].phase.Exited?
    ensures Holds(trace[i].shell, ReadEnd(k))
  {
    SoundRun(trace, i);
    assert StageEnds(trace[i], k);
    ReadEndHolders(trace, i, k);
  }

  /** While the shell drains it reads the last pipe of the call, and leaves only after its stage has exited. */
  lemma ShellDrainsLastPipe(trace: seq<World>, i: nat)
    requires Run(trace) && i < |trace| && (trace[i].pc.Draining? || trace[i].pc.AtLastClose?)
    ensures Inv(trace[i])
    ensures trace[i].shell[trace[i].r] == ReadEnd(|trace[i].stages| - 1)
    ensures trace[i].pc.Draining? ==>
            (Enabled(trace[i], ReadEof) <==> trace[i].stages[|trace[i].stages| - 1].phase.Exited?)
  {
    RunInv(trace, i);
    DrainFacts(trace[i]);
  }

  lemma DrainFacts(w: World)
    requires Inv(w) && (w.pc.Draining? || w.pc.AtLastClose?)
    ensures w.shell[w.r] == ReadEnd(|w.stages| - 1)
    ensures w.pc.Draining? ==> (Enabled(w, ReadEof) <==> w.stages[|w.stages| - 1].phase.Exited?)
  {
    EofIffExited(w, |w.stages| - 1);
  }

  /** Between calls the shell has leaked one descriptor per stage beyond the first of each call. */
  lemma DescriptorsLeaked(trace: seq<World>, i: nat)
    requires Run(trace) && i < |trace| && trace[i].pc.Idle?
    ensures |trace[i].shell| + trace[i].calls == |trace[0].shell| + |trace[i].stages|
  {
    RunInv(trace, i);
    StartConstant(trace, i);
  }

  lemma {:induction false} StartConstant(trace: seq<World>, i: nat)
    requires Run(trace) && i < |trace|
    ensures trace[i].start == trace[0].start
  {
    if i > 0 {
      StartConstant(trace, i - 1);
      assert Follows(trace, i - 1);
      var a :| Enabled(trace[i - 1], a) && trace[i] == Step(trace[i - 1], a);
      StepStart(trace[i - 1], a);
    }
  }

  lemma StepStart(w: World, a: Action)
    requires Enabled(w, a)
    ensures Step(w, a).start == w.start
  {
  }

  // ------------------------------------------------------ what is left in the pipes

  /** A world with the number of bytes written to each pipe and not yet read. */
  datatype Flow = Flow(world: World, unread: seq<nat>)

  datatype FlowAction =
    | Moves(a: Action)
    | StageWrites(k: nat)
    | StageReads(k: nat)
    | ShellReads

  /** The pipe a descriptor reads or writes, if any. */
  predicate ReadsFrom(t: Table, fd: nat, pipe: nat) { fd in t && t[fd] == ReadEnd(pipe) }

  predicate WritesTo(t: Table, fd: nat, pipe: nat) { fd in t && t[fd] == WriteEnd(pipe) }

  predicate Runs(w: World, k: nat) { k < |w.stages| && w.stages[k].phase.Running? }

  /** The program of a stage reads its stdin and writes its stdout; the shell reads fd[0] while it drains.
      read returns 0 only on an empty pipe. */
  ghost predicate FlowEnabled(f: Flow, x: FlowAction) {
    match x
    case Moves(a) =>
      Enabled(f.world, a) && (a.ReadEof? ==> |f.unread| == |f.world.stages| && f.unread[|f.unread| - 1] == 0)
    case StageWrites(k) =>
      Runs(f.world, k) && exists p | 0 <= p < |f.unread| :: WritesTo(Descriptors(f.world.stages[k]), 1, p)
    case StageReads(k) =>
      Runs(f.world, k)
      && exists p | 0 <= p < |f.unread| :: ReadsFrom(Descriptors(f.world.stages[k]), 0, p) && f.unread[p] > 0
    case ShellReads =>
      f.world.pc.Draining?
      && exists p | 0 <= p < |f.unread| :: ReadsFrom(f.world.shell, f.world.r, p) && f.unread[p] > 0
  }

  ghost predicate FlowStep(f: Flow, x: FlowAction, f': Flow)
    requires FlowEnabled(f, x)
  {
    match x
    case Moves(a) =>
      f' == Flow(Step(f.world, a), if a.Pipe? then f.unread + [0] else f.unread)
    case StageWrites(k) =>
      exists p | 0 <= p < |f.unread| ::
        WritesTo(Descriptors(f.world.stages[k]), 1, p) && f' == f.(unread := f.unread[p := f.unread[p] + 1])
    case StageReads(k) =>
      exists p | 0 <= p < |f.unread| ::
        && ReadsFrom(Descriptors(f.world.stages[k]), 0, p)
        && f.unread[p] > 0 && f' == f.(unread := f.unread[p := f.unread[p] - 1])
    case ShellReads =>
      exists p | 0 <= p < |f.unread| ::
        && ReadsFrom(f.world.shell, f.world.r, p)
        && f.unread[p] > 0 && f' == f.(unread := f.unread[p := f.unread[p] - 1])
  }

  ghost predicate FlowFollows(trace: seq<Flow>, i: nat)
    requires i + 1 < |trace|
  {
    exists x :: FlowEnabled(trace[i], x) && FlowStep(trace[i], x, trace[i + 1])
  }

  ghost predicate FlowRun(trace: seq<Flow>) {
    && |trace| > 0 && Init(trace[0].world) && trace[0].unread == []
    && forall i | 0 <= i < |trace| - 1 :: FlowFollows(trace, i)
  }

  /** The pipe of a stage that is the last of a call that has ended was drained. */
  ghost predicate Drained(f: Flow, k: nat)
    requires k < |f.world.stages| && k < |f.unread|
  {
    && (f.world.stages[k].call < CallAfter(f.world, k) ==> f.unread[k] == 0)
    && (f.world.pc.AtLastClose? && k == |f.world.stages| - 1 ==> f.unread[k] == 0)
  }

  ghost predicate DrainedInv(f: Flow) {
    && |f.unread| == |f.world.stages| + (if f.world.pc.AtFork? then 1 else 0)
    && forall k | 0 <= k < |f.world.stages| :: Drained(f, k)
  }

  ghost predicate FlowInv(f: Flow) { Sound(f.world) && DrainedInv(f) }

  /** A pipe that may still be written to. */
  predicate InUse(w: World, p: nat) {
    p < |w.stages| ==> w.stages[p].call == CallAfter(w, p) && !(w.pc.AtLastClose? && p == |w.stages| - 1)
  }

  /** A running stage writes its own pipe, and a stage whose call is over does not run. */
  lemma WriterInUse(w: World, k: nat, p: nat)
    requires Sound(w) && Runs(w, k) && WritesTo(Descriptors(w.stages[k]), 1, p)
    ensures InUse(w, p)
  {
    assert StageOk(w.stages[k], k);
    assert StageEnds(w, k);
  }

  /** Only a pipe in use may get more bytes. */
  lemma ChangeKeepsDrained(f: Flow, p: nat, n: nat)
    requires DrainedInv(f) && p < |f.unread| && (n <= f.unread[p] || InUse(f.world, p))
    ensures DrainedInv(f.(unread := f.unread[p := n]))
  {
    var f' := f.(unread := f.unread[p := n]);
    forall k | 0 <= k < |f'.world.stages| ensures Drained(f', k) {
      assert Drained(f, k);
    }
  }

  lemma DataStepInv(f: Flow, x: FlowAction, f': Flow)
    requires DrainedInv(f) && FlowEnabled(f, x) && FlowStep(f, x, f') && !x.Moves?
    requires x.StageWrites? ==> forall p | WritesTo(Descriptors(f.world.stages[x.k]), 1, p) :: InUse(f.world, p)
    ensures f'.world == f.world && DrainedInv(f')
  {
    var p, n :| 0 <= p < |f.unread| && f' == f.(unread := f.unread[p := n])
                && (n <= f.unread[p] || InUse(f.world, p));
    ChangeKeepsDrained(f, p, n);
  }

  lemma MoveDrained(f: Flow, a: Action, k: nat)
    requires CallsInv(f.world) && DrainedInv(f) && FlowEnabled(f, Moves(a)) && k < |Step(f.world, a).stages|
    ensures var f' := Flow(Step(f.world, a), if a.Pipe? then f.unread + [0] else f.unread);
            k < |f'.unread| && Drained(f', k)
  {
    if k < |f.world.stages| {
      assert Drained(f, k);
      assert StageEnds(f.world, k);
    }
  }

  lemma MovesKeepDrained(f: Flow, a: Action)
    requires CallsInv(f.world) && DrainedInv(f) && FlowEnabled(f, Moves(a))
    ensures DrainedInv(Flow(Step(f.world, a), if a.Pipe? then f.unread + [0] else f.unread))
  {
    var f' := Flow(Step(f.world, a), if a.Pipe? then f.unread + [0] else f.unread);
    forall k | 0 <= k < |f'.world.stages| ensures k < |f'.unread| && Drained(f', k) {
      MoveDrained(f, a, k);
    }
  }

  lemma FlowStepInv(f: Flow, x: FlowAction, f': Flow)
    requires FlowInv(f) && FlowEnabled(f, x) && FlowStep(f, x, f')
    ensures FlowInv(f')
  {
    if x.Moves? {
      SoundStep(f.world, x.a);
      MovesKeepDrained(f, x.a);
    } else {
      if x.StageWrites? {
        forall p | WritesTo(Descriptors(f.world.stages[x.k]), 1, p) ensures InUse(f.world, p) {
          WriterInUse(f.world, x.k, p);
        }
      }
      DataStepInv(f, x, f');
    }
  }

  lemma {:induction false} FlowRunInv(trace: seq<Flow>, i: nat)
    requires FlowRun(trace) && i < |trace|
    ensures FlowInv(trace[i])
  {
    if i == 0 {
      SoundStart(trace[0].world);
    } else {
      FlowRunInv(trace, i - 1);
      assert FlowFollows(trace, i - 1);
      var x :| FlowEnabled(trace[i - 1], x) && FlowStep(trace[i - 1], x, trace[i]);
      FlowStepInv(trace[i - 1], x, trace[i]);
    }
  }

  /** Between two calls the shell's stdin is the last pipe of the last call, which is empty and has no writer. */
  lemma StdinIsExhaustedBetweenCalls(trace: seq<Flow>, i: nat)
    requires FlowRun(trace) && i < |trace| && trace[i].world.pc.Idle? && |trace[i].world.stages| > 0
    ensures var f := trace[i];
            var last := |f.world.stages| - 1;
            && 0 in f.world.shell && f.world.shell[0] == ReadEnd(last)
            && |f.unread| == last + 1 && f.unread[last] == 0 && AtEof(f.world, last)
  {
    FlowRunInv(trace, i);
    var f := trace[i];
    var last := |f.world.stages| - 1;
    assert Drained(f, last);
    assert StageEnds(f.world, last);
    EofIffExited(f.world, last);
  }

  /** The first stage of every later call reads nothing: its stdin is an empty pipe without a writer. */
  lemma LaterCallsReadNothing(trace: seq<Flow>, i: nat, k: nat)
    requires FlowRun(trace) && i < |trace| && 0 < k && Runs(trace[i].world, k)
    requires trace[i].world.stages[k - 1].call < trace[i].world.stages[k].call
    ensures var f := trace[i];
            && ReadsFrom(Descriptors(f.world.stages[k]), 0, k - 1)
            && k <= |f.unread| && f.unread[k - 1] == 0 && AtEof(f.world, k - 1)
            && !FlowEnabled(f, StageReads(k))
  {
    FlowRunInv(trace, i);
    EndedStdin(trace[i].world, k);
    assert Drained(trace[i], k - 1);
  }

  lemma EndedStdin(w: World, k: nat)
    requires Sound(w) && 0 < k && Runs(w, k) && w.stages[k - 1].call < w.stages[k].call
    ensures ReadsFrom(Descriptors(w.stages[k]), 0, k - 1) && AtEof(w, k - 1)
  {
    assert StageOk(w.stages[k], k);
    assert StageEnds(w, k - 1);
    EofIffExited(w, k - 1);
  }

  /** Once the last stage has exited, the read loop of the shell can always go on: it reads a byte that is
      left, or gets the end of file. */
  lemma DrainingGoesOn(trace: seq<Flow>, i: nat)
    requires FlowRun(trace) && i < |trace| && trace[i].world.pc.Draining?
    ensures var f := trace[i];
            && |f.world.stages| > 0
            && (f.world.stages[|f.world.stages| - 1].phase.Exited? ==>
                  FlowEnabled(f, ShellReads) || FlowEnabled(f, Moves(ReadEof)))
  {
    FlowRunInv(trace, i);
    DrainTarget(trace[i].world);
  }

  lemma DrainTarget(w: World)
    requires Sound(w) && w.pc.Draining?
    ensures |w.stages| > 0 && ReadsFrom(w.shell, w.r, |w.stages| - 1)
    ensures AtEof(w, |w.stages| - 1) <==> w.stages[|w.stages| - 1].phase.Exited?
  {
    EofIffExited(w, |w.stages| - 1);
  }

  lemma RunningEnds(w: World, k: nat)
    requires Sound(w) && Runs(w, k)
    ensures WritesTo(Descriptors(w.stages[k]), 1, k)
    ensures k > 0 ==> ReadsFrom(Descriptors(w.stages[k]), 0, k - 1)
  {
    assert StageOk(w.stages[k], k);
  }

  lemma WriteStep(f: Flow, k: nat, f': Flow)
    requires Runs(f.world, k) && k < |f.unread| && WritesTo(Descriptors(f.world.stages[k]), 1, k)
    ensures FlowEnabled(f, StageWrites(k))
    ensures FlowStep(f, StageWrites(k), f') <==> f' == f.(unread := f.unread[k := f.unread[k] + 1])
  {
  }

  lemma ReadStep(f: Flow, k: nat, p: nat, f': Flow)
    requires Runs(f.world, k) && p < |f.unread| && ReadsFrom(Descriptors(f.world.stages[k]), 0, p)
    ensures FlowEnabled(f, StageReads(k)) <==> f.unread[p] > 0
    ensures f.unread[p] > 0 ==>
              (FlowStep(f, StageReads(k), f') <==> f' == f.(unread := f.unread[p := f.unread[p] - 1]))
  {
  }

  lemma ShellReadStep(f: Flow, p: nat, f': Flow)
    requires f.world.pc.Draining? && p < |f.unread| && ReadsFrom(f.world.shell, f.world.r, p)
    ensures FlowEnabled(f, ShellReads) <==> f.unread[p] > 0
    ensures f.unread[p] > 0 ==>
              (FlowStep(f, ShellReads, f') <==> f' == f.(unread := f.unread[p := f.unread[p] - 1]))
  {
  }

  lemma RunningFacts(f: Flow, k: nat)
    requires FlowInv(f) && Runs(f.world, k)
    ensures k < |f.unread| && WritesTo(Descriptors(f.world.stages[k]), 1, k)
    ensures k > 0 ==> ReadsFrom(Descriptors(f.world.stages[k]), 0, k - 1)
  {
    RunningEnds(f.world, k);
  }

  /** A running stage can write, and its bytes wait in its own pipe. */
  lemma WrittenBytesWait(trace: seq<Flow>, i: nat, k: nat, f': Flow)
    requires FlowRun(trace) && i < |trace| && Runs(trace[i].world, k)
    ensures var f := trace[i];
            && k < |f.unread|
            && FlowEnabled(f, StageWrites(k))
            && (FlowStep(f, StageWrites(k), f') <==> f' == f.(unread := f.unread[k := f.unread[k] + 1]))
  {
    FlowRunInv(trace, i);
    RunningFacts(trace[i], k);
    WriteStep(trace[i], k, f');
  }

  /** A running stage gets its input from the pipe before its own, byte by byte. */
  lemma InputComesFromPipeBefore(trace: seq<Flow>, i: nat, k: nat, f': Flow)
    requires FlowRun(trace) && i < |trace| && 0 < k && Runs(trace[i].world, k)
    ensures var f := trace[i];
            && k < |f.unread|
            && (FlowEnabled(f, StageReads(k)) <==> f.unread[k - 1] > 0)
            && (f.unread[k - 1] > 0 ==>
                  (FlowStep(f, StageReads(k), f') <==> f' == f.(unread := f.unread[k - 1 := f.unread[k - 1] - 1])))
  {
    FlowRunInv(trace, i);
    RunningFacts(trace[i], k);
    ReadStep(trace[i], k, k - 1, f');
  }

  /** The shell gets the output of the last stage, byte by byte. */
  lemma ShellReadsLastPipe(trace: seq<Flow>, i: nat, f': Flow)
    requires FlowRun(trace) && i < |trace| && trace[i].world.pc.Draining?
    ensures var f := trace[i];
            var last := |f.world.stages| - 1;
            && 0 <= last < |f.unread|
            && (FlowEnabled(f, ShellReads) <==> f.unread[last] > 0)
            && (f.unread[last] > 0 ==>
                  (FlowStep(f, ShellReads, f') <==> f' == f.(unread := f.unread[last := f.unread[last] - 1])))
  {
    FlowRunInv(trace, i);
    DrainingFlowFacts(trace[i]);
    ShellReadStep(trace[i], |trace[i].world.stages| - 1, f');
  }

  lemma DrainingFlowFacts(f: Flow)
    requires FlowInv(f) && f.world.pc.Draining?
    ensures 0 < |f.world.stages| == |f.unread|
    ensures ReadsFrom(f.world.shell, f.world.r, |f.world.stages| - 1)
  {
    DrainTarget(f.world);
  }

  // -------------------------------------------------------- runs and what flows in them

  /** Counting bytes adds no state of the processes that they could not be in without it, */
  lemma {:induction false} FlowsStayReachable(trace: seq<Flow>, i: nat)
    requires FlowRun(trace) && i < |trace|
    ensures Reachable(trace[i].world)
  {
    if i == 0 {
      InitReachable(trace[0].world);
    } else {
      FlowsStayReachable(trace, i - 1);
      assert FlowFollows(trace, i - 1);
      var x :| FlowEnabled(trace[i - 1], x) && FlowStep(trace[i - 1], x, trace[i]);
      if x.Moves? {
        StepReachable(trace[i - 1].world, x.a);
      }
    }
  }

  /** A world in which no byte waits in any pipe made so far. */
  function Silent(w: World): Flow {
    Flow(w, seq(|w.stages| + if w.pc.AtFork? then 1 else 0, _ => 0))
  }

  lemma SilentStep(w: World, a: Action)
    requires Inv(w) && Enabled(w, a)
    ensures FlowEnabled(Silent(w), Moves(a)) && FlowStep(Silent(w), Moves(a), Silent(Step(w, a)))
  {
    var f, f' := Silent(w), Silent(Step(w, a));
    if a.Pipe? {
      assert f'.unread == f.unread + [0];
    } else {
      assert f'.unread == f.unread;
    }
  }

  lemma SilentFollows(trace: seq<World>, flows: seq<Flow>, i: nat)
    requires i + 1 < |trace| == |flows| && Inv(trace[i]) && Follows(trace, i)
    requires flows[i] == Silent(trace[i]) && flows[i + 1] == Silent(trace[i + 1])
    ensures FlowFollows(flows, i)
  {
    var a :| Enabled(trace[i], a) && trace[i + 1] == Step(trace[i], a);
    SilentStep(trace[i], a);
    assert FlowEnabled(flows[i], Moves(a)) && FlowStep(flows[i], Moves(a), flows[i + 1]);
  }

  /** and takes none away: every run is also the run of programs that write nothing. */
  lemma EveryRunCanBeSilent(trace: seq<World>)
    requires Run(trace)
    ensures FlowRun(seq(|trace|, i requires 0 <= i < |trace| => Silent(trace[i])))
  {
    var flows := seq(|trace|, i requires 0 <= i < |trace| => Silent(trace[i]));
    forall i | 0 <= i < |flows| - 1 ensures FlowFollows(flows, i) {
      RunInv(trace, i);
      assert Follows(trace, i);
      SilentFollows(trace, flows, i);
    }
    assert |flows| > 0 && flows[0] == Silent(trace[0]);
  }

  /** A run with the action of each of its steps. */
  ghost predicate MadeBy(f: Flow, x: FlowAction, f': Flow) { FlowEnabled(f, x) && FlowStep(f, x, f') }

  ghost predicate Made(trace: seq<Flow>, acts: seq<FlowAction>) {
    && |trace| == |acts| + 1 && Init(trace[0].world) && trace[0].unread == []
    && forall i | 0 <= i < |acts| :: MadeBy(trace[i], acts[i], trace[i + 1])
  }

  lemma MadeIsRun(trace: seq<Flow>, acts: seq<FlowAction>)
    requires Made(trace, acts)
    ensures FlowRun(trace)
  {
    forall i | 0 <= i < |trace| - 1 ensures FlowFollows(trace, i) {
      assert MadeBy(trace[i], acts[i], trace[i + 1]);
    }
  }

  lemma MadeBefore(trace: seq<Flow>, acts: seq<FlowAction>, n: nat)
    requires Made(trace, acts) && n <= |acts|
    ensures Made(trace[..n + 1], acts[..n])
  {
    forall i | 0 <= i < n ensures MadeBy(trace[..n + 1][i], acts[..n][i], trace[..n + 1][i + 1]) {
      assert MadeBy(trace[i], acts[i], trace[i + 1]);
    }
  }

  function Unread(f: Flow, p: nat): nat { if p < |f.unread| then f.unread[p] else 0 }

  /** How many bytes the program of stage p has written. */
  function Written(acts: seq<FlowAction>, p: nat): nat {
    if acts == [] then 0
    else
      var n := |acts| - 1;
      Written(acts[..n], p) + if acts[n] == StageWrites(p) then 1 else 0
  }

  /** How many bytes the program of stage k has read. */
  function ReadByStage(acts: seq<FlowAction>, k: nat): nat {
    if acts == [] then 0
    else
      var n := |acts| - 1;
      ReadByStage(acts[..n], k) + if acts[n] == StageReads(k) then 1 else 0
  }

  /** How many bytes the shell has read while stage p was the last one. */
  function ReadByShell(trace: seq<Flow>, acts: seq<FlowAction>, p: nat): nat
    requires |trace| == |acts| + 1
  {
    if acts == [] then 0
    else
      var n := |acts| - 1;
      ReadByShell(trace[..n + 1], acts[..n], p)
      + if acts[n].ShellReads? && |trace[n].world.stages| == p + 1 then 1 else 0
  }

  lemma FirstStageReadsNothing(trace: seq<Flow>, i: nat)
    requires FlowRun(trace) && i < |trace|
    ensures !FlowEnabled(trace[i], StageReads(0))
  {
    var w := trace[i].world;
    if Runs(w, 0) {
      FlowsStayReachable(trace, i);
      var run :| Run(run) && run[|run| - 1] == w;
      StagesAreWired(run, |run| - 1, 0);
    }
  }

  lemma BytesOfRead(trace: seq<Flow>, i: nat, k: nat, f': Flow, p: nat)
    requires FlowRun(trace) && i < |trace| && MadeBy(trace[i], StageReads(k), f')
    ensures Unread(trace[i], p) == Unread(f', p) + if k == p + 1 then 1 else 0
  {
    if k == 0 {
      FirstStageReadsNothing(trace, i);
    } else {
      InputComesFromPipeBefore(trace, i, k, f');
    }
  }

  /** What a step does to the bytes that wait in pipe p. */
  lemma BytesOfStep(trace: seq<Flow>, i: nat, x: FlowAction, f': Flow, p: nat)
    requires FlowRun(trace) && i < |trace| && MadeBy(trace[i], x, f')
    ensures Unread(f', p) + (if x == StageReads(p + 1) then 1 else 0)
              + (if x.ShellReads? && |trace[i].world.stages| == p + 1 then 1 else 0)
            == Unread(trace[i], p) + if x == StageWrites(p) then 1 else 0
  {
    match x
    case Moves(_) =>
    case StageWrites(k) => WrittenBytesWait(trace, i, k, f');
    case StageReads(k) => BytesOfRead(trace, i, k, f', p);
    case ShellReads => ShellReadsLastPipe(trace, i, f');
  }

  /** Over any run no byte is lost or made up: what stage p has written is what the next stage has read of it, what
      the shell has read of it, and what waits in the pipe. */
  lemma {:induction false} BytesAreConserved(trace: seq<Flow>, acts: seq<FlowAction>, p: nat)
    requires Made(trace, acts)
    ensures Written(acts, p)
            == ReadByStage(acts, p + 1) + ReadByShell(trace, acts, p) + Unread(trace[|acts|], p)
    decreases |acts|
  {
    if acts != [] {
      var n := |acts| - 1;
      MadeBefore(trace, acts, n);
      BytesAreConserved(trace[..n + 1], acts[..n], p);
      MadeIsRun(trace, acts);
      assert MadeBy(trace[n], acts[n], trace[n + 1]);
      BytesOfStep(trace, n, acts[n], trace[n + 1], p);
    }
  }

  lemma StagesOnlyGrow(f: Flow, x: FlowAction, f': Flow)
    requires MadeBy(f, x, f')
    ensures |f.world.stages| <= |f'.world.stages|
  {
  }

  lemma {:induction false} LaterStageHasNotRead(trace: seq<Flow>, acts: seq<FlowAction>, k: nat)
    requires Made(trace, acts) && |trace[|acts|].world.stages| <= k
    ensures ReadByStage(acts, k) == 0
    decreases |acts|
  {
    if acts != [] {
      var n := |acts| - 1;
      assert MadeBy(trace[n], acts[n], trace[n + 1]);
      StagesOnlyGrow(trace[n], acts[n], trace[n + 1]);
      MadeBefore(trace, acts, n);
      LaterStageHasNotRead(trace[..n + 1], acts[..n], k);
    }
  }

  /** When a call has returned, the shell has read every byte that its last stage wrote. */
  lemma OutputIsRead(trace: seq<Flow>, acts: seq<FlowAction>)
    requires Made(trace, acts)
    requires var w := trace[|acts|].world; w.pc.Idle? && |w.stages| > 0
    ensures var last := |trace[|acts|].world.stages| - 1;
            ReadByShell(trace, acts, last) == Written(acts, last)
  {
    var last := |trace[|acts|].world.stages| - 1;
    BytesAreConserved(trace, acts, last);
    LaterStageHasNotRead(trace, acts, last + 1);
    MadeIsRun(trace, acts);
    StdinIsExhaustedBetweenCalls(trace, |acts|);
  }

  // ----------------------------------------------------------- recursive_call itself

  lemma IdleFacts(w: World)
    requires Inv(w) && w.pc.Idle?
    ensures |w.shell| + w.calls == w.start + |w.stages|
    ensures |w.stages| > 0 ==> w.shell[0] == ReadEnd(|w.stages| - 1)
  {
  }

  function Rank(p: Phase): nat {
    match p
    case Forked => 0
    case Redirected => 1
    case Running => 2
    case Exited => 3
  }

  /** The same process, as far in its program or further. */
  predicate Continues(s: Stage, s': Stage) {
    s'.(phase := s.phase) == s && Rank(s.phase) <= Rank(s'.phase)
  }

  predicate Continued(stages: seq<Stage>, later: seq<Stage>) {
    |stages| <= |later| && forall k | 0 <= k < |stages| :: Continues(stages[k], later[k])
  }

  lemma ContinuedTransitive(a: seq<Stage>, b: seq<Stage>, c: seq<Stage>)
    requires Continued(a, b) && Continued(b, c)
    ensures Continued(a, c)
  {
    forall k | 0 <= k < |a| ensures Continues(a[k], c[k]) {
      assert Continues(a[k], b[k]) && Continues(b[k], c[k]);
    }
  }

  /** A burst of stage steps chosen by the scheduler; numbers of stages not yet forked do nothing. */
  function Burst(stages: seq<Stage>, moves: seq<nat>): (r: seq<Stage>)
    ensures |r| == |stages| && Continued(stages, r)
    decreases |moves|
  {
    if moves == [] then stages
    else if moves[0] < |stages| then Burst(stages[moves[0] := Advance(stages[moves[0]])], moves[1..])
    else Burst(stages, moves[1..])
  }

  /** How often a burst names stage k. */
  function Count(moves: seq<nat>, k: nat): nat {
    if moves == [] then 0 else (if moves[0] == k then 1 else 0) + Count(moves[1..], k)
  }

  function MinNat(a: nat, b: nat): nat { if a <= b then a else b }

  /** A burst moves every stage on by as many steps of its program as it is named, up to its exit. */
  lemma {:induction false} BurstRank(stages: seq<Stage>, moves: seq<nat>, k: nat)
    requires k < |stages|
    ensures Rank(Burst(stages, moves)[k].phase) == MinNat(3, Rank(stages[k].phase) + Count(moves, k))
    decreases |moves|
  {
    if moves != [] {
      var next := if moves[0] < |stages| then stages[moves[0] := Advance(stages[moves[0]])] else stages;
      BurstRank(next, moves[1..], k);
    }
  }

  /** A program is dup2, close, exec, exit: two steps take a new stage to its program, the third ends it. */
  lemma ProgramRunsThenExits(s: Stage)
    requires s.phase.Forked?
    ensures Burst([s], [0])[0].phase.Redirected?
    ensures Burst([s], [0, 0])[0].phase.Running?
    ensures Burst([s], [0, 0, 0])[0].phase.Exited?
  {
    assert Count([0], 0) == 1;
    assert [0, 0][1..] == [0] && [0, 0, 0][1..] == [0, 0];
    BurstRank([s], [0], 0);
    BurstRank([s], [0, 0], 0);
    BurstRank([s], [0, 0, 0], 0);
  }

  lemma {:induction false} BurstAppend(stages: seq<Stage>, moves: seq<nat>, k: nat)
    requires k < |stages|
    ensures var s := Burst(stages, moves); Burst(stages, moves + [k]) == s[k := Advance(s[k])]
    decreases |moves|
  {
    if moves == [] {
      assert [k][1..] == [];
    } else {
      var next := if moves[0] < |stages| then stages[moves[0] := Advance(stages[moves[0]])] else stages;
      assert (moves + [k])[1..] == moves[1..] + [k];
      BurstAppend(next, moves[1..], k);
    }
  }

  /** A state that some run ends in, to which all the theorems about runs apply. */
  ghost predicate Reachable(w: World) { exists run :: Run(run) && run[|run| - 1] == w }

  lemma ReachableSound(w: World)
    requires Reachable(w)
    ensures Sound(w)
  {
    var run :| Run(run) && run[|run| - 1] == w;
    SoundRun(run, |run| - 1);
  }

  lemma InitReachable(w: World)
    requires Init(w)
    ensures Reachable(w)
  {
    assert Run([w]) && [w][|[w]| - 1] == w;
  }

  lemma StepReachable(w: World, a: Action)
    requires Reachable(w) && Enabled(w, a)
    ensures Reachable(Step(w, a))
  {
    var run :| Run(run) && run[|run| - 1] == w;
    var more := run + [Step(w, a)];
    forall i | 0 <= i < |more| - 1 ensures Follows(more, i) {
      if i < |run| - 1 {
        assert Follows(run, i);
        assert more[i] == run[i] && more[i + 1] == run[i + 1];
      } else {
        assert more[i] == w && Enabled(more[i], a) && more[i + 1] == Step(more[i], a);
      }
    }
    assert more[|more| - 1] == Step(w, a);
  }

  lemma {:induction false} BurstReachable(w: World, moves: seq<nat>)
    requires Reachable(w)
    ensures Reachable(w.(stages := Burst(w.stages, moves)))
    decreases |moves|
  {
    if moves == [] {
      assert w.(stages := w.stages) == w;
    } else if moves[0] < |w.stages| {
      StepReachable(w, StageMoves(moves[0]));
      BurstReachable(Step(w, StageMoves(moves[0])), moves[1..]);
    } else {
      BurstReachable(w, moves[1..]);
    }
  }

  /** The next step of the shell within a call. */
  function ShellAction(pc: Pc): Action
    requires !pc.Idle?
  {
    match pc
    case AtPipe => Pipe
    case AtFork => Fork
    case AtDup => DupStdin
    case AtClose => CloseWrite
    case Draining => ReadEof
    case AtLastClose => CloseRead
  }

  /** One step of the shell within a call; a read waits while the pipe has not ended. */
  ghost function ShellMoves(w: World): World {
    if !w.pc.Idle? && Enabled(w, ShellAction(w.pc)) then Step(w, ShellAction(w.pc)) else w
  }

  /** The state in which the shell makes its step number n, after what the schedule lets the stages do. */
  function Before(trace: seq<World>, n: nat, schedule: nat -> seq<nat>): World
    requires n < |trace|
  {
    trace[n].(stages := Burst(trace[n].stages, schedule(n)))
  }

  ghost predicate MovesAt(trace: seq<World>, n: nat, schedule: nat -> seq<nat>)
    requires n + 1 < |trace|
  {
    trace[n + 1] == ShellMoves(Before(trace, n, schedule))
  }

  /** The states after 0, 1, 2, .. steps of the shell, from one that can be reached. */
  ghost predicate IsTrace(trace: seq<World>, schedule: nat -> seq<nat>) {
    |trace| > 0 && Reachable(trace[0]) && forall n | 0 <= n < |trace| - 1 :: MovesAt(trace, n, schedule)
  }

  lemma {:induction false} TraceReachable(trace: seq<World>, n: nat, schedule: nat -> seq<nat>)
    requires IsTrace(trace, schedule) && n < |trace|
    ensures Reachable(trace[n]) && Reachable(Before(trace, n, schedule))
  {
    if n > 0 {
      TraceReachable(trace, n - 1, schedule);
      assert MovesAt(trace, n - 1, schedule);
      var w := Before(trace, n - 1, schedule);
      if !w.pc.Idle? && Enabled(w, ShellAction(w.pc)) {
        StepReachable(w, ShellAction(w.pc));
      }
    }
    BurstReachable(trace[n], schedule(n));
  }

  lemma StepMade(trace: seq<World>, w: World, w': World, schedule: nat -> seq<nat>)
    requires IsTrace(trace, schedule) && w == Before(trace, |trace| - 1, schedule) && w' == ShellMoves(w)
    ensures IsTrace(trace + [w'], schedule)
  {
    var more := trace + [w'];
    forall n | 0 <= n < |more| - 1 ensures MovesAt(more, n, schedule) {
      if n < |trace| - 1 {
        assert MovesAt(trace, n, schedule);
      }
    }
  }

  // ------------------------------------------------- every interleaving is a schedule

  /** A step within a call, of the shell or of a stage. */
  ghost predicate FollowsInCall(run: seq<World>, i: nat)
    requires i + 1 < |run|
  {
    exists a: Action :: !a.Call? && Enabled(run[i], a) && run[i + 1] == Step(run[i], a)
  }

  ghost predicate RunsInCall(run: seq<World>) {
    |run| > 0 && forall i | 0 <= i < |run| - 1 :: FollowsInCall(run, i)
  }

  function Reschedule(schedule: nat -> seq<nat>, n: nat, moves: seq<nat>): nat -> seq<nat> {
    (m: nat) => if m == n then moves else schedule(m)
  }

  lemma PastIsScheduled(trace: seq<World>, schedule: nat -> seq<nat>, moves: seq<nat>)
    requires IsTrace(trace, schedule)
    ensures IsTrace(trace, Reschedule(schedule, |trace| - 1, moves))
  {
    var later := Reschedule(schedule, |trace| - 1, moves);
    forall n | 0 <= n < |trace| - 1 ensures MovesAt(trace, n, later) {
      assert MovesAt(trace, n, schedule);
    }
  }

  /** However shell and stages take turns within a call, some schedule says so: with it the shell makes its steps as
      listed in the trace, and the stages bring it to the same end. */
  lemma {:induction false} EveryInterleavingIsScheduled(run: seq<World>)
    returns (trace: seq<World>, schedule: nat -> seq<nat>)
    requires RunsInCall(run) && Reachable(run[0])
    ensures IsTrace(trace, schedule) && trace[0] == run[0]
    ensures Before(trace, |trace| - 1, schedule) == run[|run| - 1]
    decreases |run|
  {
    var n := |run| - 1;
    if n == 0 {
      trace, schedule := run, _ => [];
    } else {
      forall i | 0 <= i < n - 1 ensures FollowsInCall(run[..n], i) {
        assert FollowsInCall(run, i);
      }
      trace, schedule := EveryInterleavingIsScheduled(run[..n]);
      assert FollowsInCall(run, n - 1);
      var a: Action :| !a.Call? && Enabled(run[n - 1], a) && run[n] == Step(run[n - 1], a);
      trace, schedule := ScheduleStep(trace, schedule, a);
    }
  }

  lemma ScheduleStep(trace: seq<World>, schedule: nat -> seq<nat>, a: Action)
    returns (trace': seq<World>, schedule': nat -> seq<nat>)
    requires IsTrace(trace, schedule) && !a.Call? && Enabled(Before(trace, |trace| - 1, schedule), a)
    ensures IsTrace(trace', schedule') && trace <= trace'
    ensures Before(trace', |trace'| - 1, schedule') == Step(Before(trace, |trace| - 1, schedule), a)
  {
    if a.StageMoves? {
      trace' := trace;
      schedule' := ScheduleMove(trace, schedule, a.k);
    } else {
      var w := Before(trace, |trace| - 1, schedule);
      ActionOfShell(w, a);
      trace' := trace + [ShellMoves(w)];
      StepMade(trace, w, ShellMoves(w), schedule);
      schedule' := NobodyMoves(trace', schedule);
    }
  }

  lemma ScheduleMove(trace: seq<World>, schedule: nat -> seq<nat>, k: nat) returns (schedule': nat -> seq<nat>)
    requires IsTrace(trace, schedule) && Enabled(Before(trace, |trace| - 1, schedule), StageMoves(k))
    ensures IsTrace(trace, schedule')
    ensures Before(trace, |trace| - 1, schedule') == Step(Before(trace, |trace| - 1, schedule), StageMoves(k))
  {
    var m := |trace| - 1;
    BurstAppend(trace[m].stages, schedule(m), k);
    PastIsScheduled(trace, schedule, schedule(m) + [k]);
    schedule' := Reschedule(schedule, m, schedule(m) + [k]);
  }

  lemma ActionOfShell(w: World, a: Action)
    requires !a.Call? && !a.StageMoves? && Enabled(w, a)
    ensures Step(w, a) == ShellMoves(w)
  {
    assert a == ShellAction(w.pc);
  }

  lemma NobodyMoves(trace: seq<World>, schedule: nat -> seq<nat>) returns (schedule': nat -> seq<nat>)
    requires IsTrace(trace, schedule)
    ensures IsTrace(trace, schedule') && Before(trace, |trace| - 1, schedule') == trace[|trace| - 1]
  {
    var w := trace[|trace| - 1];
    PastIsScheduled(trace, schedule, []);
    schedule' := Reschedule(schedule, |trace| - 1, []);
    assert w.(stages := w.stages) == w;
  }

  /** How often the schedule names stage k before the steps m .. n - 1. */
  function MovesOf(schedule: nat -> seq<nat>, k: nat, m: nat, n: nat): nat
    decreases n - m
  {
    if n <= m then 0 else MovesOf(schedule, k, m, n - 1) + Count(schedule(n - 1), k)
  }

  /** The stages get on in their programs exactly as the schedule says. */
  lemma {:induction false} StageRank(trace: seq<World>, schedule: nat -> seq<nat>, k: nat, m: nat, n: nat)
    requires IsTrace(trace, schedule) && m <= n < |trace| && k < |trace[m].stages|
    ensures k < |trace[n].stages|
    ensures Rank(trace[n].stages[k].phase) == MinNat(3, Rank(trace[m].stages[k].phase) + MovesOf(schedule, k, m, n))
    decreases n - m
  {
    if m < n {
      StageRank(trace, schedule, k, m, n - 1);
      StageRankStep(trace, schedule, k, n - 1);
    }
  }

  lemma StageRankStep(trace: seq<World>, schedule: nat -> seq<nat>, k: nat, n: nat)
    requires IsTrace(trace, schedule) && n + 1 < |trace| && k < |trace[n].stages|
    ensures k < |trace[n + 1].stages|
    ensures Rank(trace[n + 1].stages[k].phase) == MinNat(3, Rank(trace[n].stages[k].phase) + Count(schedule(n), k))
  {
    assert MovesAt(trace, n, schedule);
    BurstRank(trace[n].stages, schedule(n), k);
    ShellKeepsStages(Before(trace, n, schedule), k);
  }

  lemma ShellKeepsStages(w: World, k: nat)
    requires k < |w.stages|
    ensures k < |ShellMoves(w).stages| && ShellMoves(w).stages[k] == w.stages[k]
  {
  }

  lemma FirstState(w: World, count: nat, schedule: nat -> seq<nat>)
    requires Reachable(w) && w.pc.Idle? && count > 0
    ensures IsTrace([w.(pc := AtPipe, left := count)], schedule)
    ensures |w.shell| + w.calls == w.start + |w.stages|
    ensures Step(w, Call(count)) == w.(pc := AtPipe, left := count)
  {
    StepReachable(w, Call(count));
    ReachableSound(w);
    IdleFacts(w);
  }

  lemma LastState(trace: seq<World>, schedule: nat -> seq<nat>)
    requires IsTrace(trace, schedule)
    ensures var w := trace[|trace| - 1];
            && Reachable(w)
            && (w.pc.Idle? ==> |w.shell| + w.calls == w.start + |w.stages|)
            && (w.pc.Idle? && |w.stages| > 0 ==> 0 in w.shell && w.shell[0] == ReadEnd(|w.stages| - 1))
  {
    TraceReachable(trace, |trace| - 1, schedule);
    ReachableSound(trace[|trace| - 1]);
    if trace[|trace| - 1].pc.Idle? {
      IdleFacts(trace[|trace| - 1]);
    }
  }

  /** What the shell finds at its read. */
  lemma DrainingFacts(trace: seq<World>, schedule: nat -> seq<nat>)
    requires IsTrace(trace, schedule) && Before(trace, |trace| - 1, schedule).pc.Draining?
    ensures var w := Before(trace, |trace| - 1, schedule);
            && |w.stages| > 0
            && (AtEof(w, |w.stages| - 1) <==> w.stages[|w.stages| - 1].phase.Exited?)
  {
    TraceReachable(trace, |trace| - 1, schedule);
    var w := Before(trace, |trace| - 1, schedule);
    ReachableSound(w);
    EofIffExited(w, |w.stages| - 1);
  }

  lemma ReadMoves(w: World)
    requires w.pc.Draining? && |w.stages| > 0
    ensures ShellMoves(w) == if AtEof(w, |w.stages| - 1) then w.(pc := AtLastClose) else w
  {
  }

  lemma ReadMade(trace: seq<World>, w: World, schedule: nat -> seq<nat>)
    requires IsTrace(trace, schedule) && w == Before(trace, |trace| - 1, schedule) && w.pc.Draining?
    ensures |w.stages| > 0
    ensures AtEof(w, |w.stages| - 1) <==> w.stages[|w.stages| - 1].phase.Exited?
    ensures IsTrace(trace + [if AtEof(w, |w.stages| - 1) then w.(pc := AtLastClose) else w], schedule)
  {
    DrainingFacts(trace, schedule);
    ReadMoves(w);
    StepMade(trace, w, ShellMoves(w), schedule);
  }

  /** After n steps stage k has just been made. */
  predicate NewStageAt(trace: seq<World>, n: nat, k: int) {
    n < |trace| && |trace[n].stages| == k + 1 > 0 && trace[n].stages[k].phase.Forked?
  }

  lemma NewStageIsPast(trace: seq<World>, later: seq<World>, n: nat, k: int)
    requires trace <= later && NewStageAt(trace, n, k)
    ensures NewStageAt(later, n, k)
  {
  }

  /** Stage k has exited by the last step but one, which is one of the first n. */
  predicate ExitedBy(trace: seq<World>, n: nat, k: int) {
    1 < |trace| <= n + 2 && 0 <= k < |trace[|trace| - 2].stages| && trace[|trace| - 2].stages[k].phase.Exited?
  }

  /** The call returns exactly if the last stage is named three times in time. */
  lemma ReturnsOnTime(trace: seq<World>, schedule: nat -> seq<nat>, first: nat, patience: nat, k: nat, returned: bool)
    requires IsTrace(trace, schedule) && NewStageAt(trace, first, k)
    requires if returned then ExitedBy(trace, first + 3 + patience, k)
             else |trace| == first + 4 + patience
                  && k < |trace[|trace| - 1].stages| && !trace[|trace| - 1].stages[k].phase.Exited?
    ensures returned <==> MovesOf(schedule, k, first, first + 3 + patience) >= 3
  {
    if returned {
      var m := |trace| - 2;
      if m < first {
        StageRank(trace, schedule, k, m, first);
        assert false;
      }
      StageRank(trace, schedule, k, first, m);
      MovesGrow(schedule, k, first, m, first + 3 + patience);
    } else {
      StageRank(trace, schedule, k, first, |trace| - 1);
    }
  }

  lemma {:induction false} MovesGrow(schedule: nat -> seq<nat>, k: nat, first: nat, m: nat, n: nat)
    requires m <= n
    ensures MovesOf(schedule, k, first, m) <= MovesOf(schedule, k, first, n)
    decreases n - m
  {
    if m < n {
      MovesGrow(schedule, k, first, m, n - 1);
    }
  }

  class Shell {
    var table: Table
    var stages: seq<Stage>
    var calls: nat
    var fd: (nat, nat)
    const start: nat

    function State(pc: Pc, left: nat): World
      reads this
    {
      World(pc, left, fd.0, fd.1, table, stages, calls, start)
    }

    /** The trace ends here, with the shell at pc. */
    ghost predicate At(trace: seq<World>, pc: Pc, left: nat, schedule: nat -> seq<nat>)
      reads this
    {
      IsTrace(trace, schedule) && trace[|trace| - 1] == State(pc, left)
    }

    /** The shell is at pc and about to make its next step, the stages having moved. */
    ghost predicate OnTurn(trace: seq<World>, pc: Pc, left: nat, schedule: nat -> seq<nat>)
      reads this
    {
      IsTrace(trace, schedule) && State(pc, left) == Before(trace, |trace| - 1, schedule)
    }

    constructor (table: Table)
      requires 0 in table && 1 in table && forall fd | fd in table :: table[fd] == Outside
      ensures Init(State(Idle, 0)) && Reachable(State(Idle, 0)) && this.table == table
    {
      this.table, stages, calls, fd, start := table, [], 0, (0, 0), |table|;
      new;
      InitReachable(State(Idle, 0));
    }

    /** Stages take steps before the shell makes its step number n. */
    method StagesMove(ghost pc: Pc, ghost left: nat, n: nat, ghost trace: seq<World>, schedule: nat -> seq<nat>)
      requires At(trace, pc, left, schedule) && |trace| == n + 1
      modifies this`stages
      ensures OnTurn(trace, pc, left, schedule)
      ensures |stages| == |old(stages)| && Continued(old(stages), stages)
    {
      stages := Burst(stages, schedule(n));
    }

    /** pipe(fd) */
    method MakePipe(ghost left: nat, ghost trace: seq<World>, ghost schedule: nat -> seq<nat>)
      returns (ghost trace': seq<World>)
      requires OnTurn(trace, AtPipe, left, schedule)
      modifies this`fd, this`table
      ensures trace' == trace + [State(AtFork, left)] && At(trace', AtFork, left, schedule)
    {
      ghost var w := State(AtPipe, left);
      var r := LowestFree(table);
      table := table[r := ReadEnd(|stages|)];
      var wr := LowestFree(table);
      table := table[wr := WriteEnd(|stages|)];
      fd := (r, wr);
      StepMade(trace, w, State(AtFork, left), schedule);
      trace' := trace + [State(AtFork, left)];
    }

    /** fork(), as the parent sees it */
    method ForkStage(ghost left: nat, ghost trace: seq<World>, ghost schedule: nat -> seq<nat>)
      returns (ghost trace': seq<World>)
      requires OnTurn(trace, AtFork, left, schedule)
      modifies this`stages
      ensures trace' == trace + [State(AtDup, left)] && At(trace', AtDup, left, schedule)
      ensures |stages| == |old(stages)| + 1 && stages[..|old(stages)|] == old(stages)
      ensures stages[|stages| - 1].phase.Forked?
    {
      ghost var w := State(AtFork, left);
      stages := stages + [Stage(table, fd.0, fd.1, calls, Forked)];
      StepMade(trace, w, State(AtDup, left), schedule);
      trace' := trace + [State(AtDup, left)];
    }

    /** dup2(fd[0], STDIN_FILENO) */
    method DupRead(ghost left: nat, ghost trace: seq<World>, ghost schedule: nat -> seq<nat>)
      returns (ghost trace': seq<World>)
      requires OnTurn(trace, AtDup, left, schedule)
      modifies this`table
      ensures trace' == trace + [State(AtClose, left)] && At(trace', AtClose, left, schedule)
    {
      ghost var w := State(AtDup, left);
      table := Dup2(table, fd.0, 0);
      StepMade(trace, w, State(AtClose, left), schedule);
      trace' := trace + [State(AtClose, left)];
    }

    /** close(fd[1]) */
    method CloseWriteEnd(ghost left: nat, ghost trace: seq<World>, ghost schedule: nat -> seq<nat>)
      returns (ghost trace': seq<World>)
      requires left > 0 && OnTurn(trace, AtClose, left, schedule)
      modifies this`table
      ensures var pc := if left == 1 then Draining else AtPipe;
              trace' == trace + [State(pc, left - 1)] && At(trace', pc, left - 1, schedule)
    {
      ghost var w := State(AtClose, left);
      ghost var pc := if left == 1 then Draining else AtPipe;
      table := Close(table, fd.1);
      StepMade(trace, w, State(pc, left - 1), schedule);
      trace' := trace + [State(pc, left - 1)];
    }

    /** read(fd[0], ..): 0 if no table holds the write end of the last pipe, and then the loop is left. */
    method TryRead(ghost trace: seq<World>, ghost schedule: nat -> seq<nat>)
      returns (pc: Pc, ghost trace': seq<World>)
      requires OnTurn(trace, Draining, 0, schedule)
      ensures |stages| > 0
      ensures pc == if AtEof(State(Draining, 0), |stages| - 1) then AtLastClose else Draining
      ensures pc == AtLastClose <==> stages[|stages| - 1].phase.Exited?
      ensures trace' == trace + [State(pc, 0)] && At(trace', pc, 0, schedule)
    {
      ReadMade(trace, State(Draining, 0), schedule);
      pc := if AtEof(State(Draining, 0), |stages| - 1) then AtLastClose else Draining;
      trace' := trace + [State(pc, 0)];
    }

    /** close(fd[0]) after end of file */
    method CloseReadEnd(ghost trace: seq<World>, ghost schedule: nat -> seq<nat>)
      returns (ghost trace': seq<World>)
      requires OnTurn(trace, AtLastClose, 0, schedule)
      modifies this`table, this`calls
      ensures trace' == trace + [State(Idle, 0)] && At(trace', Idle, 0, schedule)
      ensures calls == old(calls) + 1
    {
      ghost var w := State(AtLastClose, 0);
      table := Close(table, fd.0);
      calls := calls + 1;
      StepMade(trace, w, State(Idle, 0), schedule);
      trace' := trace + [State(Idle, 0)];
    }

    /** The pipe and the child of a turn, the stages moving before each. */
    method PipeAndFork(ghost left: nat, ghost trace: seq<World>, n: nat, schedule: nat -> seq<nat>)
      returns (ghost trace': seq<World>)
      requires At(trace, AtPipe, left, schedule) && |trace| == n + 1
      modifies this`fd, this`table, this`stages
      ensures trace < trace' && |trace'| == n + 3 && At(trace', AtDup, left, schedule)
      ensures |stages| == |old(stages)| + 1 && Continued(old(stages), stages)
      ensures stages[|stages| - 1].phase.Forked?
    {
      StagesMove(AtPipe, left, n, trace, schedule);
      label Moved:
      trace' := MakePipe(left, trace, schedule);
      StagesMove(AtFork, left, n + 1, trace', schedule);
      ContinuedTransitive(old(stages), old@Moved(stages), stages);
      label Again:
      trace' := ForkStage(left, trace', schedule);
      assert forall k | 0 <= k < |old(stages)| :: stages[k] == old@Again(stages)[k];
    }

    /** The parent's part of a turn. */
    method DupAndClose(ghost left: nat, ghost trace: seq<World>, n: nat, schedule: nat -> seq<nat>)
      returns (ghost trace': seq<World>)
      requires left > 0 && At(trace, AtDup, left, schedule) && |trace| == n + 1
      modifies this`table, this`stages
      ensures trace < trace' && |trace'| == n + 3
      ensures At(trace', if left == 1 then Draining else AtPipe, left - 1, schedule)
      ensures |stages| == |old(stages)| && Continued(old(stages), stages)
    {
      StagesMove(AtDup, left, n, trace, schedule);
      label Moved:
      trace' := DupRead(left, trace, schedule);
      StagesMove(AtClose, left, n + 1, trace', schedule);
      ContinuedTransitive(old(stages), old@Moved(stages), stages);
      trace' := CloseWriteEnd(left, trace', schedule);
    }

    /** The loop over the programs of the command line: four steps of the shell for each. */
    method LaunchAll(count: nat, ghost trace: seq<World>, schedule: nat -> seq<nat>)
      returns (ghost trace': seq<World>)
      requires count > 0 && At(trace, AtPipe, count, schedule) && |trace| == 1
      modifies this`fd, this`table, this`stages
      ensures trace < trace' && |trace'| == 4 * count + 1 && At(trace', Draining, 0, schedule)
      ensures NewStageAt(trace', 4 * count - 2, |stages| - 1)
      ensures |stages| == |old(stages)| + count && Continued(old(stages), stages)
    {
      trace' := trace;
      var i := 0;
      while i < count
        invariant 0 <= i <= count
        invariant trace <= trace' && |trace'| == 4 * i + 1
        invariant At(trace', if i < count then AtPipe else Draining, count - i, schedule)
        invariant |stages| == |old(stages)| + i && Continued(old(stages), stages)
        invariant i > 0 ==> NewStageAt(trace', 4 * i - 2, |stages| - 1)
      {
        trace' := LaunchStage(count - i, trace', 4 * i, schedule);
        i := i + 1;
      }
    }

    /** while (read(..)), for at most patience reads more than one. */
    method ReadAll(patience: nat, ghost trace: seq<World>, n: nat, schedule: nat -> seq<nat>)
      returns (pc: Pc, ghost trace': seq<World>, n': nat)
      requires At(trace, Draining, 0, schedule) && |trace| == n + 1
      modifies this`stages
      ensures trace < trace' && |trace'| == n' + 1 && At(trace', pc, 0, schedule)
      ensures n' <= n + patience + 1
      ensures pc == AtLastClose || (pc == Draining && n' == n + patience + 1)
      ensures |stages| == |old(stages)| > 0 && Continued(old(stages), stages)
      ensures pc == AtLastClose <==> stages[|stages| - 1].phase.Exited?
    {
      pc, trace' := StepRead(trace, n, schedule);
      n' := n + 1;
      while pc == Draining && n' < n + patience + 1
        invariant n < n' <= n + patience + 1
        invariant trace < trace' && |trace'| == n' + 1 && At(trace', pc, 0, schedule)
        invariant pc == AtLastClose || pc == Draining
        invariant |stages| == |old(stages)| > 0 && Continued(old(stages), stages)
        invariant pc == AtLastClose <==> stages[|stages| - 1].phase.Exited?
        decreases n + patience + 1 - n'
      {
        pc, trace' := ReadAgain(old(stages), trace', n', schedule);
        n' := n' + 1;
      }
    }

    /** The next read of the loop. */
    method ReadAgain(ghost start: seq<Stage>, ghost trace: seq<World>, n: nat, schedule: nat -> seq<nat>)
      returns (pc: Pc, ghost trace': seq<World>)
      requires At(trace, Draining, 0, schedule) && |trace| == n + 1 && Continued(start, stages)
      modifies this`stages
      ensures trace < trace' && |trace'| == n + 2 && At(trace', pc, 0, schedule)
      ensures pc == AtLastClose || pc == Draining
      ensures |stages| == |old(stages)| > 0 && Continued(start, stages)
      ensures pc == AtLastClose <==> stages[|stages| - 1].phase.Exited?
    {
      ghost var before := stages;
      pc, trace' := StepRead(trace, n, schedule);
      ContinuedTransitive(start, before, stages);
    }

    /** The read loop, and then close(fd[0]). */
    method Drain(patience: nat, ghost trace: seq<World>, n: nat, schedule: nat -> seq<nat>)
      returns (returned: bool, ghost trace': seq<World>)
      requires At(trace, Draining, 0, schedule) && |trace| == n + 1
      modifies this`stages, this`table, this`calls
      ensures trace < trace' && At(trace', if returned then Idle else Draining, 0, schedule)
      ensures !returned ==> |trace'| == |trace| + patience + 1
      ensures returned ==> ExitedBy(trace', |trace| + patience, |stages| - 1)
      ensures |stages| == |old(stages)| > 0 && Continued(old(stages), stages)
      ensures returned <==> stages[|stages| - 1].phase.Exited?
      ensures calls == if returned then old(calls) + 1 else old(calls)
    {
      var pc, n';
      pc, trace', n' := ReadAll(patience, trace, n, schedule);
      returned := pc == AtLastClose;
      if returned {
        ghost var before := stages;
        trace' := StepClose(trace', n', n + 1 + patience, schedule);
        ContinuedTransitive(old(stages), before, stages);
      }
    }

    method StepRead(ghost trace: seq<World>, n: nat, schedule: nat -> seq<nat>)
      returns (pc: Pc, ghost trace': seq<World>)
      requires At(trace, Draining, 0, schedule) && |trace| == n + 1
      modifies this`stages
      ensures trace < trace' && |trace'| == n + 2 && At(trace', pc, 0, schedule)
      ensures pc == AtLastClose || pc == Draining
      ensures |stages| == |old(stages)| > 0 && Continued(old(stages), stages)
      ensures pc == AtLastClose <==> stages[|stages| - 1].phase.Exited?
    {
      StagesMove(Draining, 0, n, trace, schedule);
      pc, trace' := TryRead(trace, schedule);
    }

    method StepClose(ghost trace: seq<World>, n: nat, ghost limit: nat, schedule: nat -> seq<nat>)
      returns (ghost trace': seq<World>)
      requires At(trace, AtLastClose, 0, schedule) && |trace| == n + 1
      requires 0 < n <= limit && |stages| > 0 && stages[|stages| - 1].phase.Exited?
      modifies this`stages, this`table, this`calls
      ensures trace < trace' && |trace'| == n + 2 && At(trace', Idle, 0, schedule)
      ensures ExitedBy(trace', limit, |stages| - 1) && stages[|stages| - 1].phase.Exited?
      ensures |stages| == |old(stages)| && Continued(old(stages), stages)
      ensures calls == old(calls) + 1
    {
      StagesMove(AtLastClose, 0, n, trace, schedule);
      trace' := CloseReadEnd(trace, schedule);
    }

    /** One turn of the loop: the next pipe and its stage, the stages moving in between. */
    method LaunchStage(ghost left: nat, ghost trace: seq<World>, n: nat, schedule: nat -> seq<nat>)
      returns (ghost trace': seq<World>)
      requires left > 0 && At(trace, AtPipe, left, schedule) && |trace| == n + 1
      modifies this`fd, this`table, this`stages
      ensures trace < trace' && |trace'| == n + 5 && NewStageAt(trace', n + 2, |old(stages)|)
      ensures At(trace', if left == 1 then Draining else AtPipe, left - 1, schedule)
      ensures |stages| == |old(stages)| + 1 && Continued(old(stages), stages)
    {
      trace' := PipeAndFork(left, trace, n, schedule);
      label Forked:
      trace' := DupAndClose(left, trace', n + 2, schedule);
      ContinuedTransitive(old(stages), old@Forked(stages), stages);
    }

    /** recursive_call on a non-empty command line, the stages moving as the schedule says before each of the shell's
        steps, which the trace lists. If the last stage still runs after patience reads more than one, the shell
        is still reading. */
    method RunPrograms(count: nat, patience: nat, schedule: nat -> seq<nat>)
      returns (returned: bool, ghost trace: seq<World>)
      requires count > 0 && IsTrace([State(AtPipe, count)], schedule)
      modifies this
      ensures At(trace, if returned then Idle else Draining, 0, schedule)
      ensures trace[0] == old(State(AtPipe, count))
      ensures |stages| == |old(stages)| + count && Continued(old(stages), stages)
      ensures returned <==> stages[|stages| - 1].phase.Exited?
      ensures NewStageAt(trace, 4 * count - 2, |stages| - 1)
      ensures returned ==> ExitedBy(trace, 4 * count + 1 + patience, |stages| - 1)
      ensures calls == if returned then old(calls) + 1 else old(calls)
      ensures !returned ==> |trace| == 4 * count + patience + 2
    {
      trace := LaunchAll(count, [State(AtPipe, count)], schedule);
      ghost var launched, before := trace, stages;
      returned, trace := Drain(patience, trace, 4 * count, schedule);
      ContinuedTransitive(old(stages), before, stages);
      NewStageIsPast(launched, trace, 4 * count - 2, |stages| - 1);
    }

    method CallPrograms(count: nat, patience: nat, schedule: nat -> seq<nat>)
      returns (returned: bool, ghost trace: seq<World>)
      requires count > 0 && IsTrace([State(AtPipe, count)], schedule)
      modifies this
      ensures At(trace, if returned then Idle else Draining, 0, schedule)
      ensures trace[0] == old(State(AtPipe, count))
      ensures |stages| == |old(stages)| + count && Continued(old(stages), stages)
      ensures returned <==> stages[|stages| - 1].phase.Exited?
      ensures returned <==> MovesOf(schedule, |stages| - 1, 4 * count - 2, 4 * count + patience + 1) >= 3
      ensures calls == if returned then old(calls) + 1 else old(calls)
      ensures !returned ==> |trace| == 4 * count + patience + 2
    {
      returned, trace := RunPrograms(count, patience, schedule);
      ReturnsOnTime(trace, schedule, 4 * count - 2, patience, |stages| - 1, returned);
    }

    /** recursive_call: nothing happens for an empty command line. */
    method RecursiveCall(count: int, patience: nat, schedule: nat -> seq<nat>)
      returns (returned: bool, ghost trace: seq<World>)
      requires Reachable(State(Idle, 0))
      modifies this
      ensures Reachable(State(if returned then Idle else Draining, 0))
      ensures count <= 0 ==> returned && table == old(table) && stages == old(stages) && calls == old(calls)
      ensures count > 0 ==>
              && At(trace, if returned then Idle else Draining, 0, schedule)
              && trace[0] == old(State(AtPipe, count))
              && |stages| == |old(stages)| + count
              && (returned <==> stages[|stages| - 1].phase.Exited?)
              && (returned <==> MovesOf(schedule, |stages| - 1, 4 * count - 2, 4 * count + patience + 1) >= 3)
              && (!returned ==> |trace| == 4 * count + patience + 2)
      ensures count > 0 && returned ==>
              && 0 in table && table[0] == ReadEnd(|stages| - 1)
              && |table| == |old(table)| + count - 1
      ensures Continued(old(stages), stages)
    {
      if count <= 0 { return true, []; }
      FirstState(State(Idle, 0), count, schedule);
      returned, trace := CallPrograms(count, patience, schedule);
      LastState(trace, schedule);
    }
  }
}
