/**
 The chat over a System V semaphore set (les17_shared_memory/src/server.c and client.c).
 semop is one atomic step: it applies its operations in order, or blocks or fails without effect.
 Semaphore 0 counts clients, semaphore 1 is the message lock, 2 .. maxClients + 1 wake the drawers.
 Neither program looks at what semop returns.
 */
module SemaphoreChat {

  // -------------------------------------------------------------------------- semop

  /** The largest value of a semaphore, as Linux defines it. */
  const SEMVMX: nat := 32767

  datatype SemBuf = SemBuf(num: nat, op: int)

  datatype Outcome = Done(sem: seq<nat>) | Blocks | Fails

  /** All operations in order, or nothing: a wait-for-zero on a non-zero value and a decrease below zero
      block the whole array, an increase above the maximum fails it (ERANGE). */
  function Perform(sem: seq<nat>, ops: seq<SemBuf>): (r: Outcome)
    requires forall o | o in ops :: o.num < |sem|
    ensures r.Done? ==> |r.sem| == |sem|
    decreases |ops|
  {
    if ops == [] then Done(sem)
    else
      var o := ops[0];
      if o.op == 0 then (if sem[o.num] == 0 then Perform(sem, ops[1..]) else Blocks)
      else if sem[o.num] + o.op < 0 then Blocks
      else if sem[o.num] + o.op > SEMVMX then Fails
      else Perform(sem[o.num := sem[o.num] + o.op], ops[1..])
  }

  /** A number outside the set fails before anything else (EFBIG). */
  function SemOp(sem: seq<nat>, ops: seq<SemBuf>): (r: Outcome)
    ensures r.Done? ==> |r.sem| == |sem|
  {
    if forall o | o in ops :: o.num < |sem| then Perform(sem, ops) else Fails
  }

  /** The set after a call that did not block: unchanged if it failed. */
  function After(sem: seq<nat>, ops: seq<SemBuf>): (r: seq<nat>)
    ensures |r| == |sem|
  {
    match SemOp(sem, ops)
    case Done(sem') => sem'
    case _ => sem
  }

  // ---------------------------------------------------------------------- the machine

  datatype ServerPc =
    | Sync          // semop(sem_id, logic, 3)
    | Compare       // the two strcmp with "quit"
    | Broadcast(i: nat)
    | Release
    | Stopped

  datatype ReaderPc = Typing | Acquire | Writing | Ended

  /** A client: before its first semop, then between that and GETVAL, then with its two threads. */
  datatype Client = Outside | Counted | Joined(id: nat, reader: ReaderPc, quit: bool)

  /** The last six fields are history: successful acquires of all clients, rounds released by the server,
      draws per semaphore, wake-ups per semaphore that failed, clients that have joined, and messages
      printed by drawers whose semop failed. */
  datatype State = State(
    maxClients: nat,
    sem: seq<nat>, server: ServerPc, logic: seq<SemBuf>,
    clients: seq<Client>,
    acquires: nat, releases: nat, draws: seq<nat>, lost: seq<nat>, joins: nat, blind: nat)

  /** What the server writes into logic[0] while it goes round the loop. */
  function WakeOp(i: nat): SemBuf { SemBuf(i, 1) }

  const SYNC_OPS := [SemBuf(1, -1), SemBuf(1, 0), SemBuf(1, 1)]
  const ACQUIRE_OPS := [SemBuf(1, 0), SemBuf(1, 1)]

  datatype Action =
    | ServerSyncs
    | ServerReads(isQuit: bool)
    | ServerWakes
    | ServerReleases
    | ClientJoins(c: nat)
    | ClientReadsId(c: nat)
    | ClientTypes(c: nat, quit: bool)
    | ClientAcquires(c: nat)
    | ClientWrites(c: nat)
    | ClientDraws(c: nat)

  predicate IsJoined(s: State, c: nat, pc: ReaderPc) {
    c < |s.clients| && s.clients[c].Joined? && s.clients[c].reader == pc
  }

  /** An action can happen now: its thread is there, and its semop, if any, does not block. */
  predicate Enabled(s: State, a: Action) {
    |s.logic| == 3 && |s.sem| > 0 &&
    match a
    case ServerSyncs => s.server.Sync? && !SemOp(s.sem, s.logic).Blocks?
    case ServerReads(_) => s.server.Compare?
    case ServerWakes => s.server.Broadcast? && !SemOp(s.sem, [WakeOp(s.server.i)]).Blocks?
    case ServerReleases => s.server.Release? && !SemOp(s.sem, [SemBuf(1, -1)]).Blocks?
    case ClientJoins(c) => c < |s.clients| && s.clients[c].Outside?
    case ClientReadsId(c) => c < |s.clients| && s.clients[c].Counted?
    case ClientTypes(c, _) => IsJoined(s, c, Typing)
    case ClientAcquires(c) => IsJoined(s, c, Acquire) && !SemOp(s.sem, ACQUIRE_OPS).Blocks?
    case ClientWrites(c) => IsJoined(s, c, Writing)
    case ClientDraws(c) =>
      c < |s.clients| && s.clients[c].Joined? && !SemOp(s.sem, [SemBuf(s.clients[c].id, -1)]).Blocks?
  }

  function AddOne(counts: seq<nat>, k: nat): seq<nat> {
    if k < |counts| then counts[k := counts[k] + 1] else counts
  }

  function SetReader(s: State, c: nat, pc: ReaderPc): State
    requires c < |s.clients| && s.clients[c].Joined?
  {
    s.(clients := s.clients[c := s.clients[c].(reader := pc)])
  }

  function Step(s: State, a: Action): State
    requires Enabled(s, a)
  {
    match a
    case ServerSyncs => s.(sem := After(s.sem, s.logic), server := Compare)
    case ServerReads(isQuit) =>
      s.(server := if isQuit then Stopped else if s.maxClients == 0 then Release else Broadcast(2))
    case ServerWakes =>
      var i := s.server.i;
      var logic := s.logic[0 := WakeOp(i)];
      s.(sem := After(s.sem, logic[..1]), logic := logic,
         lost := if SemOp(s.sem, logic[..1]).Fails? then AddOne(s.lost, i) else s.lost,
         server := if i + 1 < 2 + s.maxClients then Broadcast(i + 1) else Release)
    case ServerReleases =>
      var logic := s.logic[0 := SemBuf(1, -1)];
      s.(sem := After(s.sem, logic[..1]), logic := logic, server := Sync, releases := s.releases + 1)
    case ClientJoins(c) =>
      s.(sem := After(s.sem, [SemBuf(0, 1)]), clients := s.clients[c := Counted], joins := s.joins + 1)
    case ClientReadsId(c) => s.(clients := s.clients[c := Joined(s.sem[0], Typing, false)])
    case ClientTypes(c, quit) =>
      s.(clients := s.clients[c := s.clients[c].(reader := Acquire, quit := quit)])
    case ClientAcquires(c) =>
      SetReader(s, c, Writing).(sem := After(s.sem, ACQUIRE_OPS), acquires := s.acquires + 1)
    case ClientWrites(c) => SetReader(s, c, if s.clients[c].quit then Ended else Typing)
    case ClientDraws(c) =>
      var ops := [SemBuf(s.clients[c].id, -1)];
      if SemOp(s.sem, ops).Fails? then s.(blind := s.blind + 1)
      else s.(sem := After(s.sem, ops), draws := AddOne(s.draws, s.clients[c].id))
  }

  /** semget on a fresh set, then SETVAL of semaphores 0 and 1. */
  ghost predicate Init(s: State) {
    && |s.sem| == 2 + s.maxClients
    && s.sem[0] == 2
    && (forall k | 1 <= k < |s.sem| :: s.sem[k] == 0)
    && s.server == Sync && s.logic == SYNC_OPS
    && (forall c | 0 <= c < |s.clients| :: s.clients[c] == Outside)
    && s.acquires == 0 && s.releases == 0 && s.joins == 0 && s.blind == 0
    && |s.draws| == |s.lost| == |s.sem|
    && forall k | 0 <= k < |s.draws| :: s.draws[k] == s.lost[k] == 0
  }

  // ------------------------------------------------------------------ the invariant

  /** 1 if the server has already woken semaphore k in the round it is in. */
  function Passed(pc: ServerPc, k: nat): nat {
    match pc
    case Broadcast(i) => if k < i then 1 else 0
    case Release => 1
    case _ => 0
  }

  function Min(a: nat, b: nat): nat { if a <= b then a else b }

  predicate HasId(c: Client, k: nat) { c.Joined? && c.id == k }

  ghost predicate ClientOk(s: State, c: nat)
    requires c < |s.clients|
  {
    && (!s.clients[c].Outside? ==> s.joins > 0)
    && (s.clients[c].Joined? ==> 3 <= s.clients[c].id <= Min(SEMVMX, 2 + s.joins))
  }

  /** Every wake-up of semaphore k so far is still there, was drawn or failed; it fails only at the maximum. */
  ghost predicate WakesOk(s: State, k: nat)
    requires k < |s.sem| && k < |s.draws| && k < |s.lost|
  {
    var wakes := s.releases + Passed(s.server, k);
    && s.sem[k] <= SEMVMX
    && s.sem[k] + s.draws[k] + s.lost[k] == wakes
    && (s.lost[k] > 0 ==> wakes >= SEMVMX + s.lost[k])
    && (s.lost[k] > 0 && s.draws[k] == 0 ==> s.sem[k] == SEMVMX)
    && (s.draws[k] > 0 ==> exists c | 0 <= c < |s.clients| :: HasId(s.clients[c], k))
  }

  ghost predicate LockInv(s: State) {
    && |s.sem| == |s.draws| == |s.lost| == 2 + s.maxClients
    && |s.logic| == 3 && s.logic[1..] == SYNC_OPS[1..]
    && (s.server.Sync? || s.server.Compare? ==> s.logic == SYNC_OPS)
    && (s.server.Broadcast? ==> 2 <= s.server.i < 2 + s.maxClients)
    && s.sem[0] == Min(SEMVMX, 2 + s.joins)
    && s.sem[1] <= 1
    && s.sem[1] + s.releases == s.acquires
    && (!s.server.Sync? ==> s.sem[1] == 1)
  }

  ghost predicate Inv(s: State) {
    && LockInv(s)
    && (forall k | 2 <= k < |s.sem| :: WakesOk(s, k))
    && (forall c | 0 <= c < |s.clients| :: ClientOk(s, c))
    && (s.blind > 0 ==> s.joins >= s.maxClients)
  }

  lemma SingleOp(sem: seq<nat>, k: nat, d: int)
    requires d != 0
    ensures SemOp(sem, [SemBuf(k, d)]) ==
            if k >= |sem| then Fails
            else if sem[k] + d < 0 then Blocks
            else if sem[k] + d > SEMVMX then Fails
            else Done(sem[k := sem[k] + d])
  {
    var ops := [SemBuf(k, d)];
    assert ops[0] in ops;
    if k < |sem| && 0 <= sem[k] + d <= SEMVMX {
      assert Perform(sem[k := sem[k] + d], ops[1..]) == Done(sem[k := sem[k] + d]);
    }
  }

  /** The server's three operations pass exactly at value 1, and leave it there. */
  lemma SyncPassesAtOne(sem: seq<nat>)
    requires 1 < |sem| && sem[1] <= SEMVMX
    ensures SemOp(sem, SYNC_OPS) == if sem[1] == 1 then Done(sem) else Blocks
  {
    assert SYNC_OPS[1..] == [SemBuf(1, 0), SemBuf(1, 1)];
    assert SYNC_OPS[1..][1..] == [SemBuf(1, 1)];
    if sem[1] >= 1 {
      var down := sem[1 := sem[1] - 1];
      assert Perform(sem, SYNC_OPS) == Perform(down, SYNC_OPS[1..]);
      if sem[1] == 1 {
        assert Perform(down, SYNC_OPS[1..]) == Perform(down, [SemBuf(1, 1)]);
        SingleOp(down, 1, 1);
        assert down[1 := 1] == sem;
      }
    }
  }

  /** The client's two operations pass exactly at value 0, and set it to 1. */
  lemma AcquirePassesAtZero(sem: seq<nat>)
    requires 1 < |sem|
    ensures SemOp(sem, ACQUIRE_OPS) == if sem[1] == 0 then Done(sem[1 := 1]) else Blocks
  {
    assert ACQUIRE_OPS[1..] == [SemBuf(1, 1)];
    SingleOp(sem, 1, 1);
  }

  predicate OfServer(a: Action) { a.ServerSyncs? || a.ServerReads? || a.ServerWakes? || a.ServerReleases? }

  /** A wake-up raises the semaphore by one, or is lost at the maximum. */
  lemma WakeEffect(s: State)
    requires LockInv(s) && s.server.Broadcast?
    ensures Enabled(s, ServerWakes)
    ensures var i := s.server.i;
            var s' := Step(s, ServerWakes);
            && s' == s.(sem := s'.sem, logic := s.logic[0 := WakeOp(i)], lost := s'.lost, server := s'.server)
            && s'.sem == (if s.sem[i] < SEMVMX then s.sem[i := s.sem[i] + 1] else s.sem)
            && s'.lost == (if s.sem[i] < SEMVMX then s.lost else s.lost[i := s.lost[i] + 1])
            && s'.server == (if i + 1 < 2 + s.maxClients then Broadcast(i + 1) else Release)
  {
    var i := s.server.i;
    assert s.logic[0 := WakeOp(i)][..1] == [WakeOp(i)];
    SingleOp(s.sem, i, 1);
  }

  lemma ReleaseEffect(s: State)
    requires LockInv(s) && s.server.Release?
    ensures Enabled(s, ServerReleases)
    ensures Step(s, ServerReleases)
            == s.(sem := s.sem[1 := 0], logic := SYNC_OPS, server := Sync, releases := s.releases + 1)
  {
    var logic := s.logic[0 := SemBuf(1, -1)];
    assert logic[..1] == [SemBuf(1, -1)];
    assert logic == SYNC_OPS by {
      assert logic == [SemBuf(1, -1)] + s.logic[1..];
      assert SYNC_OPS == [SemBuf(1, -1)] + SYNC_OPS[1..];
    }
    SingleOp(s.sem, 1, -1);
  }

  lemma WakesInv(s: State)
    requires Inv(s) && Enabled(s, ServerWakes)
    ensures Inv(Step(s, ServerWakes))
  {
    var s' := Step(s, ServerWakes);
    WakeEffect(s);
    forall k | 2 <= k < |s'.sem| ensures WakesOk(s', k) {
      assert WakesOk(s, k);
    }
    forall c | 0 <= c < |s'.clients| ensures ClientOk(s', c) {
      assert ClientOk(s, c);
    }
  }

  lemma ReleaseInv(s: State)
    requires Inv(s) && Enabled(s, ServerReleases)
    ensures Inv(Step(s, ServerReleases))
  {
    var s' := Step(s, ServerReleases);
    ReleaseEffect(s);
    forall k | 2 <= k < |s'.sem| ensures WakesOk(s', k) {
      assert WakesOk(s, k);
    }
    forall c | 0 <= c < |s'.clients| ensures ClientOk(s', c) {
      assert ClientOk(s, c);
    }
  }

  lemma ServerStepInv(s: State, a: Action)
    requires Inv(s) && Enabled(s, a) && OfServer(a)
    ensures Inv(Step(s, a))
  {
    if a.ServerWakes? {
      WakesInv(s);
    } else if a.ServerReleases? {
      ReleaseInv(s);
    } else {
      var s' := Step(s, a);
      SyncPassesAtOne(s.sem);
      forall k | 2 <= k < |s'.sem| ensures WakesOk(s', k) {
        assert WakesOk(s, k);
      }
      forall c | 0 <= c < |s'.clients| ensures ClientOk(s', c) {
        assert ClientOk(s, c);
      }
    }
  }

  /** What a client's action does to the set and the lock. */
  lemma ClientStepLock(s: State, a: Action)
    requires Inv(s) && Enabled(s, a) && !OfServer(a)
    ensures LockInv(Step(s, a))
  {
    if a.ClientJoins? {
      SingleOp(s.sem, 0, 1);
    } else if a.ClientAcquires? {
      AcquirePassesAtZero(s.sem);
    } else if a.ClientDraws? {
      assert ClientOk(s, a.c);
      SingleOp(s.sem, s.clients[a.c].id, -1);
    }
  }

  lemma ClientStepWakes(s: State, a: Action, k: nat)
    requires Inv(s) && Enabled(s, a) && !OfServer(a) && 2 <= k < |s.sem|
    ensures var s' := Step(s, a); |s'.sem| == |s'.draws| == |s'.lost| == |s.sem| && WakesOk(s', k)
  {
    var s' := Step(s, a);
    assert WakesOk(s, k);
    assert ClientOk(s, a.c);
    if a.ClientJoins? {
      SingleOp(s.sem, 0, 1);
    } else if a.ClientAcquires? {
      AcquirePassesAtZero(s.sem);
    } else if a.ClientDraws? {
      SingleOp(s.sem, s.clients[a.c].id, -1);
    }
    if s.draws[k] > 0 {
      var c :| 0 <= c < |s.clients| && HasId(s.clients[c], k);
      assert HasId(s'.clients[c], k);
    } else if s'.draws[k] > 0 {
      assert HasId(s'.clients[a.c], k);
    }
  }

  lemma ClientStepIds(s: State, a: Action, c: nat)
    requires Inv(s) && Enabled(s, a) && !OfServer(a) && c < |s.clients|
    ensures |Step(s, a).clients| == |s.clients| && ClientOk(Step(s, a), c)
  {
    assert ClientOk(s, c);
  }

  lemma ClientStepInv(s: State, a: Action)
    requires Inv(s) && Enabled(s, a) && !OfServer(a)
    ensures Inv(Step(s, a))
  {
    var s' := Step(s, a);
    ClientStepLock(s, a);
    forall k | 2 <= k < |s'.sem| ensures WakesOk(s', k) {
      ClientStepWakes(s, a, k);
    }
    forall c | 0 <= c < |s'.clients| ensures ClientOk(s', c) {
      ClientStepIds(s, a, c);
    }
    ClientStepBlind(s, a);
  }

  lemma ClientStepBlind(s: State, a: Action)
    requires Inv(s) && Enabled(s, a) && !OfServer(a)
    ensures Step(s, a).blind > 0 ==> Step(s, a).joins >= s.maxClients
  {
    if a.ClientDraws? {
      var id := s.clients[a.c].id;
      assert ClientOk(s, a.c);
      assert id < |s.sem| ==> WakesOk(s, id);
      SingleOp(s.sem, id, -1);
    }
  }

  lemma StepInv(s: State, a: Action)
    requires Inv(s) && Enabled(s, a)
    ensures Inv(Step(s, a))
  {
    if OfServer(a) {
      ServerStepInv(s, a);
    } else {
      ClientStepInv(s, a);
    }
  }

  // -------------------------------------------------------------------------- runs

  ghost predicate Follows(trace: seq<State>, i: nat)
    requires i + 1 < |trace|
  {
    exists a :: Enabled(trace[i], a) && trace[i + 1] == Step(trace[i], a)
  }

  ghost predicate Run(trace: seq<State>) {
    && |trace| > 0 && Init(trace[0])
    && forall i | 0 <= i < |trace| - 1 :: Follows(trace, i)
  }

  lemma {:induction false} RunInv(trace: seq<State>, n: nat)
    requires Run(trace) && n < |trace|
    ensures Inv(trace[n])
  {
    if n > 0 {
      RunInv(trace, n - 1);
      assert Follows(trace, n - 1);
      var a :| Enabled(trace[n - 1], a) && trace[n] == Step(trace[n - 1], a);
      StepInv(trace[n - 1], a);
    }
  }

  /** Semaphore 1 is a lock: 0 or 1, acquires minus releases, and held from the server's sync to its
      release, so no client can acquire while a message is broadcast. */
  lemma MessageLock(trace: seq<State>, n: nat, c: nat)
    requires Run(trace) && n < |trace|
    ensures var s := trace[n];
            && 1 < |s.sem| && s.sem[1] <= 1
            && s.sem[1] == s.acquires - s.releases
            && (!s.server.Sync? ==> s.sem[1] == 1 && !Enabled(s, ClientAcquires(c)))
  {
    RunInv(trace, n);
    AcquirePassesAtZero(trace[n].sem);
  }

  /** No wake-up is doubled, and one is lost only at the semaphore's maximum: on every client semaphore what
      is left, what was drawn and what failed is the rounds released plus the one under way if it has come
      past. None fails within the first SEMVMX, and no semaphore is drawn more often than messages were sent. */
  lemma WakeUpsAreConserved(trace: seq<State>, n: nat, k: nat)
    requires Run(trace) && n < |trace|
    requires 2 <= k < 2 + trace[n].maxClients
    ensures var s := trace[n];
            && k < |s.sem| && k < |s.draws| && k < |s.lost|
            && s.sem[k] + s.draws[k] + s.lost[k] == s.releases + Passed(s.server, k)
            && s.sem[k] <= SEMVMX
            && (s.releases + Passed(s.server, k) <= SEMVMX ==> s.lost[k] == 0)
            && s.draws[k] <= s.acquires
  {
    RunInv(trace, n);
    assert WakesOk(trace[n], k);
  }

  /** A wake-up fails exactly when its semaphore is at the maximum; the server goes on all the same. */
  lemma WakeFailsAtMaximum(trace: seq<State>, n: nat)
    requires Run(trace) && n < |trace| && trace[n].server.Broadcast?
    ensures var s := trace[n];
            && s.server.i < |s.sem| && s.server.i < |s.lost|
            && Enabled(s, ServerWakes)
            && (Step(s, ServerWakes).lost != s.lost <==> s.sem[s.server.i] == SEMVMX)
            && (s.sem[s.server.i] == SEMVMX ==> Step(s, ServerWakes).sem == s.sem)
  {
    RunInv(trace, n);
    assert WakesOk(trace[n], trace[n].server.i);
    WakeEffect(trace[n]);
  }

  /** A semaphore that is no client's counts every round up to its maximum. */
  lemma UnownedSemaphoreCountsRounds(trace: seq<State>, n: nat, k: nat)
    requires Run(trace) && n < |trace| && 2 <= k < 2 + trace[n].maxClients
    requires forall c | 0 <= c < |trace[n].clients| :: !HasId(trace[n].clients[c], k)
    ensures var s := trace[n];
            && k < |s.sem| && k < |s.draws| && s.draws[k] == 0
            && s.sem[k] == Min(SEMVMX, s.releases + Passed(s.server, k))
  {
    RunInv(trace, n);
    assert WakesOk(trace[n], k);
  }

  /** So a client that joins late, with an id nobody has, finds a wake-up for every round before it came. */
  lemma LateClientFindsEarlierRounds(trace: seq<State>, n: nat, c: nat)
    requires Run(trace) && n < |trace| && Enabled(trace[n], ClientReadsId(c))
    ensures var s := trace[n];
            var s' := Step(s, ClientReadsId(c));
            var id := s'.clients[c].id;
            && |s'.sem| == 2 + s.maxClients
            && (id < |s'.sem| && (forall d | 0 <= d < |s.clients| :: !HasId(s.clients[d], id)) ==>
                  s'.sem[id] == Min(SEMVMX, s.releases + Passed(s.server, id)))
  {
    RunInv(trace, n);
    var s := trace[n];
    var id := Step(s, ClientReadsId(c)).clients[c].id;
    assert ClientOk(s, c);
    if id < |s.sem| && forall d | 0 <= d < |s.clients| :: !HasId(s.clients[d], id) {
      UnownedSemaphoreCountsRounds(trace, n, id);
    }
  }

  /** A drawer waits exactly while its semaphore is empty; with an id outside the set it never waits, and prints
      without a wake-up. That takes maxClients clients before it. */
  lemma DrawerWaitsWhileEmpty(trace: seq<State>, n: nat, c: nat)
    requires Run(trace) && n < |trace| && c < |trace[n].clients| && trace[n].clients[c].Joined?
    ensures var s := trace[n];
            var id := s.clients[c].id;
            if id < |s.sem| then
              && id < |s.draws|
              && (Enabled(s, ClientDraws(c)) <==> s.sem[id] > 0)
              && (s.sem[id] > 0 ==> Step(s, ClientDraws(c))
                                    == s.(sem := s.sem[id := s.sem[id] - 1], draws := s.draws[id := s.draws[id] + 1]))
            else
              && Enabled(s, ClientDraws(c))
              && Step(s, ClientDraws(c)) == s.(blind := s.blind + 1)
    ensures trace[n].blind > 0 ==> trace[n].maxClients <= trace[n].joins
  {
    RunInv(trace, n);
    var s := trace[n];
    assert ClientOk(s, c);
    SingleOp(s.sem, s.clients[c].id, -1);
    if s.clients[c].id < |s.sem| {
      assert WakesOk(s, s.clients[c].id);
    }
  }

  lemma StoppedStep(s: State, a: Action)
    requires Inv(s) && Enabled(s, a) && s.server.Stopped?
    ensures Step(s, a).server.Stopped? && Step(s, a).acquires == s.acquires
  {
    AcquirePassesAtZero(s.sem);
  }

  lemma StoppedHoldsLock(s: State)
    requires Inv(s) && s.server.Stopped?
    ensures |s.sem| > 1 && s.sem[1] == 1
  {
  }

  /** Once the server has left its loop, nobody acquires the lock again. */
  lemma {:induction false} StoppedForGood(trace: seq<State>, m: nat, n: nat)
    requires Run(trace) && m <= n < |trace| && trace[m].server.Stopped?
    ensures trace[n].server.Stopped? && trace[n].acquires == trace[m].acquires
    ensures |trace[n].sem| > 1 && trace[n].sem[1] == 1
  {
    if m < n {
      StoppedForGood(trace, m, n - 1);
      RunInv(trace, n - 1);
      assert Follows(trace, n - 1);
      var a :| Enabled(trace[n - 1], a) && trace[n] == Step(trace[n - 1], a);
      StoppedStep(trace[n - 1], a);
    }
    RunInv(trace, n);
    StoppedHoldsLock(trace[n]);
  }

  /** How far a reader is from the end once it has read "quit". */
  function QuitRank(pc: ReaderPc): nat {
    match pc
    case Typing => 0
    case Acquire => 1
    case Writing => 2
    case Ended => 3
  }

  ghost predicate ReaderOk(c: Client) {
    c.Joined? ==> (c.quit ==> c.reader != Typing) && (c.reader == Ended ==> c.quit)
  }

  lemma StepReaders(s: State, a: Action, c: nat)
    requires Enabled(s, a) && c < |s.clients| && ReaderOk(s.clients[c])
    ensures var s' := Step(s, a);
            && |s'.clients| == |s.clients| && ReaderOk(s'.clients[c])
            && (s.clients[c].Joined? ==>
                  var x, x' := s.clients[c], s'.clients[c];
                  && x'.Joined? && x'.id == x.id
                  && (x.quit ==> x'.quit && QuitRank(x.reader) <= QuitRank(x'.reader))
                  && (x.quit && a == ClientAcquires(c) ==> QuitRank(x.reader) < QuitRank(x'.reader)))
  {
  }

  lemma {:induction false} ReadersOk(trace: seq<State>, n: nat, c: nat)
    requires Run(trace) && n < |trace| && c < |trace[n].clients|
    ensures ReaderOk(trace[n].clients[c])
  {
    if n > 0 {
      assert Follows(trace, n - 1);
      var a :| Enabled(trace[n - 1], a) && trace[n] == Step(trace[n - 1], a);
      SameClients(trace[n - 1], a);
      ReadersOk(trace, n - 1, c);
      StepReaders(trace[n - 1], a, c);
    }
  }

  lemma SameClients(s: State, a: Action)
    requires Enabled(s, a)
    ensures |Step(s, a).clients| == |s.clients|
  {
  }

  /** A client that has typed "quit" never types again, keeps its id, only gets nearer to its end, and acquires
      the lock at most once more; and only such a client ends. */
  lemma {:induction false} QuitClientOnlyEnds(trace: seq<State>, m: nat, n: nat, c: nat)
    requires Run(trace) && m <= n < |trace|
    requires c < |trace[m].clients| && trace[m].clients[c].Joined? && trace[m].clients[c].quit
    ensures c < |trace[n].clients| && trace[n].clients[c].Joined? && trace[n].clients[c].quit
    ensures trace[n].clients[c].id == trace[m].clients[c].id
    ensures 1 <= QuitRank(trace[m].clients[c].reader) <= QuitRank(trace[n].clients[c].reader)
    ensures trace[m].clients[c].reader != Acquire ==> !Enabled(trace[n], ClientAcquires(c))
  {
    ReadersOk(trace, m, c);
    if m < n {
      QuitClientOnlyEnds(trace, m, n - 1, c);
      assert Follows(trace, n - 1);
      var a :| Enabled(trace[n - 1], a) && trace[n] == Step(trace[n - 1], a);
      ReadersOk(trace, n - 1, c);
      StepReaders(trace[n - 1], a, c);
    }
  }

  lemma OnlyQuitEnds(trace: seq<State>, n: nat, c: nat)
    requires Run(trace) && n < |trace| && IsJoined(trace[n], c, Ended)
    ensures trace[n].clients[c].quit
  {
    ReadersOk(trace, n, c);
  }

  /** A message: typed, the lock taken, written. After "quit" the reader has ended, otherwise it types again. */
  lemma ReaderSendsMessage(s: State, c: nat, quit: bool)
    requires |s.logic| == 3 && |s.sem| > 1 && s.sem[1] == 0 && IsJoined(s, c, Typing)
    ensures Enabled(s, ClientTypes(c, quit))
    ensures var s1 := Step(s, ClientTypes(c, quit));
            && Enabled(s1, ClientAcquires(c))
            && var s2 := Step(s1, ClientAcquires(c));
               && Enabled(s2, ClientWrites(c))
               && Step(s2, ClientWrites(c))
                  == s.(sem := s.sem[1 := 1], acquires := s.acquires + 1,
                        clients := s.clients[c := Joined(s.clients[c].id, if quit then Ended else Typing, quit)])
  {
    AcquirePassesAtZero(s.sem);
    var s1 := Step(s, ClientTypes(c, quit));
    var s3 := Step(Step(s1, ClientAcquires(c)), ClientWrites(c));
    assert s3.clients == s.clients[c := Joined(s.clients[c].id, if quit then Ended else Typing, quit)];
  }

  /** The lock never jams: a running server can take its next step, or every waiting client can acquire. */
  lemma LockNeverJams(trace: seq<State>, n: nat, c: nat, isQuit: bool)
    requires Run(trace) && n < |trace|
    ensures var s := trace[n];
            s.server.Stopped? || Enabled(s, ServerSyncs) || Enabled(s, ServerReads(isQuit))
            || Enabled(s, ServerWakes) || Enabled(s, ServerReleases)
            || (IsJoined(s, c, Acquire) ==> Enabled(s, ClientAcquires(c)))
  {
    var s := trace[n];
    RunInv(trace, n);
    SyncPassesAtOne(s.sem);
    AcquirePassesAtZero(s.sem);
    SingleOp(s.sem, 1, -1);
    if s.server.Broadcast? {
      SingleOp(s.sem, s.server.i, 1);
    }
  }

  /** Ids start at 3 and stop at the maximum: a client gets a semaphore of the set only while fewer than
      maxClients have joined, and semaphore 2, which is nobody's, counts every round. */
  lemma IdsStartAtThree(trace: seq<State>, n: nat, c: nat)
    requires Run(trace) && n < |trace|
    ensures var s := trace[n];
            && (Enabled(s, ClientReadsId(c)) ==>
                  var id := Step(s, ClientReadsId(c)).clients[c].id;
                  && id == Min(SEMVMX, 2 + s.joins)
                  && (s.maxClients < SEMVMX - 2 ==> (id < |s.sem| <==> s.joins < s.maxClients)))
            && (c < |s.clients| && s.clients[c].Joined? ==> 3 <= s.clients[c].id <= Min(SEMVMX, 2 + s.joins))
            && (0 < s.maxClients ==>
                  2 < |s.sem| && s.sem[2] == Min(SEMVMX, s.releases + Passed(s.server, 2)))
  {
    RunInv(trace, n);
    var s := trace[n];
    if c < |s.clients| {
      assert ClientOk(s, c);
    }
    if 0 < s.maxClients {
      forall d | 0 <= d < |s.clients| ensures !HasId(s.clients[d], 2) {
        assert ClientOk(s, d);
      }
      UnownedSemaphoreCountsRounds(trace, n, 2);
    }
  }

  /** Ids are not always distinct: two clients get the same one exactly when nobody joined between their
      reads of semaphore 0 (or it was full both times). */
  lemma SameIdExactly(trace: seq<State>, m: nat, n: nat, c: nat, d: nat)
    requires Run(trace) && m < |trace| && n < |trace|
    requires Enabled(trace[m], ClientReadsId(c)) && Enabled(trace[n], ClientReadsId(d))
    ensures Step(trace[m], ClientReadsId(c)).clients[c].id == Step(trace[n], ClientReadsId(d)).clients[d].id
            <==> trace[m].joins == trace[n].joins || (SEMVMX - 2 <= trace[m].joins && SEMVMX - 2 <= trace[n].joins)
  {
    IdsStartAtThree(trace, m, c);
    IdsStartAtThree(trace, n, d);
  }

  lemma RunGoesOn(trace: seq<State>, a: Action)
    requires Run(trace) && Enabled(trace[|trace| - 1], a)
    ensures Run(trace + [Step(trace[|trace| - 1], a)])
  {
    var more := trace + [Step(trace[|trace| - 1], a)];
    forall i | 0 <= i < |more| - 1 ensures Follows(more, i) {
      if i < |trace| - 1 {
        assert Follows(trace, i);
        assert more[i] == trace[i] && more[i + 1] == trace[i + 1];
      } else {
        assert more[i] == trace[i] && Enabled(more[i], a) && more[i + 1] == Step(more[i], a);
      }
    }
  }

  lemma TwoJoin(s: State)
    requires Init(s) && |s.clients| == 2
    ensures Enabled(s, ClientJoins(0)) && Enabled(Step(s, ClientJoins(0)), ClientJoins(1))
    ensures var s2 := Step(Step(s, ClientJoins(0)), ClientJoins(1));
            |s2.logic| == 3 && |s2.sem| > 0 && s2.sem[0] == 4 && s2.clients == [Counted, Counted]
  {
    SingleOp(s.sem, 0, 1);
    SingleOp(Step(s, ClientJoins(0)).sem, 0, 1);
  }

  /** It happens to two clients that both count themselves before either reads. */
  lemma IdsCollide(s: State) returns (trace: seq<State>)
    requires Init(s) && |s.clients| == 2
    ensures Run(trace) && |trace| == 5 && trace[0] == s
    ensures |trace[4].clients| == 2 && HasId(trace[4].clients[0], 4) && HasId(trace[4].clients[1], 4)
  {
    TwoJoin(s);
    var s1 := Step(s, ClientJoins(0));
    var s2 := Step(s1, ClientJoins(1));
    RunGoesOn([s], ClientJoins(0));
    RunGoesOn([s] + [s1], ClientJoins(1));
    trace := [s] + [s1] + [s2];
    RunGoesOn(trace, ClientReadsId(0));
    trace := trace + [Step(s2, ClientReadsId(0))];
    RunGoesOn(trace, ClientReadsId(1));
    trace := trace + [Step(trace[3], ClientReadsId(1))];
  }

  // ------------------------------------------------- runs in which the failures happen

  /** A chat for one client, whose id 3 lies outside the set of three semaphores, between two rounds. */
  ghost predicate BetweenRounds(s: State, rounds: nat) {
    && s.maxClients == 1 && |s.clients| > 0 && s.clients[0] == Joined(3, Typing, false)
    && |s.sem| == |s.lost| == 3 && s.sem[1] == 0 && s.sem[2] == rounds && s.lost[2] == 0
    && s.server.Sync? && s.logic == SYNC_OPS
  }

  lemma OneJoins(s: State) returns (trace: seq<State>)
    requires Init(s) && s.maxClients == 1 && |s.clients| > 0
    ensures Run(trace) && |trace| == 3 && trace[0] == s && BetweenRounds(trace[2], 0)
    ensures trace[2].blind == 0 && trace[2].acquires == 0 && trace[2].joins == 1
  {
    SingleOp(s.sem, 0, 1);
    RunGoesOn([s], ClientJoins(0));
    trace := [s] + [Step(s, ClientJoins(0))];
    RunGoesOn(trace, ClientReadsId(0));
    trace := trace + [Step(trace[1], ClientReadsId(0))];
  }

  /** The client sends a message, and the server comes to its wake-ups. */
  lemma OneSends(trace: seq<State>, rounds: nat) returns (more: seq<State>)
    requires Run(trace) && BetweenRounds(trace[|trace| - 1], rounds)
    ensures Run(more) && more[0] == trace[0]
    ensures var s := trace[|trace| - 1];
            more[|more| - 1] == s.(sem := s.sem[1 := 1], acquires := s.acquires + 1, server := Broadcast(2))
  {
    var s := trace[|trace| - 1];
    AcquirePassesAtZero(s.sem);
    RunGoesOn(trace, ClientTypes(0, false));
    more := trace + [Step(s, ClientTypes(0, false))];
    RunGoesOn(more, ClientAcquires(0));
    more := more + [Step(more[|more| - 1], ClientAcquires(0))];
    RunGoesOn(more, ClientWrites(0));
    more := more + [Step(more[|more| - 1], ClientWrites(0))];
    more := ServerComes(more, s.sem[1 := 1]);
  }

  lemma ServerComes(trace: seq<State>, sem: seq<nat>) returns (more: seq<State>)
    requires Run(trace) && |sem| > 1 && sem[1] == 1
    requires var s := trace[|trace| - 1]; s.sem == sem && s.server.Sync? && s.logic == SYNC_OPS && s.maxClients > 0
    ensures Run(more) && more[0] == trace[0]
    ensures more[|more| - 1] == trace[|trace| - 1].(server := Broadcast(2))
  {
    SyncPassesAtOne(sem);
    RunGoesOn(trace, ServerSyncs);
    more := trace + [Step(trace[|trace| - 1], ServerSyncs)];
    RunGoesOn(more, ServerReads(false));
    more := more + [Step(more[|more| - 1], ServerReads(false))];
  }

  /** A whole round adds one to semaphore 2. */
  lemma OneRound(trace: seq<State>, rounds: nat) returns (more: seq<State>)
    requires Run(trace) && BetweenRounds(trace[|trace| - 1], rounds) && rounds < SEMVMX
    ensures Run(more) && more[0] == trace[0] && BetweenRounds(more[|more| - 1], rounds + 1)
  {
    more := OneSends(trace, rounds);
    var s := more[|more| - 1];
    assert s.logic[0 := WakeOp(2)][..1] == [WakeOp(2)];
    SingleOp(s.sem, 2, 1);
    RunGoesOn(more, ServerWakes);
    more := more + [Step(s, ServerWakes)];
    more := OneReleases(more, s.sem[2 := rounds + 1]);
  }

  lemma OneReleases(trace: seq<State>, sem: seq<nat>) returns (more: seq<State>)
    requires Run(trace) && |sem| == 3 && sem[1] == 1
    requires var s := trace[|trace| - 1];
             s.sem == sem && s.server.Release? && |s.logic| == 3 && s.logic[1..] == SYNC_OPS[1..]
    ensures Run(more) && more[0] == trace[0]
    ensures var s := trace[|trace| - 1];
            more[|more| - 1] == s.(sem := sem[1 := 0], logic := SYNC_OPS, server := Sync, releases := s.releases + 1)
  {
    var s := trace[|trace| - 1];
    var logic := s.logic[0 := SemBuf(1, -1)];
    assert logic[..1] == [SemBuf(1, -1)];
    assert logic == [SemBuf(1, -1)] + s.logic[1..];
    assert SYNC_OPS == [SemBuf(1, -1)] + SYNC_OPS[1..];
    SingleOp(sem, 1, -1);
    RunGoesOn(trace, ServerReleases);
    more := trace + [Step(s, ServerReleases)];
  }

  lemma {:induction false} ManyRounds(s: State, rounds: nat) returns (trace: seq<State>)
    requires Init(s) && s.maxClients == 1 && |s.clients| > 0 && rounds <= SEMVMX
    ensures Run(trace) && trace[0] == s && BetweenRounds(trace[|trace| - 1], rounds)
  {
    if rounds == 0 {
      trace := OneJoins(s);
    } else {
      trace := ManyRounds(s, rounds - 1);
      trace := OneRound(trace, rounds - 1);
    }
  }

  /** Wake-ups do get lost: after SEMVMX messages, the next one wakes nobody on semaphore 2. */
  lemma WakeUpIsLost(s: State) returns (trace: seq<State>)
    requires Init(s) && s.maxClients == 1 && |s.clients| > 0
    ensures Run(trace) && trace[0] == s
    ensures |trace[|trace| - 1].lost| > 2 && trace[|trace| - 1].lost[2] == 1
  {
    trace := ManyRounds(s, SEMVMX);
    trace := OneSends(trace, SEMVMX);
    var last := trace[|trace| - 1];
    assert last.logic[0 := WakeOp(2)][..1] == [WakeOp(2)];
    SingleOp(last.sem, 2, 1);
    RunGoesOn(trace, ServerWakes);
    trace := trace + [Step(last, ServerWakes)];
  }

  /** The one client that is meant to fit gets no semaphore, and prints before anybody has sent a message. */
  lemma BlindPrint(s: State) returns (trace: seq<State>)
    requires Init(s) && s.maxClients == 1 && |s.clients| > 0
    ensures Run(trace) && |trace| == 4 && trace[0] == s
    ensures trace[3].blind == 1 && trace[3].acquires == 0 && trace[3].joins == s.maxClients
  {
    trace := OneJoins(s);
    var last := trace[2];
    RunInv(trace, 2);
    SingleOp(last.sem, 3, -1);
    RunGoesOn(trace, ClientDraws(0));
    trace := trace + [Step(last, ClientDraws(0))];
  }

  // ----------------------------------------------------- the steps of the server alone

  /** What the clients do while the server is between two steps: the enabled ones of any list of actions. */
  function ClientsAct(s: State, acts: seq<Action>): State
    decreases |acts|
  {
    if acts == [] then s
    else ClientsAct(if !OfServer(acts[0]) && Enabled(s, acts[0]) then Step(s, acts[0]) else s, acts[1..])
  }

  lemma {:induction false} ClientsActInv(s: State, acts: seq<Action>)
    requires Inv(s)
    ensures Inv(ClientsAct(s, acts))
    decreases |acts|
  {
    if acts != [] {
      var a := acts[0];
      if !OfServer(a) && Enabled(s, a) {
        ClientStepInv(s, a);
        ClientsActInv(Step(s, a), acts[1..]);
      } else {
        ClientsActInv(s, acts[1..]);
      }
    }
  }

  lemma {:induction false} ClientsActKeeps(s: State, acts: seq<Action>)
    ensures var s' := ClientsAct(s, acts);
            && s'.server == s.server && s'.releases == s.releases && s'.logic == s.logic
            && s'.lost == s.lost && s'.maxClients == s.maxClients
    decreases |acts|
  {
    if acts != [] {
      ClientsActKeeps(if !OfServer(acts[0]) && Enabled(s, acts[0]) then Step(s, acts[0]) else s, acts[1..]);
    }
  }

  /** What happens before a step of the server, and whether the message is "quit" if it then looks at it. */
  datatype Input = Input(acts: seq<Action>, isQuit: bool)

  function ServerAction(pc: ServerPc, isQuit: bool): Action {
    match pc
    case Sync => ServerSyncs
    case Compare => ServerReads(isQuit)
    case Broadcast(_) => ServerWakes
    case Release => ServerReleases
    case Stopped => ServerSyncs
  }

  /** One step of the server, which waits while its semop blocks. */
  function ServerMoves(s: State, isQuit: bool): State {
    var a := ServerAction(s.server, isQuit);
    if Enabled(s, a) then Step(s, a) else s
  }

  /** The state in which the server makes its step number n. */
  function Before(trace: seq<State>, n: nat, schedule: nat -> Input): State
    requires n < |trace|
  {
    ClientsAct(trace[n], schedule(n).acts)
  }

  predicate MovesAt(trace: seq<State>, n: nat, schedule: nat -> Input)
    requires n + 1 < |trace|
  {
    trace[n + 1] == ServerMoves(Before(trace, n, schedule), schedule(n).isQuit)
  }

  /** The states after 0, 1, 2, .. steps of the server, from one that meets the invariant. */
  ghost predicate IsTrace(trace: seq<State>, schedule: nat -> Input) {
    |trace| > 0 && Inv(trace[0]) && forall n | 0 <= n < |trace| - 1 :: MovesAt(trace, n, schedule)
  }

  /** The invariant holds all along, also when the clients have run. */
  lemma {:induction false} TraceInv(trace: seq<State>, n: nat, schedule: nat -> Input)
    requires IsTrace(trace, schedule) && n < |trace|
    ensures Inv(trace[n]) && Inv(Before(trace, n, schedule))
  {
    if n > 0 {
      TraceInv(trace, n - 1, schedule);
      assert MovesAt(trace, n - 1, schedule);
      var s := Before(trace, n - 1, schedule);
      var a := ServerAction(s.server, schedule(n - 1).isQuit);
      if Enabled(s, a) {
        ServerStepInv(s, a);
      }
    }
    ClientsActInv(trace[n], schedule(n).acts);
  }

  /** Outside the sync there is one acquire more than releases. */
  lemma HeldLock(trace: seq<State>, schedule: nat -> Input)
    requires IsTrace(trace, schedule) && !trace[|trace| - 1].server.Sync?
    ensures trace[|trace| - 1].acquires == trace[|trace| - 1].releases + 1
  {
    TraceInv(trace, |trace| - 1, schedule);
  }

  lemma StepMade(trace: seq<State>, s: State, s': State, schedule: nat -> Input)
    requires IsTrace(trace, schedule)
    requires var n := |trace| - 1; s == Before(trace, n, schedule) && s' == ServerMoves(s, schedule(n).isQuit)
    ensures IsTrace(trace + [s'], schedule)
  {
    var more := trace + [s'];
    forall n | 0 <= n < |more| - 1 ensures MovesAt(more, n, schedule) {
      if n < |trace| - 1 {
        assert MovesAt(trace, n, schedule);
      }
    }
  }

  // ------------------------------------------------- every interleaving is a schedule

  lemma {:induction false} ClientsActAppend(s: State, acts: seq<Action>, a: Action)
    requires !OfServer(a) && Enabled(ClientsAct(s, acts), a)
    ensures ClientsAct(s, acts + [a]) == Step(ClientsAct(s, acts), a)
    decreases |acts|
  {
    if acts == [] {
      assert ClientsAct(Step(s, a), ([] + [a])[1..]) == Step(s, a);
    } else {
      assert (acts + [a])[1..] == acts[1..] + [a];
      var next := if !OfServer(acts[0]) && Enabled(s, acts[0]) then Step(s, acts[0]) else s;
      ClientsActAppend(next, acts[1..], a);
    }
  }

  function Reschedule(schedule: nat -> Input, n: nat, input: Input): nat -> Input {
    (k: nat) => if k == n then input else schedule(k)
  }

  lemma PastIsScheduled(trace: seq<State>, schedule: nat -> Input, input: Input)
    requires IsTrace(trace, schedule)
    ensures IsTrace(trace, Reschedule(schedule, |trace| - 1, input))
  {
    var later := Reschedule(schedule, |trace| - 1, input);
    forall n | 0 <= n < |trace| - 1 ensures MovesAt(trace, n, later) {
      assert MovesAt(trace, n, schedule);
    }
  }

  /** A step of a client is appended to the schedule. */
  lemma ScheduleClient(trace: seq<State>, schedule: nat -> Input, a: Action) returns (schedule': nat -> Input)
    requires IsTrace(trace, schedule) && !OfServer(a) && Enabled(Before(trace, |trace| - 1, schedule), a)
    ensures IsTrace(trace, schedule')
    ensures Before(trace, |trace| - 1, schedule') == Step(Before(trace, |trace| - 1, schedule), a)
  {
    var n := |trace| - 1;
    ClientsActAppend(trace[n], schedule(n).acts, a);
    var input := Input(schedule(n).acts + [a], false);
    PastIsScheduled(trace, schedule, input);
    schedule' := Reschedule(schedule, n, input);
  }

  /** A step of the server is appended to the trace. */
  lemma ScheduleServer(trace: seq<State>, schedule: nat -> Input, a: Action)
    returns (trace': seq<State>, schedule': nat -> Input)
    requires IsTrace(trace, schedule) && OfServer(a) && Enabled(Before(trace, |trace| - 1, schedule), a)
    ensures IsTrace(trace', schedule') && trace <= trace'
    ensures Before(trace', |trace'| - 1, schedule') == Step(Before(trace, |trace| - 1, schedule), a)
  {
    var n := |trace| - 1;
    var s := Before(trace, n, schedule);
    var input := Input(schedule(n).acts, a.ServerReads? && a.isQuit);
    PastIsScheduled(trace, schedule, input);
    var asked := Reschedule(schedule, n, input);
    ActionOfServer(s, a);
    StepMade(trace, s, Step(s, a), asked);
    trace' := trace + [Step(s, a)];
    PastIsScheduled(trace', asked, Input([], false));
    schedule' := Reschedule(asked, |trace'| - 1, Input([], false));
  }

  lemma ActionOfServer(s: State, a: Action)
    requires OfServer(a) && Enabled(s, a)
    ensures Step(s, a) == ServerMoves(s, a.ServerReads? && a.isQuit)
  {
    assert a == ServerAction(s.server, a.ServerReads? && a.isQuit);
  }

  lemma ScheduleAction(trace: seq<State>, schedule: nat -> Input, a: Action)
    returns (trace': seq<State>, schedule': nat -> Input)
    requires IsTrace(trace, schedule) && Enabled(Before(trace, |trace| - 1, schedule), a)
    ensures IsTrace(trace', schedule') && trace <= trace'
    ensures Before(trace', |trace'| - 1, schedule') == Step(Before(trace, |trace| - 1, schedule), a)
  {
    if OfServer(a) {
      trace', schedule' := ScheduleServer(trace, schedule, a);
    } else {
      trace' := trace;
      schedule' := ScheduleClient(trace, schedule, a);
    }
  }

  ghost predicate Interleaving(run: seq<State>) {
    |run| > 0 && forall i | 0 <= i < |run| - 1 :: Follows(run, i)
  }

  lemma OneStepLess(run: seq<State>)
    requires Interleaving(run) && |run| > 1
    ensures Interleaving(run[..|run| - 1]) && run[..|run| - 1][|run| - 2] == run[|run| - 2]
    ensures Follows(run, |run| - 2)
  {
    var n := |run| - 1;
    forall i | 0 <= i < n - 1 ensures Follows(run[..n], i) {
      assert Follows(run, i);
      FollowsInPrefix(run, n, i);
    }
  }

  lemma FollowsInPrefix(run: seq<State>, n: nat, i: nat)
    requires i + 1 < n <= |run| && Follows(run, i)
    ensures Follows(run[..n], i)
  {
    assert run[..n][i] == run[i] && run[..n][i + 1] == run[i + 1];
  }

  lemma ScheduleLast(run: seq<State>, trace: seq<State>, schedule: nat -> Input)
    returns (trace': seq<State>, schedule': nat -> Input)
    requires |run| > 1 && Follows(run, |run| - 2) && IsTrace(trace, schedule)
    requires Before(trace, |trace| - 1, schedule) == run[|run| - 2]
    ensures IsTrace(trace', schedule') && trace <= trace'
    ensures Before(trace', |trace'| - 1, schedule') == run[|run| - 1]
  {
    var a :| Enabled(run[|run| - 2], a) && run[|run| - 1] == Step(run[|run| - 2], a);
    trace', schedule' := ScheduleAction(trace, schedule, a);
  }

  /** However server and clients take turns, some schedule says so: with it the server makes its steps as listed in
      the trace, and the clients bring it to the same end. */
  lemma {:induction false} EveryInterleavingIsScheduled(run: seq<State>)
    returns (trace: seq<State>, schedule: nat -> Input)
    requires Interleaving(run) && Inv(run[0])
    ensures IsTrace(trace, schedule) && trace[0] == run[0]
    ensures Before(trace, |trace| - 1, schedule) == run[|run| - 1]
    decreases |run|
  {
    var n := |run| - 1;
    if n == 0 {
      trace, schedule := run, _ => Input([], false);
    } else {
      OneStepLess(run);
      trace, schedule := EveryInterleavingIsScheduled(run[..n]);
      trace, schedule := ScheduleLast(run, trace, schedule);
    }
  }

  class Server {
    const maxClients: nat
    var sem: seq<nat>
    var logic: seq<SemBuf>
    var clients: seq<Client>
    var acquires: nat
    var releases: nat
    var draws: seq<nat>
    var lost: seq<nat>
    var joins: nat
    var blind: nat

    function View(pc: ServerPc): State
      reads this
    {
      State(maxClients, sem, pc, logic, clients, acquires, releases, draws, lost, joins, blind)
    }

    /** The trace ends here, with the server at pc. */
    ghost predicate At(trace: seq<State>, pc: ServerPc, schedule: nat -> Input)
      reads this
    {
      IsTrace(trace, schedule) && trace[|trace| - 1] == View(pc)
    }

    /** The server is at pc and about to make its next step, the clients having run. */
    ghost predicate OnTurn(trace: seq<State>, pc: ServerPc, schedule: nat -> Input)
      reads this
    {
      IsTrace(trace, schedule) && View(pc) == Before(trace, |trace| - 1, schedule)
    }

    /** semget and SETVAL in main, before any client. */
    constructor (maxClients: nat, clients: nat)
      ensures Init(View(Sync)) && Inv(View(Sync))
      ensures this.maxClients == maxClients && |this.clients| == clients
    {
      this.maxClients := maxClients;
      sem := seq(2 + maxClients, k => if k == 0 then 2 else 0);
      draws := seq(2 + maxClients, _ => 0);
      lost := seq(2 + maxClients, _ => 0);
      logic := SYNC_OPS;
      this.clients := seq(clients, _ => Outside);
      acquires, releases, joins, blind := 0, 0, 0, 0;
    }

    /** The clients run until the server makes its step number n. */
    method RunClients(pc: ServerPc, n: nat, ghost trace: seq<State>, schedule: nat -> Input)
      requires At(trace, pc, schedule) && |trace| == n + 1
      modifies this`sem, this`clients, this`acquires, this`draws, this`joins, this`blind
      ensures OnTurn(trace, pc, schedule)
    {
      ClientsActKeeps(View(pc), schedule(n).acts);
      var v := ClientsAct(View(pc), schedule(n).acts);
      sem, clients, acquires, draws, joins, blind := v.sem, v.clients, v.acquires, v.draws, v.joins, v.blind;
    }

    /** semop(sem_id, logic, 3), which passes or leaves the server waiting. */
    method TrySync(ghost trace: seq<State>, ghost schedule: nat -> Input)
      returns (pc: ServerPc, ghost trace': seq<State>)
      requires OnTurn(trace, Sync, schedule)
      modifies this`sem
      ensures |sem| > 1 && sem == old(sem) && pc == if sem[1] == 1 then Compare else Sync
      ensures trace' == trace + [View(pc)] && At(trace', pc, schedule)
    {
      ghost var s := View(Sync);
      TraceInv(trace, |trace| - 1, schedule);
      SyncPassesAtOne(sem);
      var r := SemOp(sem, logic);
      pc := Sync;
      if r.Done? {
        sem := r.sem;
        pc := Compare;
      }
      StepMade(trace, s, View(pc), schedule);
      trace' := trace + [View(pc)];
    }

    /** The two strcmp with "quit". */
    method CompareMessage(isQuit: bool, ghost trace: seq<State>, ghost schedule: nat -> Input)
      returns (pc: ServerPc, ghost trace': seq<State>)
      requires OnTurn(trace, Compare, schedule) && isQuit == schedule(|trace| - 1).isQuit
      ensures pc == if isQuit then Stopped else if maxClients == 0 then Release else Broadcast(2)
      ensures trace' == trace + [View(pc)] && At(trace', pc, schedule)
    {
      TraceInv(trace, |trace| - 1, schedule);
      pc := if isQuit then Stopped else if maxClients == 0 then Release else Broadcast(2);
      StepMade(trace, View(Compare), View(pc), schedule);
      trace' := trace + [View(pc)];
    }

    /** logic[0] = {i, 1}; semop(sem_id, logic, 1), whose result is not looked at. */
    method Wake(i: nat, ghost trace: seq<State>, ghost schedule: nat -> Input)
      returns (pc: ServerPc, ghost trace': seq<State>)
      requires OnTurn(trace, Broadcast(i), schedule)
      modifies this`sem, this`logic, this`lost
      ensures Enabled(old(View(Broadcast(i))), ServerWakes)
      ensures View(pc) == Step(old(View(Broadcast(i))), ServerWakes)
      ensures i < 2 + maxClients && pc == if i + 1 < 2 + maxClients then Broadcast(i + 1) else Release
      ensures trace' == trace + [View(pc)] && At(trace', pc, schedule)
    {
      ghost var s := View(Broadcast(i));
      TraceInv(trace, |trace| - 1, schedule);
      WakeEffect(s);
      logic := logic[0 := WakeOp(i)];
      var r := SemOp(sem, logic[..1]);
      match r {
        case Done(after) => sem := after;
        case Fails => lost := AddOne(lost, i);
        case Blocks =>
      }
      pc := if i + 1 < 2 + maxClients then Broadcast(i + 1) else Release;
      StepMade(trace, s, View(pc), schedule);
      trace' := trace + [View(pc)];
    }

    /** logic[0] = {1, -1}; semop(sem_id, logic, 1) */
    method ReleaseLock(ghost trace: seq<State>, ghost schedule: nat -> Input) returns (ghost trace': seq<State>)
      requires OnTurn(trace, Release, schedule)
      modifies this`sem, this`logic, this`releases
      ensures Enabled(old(View(Release)), ServerReleases)
      ensures View(Sync) == Step(old(View(Release)), ServerReleases)
      ensures releases == acquires == old(releases) + 1
      ensures trace' == trace + [View(Sync)] && At(trace', Sync, schedule)
    {
      ghost var s := View(Release);
      TraceInv(trace, |trace| - 1, schedule);
      ReleaseEffect(s);
      logic := logic[0 := SemBuf(1, -1)];
      sem := After(sem, logic[..1]);
      releases := releases + 1;
      StepMade(trace, s, View(Sync), schedule);
      trace' := trace + [View(Sync)];
    }

    /** for (int i = 2; i < 2 + MAX_CLIENTS; i++), with the clients running before each wake-up. */
    method WakeAll(ghost trace: seq<State>, n: nat, schedule: nat -> Input)
      returns (ghost trace': seq<State>, n': nat)
      requires At(trace, if maxClients == 0 then Release else Broadcast(2), schedule) && |trace| == n + 1
      modifies this`sem, this`logic, this`clients, this`acquires, this`draws, this`lost, this`joins, this`blind
      ensures trace <= trace' && |trace'| == n' + 1 && n' == n + maxClients
      ensures At(trace', Release, schedule)
    {
      var i, pc := 2, if maxClients == 0 then Release else Broadcast(2);
      trace', n' := trace, n;
      while pc.Broadcast?
        invariant 2 <= i <= 2 + maxClients && n' == n + i - 2
        invariant pc == if i < 2 + maxClients then Broadcast(i) else Release
        invariant trace <= trace' && |trace'| == n' + 1 && At(trace', pc, schedule)
        decreases 2 + maxClients - i
      {
        RunClients(pc, n', trace', schedule);
        pc, trace' := Wake(i, trace', schedule);
        i, n' := i + 1, n' + 1;
      }
    }

    /** The loop body after the sync: the comparison with "quit", the wake-ups and the release. Whatever
        the clients do meanwhile, no operation of the server blocks and no client gets the lock. */
    method Round(ghost trace: seq<State>, n: nat, schedule: nat -> Input)
      returns (pc: ServerPc, ghost trace': seq<State>, n': nat)
      requires At(trace, Compare, schedule) && |trace| == n + 1
      modifies this`sem, this`logic, this`clients, this`acquires, this`releases, this`draws,
        this`lost, this`joins, this`blind
      ensures pc == if schedule(n).isQuit then Stopped else Sync
      ensures trace < trace' && |trace'| == n' + 1 && At(trace', pc, schedule)
      ensures n' == if pc.Stopped? then n + 1 else n + maxClients + 2
      ensures acquires == old(acquires)
      ensures releases == if pc.Stopped? then old(releases) else old(releases) + 1
    {
      HeldLock(trace, schedule);
      pc, trace', n' := StepCompare(trace, n, schedule);
      if pc.Stopped? {
        HeldLock(trace', schedule);
        return;
      }
      trace', n' := WakeAll(trace', n', schedule);
      RunClients(Release, n', trace', schedule);
      trace' := ReleaseLock(trace', schedule);
      pc, n' := Sync, n' + 1;
    }

    method StepCompare(ghost trace: seq<State>, n: nat, schedule: nat -> Input)
      returns (pc: ServerPc, ghost trace': seq<State>, n': nat)
      requires At(trace, Compare, schedule) && |trace| == n + 1
      modifies this`sem, this`clients, this`acquires, this`draws, this`joins, this`blind
      ensures pc == if schedule(n).isQuit then Stopped else if maxClients == 0 then Release else Broadcast(2)
      ensures trace < trace' && n' == n + 1 && |trace'| == n' + 1 && At(trace', pc, schedule)
    {
      RunClients(Compare, n, trace, schedule);
      pc, trace' := CompareMessage(schedule(n).isQuit, trace, schedule);
      n' := n + 1;
    }

    /** One try at the first semop, and the round if it passes. */
    method TryRound(ghost trace: seq<State>, n: nat, schedule: nat -> Input)
      returns (pc: ServerPc, released: bool, ghost trace': seq<State>, n': nat)
      requires At(trace, Sync, schedule) && |trace| == n + 1
      modifies this
      ensures pc.Stopped? || pc.Sync?
      ensures trace < trace' && |trace'| == n' + 1 && At(trace', pc, schedule)
      ensures releases == if released then old(releases) + 1 else old(releases)
    {
      RunClients(Sync, n, trace, schedule);
      pc, trace' := TrySync(trace, schedule);
      released, n' := false, n + 1;
      if pc.Compare? {
        pc, trace', n' := Round(trace', n', schedule);
        released := pc.Sync?;
      }
    }

    /** while (!isExit), for at most a number of tries at the first semop. The trace lists the server's steps, and tries
        those at which it tried its semop. It leaves at the first "quit" it gets to see, with the lock held; otherwise
        it has made all its tries. */
    method Serve(turns: nat, schedule: nat -> Input)
      returns (pc: ServerPc, rounds: nat, ghost trace: seq<State>, ghost tries: seq<nat>)
      requires Inv(View(Sync))
      modifies this
      ensures Inv(View(pc)) && At(trace, pc, schedule) && trace[0] == old(View(Sync))
      ensures pc.Sync? || pc.Stopped?
      ensures |tries| <= turns && (pc.Sync? ==> |tries| == turns)
      ensures forall k | 0 <= k < |tries| :: tries[k] < |trace| - 1 && trace[tries[k]].server.Sync?
      ensures forall j, k | 0 <= j < k < |tries| :: tries[j] < tries[k]
      ensures releases == old(releases) + rounds && rounds <= |tries|
      ensures acquires == releases + sem[1] && (pc.Stopped? ==> sem[1] == 1)
    {
      pc, rounds, trace, tries := Sync, 0, [View(Sync)], [];
      var n, turn := 0, 0;
      while pc.Sync? && turn < turns
        invariant pc.Sync? || pc.Stopped?
        invariant At(trace, pc, schedule) && |trace| == n + 1 && trace[0] == old(View(Sync))
        invariant 0 <= turn == |tries| <= turns
        invariant forall k | 0 <= k < |tries| :: tries[k] < n && trace[tries[k]].server.Sync?
        invariant forall j, k | 0 <= j < k < |tries| :: tries[j] < tries[k]
        invariant releases == old(releases) + rounds && rounds <= turn
        decreases turns - turn
      {
        tries := tries + [n];
        var released;
        pc, released, trace, n := TryRound(trace, n, schedule);
        rounds, turn := if released then rounds + 1 else rounds, turn + 1;
      }
      TraceInv(trace, n, schedule);
    }
  }
}
