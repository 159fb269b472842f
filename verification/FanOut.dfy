/**
 The message-queue chat (les16_IPC_objects/src/server.c, with client.c as its environment).
 One thread counts joining clients while another copies every message once per counted client.
 Each queue only ever holds messages of one type, so msgrcv takes the oldest.
 */
module FanOut {

  datatype Message = Message(username: string, text: string)

  /** The counting thread: at the test of isExit, in msgrcv, at clients_number++. */
  datatype ServicePc = Ready | Listening | Counting | ServiceDone

  /** The redirecting thread: at the test of isExit, in msgrcv, at the test i < clients_number, at msgsnd. */
  datatype RedirectPc =
    | Waiting
    | Receiving
    | Testing(message: Message, i: nat, before: nat)
    | Sending(message: Message, i: nat, before: nat)
    | RedirectDone

  /** A message that has been dealt with: how many clients were counted when it was taken, and its copies. */
  datatype Delivery = Delivery(message: Message, before: nat, copies: nat)

  /** joins, posted, delivered, sent and received are history: join messages, messages posted by clients,
      messages dealt with, copies put on the client queue, and copies taken off it. */
  datatype State = State(
    clientsNumber: nat, isExit: bool,
    service: ServicePc, redirect: RedirectPc,
    joinQueue: seq<string>, middle: seq<Message>, clientQueue: seq<Message>,
    joins: nat, posted: seq<Message>, delivered: seq<Delivery>, sent: seq<Message>, received: nat)

  datatype Action =
    | Join(username: string)
    | Post(message: Message)
    | Receive
    | ServiceLoops
    | ServiceTakes
    | ServiceCounts
    | RedirectLoops
    | RedirectTakes
    | RedirectTests
    | RedirectSends
    | Stop

  predicate Enabled(s: State, a: Action) {
    match a
    case Join(_) => true
    case Post(_) => true
    case Receive => s.clientQueue != []
    case ServiceLoops => s.service.Ready?
    case ServiceTakes => s.service.Listening? && s.joinQueue != []
    case ServiceCounts => s.service.Counting?
    case RedirectLoops => s.redirect.Waiting?
    case RedirectTakes => s.redirect.Receiving? && s.middle != []
    case RedirectTests => s.redirect.Testing?
    case RedirectSends => s.redirect.Sending?
    case Stop => true
  }

  function Step(s: State, a: Action): State
    requires Enabled(s, a)
  {
    match a
    case Join(username) => s.(joinQueue := s.joinQueue + [username], joins := s.joins + 1)
    case Post(m) => s.(middle := s.middle + [m], posted := s.posted + [m])
    case Receive => s.(clientQueue := s.clientQueue[1..], received := s.received + 1)
    case ServiceLoops => s.(service := if s.isExit then ServiceDone else Listening)
    case ServiceTakes => s.(joinQueue := s.joinQueue[1..], service := Counting)
    case ServiceCounts => s.(clientsNumber := s.clientsNumber + 1, service := Ready)
    case RedirectLoops => s.(redirect := if s.isExit then RedirectDone else Receiving)
    case RedirectTakes =>
      s.(middle := s.middle[1..], redirect := Testing(s.middle[0], 0, s.clientsNumber))
    case RedirectTests =>
      var Testing(m, i, before) := s.redirect;
      if i < s.clientsNumber then s.(redirect := Sending(m, i, before))
      else s.(redirect := Waiting, delivered := s.delivered + [Delivery(m, before, i)])
    case RedirectSends =>
      var Sending(m, i, before) := s.redirect;
      s.(redirect := Testing(m, i + 1, before), clientQueue := s.clientQueue + [m], sent := s.sent + [m])
    case Stop => s.(isExit := true)
  }

  ghost predicate Init(s: State) {
    && s.clientsNumber == 0 && !s.isExit
    && s.service.Ready? && s.redirect.Waiting?
    && s.joinQueue == [] && s.middle == [] && s.clientQueue == []
    && s.joins == 0 && s.posted == [] && s.delivered == [] && s.sent == [] && s.received == 0
  }

  // ---------------------------------------------------------------------- invariants

  function Copies(m: Message, n: nat): seq<Message> { seq(n, _ => m) }

  lemma OneMoreCopy(sent: seq<Message>, m: Message, n: nat)
    ensures sent + Copies(m, n + 1) == sent + Copies(m, n) + [m]
  {
    assert Copies(m, n + 1) == Copies(m, n) + [m];
  }

  /** All copies of all dealt-with messages, in order. */
  function Flatten(ds: seq<Delivery>): seq<Message> {
    if ds == [] then [] else
      var d := ds[|ds| - 1];
      Flatten(ds[..|ds| - 1]) + Copies(d.message, d.copies)
  }

  function Messages(ds: seq<Delivery>): seq<Message> {
    seq(|ds|, k requires 0 <= k < |ds| => ds[k].message)
  }

  function InHand(pc: RedirectPc): seq<Message> {
    if pc.Testing? || pc.Sending? then [pc.message] else []
  }

  function Partial(pc: RedirectPc): seq<Message> {
    if pc.Testing? || pc.Sending? then Copies(pc.message, pc.i) else []
  }

  /** Later messages go to at least as many clients, and each to all counted while it was copied. */
  ghost predicate CountsGrow(ds: seq<Delivery>, now: nat) {
    && (forall k | 0 <= k < |ds| :: ds[k].before <= ds[k].copies <= now)
    && (forall j, k | 0 <= j < k < |ds| :: ds[j].copies <= ds[k].before)
  }

  ghost predicate Inv(s: State) {
    && s.joins == |s.joinQueue| + (if s.service.Counting? then 1 else 0) + s.clientsNumber
    && s.posted == Messages(s.delivered) + InHand(s.redirect) + s.middle
    && s.sent == Flatten(s.delivered) + Partial(s.redirect)
    && s.received <= |s.sent| && s.clientQueue == s.sent[s.received..]
    && CountsGrow(s.delivered, s.clientsNumber)
    && (s.redirect.Testing? ==> s.redirect.i <= s.clientsNumber)
    && (s.redirect.Sending? ==> s.redirect.i < s.clientsNumber)
    && (s.redirect.Testing? || s.redirect.Sending? ==>
          && s.redirect.before <= s.clientsNumber
          && CountsGrow(s.delivered, s.redirect.before))
  }

  lemma TakeInv(s: State)
    requires Inv(s) && Enabled(s, RedirectTakes)
    ensures Inv(Step(s, RedirectTakes))
  {
  }

  lemma HistoryGrows(ds: seq<Delivery>, d: Delivery)
    ensures Messages(ds + [d]) == Messages(ds) + [d.message]
    ensures Flatten(ds + [d]) == Flatten(ds) + Copies(d.message, d.copies)
  {
    assert (ds + [d])[..|ds|] == ds;
  }

  lemma CountsKeepGrowing(ds: seq<Delivery>, d: Delivery, now: nat)
    requires CountsGrow(ds, d.before) && d.before <= d.copies <= now
    ensures CountsGrow(ds + [d], now)
  {
  }

  lemma LoopEndInv(s: State)
    requires Inv(s) && s.redirect.Testing? && s.redirect.i >= s.clientsNumber
    ensures Inv(Step(s, RedirectTests))
  {
    var s' := Step(s, RedirectTests);
    var d := Delivery(s.redirect.message, s.redirect.before, s.redirect.i);
    assert s' == s.(redirect := Waiting, delivered := s.delivered + [d]);
    CountsKeepGrowing(s.delivered, d, s.clientsNumber);
    DeliveryCloses(s.delivered, d, s.middle);
  }

  /** The message in hand and its copies become the last delivery. */
  lemma DeliveryCloses(ds: seq<Delivery>, d: Delivery, middle: seq<Message>)
    ensures Messages(ds) + [d.message] + middle == Messages(ds + [d]) + [] + middle
    ensures Flatten(ds) + Copies(d.message, d.copies) == Flatten(ds + [d]) + []
  {
    HistoryGrows(ds, d);
  }

  lemma TestInv(s: State)
    requires Inv(s) && Enabled(s, RedirectTests)
    ensures Inv(Step(s, RedirectTests))
  {
    if s.redirect.i >= s.clientsNumber {
      LoopEndInv(s);
    }
  }

  lemma SendInv(s: State)
    requires Inv(s) && Enabled(s, RedirectSends)
    ensures Inv(Step(s, RedirectSends))
  {
  }

  lemma ClientInv(s: State, a: Action)
    requires Inv(s) && Enabled(s, a) && (a.Join? || a.Post? || a.Receive?)
    ensures Inv(Step(s, a))
  {
  }

  lemma ServiceInv(s: State, a: Action)
    requires Inv(s) && Enabled(s, a) && (a.ServiceLoops? || a.ServiceTakes? || a.ServiceCounts?)
    ensures Inv(Step(s, a))
  {
  }

  lemma StepInv(s: State, a: Action)
    requires Inv(s) && Enabled(s, a)
    ensures Inv(Step(s, a))
  {
    if a.RedirectTakes? {
      TakeInv(s);
    } else if a.RedirectTests? {
      TestInv(s);
    } else if a.RedirectSends? {
      SendInv(s);
    } else if a.Join? || a.Post? || a.Receive? {
      ClientInv(s, a);
    } else if a.ServiceLoops? || a.ServiceTakes? || a.ServiceCounts? {
      ServiceInv(s, a);
    }
  }

  // -------------------------------------------------------------------------- runs

  ghost predicate Follows(trace: seq<State>, i: nat)
    requires i + 1 < |trace|
  {
    exists a :: Enabled(trace[i], a) && trace[i + 1] == Step(trace[i], a)
  }

  ghost predicate Run(trace: seq<State>) {
    && |trace| > 0 && Init(trace[0])
    && forall i | 0 <= i < |trace| - 1 :: Follows(trace, i)
  }

  lemma {:induction false} RunInv(trace: seq<State>, n: nat)
    requires Run(trace) && n < |trace|
    ensures Inv(trace[n])
  {
    if n > 0 {
      RunInv(trace, n - 1);
      assert Follows(trace, n - 1);
      var a :| Enabled(trace[n - 1], a) && trace[n] == Step(trace[n - 1], a);
      StepInv(trace[n - 1], a);
    }
  }

  /** Only being told to stop ends a thread. */
  lemma {:induction false} ThreadsEndOnlyWhenTold(trace: seq<State>, n: nat)
    requires Run(trace) && n < |trace|
    ensures trace[n].service.ServiceDone? || trace[n].redirect.RedirectDone? ==> trace[n].isExit
  {
    if n > 0 {
      ThreadsEndOnlyWhenTold(trace, n - 1);
      assert Follows(trace, n - 1);
      var a :| Enabled(trace[n - 1], a) && trace[n] == Step(trace[n - 1], a);
      StepEndsOnlyWhenTold(trace[n - 1], a);
    }
  }

  lemma StepEndsOnlyWhenTold(s: State, a: Action)
    requires Enabled(s, a)
    requires s.service.ServiceDone? || s.redirect.RedirectDone? ==> s.isExit
    ensures var s' := Step(s, a); s'.service.ServiceDone? || s'.redirect.RedirectDone? ==> s'.isExit
    ensures s.isExit ==> Step(s, a).isExit
  {
  }

  /** The order is for good, and a thread that comes to its test of it ends. */
  lemma {:induction false} StopIsObeyed(trace: seq<State>, m: nat, n: nat)
    requires Run(trace) && m < n < |trace| && trace[m + 1] == Step(trace[m], Stop)
    ensures var s := trace[n];
            && s.isExit
            && (s.service.Ready? ==> Enabled(s, ServiceLoops) && Step(s, ServiceLoops).service.ServiceDone?)
            && (s.redirect.Waiting? ==> Enabled(s, RedirectLoops) && Step(s, RedirectLoops).redirect.RedirectDone?)
  {
    if m + 1 < n {
      StopIsObeyed(trace, m, n - 1);
      assert Follows(trace, n - 1);
      var a :| Enabled(trace[n - 1], a) && trace[n] == Step(trace[n - 1], a);
      StepKeepsStop(trace[n - 1], a);
    }
  }

  lemma StepKeepsStop(s: State, a: Action)
    requires Enabled(s, a) && s.isExit
    ensures Step(s, a).isExit
  {
  }

  /** Although clients keep joining, the redirect loop ends for a message exactly when it has been
      copied once for every client counted at that moment. */
  lemma LoopEndsAtClientCount(trace: seq<State>, n: nat)
    requires Run(trace) && n + 1 < |trace|
    requires trace[n].redirect.Testing? && trace[n + 1] == Step(trace[n], RedirectTests)
    ensures trace[n + 1].redirect.Waiting? <==> trace[n].redirect.i == trace[n].clientsNumber
    ensures trace[n + 1].redirect.Waiting? ==>
            trace[n + 1].delivered == trace[n].delivered
              + [Delivery(trace[n].redirect.message, trace[n].redirect.before, trace[n].clientsNumber)]
  {
    RunInv(trace, n);
  }

  lemma {:induction false} FlattenLength(ds: seq<Delivery>)
    ensures |Flatten(ds)| == TotalCopies(ds)
  {
    if ds != [] {
      FlattenLength(ds[..|ds| - 1]);
    }
  }

  function TotalCopies(ds: seq<Delivery>): nat {
    if ds == [] then 0 else TotalCopies(ds[..|ds| - 1]) + ds[|ds| - 1].copies
  }

  /** No message is lost, repeated or reordered on its way: posted messages are the delivered ones, the one
      in hand and the waiting ones; copies come out in blocks in posting order; the client queue holds
      the copies not yet received, and as many as were made less those received. */
  lemma QueuesConserveMessages(trace: seq<State>, n: nat)
    requires Run(trace) && n < |trace|
    ensures var s := trace[n];
            && s.posted == Messages(s.delivered) + InHand(s.redirect) + s.middle
            && s.sent == Flatten(s.delivered) + Partial(s.redirect)
            && s.received <= |s.sent| && s.clientQueue == s.sent[s.received..]
            && |s.clientQueue| == TotalCopies(s.delivered) + |Partial(s.redirect)| - s.received
            && CountsGrow(s.delivered, s.clientsNumber)
            && s.clientsNumber <= s.joins
  {
    RunInv(trace, n);
    FlattenLength(trace[n].delivered);
  }

  // --------------------------------------------------- the redirect loop, imperatively

  predicate OfOthers(a: Action) {
    !a.RedirectLoops? && !a.RedirectTakes? && !a.RedirectTests? && !a.RedirectSends?
  }

  /** What the service thread and the clients do between two steps of the redirecting thread. */
  function OthersAct(s: State, acts: seq<Action>): State
    decreases |acts|
  {
    if acts == [] then s
    else OthersAct(if OfOthers(acts[0]) && Enabled(s, acts[0]) then Step(s, acts[0]) else s, acts[1..])
  }

  lemma {:induction false} OthersActInv(s: State, acts: seq<Action>)
    requires Inv(s)
    ensures Inv(OthersAct(s, acts))
    decreases |acts|
  {
    if acts != [] {
      var a := acts[0];
      if OfOthers(a) && Enabled(s, a) {
        StepInv(s, a);
        OthersActInv(Step(s, a), acts[1..]);
      } else {
        OthersActInv(s, acts[1..]);
      }
    }
  }

  function ActsAt(schedule: seq<seq<Action>>, n: nat): seq<Action> { if n < |schedule| then schedule[n] else [] }

  /** One step of the redirecting thread, which waits while there is no message. */
  function Redirects(s: State): State {
    match s.redirect
    case Waiting => Step(s, RedirectLoops)
    case Receiving => if s.middle == [] then s else Step(s, RedirectTakes)
    case Testing(_, _, _) => Step(s, RedirectTests)
    case Sending(_, _, _) => Step(s, RedirectSends)
    case RedirectDone => s
  }

  /** The state in which the thread makes its step number n. */
  function Before(trace: seq<State>, n: nat, schedule: seq<seq<Action>>): State
    requires n < |trace|
  {
    OthersAct(trace[n], ActsAt(schedule, n))
  }

  predicate MovesAt(trace: seq<State>, n: nat, schedule: seq<seq<Action>>)
    requires n + 1 < |trace|
  {
    trace[n + 1] == Redirects(Before(trace, n, schedule))
  }

  /** The states after 0, 1, 2, .. steps of the redirecting thread, from one that meets the invariant. */
  ghost predicate IsTrace(trace: seq<State>, schedule: seq<seq<Action>>) {
    |trace| > 0 && Inv(trace[0]) && forall n | 0 <= n < |trace| - 1 :: MovesAt(trace, n, schedule)
  }

  lemma TraceGrows(trace: seq<State>, schedule: seq<seq<Action>>)
    requires IsTrace(trace, schedule)
    ensures IsTrace(trace + [Redirects(Before(trace, |trace| - 1, schedule))], schedule)
  {
    var more := trace + [Redirects(Before(trace, |trace| - 1, schedule))];
    forall n | 0 <= n < |more| - 1 ensures MovesAt(more, n, schedule) {
      if n < |trace| - 1 {
        assert MovesAt(trace, n, schedule);
      }
    }
  }

  lemma RedirectsInv(s: State)
    requires Inv(s)
    ensures Inv(Redirects(s))
  {
    match s.redirect
    case Waiting => StepInv(s, RedirectLoops);
    case Receiving => if s.middle != [] { StepInv(s, RedirectTakes); }
    case Testing(_, _, _) => StepInv(s, RedirectTests);
    case Sending(_, _, _) => StepInv(s, RedirectSends);
    case RedirectDone =>
  }

  /** The invariant holds all along a trace, also when the others have run. */
  lemma {:induction false} TraceInv(trace: seq<State>, n: nat, schedule: seq<seq<Action>>)
    requires IsTrace(trace, schedule) && n < |trace|
    ensures Inv(trace[n]) && Inv(Before(trace, n, schedule))
  {
    if n > 0 {
      TraceInv(trace, n - 1, schedule);
      assert MovesAt(trace, n - 1, schedule);
      RedirectsInv(Before(trace, n - 1, schedule));
    }
    OthersActInv(trace[n], ActsAt(schedule, n));
  }

  lemma {:induction false} OthersActKeeps(s: State, acts: seq<Action>)
    ensures var s' := OthersAct(s, acts);
            && s'.redirect == s.redirect && s'.delivered == s.delivered && s'.sent == s.sent
            && s.clientsNumber <= s'.clientsNumber
            && (acts == [] ==> s' == s)
    decreases |acts|
  {
    if acts != [] {
      OthersActKeeps(if OfOthers(acts[0]) && Enabled(s, acts[0]) then Step(s, acts[0]) else s, acts[1..]);
    }
  }

  lemma StepMade(trace: seq<State>, s: State, s': State, schedule: seq<seq<Action>>)
    requires IsTrace(trace, schedule) && s == Before(trace, |trace| - 1, schedule) && s' == Redirects(s)
    ensures IsTrace(trace + [s'], schedule)
  {
    TraceGrows(trace, schedule);
  }

  // -------------------------------------------------------------- the counting thread

  /** The steps the counting thread makes for one join message that waits. */
  function CountOne(pc: ServicePc): seq<Action> {
    match pc
    case Ready => [ServiceLoops, ServiceTakes, ServiceCounts]
    case Listening => [ServiceTakes, ServiceCounts]
    case Counting => [ServiceCounts]
    case ServiceDone => []
  }

  lemma OneIsCounted(s: State)
    requires !s.isExit && !s.service.ServiceDone? && (s.service.Counting? || s.joinQueue != [])
    ensures OthersAct(s, CountOne(s.service))
            == s.(clientsNumber := s.clientsNumber + 1, service := Ready,
                  joinQueue := if s.service.Counting? then s.joinQueue else s.joinQueue[1..])
  {
    var s1 := if s.service.Ready? then Step(s, ServiceLoops) else s;
    var s2 := if s1.service.Listening? then Step(s1, ServiceTakes) else s1;
    var last := [ServiceCounts];
    assert last[1..] == [] && [ServiceTakes, ServiceCounts][1..] == last;
    assert [ServiceLoops, ServiceTakes, ServiceCounts][1..] == [ServiceTakes, ServiceCounts];
    assert OthersAct(s2, last) == Step(s2, ServiceCounts);
  }

  lemma {:induction false} OthersActTwice(s: State, a: seq<Action>, b: seq<Action>)
    ensures OthersAct(s, a + b) == OthersAct(OthersAct(s, a), b)
    decreases |a|
  {
    if a == [] {
      assert a + b == b;
    } else {
      assert (a + b)[1..] == a[1..] + b;
      OthersActTwice(if OfOthers(a[0]) && Enabled(s, a[0]) then Step(s, a[0]) else s, a[1..], b);
    }
  }

  predicate OfService(a: Action) { a.ServiceLoops? || a.ServiceTakes? || a.ServiceCounts? }

  /** Left to itself and not told to stop, the counting thread counts every client that has joined. */
  lemma {:induction false} EveryJoinIsCounted(s: State) returns (acts: seq<Action>)
    requires Inv(s) && !s.isExit && !s.service.ServiceDone?
    ensures forall a | a in acts :: OfService(a)
    ensures var s' := OthersAct(s, acts);
            s' == s.(clientsNumber := s.joins, joinQueue := [], service := s'.service) && !s'.service.ServiceDone?
    decreases s.joins - s.clientsNumber
  {
    if s.joinQueue == [] && !s.service.Counting? {
      acts := [];
    } else {
      var first := CountOne(s.service);
      OneIsCounted(s);
      OthersActInv(s, first);
      var rest := EveryJoinIsCounted(OthersAct(s, first));
      OthersActTwice(s, first, rest);
      acts := first + rest;
    }
  }

  /** So a client that joins is counted. */
  lemma JoinedClientIsCounted(s: State, username: string) returns (acts: seq<Action>)
    requires Inv(s) && !s.isExit && !s.service.ServiceDone?
    ensures forall a | a in acts :: OfService(a)
    ensures OthersAct(Step(s, Join(username)), acts).clientsNumber == s.joins + 1
  {
    StepInv(s, Join(username));
    acts := EveryJoinIsCounted(Step(s, Join(username)));
  }

  // --------------------------------------------------------------- a message's way

  /** The actions of a list, each if it can happen. */
  function Perform(s: State, acts: seq<Action>): State
    decreases |acts|
  {
    if acts == [] then s else Perform(if Enabled(s, acts[0]) then Step(s, acts[0]) else s, acts[1..])
  }

  lemma {:induction false} PerformTwice(s: State, a: seq<Action>, b: seq<Action>)
    ensures Perform(s, a + b) == Perform(Perform(s, a), b)
    decreases |a|
  {
    if a == [] {
      assert a + b == b;
    } else {
      assert (a + b)[1..] == a[1..] + b;
      PerformTwice(if Enabled(s, a[0]) then Step(s, a[0]) else s, a[1..], b);
    }
  }

  /** The rest of the for loop, from its test number i on. */
  lemma {:induction false} LoopCopies(s: State) returns (acts: seq<Action>)
    requires s.redirect.Testing? && s.redirect.i <= s.clientsNumber
    ensures var Testing(m, i, before) := s.redirect;
            var rest := Copies(m, s.clientsNumber - i);
            Perform(s, acts) == s.(redirect := Waiting, clientQueue := s.clientQueue + rest, sent := s.sent + rest,
                                   delivered := s.delivered + [Delivery(m, before, s.clientsNumber)])
    decreases s.clientsNumber - s.redirect.i
  {
    var Testing(m, i, before) := s.redirect;
    if i == s.clientsNumber {
      acts := [RedirectTests];
      assert Perform(Step(s, RedirectTests), acts[1..]) == Step(s, RedirectTests);
    } else {
      var next := Step(Step(s, RedirectTests), RedirectSends);
      var rest := LoopCopies(next);
      var first := [RedirectTests, RedirectSends];
      assert first[1..] == [RedirectSends] && [RedirectSends][1..] == [];
      assert Perform(s, first) == Perform(Step(s, RedirectTests), [RedirectSends]) == next;
      PerformTwice(s, first, rest);
      acts := first + rest;
      assert Copies(m, s.clientsNumber - i) == [m] + Copies(m, s.clientsNumber - i - 1);
    }
  }

  /** A posted message gets to all counted clients, one copy each, behind what waits for them already. */
  lemma PostedMessageReachesClients(s: State, m: Message) returns (acts: seq<Action>)
    requires !s.isExit && s.redirect.Waiting? && s.middle == []
    ensures var copies := Copies(m, s.clientsNumber);
            Perform(s, [Post(m)] + acts)
            == s.(posted := s.posted + [m], clientQueue := s.clientQueue + copies, sent := s.sent + copies,
                  delivered := s.delivered + [Delivery(m, s.clientsNumber, s.clientsNumber)])
  {
    var s1 := Step(s, Post(m));
    var s2 := Step(s1, RedirectLoops);
    var s3 := Step(s2, RedirectTakes);
    var rest := LoopCopies(s3);
    assert s3.middle == [];
    var first := [RedirectLoops, RedirectTakes];
    assert first[1..] == [RedirectTakes] && [RedirectTakes][1..] == [];
    assert Perform(s1, first) == Perform(s2, [RedirectTakes]) == s3;
    PerformTwice(s1, first, rest);
    acts := first + rest;
    assert ([Post(m)] + acts)[1..] == acts;
  }

  /** Copies are received oldest first, until none is left. */
  lemma {:induction false} CopiesAreReceived(s: State, n: nat) returns (acts: seq<Action>)
    requires n <= |s.clientQueue|
    ensures Perform(s, acts) == s.(clientQueue := s.clientQueue[n..], received := s.received + n)
    decreases n
  {
    if n == 0 {
      acts := [];
      assert s.clientQueue[0..] == s.clientQueue;
    } else {
      var rest := CopiesAreReceived(Step(s, Receive), n - 1);
      acts := [Receive] + rest;
      assert acts[1..] == rest;
      assert s.clientQueue[1..][n - 1..] == s.clientQueue[n..];
    }
  }

  // ------------------------------------------------- every interleaving is a schedule

  lemma {:induction false} OthersActAppend(s: State, acts: seq<Action>, a: Action)
    requires OfOthers(a) && Enabled(OthersAct(s, acts), a)
    ensures OthersAct(s, acts + [a]) == Step(OthersAct(s, acts), a)
    decreases |acts|
  {
    if acts == [] {
      assert OthersAct(Step(s, a), ([] + [a])[1..]) == Step(s, a);
    } else {
      assert (acts + [a])[1..] == acts[1..] + [a];
      var next := if OfOthers(acts[0]) && Enabled(s, acts[0]) then Step(s, acts[0]) else s;
      OthersActAppend(next, acts[1..], a);
    }
  }

  lemma PastIsScheduled(trace: seq<State>, schedule: seq<seq<Action>>, later: seq<seq<Action>>)
    requires IsTrace(trace, schedule) && |schedule| == |trace| <= |later|
    requires forall n | 0 <= n < |trace| - 1 :: later[n] == schedule[n]
    ensures IsTrace(trace, later)
  {
    forall n | 0 <= n < |trace| - 1 ensures MovesAt(trace, n, later) {
      assert MovesAt(trace, n, schedule);
    }
  }

  /** A step of another thread or of a client is appended to the schedule. */
  lemma ScheduleOther(trace: seq<State>, schedule: seq<seq<Action>>, a: Action) returns (schedule': seq<seq<Action>>)
    requires IsTrace(trace, schedule) && |schedule| == |trace|
    requires OfOthers(a) && Enabled(Before(trace, |trace| - 1, schedule), a)
    ensures |schedule'| == |trace| && IsTrace(trace, schedule')
    ensures Before(trace, |trace| - 1, schedule') == Step(Before(trace, |trace| - 1, schedule), a)
  {
    var n := |trace| - 1;
    OthersActAppend(trace[n], schedule[n], a);
    schedule' := schedule[n := schedule[n] + [a]];
    PastIsScheduled(trace, schedule, schedule');
  }

  /** A step of the redirecting thread is appended to the trace. */
  lemma ScheduleOwn(trace: seq<State>, schedule: seq<seq<Action>>, a: Action)
    returns (trace': seq<State>, schedule': seq<seq<Action>>)
    requires IsTrace(trace, schedule) && |schedule| == |trace|
    requires !OfOthers(a) && Enabled(Before(trace, |trace| - 1, schedule), a)
    ensures |schedule'| == |trace'| && IsTrace(trace', schedule') && trace <= trace'
    ensures Before(trace', |trace'| - 1, schedule') == Step(Before(trace, |trace| - 1, schedule), a)
  {
    var s := Before(trace, |trace| - 1, schedule);
    schedule' := schedule + [[]];
    PastIsScheduled(trace, schedule, schedule');
    ActionOfThread(s, a);
    StepMade(trace, s, Redirects(s), schedule');
    trace' := trace + [Redirects(s)];
  }

  lemma ActionOfThread(s: State, a: Action)
    requires !OfOthers(a) && Enabled(s, a)
    ensures Step(s, a) == Redirects(s)
  {
  }

  lemma ScheduleAction(trace: seq<State>, schedule: seq<seq<Action>>, a: Action)
    returns (trace': seq<State>, schedule': seq<seq<Action>>)
    requires IsTrace(trace, schedule) && |schedule| == |trace| && Enabled(Before(trace, |trace| - 1, schedule), a)
    ensures |schedule'| == |trace'| && IsTrace(trace', schedule') && trace <= trace'
    ensures Before(trace', |trace'| - 1, schedule') == Step(Before(trace, |trace| - 1, schedule), a)
  {
    if OfOthers(a) {
      trace' := trace;
      schedule' := ScheduleOther(trace, schedule, a);
    } else {
      trace', schedule' := ScheduleOwn(trace, schedule, a);
    }
  }

  ghost predicate Interleaving(run: seq<State>) {
    |run| > 0 && forall i | 0 <= i < |run| - 1 :: Follows(run, i)
  }

  lemma OneStepLess(run: seq<State>)
    requires Interleaving(run) && |run| > 1
    ensures Interleaving(run[..|run| - 1]) && run[..|run| - 1][|run| - 2] == run[|run| - 2]
    ensures Follows(run, |run| - 2)
  {
    var n := |run| - 1;
    forall i | 0 <= i < n - 1 ensures Follows(run[..n], i) {
      assert Follows(run, i);
      FollowsInPrefix(run, n, i);
    }
  }

  lemma FollowsInPrefix(run: seq<State>, n: nat, i: nat)
    requires i + 1 < n <= |run| && Follows(run, i)
    ensures Follows(run[..n], i)
  {
    assert run[..n][i] == run[i] && run[..n][i + 1] == run[i + 1];
  }

  /** However threads and clients take turns, some schedule says so: with it the redirecting thread makes its
      steps as listed in the trace, and the others bring it to the same end. */
  lemma {:induction false} EveryInterleavingIsScheduled(run: seq<State>)
    returns (trace: seq<State>, schedule: seq<seq<Action>>)
    requires Interleaving(run) && Inv(run[0])
    ensures |schedule| == |trace| && IsTrace(trace, schedule) && trace[0] == run[0]
    ensures Before(trace, |trace| - 1, schedule) == run[|run| - 1]
    decreases |run|
  {
    var n := |run| - 1;
    if n == 0 {
      trace, schedule := run, [[]];
    } else {
      OneStepLess(run);
      trace, schedule := EveryInterleavingIsScheduled(run[..n]);
      var a :| Enabled(run[n - 1], a) && run[n] == Step(run[n - 1], a);
      trace, schedule := ScheduleAction(trace, schedule, a);
    }
  }

  /** The server's memory, its queues, and the history. */
  class Relay {
    var clientsNumber: nat
    var isExit: bool
    var service: ServicePc
    var joinQueue: seq<string>
    var middle: seq<Message>
    var clientQueue: seq<Message>
    var joins: nat
    var posted: seq<Message>
    var delivered: seq<Delivery>
    var sent: seq<Message>
    var received: nat

    function View(redirect: RedirectPc): State
      reads this
    {
      State(clientsNumber, isExit, service, redirect, joinQueue, middle, clientQueue,
            joins, posted, delivered, sent, received)
    }

    /** The trace ends here, with the thread at pc. */
    ghost predicate At(trace: seq<State>, pc: RedirectPc, schedule: seq<seq<Action>>)
      reads this
    {
      IsTrace(trace, schedule) && trace[|trace| - 1] == View(pc)
    }

    constructor ()
      ensures Init(View(Waiting)) && Inv(View(Waiting))
    {
      clientsNumber, isExit, service := 0, false, Ready;
      joinQueue, middle, clientQueue := [], [], [];
      joins, posted, delivered, sent, received := 0, [], [], [], 0;
    }

    method MoveTo(v: State)
      modifies this
      ensures View(v.redirect) == v
    {
      clientsNumber, isExit, service := v.clientsNumber, v.isExit, v.service;
      joinQueue, middle, clientQueue := v.joinQueue, v.middle, v.clientQueue;
      joins, posted, delivered, sent, received := v.joins, v.posted, v.delivered, v.sent, v.received;
    }

    /** The thread is at pc and about to make its next step, the others having run. */
    ghost predicate OnTurn(trace: seq<State>, pc: RedirectPc, schedule: seq<seq<Action>>)
      reads this
    {
      IsTrace(trace, schedule) && View(pc) == Before(trace, |trace| - 1, schedule)
    }

    /** The other threads run until the thread makes its step number n. */
    method RunOthers(pc: RedirectPc, n: nat, ghost trace: seq<State>, schedule: seq<seq<Action>>)
      requires At(trace, pc, schedule) && |trace| == n + 1
      modifies this
      ensures OnTurn(trace, pc, schedule)
      ensures delivered == old(delivered) && sent == old(sent)
      ensures old(clientsNumber) <= clientsNumber
      ensures n >= |schedule| ==> clientsNumber == old(clientsNumber) && middle == old(middle)
    {
      OthersActKeeps(View(pc), ActsAt(schedule, n));
      MoveTo(OthersAct(View(pc), ActsAt(schedule, n)));
    }

    /** while (!isExit) */
    method TestExit(ghost trace: seq<State>, ghost schedule: seq<seq<Action>>)
      returns (pc: RedirectPc, ghost trace': seq<State>)
      requires OnTurn(trace, Waiting, schedule)
      ensures pc == if isExit then RedirectDone else Receiving
      ensures trace' == trace + [View(pc)] && At(trace', pc, schedule)
    {
      pc := if isExit then RedirectDone else Receiving;
      StepMade(trace, View(Waiting), View(pc), schedule);
      trace' := trace + [View(pc)];
    }

    /** msgrcv on the middle queue */
    method Take(ghost trace: seq<State>, ghost schedule: seq<seq<Action>>)
      returns (m: Message, ghost trace': seq<State>)
      requires OnTurn(trace, Receiving, schedule) && middle != []
      modifies this`middle
      ensures m == old(middle[0]) && middle == old(middle)[1..]
      ensures var pc := Testing(m, 0, clientsNumber);
              trace' == trace + [View(pc)] && At(trace', pc, schedule)
    {
      ghost var before := View(Receiving);
      m := middle[0];
      middle := middle[1..];
      StepMade(trace, before, View(Testing(m, 0, clientsNumber)), schedule);
      trace' := trace + [View(Testing(m, 0, clientsNumber))];
    }

    /** i < clients_number */
    method Test(m: Message, i: nat, start: nat, ghost trace: seq<State>, ghost schedule: seq<seq<Action>>)
      returns (pc: RedirectPc, ghost trace': seq<State>)
      requires OnTurn(trace, Testing(m, i, start), schedule)
      modifies this`delivered
      ensures pc == if i < clientsNumber then Sending(m, i, start) else Waiting
      ensures i <= clientsNumber
      ensures delivered == if i < clientsNumber then old(delivered) else old(delivered) + [Delivery(m, start, i)]
      ensures trace' == trace + [View(pc)] && At(trace', pc, schedule)
    {
      ghost var before := View(Testing(m, i, start));
      TraceInv(trace, |trace| - 1, schedule);
      pc := if i < clientsNumber then Sending(m, i, start) else Waiting;
      if i >= clientsNumber {
        delivered := delivered + [Delivery(m, start, i)];
      }
      StepMade(trace, before, View(pc), schedule);
      trace' := trace + [View(pc)];
    }

    /** msgsnd on the client queue */
    method Send(m: Message, i: nat, start: nat, ghost trace: seq<State>, ghost schedule: seq<seq<Action>>)
      returns (ghost trace': seq<State>)
      requires OnTurn(trace, Sending(m, i, start), schedule)
      modifies this`clientQueue, this`sent
      ensures clientQueue == old(clientQueue) + [m] && sent == old(sent) + [m]
      ensures var pc := Testing(m, i + 1, start);
              trace' == trace + [View(pc)] && At(trace', pc, schedule)
    {
      ghost var before := View(Sending(m, i, start));
      clientQueue := clientQueue + [m];
      sent := sent + [m];
      StepMade(trace, before, View(Testing(m, i + 1, start)), schedule);
      trace' := trace + [View(Testing(m, i + 1, start))];
    }

    method StepTest(m: Message, i: nat, start: nat, ghost trace: seq<State>, n: nat, schedule: seq<seq<Action>>)
      returns (pc: RedirectPc, ghost trace': seq<State>)
      requires At(trace, Testing(m, i, start), schedule) && |trace| == n + 1
      modifies this
      ensures trace < trace' && |trace'| == n + 2 && At(trace', pc, schedule)
      ensures i <= clientsNumber && old(clientsNumber) <= clientsNumber
      ensures n >= |schedule| ==> clientsNumber == old(clientsNumber) && middle == old(middle)
      ensures pc == if i < clientsNumber then Sending(m, i, start) else Waiting
      ensures sent == old(sent)
      ensures delivered == if i < clientsNumber then old(delivered) else old(delivered) + [Delivery(m, start, i)]
    {
      RunOthers(Testing(m, i, start), n, trace, schedule);
      pc, trace' := Test(m, i, start, trace, schedule);
    }

    method StepSend(m: Message, i: nat, start: nat, ghost trace: seq<State>, n: nat, schedule: seq<seq<Action>>)
      returns (ghost trace': seq<State>)
      requires At(trace, Sending(m, i, start), schedule) && |trace| == n + 1
      modifies this
      ensures trace < trace' && |trace'| == n + 2
      ensures At(trace', Testing(m, i + 1, start), schedule)
      ensures old(clientsNumber) <= clientsNumber
      ensures n >= |schedule| ==> clientsNumber == old(clientsNumber) && middle == old(middle)
      ensures sent == old(sent) + [m] && delivered == old(delivered)
    {
      RunOthers(Sending(m, i, start), n, trace, schedule);
      trace' := Send(m, i, start, trace, schedule);
    }

    /** One turn of the for loop: the test, and one copy if it passes, the others running before each. */
    method CopyOnce(m: Message, i: nat, start: nat, ghost trace: seq<State>, n: nat, schedule: seq<seq<Action>>)
      returns (pc: RedirectPc, ghost trace': seq<State>, n': nat)
      requires At(trace, Testing(m, i, start), schedule) && |trace| == n + 1
      modifies this
      ensures n < n' && trace < trace' && |trace'| == n' + 1
      ensures At(trace', pc, schedule)
      ensures old(clientsNumber) <= clientsNumber
      ensures n >= |schedule| ==> clientsNumber == old(clientsNumber) && middle == old(middle)
      ensures pc == Waiting || (pc == Testing(m, i + 1, start) && i < clientsNumber)
      ensures pc == Waiting ==>
                i == clientsNumber && sent == old(sent) && delivered == old(delivered) + [Delivery(m, start, i)]
      ensures pc != Waiting ==> sent == old(sent) + [m] && delivered == old(delivered)
    {
      pc, trace' := StepTest(m, i, start, trace, n, schedule);
      n' := n + 1;
      if pc.Sending? {
        trace' := StepSend(m, i, start, trace', n + 1, schedule);
        pc, n' := Testing(m, i + 1, start), n + 2;
      }
    }

    /** The for loop of redirecting_thread over one message. */
    method CopyToClients(m: Message, ghost trace: seq<State>, n: nat, schedule: seq<seq<Action>>)
      returns (copies: nat, ghost trace': seq<State>, n': nat)
      requires At(trace, Testing(m, 0, clientsNumber), schedule) && |trace| == n + 1
      modifies this
      ensures n < n' && trace < trace' && |trace'| == n' + 1
      ensures At(trace', Waiting, schedule)
      ensures copies == clientsNumber >= old(clientsNumber)
      ensures n >= |schedule| ==> middle == old(middle)
      ensures sent == old(sent) + Copies(m, copies)
      ensures delivered == old(delivered) + [Delivery(m, old(clientsNumber), copies)]
    {
      var start := clientsNumber;
      var pc := Testing(m, 0, start);
      copies, trace', n' := 0, trace, n;
      while pc.Testing?
        invariant At(trace', pc, schedule) && |trace'| == n' + 1
        invariant if pc.Testing? then n <= n' && trace <= trace' else n < n' && trace < trace'
        invariant pc == Waiting || pc == Testing(m, copies, start)
        invariant start <= clientsNumber && copies <= clientsNumber
        invariant n >= |schedule| ==> middle == old(middle)
        invariant sent == old(sent) + Copies(m, copies)
        invariant pc.Testing? ==> delivered == old(delivered)
        invariant pc == Waiting ==>
                    copies == clientsNumber && delivered == old(delivered) + [Delivery(m, start, copies)]
        decreases if n' < |schedule| then |schedule| - n' else 0, clientsNumber - copies, pc.Testing?
      {
        OneMoreCopy(old(sent), m, copies);
        pc, trace', n' := CopyOnce(m, copies, start, trace', n', schedule);
        if pc.Testing? {
          copies := copies + 1;
        }
      }
    }

    /** One message, from the msgrcv on: it gets exactly one copy per client counted when the loop ends. Without a
        message the thread goes on waiting. */
    method Redirect(ghost trace: seq<State>, n: nat, schedule: seq<seq<Action>>)
      returns (took: bool, copies: nat, ghost trace': seq<State>, n': nat)
      requires At(trace, Receiving, schedule) && |trace| == n + 1
      modifies this
      ensures n < n' && trace < trace' && |trace'| == n' + 1
      ensures var pc := if took then Waiting else Receiving; At(trace', pc, schedule)
      ensures var s := Before(trace, n, schedule);
              && (took <==> s.middle != [])
              && (if took then
                    && copies == clientsNumber >= s.clientsNumber >= old(clientsNumber)
                    && sent == old(sent) + Copies(s.middle[0], copies)
                    && delivered == old(delivered) + [Delivery(s.middle[0], s.clientsNumber, copies)]
                  else
                    middle == [] && sent == old(sent) && delivered == old(delivered))
      ensures n >= |schedule| ==> if took then old(middle) != [] && middle == old(middle)[1..] else old(middle) == []
    {
      RunOthers(Receiving, n, trace, schedule);
      took := middle != [];
      copies, n' := 0, n + 1;
      if took {
        var m;
        m, trace' := Take(trace, schedule);
        copies, trace', n' := CopyToClients(m, trace', n + 1, schedule);
      } else {
        StepMade(trace, View(Receiving), View(Receiving), schedule);
        trace' := trace + [View(Receiving)];
      }
    }

    /** The test for the end, or one message. */
    method Turn(pc: RedirectPc, ghost trace: seq<State>, n: nat, schedule: seq<seq<Action>>)
      returns (pc': RedirectPc, ghost trace': seq<State>, n': nat)
      requires (pc.Waiting? || pc.Receiving?) && At(trace, pc, schedule) && |trace| == n + 1
      modifies this
      ensures n < n' && trace < trace' && |trace'| == n' + 1 && At(trace', pc', schedule)
      ensures if pc.Waiting? then pc' == if isExit then RedirectDone else Receiving
              else pc' == Waiting || (pc' == Receiving && middle == [])
      ensures n >= |schedule| ==>
                if pc.Receiving? && pc'.Waiting? then |middle| < |old(middle)| else middle == old(middle)
    {
      if pc.Waiting? {
        RunOthers(Waiting, n, trace, schedule);
        pc', trace' := TestExit(trace, schedule);
        n' := n + 1;
      } else {
        var took, copies;
        took, copies, trace', n' := Redirect(trace, n, schedule);
        pc' := if took then Waiting else Receiving;
      }
    }

    /** redirecting_thread, while the schedule lasts and as long as there are messages after it. It ends because it
        was told to, or waits in the end with every posted message delivered, each in one copy per client counted. */
    method RedirectingThread(schedule: seq<seq<Action>>) returns (pc: RedirectPc, ghost trace: seq<State>)
      requires Inv(View(Waiting))
      modifies this
      ensures Inv(View(pc)) && At(trace, pc, schedule) && trace[0] == old(View(Waiting))
      ensures if pc.RedirectDone? then isExit else pc.Receiving? && middle == [] && |trace| > |schedule|
      ensures posted == Messages(delivered) + middle && sent == Flatten(delivered)
    {
      pc, trace := Waiting, [View(Waiting)];
      var n := 0;
      while pc.Waiting? || (pc.Receiving? && (n < |schedule| || middle != []))
        invariant pc.Waiting? || pc.Receiving? || (pc.RedirectDone? && isExit)
        invariant At(trace, pc, schedule) && |trace| == n + 1 && trace[0] == old(View(Waiting))
        decreases if n < |schedule| then |schedule| - n else 0, |middle|, if pc.Waiting? then 2
                  else if pc.Receiving? then 1 else 0
      {
        pc, trace, n := Turn(pc, trace, n, schedule);
      }
      TraceInv(trace, n, schedule);
    }
  }
}
