/**
 The finite-state server of les21_FSM/src/server.c: a dispatcher that queues the addresses of new
 clients, and worker processes that take them from the queue and talk to them.
 What the system calls deliver is an input; msgsnd is taken to succeed, as the code does.
 */
module Dispatcher {
  import opened Wrappers

  type Address = int

  const BUFFER_SIZE: nat := 256
  const HELLO := "Hello, my dear client. Are you ok?\n"
  const APOLOGY := "Sorry, your string was too small... Shutting down the connection."

  // ------------------------------------------------------------------------ buffers

  /** strlen; an unterminated buffer counts as full. */
  function StrLen(buf: seq<char>): (n: nat)
    ensures n <= |buf|
  {
    if buf == [] || buf[0] == '\0' then 0 else 1 + StrLen(buf[1..])
  }

  function StrCpy(buf: seq<char>, s: string): (r: seq<char>)
    requires |s| < |buf|
    ensures |r| == |buf|
  {
    s + ['\0'] + buf[|s| + 1..]
  }

  /** recvfrom overwrites the front of the buffer with at most as many bytes as fit. */
  function Receive(buf: seq<char>, bytes: seq<char>): (r: seq<char>)
    ensures |r| == |buf|
  {
    if |bytes| >= |buf| then bytes[..|buf|] else bytes + buf[|bytes|..]
  }

  function MarkEcho(buf: seq<char>): (r: seq<char>)
    requires 3 <= |buf|
    ensures |r| == |buf|
  {
    buf[0 := 'H'][1 := 'I'][2 := '_']
  }

  // ------------------------------------------------------------------------- worker

  datatype WorkerState = WaitForClient | Talking | ErrorState

  datatype Kind = Hello | Echo | Apology

  /** A datagram sent; heard is the buffer it answers. */
  datatype Packet = Packet(kind: Kind, data: seq<char>, to: Address, heard: seq<char>)

  datatype QueueMessage = QueueMessage(fd: int, address: Address)

  /** What the system delivers during one turn of the loop: a message, unless msgrcv fails; the state of
      errno when it is tested; a datagram, unless recvfrom fails; and whether the signal handler ran. */
  datatype Turn = Turn(message: Option<QueueMessage>, errno: bool, datagram: Option<(seq<char>, Address)>, signal: bool)

  /** log lists the addresses of the messages taken from the queue, served or not. */
  datatype Worker = Worker(state: WorkerState, isExit: bool, address: Address, buffer: seq<char>,
                           sent: seq<Packet>, log: seq<Address>)

  function NewWorker(): (w: Worker)
    ensures |w.buffer| == BUFFER_SIZE
  {
    Worker(WaitForClient, false, 0, StrCpy(seq(BUFFER_SIZE, _ => '\0'), HELLO), [], [])
  }

  function Deliver(w: Worker, t: Turn): Worker
    requires |w.buffer| == BUFFER_SIZE
  {
    match w.state
    case WaitForClient =>
      (match t.message
       case None => w.(isExit := true)
       case Some(m) =>
         var took := w.(address := m.address, log := w.log + [m.address]);
         if m.fd == -1 || t.errno then took.(isExit := true)
         else
           var b := StrCpy(w.buffer, HELLO);
           took.(state := Talking, buffer := b, sent := w.sent + [Packet(Hello, b, m.address, [])]))
    case Talking =>
      var (b, to) := match t.datagram
        case None => (w.buffer, w.address)
        case Some((bytes, from)) => (Receive(w.buffer, bytes), from);
      if StrLen(b) <= 3 then w.(state := ErrorState, buffer := b, address := to)
      else w.(buffer := MarkEcho(b), address := to, sent := w.sent + [Packet(Echo, MarkEcho(b), to, b)])
    case ErrorState =>
      var b := StrCpy(w.buffer, APOLOGY);
      w.(state := WaitForClient, buffer := b, sent := w.sent + [Packet(Apology, b, w.address, [])])
  }

  function WorkerTurn(w: Worker, t: Turn): Worker
    requires |w.buffer| == BUFFER_SIZE
  {
    if w.isExit then w else
      var w' := Deliver(w, t);
      w'.(isExit := w'.isExit || t.signal)
  }

  function RunWorker(w: Worker, turns: seq<Turn>): (r: Worker)
    requires |w.buffer| == BUFFER_SIZE
    ensures |r.buffer| == BUFFER_SIZE
    decreases |turns|
  {
    if turns == [] then w
    else
      var n := |turns| - 1;
      WorkerTurn(RunWorker(w, turns[..n]), turns[n])
  }

  /** waitClient: the loop over the machine's states, on a buffer that is overwritten in place. */
  method WaitClient(turns: seq<Turn>) returns (w: Worker)
    ensures w == RunWorker(NewWorker(), turns)
  {
    var buffer := new char[BUFFER_SIZE](_ => '\0');
    StrCpyInto(buffer, HELLO);
    var state, isExit, address := WaitForClient, false, 0;
    var sent: seq<Packet>, log: seq<Address> := [], [];
    var n := 0;
    while n < |turns|
      invariant 0 <= n <= |turns|
      invariant Worker(state, isExit, address, buffer[..], sent, log) == RunWorker(NewWorker(), turns[..n])
    {
      assert turns[..n + 1][..n] == turns[..n];
      var t := turns[n];
      ghost var before := Worker(state, isExit, address, buffer[..], sent, log);
      if !isExit {
        match state {
        case WaitForClient =>
          if t.message.None? {
            isExit := true;
          } else {
            address := t.message.value.address;
            log := log + [address];
            if t.message.value.fd == -1 || t.errno {
              isExit := true;
            } else {
              state := Talking;
              StrCpyInto(buffer, HELLO);
              sent := sent + [Packet(Hello, buffer[..], address, [])];
            }
          }
        case Talking =>
          if t.datagram.Some? {
            ReceiveInto(buffer, t.datagram.value.0);
            address := t.datagram.value.1;
          }
          if StrLen(buffer[..]) <= 3 {
            state := ErrorState;
          } else {
            var answered := buffer[..];
            MarkEchoInto(buffer);
            sent := sent + [Packet(Echo, buffer[..], address, answered)];
          }
        case ErrorState =>
          StrCpyInto(buffer, APOLOGY);
          sent := sent + [Packet(Apology, buffer[..], address, [])];
          state := WaitForClient;
        }
        isExit := isExit || t.signal;
      }
      assert RunWorker(NewWorker(), turns[..n + 1]) == WorkerTurn(before, t);
      n := n + 1;
    }
    assert turns[..n] == turns;
    w := Worker(state, isExit, address, buffer[..], sent, log);
  }

  method MarkEchoInto(buffer: array<char>)
    requires 3 <= buffer.Length
    modifies buffer
    ensures buffer[..] == MarkEcho(old(buffer[..]))
  {
    buffer[0] := 'H';
    buffer[1] := 'I';
    buffer[2] := '_';
  }

  method StrCpyInto(buffer: array<char>, s: string)
    requires |s| < buffer.Length
    modifies buffer
    ensures buffer[..] == StrCpy(old(buffer[..]), s)
  {
    var i := 0;
    while i < |s|
      invariant 0 <= i <= |s|
      invariant forall j | 0 <= j < i :: buffer[j] == s[j]
      invariant forall j | i <= j < buffer.Length :: buffer[j] == old(buffer[j])
    {
      buffer[i] := s[i];
      i := i + 1;
    }
    buffer[i] := '\0';
  }

  method ReceiveInto(buffer: array<char>, bytes: seq<char>)
    modifies buffer
    ensures buffer[..] == Receive(old(buffer[..]), bytes)
  {
    var i := 0;
    while i < |bytes| && i < buffer.Length
      invariant 0 <= i <= |bytes| && i <= buffer.Length
      invariant forall j | 0 <= j < i :: buffer[j] == bytes[j]
      invariant forall j | i <= j < buffer.Length :: buffer[j] == old(buffer[j])
    {
      buffer[i] := bytes[i];
      i := i + 1;
    }
  }

  // ------------------------------------------------------- the shape of a worker's talk

  datatype Mode = Closed | Open | Wrong

  /** Reads a trace against (hello, echo*, apology)*. */
  function Read(sent: seq<Packet>): Mode {
    if sent == [] then Closed
    else match (Read(sent[..|sent| - 1]), sent[|sent| - 1].kind)
         case (Closed, Hello) => Open
         case (Open, Echo) => Open
         case (Open, Apology) => Closed
         case _ => Wrong
  }

  function Count(sent: seq<Packet>, kind: Kind): nat {
    if sent == [] then 0
    else Count(sent[..|sent| - 1], kind) + if sent[|sent| - 1].kind == kind then 1 else 0
  }

  /** The clients greeted, in order. */
  function Greeted(sent: seq<Packet>): seq<Address> {
    if sent == [] then []
    else Greeted(sent[..|sent| - 1]) + if sent[|sent| - 1].kind == Hello then [sent[|sent| - 1].to] else []
  }

  predicate InSession(w: Worker) {
    && Read(w.sent) == (if w.state.WaitForClient? then Closed else Open)
    && Count(w.sent, Hello) == Count(w.sent, Apology) + (if w.state.WaitForClient? then 0 else 1)
  }

  ghost predicate WorkerOk(w: Worker) {
    && |w.buffer| == BUFFER_SIZE
    && InSession(w)
    && (forall k | 0 <= k < |w.sent| :: PacketOk(w.sent[k]))
  }

  lemma StrLenStep(buf: seq<char>)
    ensures StrLen(buf) == if buf == [] || buf[0] == '\0' then 0 else 1 + StrLen(buf[1..])
  {
  }

  lemma EchoKeepsLength(buf: seq<char>)
    requires 3 < StrLen(buf) && 3 <= |buf|
    ensures StrLen(MarkEcho(buf)) == StrLen(buf)
  {
    var m := MarkEcho(buf);
    var b1, m1 := buf[1..], m[1..];
    var b2, m2 := b1[1..], m1[1..];
    StrLenStep(buf);
    StrLenStep(b1);
    StrLenStep(b2);
    assert m[0] == 'H' && m1[0] == 'I' && m2[0] == '_';
    StrLenStep(m);
    StrLenStep(m1);
    StrLenStep(m2);
    assert m2[1..] == b2[1..];
  }

  lemma EchoChangesThreeCharacters(buf: seq<char>)
    requires 3 <= |buf|
    ensures MarkEcho(buf) == "HI_" + buf[3..]
  {
  }

  lemma SendOne(sent: seq<Packet>, p: Packet)
    ensures Read(sent + [p]) == match (Read(sent), p.kind)
                                case (Closed, Hello) => Open
                                case (Open, Echo) => Open
                                case (Open, Apology) => Closed
                                case _ => Wrong
    ensures forall kind :: Count(sent + [p], kind) == Count(sent, kind) + if p.kind == kind then 1 else 0
    ensures Greeted(sent + [p]) == Greeted(sent) + if p.kind == Hello then [p.to] else []
  {
  }

  ghost predicate Carries(data: seq<char>, s: string) {
    |s| < |data| && data[..|s|] == s && data[|s|] == '\0'
  }

  ghost predicate PacketOk(p: Packet) {
    match p.kind
    case Hello => Carries(p.data, HELLO)
    case Echo => 3 < StrLen(p.heard) == StrLen(p.data) && p.data == "HI_" + p.heard[3..]
    case Apology => Carries(p.data, APOLOGY)
  }

  /** What a turn does to the state, and the kind of the one packet it may send. */
  lemma TurnSends(w: Worker, t: Turn)
    requires |w.buffer| == BUFFER_SIZE && !w.isExit
    ensures var w' := WorkerTurn(w, t);
            if |w'.sent| == |w.sent| then
              w'.sent == w.sent && (w'.state.WaitForClient? <==> w.state.WaitForClient?)
            else
              && |w'.sent| == |w.sent| + 1 && w'.sent == w.sent + [w'.sent[|w.sent|]]
              && match w.state
                 case WaitForClient => w'.sent[|w.sent|].kind == Hello && w'.state.Talking?
                 case Talking => w'.sent[|w.sent|].kind == Echo && w'.state.Talking?
                 case ErrorState => w'.sent[|w.sent|].kind == Apology && w'.state.WaitForClient?
  {
  }

  lemma TurnSendsWell(w: Worker, t: Turn, k: nat)
    requires |w.buffer| == BUFFER_SIZE && !w.isExit && k < |WorkerTurn(w, t).sent|
    requires k < |w.sent| ==> PacketOk(w.sent[k])
    ensures PacketOk(WorkerTurn(w, t).sent[k])
  {
    var p := WorkerTurn(w, t).sent[k];
    if k >= |w.sent| && p.kind == Echo {
      EchoKeepsLength(p.heard);
      EchoChangesThreeCharacters(p.heard);
    }
  }

  lemma TurnKeepsSession(w: Worker, t: Turn)
    requires |w.buffer| == BUFFER_SIZE && InSession(w)
    ensures InSession(WorkerTurn(w, t))
  {
    if !w.isExit {
      var w' := WorkerTurn(w, t);
      TurnSends(w, t);
      if |w'.sent| > |w.sent| {
        SendOne(w.sent, w'.sent[|w.sent|]);
      }
    }
  }

  lemma WorkerTurnOk(w: Worker, t: Turn)
    requires WorkerOk(w)
    ensures WorkerOk(WorkerTurn(w, t))
  {
    if !w.isExit {
      var w' := WorkerTurn(w, t);
      TurnKeepsSession(w, t);
      forall k | 0 <= k < |w'.sent| ensures PacketOk(w'.sent[k]) {
        TurnSendsWell(w, t, k);
      }
    }
  }

  /** Over any run a worker's packets read as (hello, echo*, apology)*, cut off after a hello or echo only
      while it talks or is about to apologise; every echo answers a string longer than three and keeps its length. */
  lemma {:induction false} WorkerTalksInSessions(turns: seq<Turn>)
    ensures WorkerOk(RunWorker(NewWorker(), turns))
    decreases |turns|
  {
    if turns != [] {
      var n := |turns| - 1;
      WorkerTalksInSessions(turns[..n]);
      WorkerTurnOk(RunWorker(NewWorker(), turns[..n]), turns[n]);
    }
  }

  // ---------------------------------------------------------- what a client gets back

  /** What the worker hears: the datagram, in front of what its buffer held before. */
  function Heard(buffer: seq<char>, bytes: seq<char>): (r: seq<char>)
    requires |buffer| == BUFFER_SIZE
    ensures |r| == BUFFER_SIZE
    ensures |bytes| >= BUFFER_SIZE ==> r == bytes[..BUFFER_SIZE]
    ensures |bytes| < BUFFER_SIZE ==> r[..|bytes|] == bytes && r[|bytes|..] == buffer[|bytes|..]
  {
    if |bytes| >= BUFFER_SIZE then bytes[..BUFFER_SIZE] else bytes + buffer[|bytes|..]
  }

  lemma RunOneMore(turns: seq<Turn>, t: Turn)
    ensures RunWorker(NewWorker(), turns + [t]) == WorkerTurn(RunWorker(NewWorker(), turns), t)
  {
    assert (turns + [t])[..|turns|] == turns;
  }

  /** A worker that talks answers a datagram to whom it came from: with the text heard, its first three characters
      replaced, if that is longer than three; otherwise it sends nothing yet and is about to apologise. */
  lemma DatagramIsAnswered(turns: seq<Turn>, t: Turn, bytes: seq<char>, from: Address)
    requires var w := RunWorker(NewWorker(), turns); !w.isExit && w.state.Talking?
    requires t.datagram == Some((bytes, from))
    ensures var w := RunWorker(NewWorker(), turns);
            var w' := RunWorker(NewWorker(), turns + [t]);
            var heard := Heard(w.buffer, bytes);
            if StrLen(heard) > 3 then
              w'.sent == w.sent + [Packet(Echo, "HI_" + heard[3..], from, heard)]
              && w'.state.Talking? && w'.address == from && w'.buffer == "HI_" + heard[3..]
            else
              w'.sent == w.sent && w'.state.ErrorState? && w'.address == from && w'.buffer == heard
  {
    RunOneMore(turns, t);
    EchoChangesThreeCharacters(Heard(RunWorker(NewWorker(), turns).buffer, bytes));
  }

  /** Without a datagram it answers, once more, what it has in its buffer, to whom it last talked to. */
  lemma FailedReceiveIsAnswered(turns: seq<Turn>, t: Turn)
    requires var w := RunWorker(NewWorker(), turns); !w.isExit && w.state.Talking?
    requires t.datagram.None?
    ensures var w := RunWorker(NewWorker(), turns);
            var w' := RunWorker(NewWorker(), turns + [t]);
            if StrLen(w.buffer) > 3 then
              w'.sent == w.sent + [Packet(Echo, "HI_" + w.buffer[3..], w.address, w.buffer)]
              && w'.state.Talking? && w'.address == w.address && w'.buffer == "HI_" + w.buffer[3..]
            else
              w'.sent == w.sent && w'.state.ErrorState? && w'.address == w.address && w'.buffer == w.buffer
  {
    RunOneMore(turns, t);
    EchoChangesThreeCharacters(RunWorker(NewWorker(), turns).buffer);
  }

  lemma {:induction false} TerminatedText(bytes: seq<char>, rest: seq<char>)
    requires StrLen(bytes) < |bytes|
    ensures StrLen(bytes + rest) == StrLen(bytes)
    decreases |bytes|
  {
    assert (bytes + rest)[0] == bytes[0];
    if bytes[0] != '\0' {
      assert (bytes + rest)[1..] == bytes[1..] + rest;
      TerminatedText(bytes[1..], rest);
    }
  }

  lemma {:induction false} CutText(bytes: seq<char>, n: nat)
    requires StrLen(bytes) < n <= |bytes|
    ensures StrLen(bytes[..n]) == StrLen(bytes)
    decreases n
  {
    if bytes[0] != '\0' {
      assert bytes[..n][1..] == bytes[1..][..n - 1];
      CutText(bytes[1..], n - 1);
    }
  }

  /** A text sent with its terminator is heard as it is, whatever the buffer held before. */
  lemma TextIsHeard(buffer: seq<char>, bytes: seq<char>)
    requires |buffer| == BUFFER_SIZE && StrLen(bytes) < |bytes| && StrLen(bytes) < BUFFER_SIZE
    ensures StrLen(Heard(buffer, bytes)) == StrLen(bytes)
    ensures Heard(buffer, bytes)[..StrLen(bytes)] == bytes[..StrLen(bytes)]
  {
    if |bytes| < BUFFER_SIZE {
      TerminatedText(bytes, buffer[|bytes|..]);
    } else {
      CutText(bytes, BUFFER_SIZE);
    }
  }

  /** So a client that talks gets its own text back if it is longer than three, with HI_ in front; and a client whose
      text is too short gets the apology with the worker's next turn, which then waits for another client. */
  lemma TextIsAnswered(turns: seq<Turn>, t: Turn, next: Turn, bytes: seq<char>, from: Address)
    requires var w := RunWorker(NewWorker(), turns); !w.isExit && w.state.Talking?
    requires t.datagram == Some((bytes, from)) && !t.signal
    requires StrLen(bytes) < |bytes| && StrLen(bytes) < BUFFER_SIZE
    ensures var n := StrLen(bytes);
            var w := RunWorker(NewWorker(), turns);
            var w' := RunWorker(NewWorker(), turns + [t]);
            var w'' := RunWorker(NewWorker(), turns + [t] + [next]);
            if n > 3 then
              && |w'.sent| == |w.sent| + 1 && w'.sent[..|w.sent|] == w.sent
              && var p := w'.sent[|w.sent|];
                 && p.kind == Echo && p.to == from && |p.data| == BUFFER_SIZE
                 && StrLen(p.data) == n && p.data[..n] == "HI_" + bytes[3..n]
            else
              && |w''.sent| == |w.sent| + 1 && w''.sent[..|w.sent|] == w.sent && w''.state.WaitForClient?
              && var p := w''.sent[|w.sent|];
                 p.kind == Apology && p.to == from && Carries(p.data, APOLOGY)
  {
    var w := RunWorker(NewWorker(), turns);
    var heard := Heard(w.buffer, bytes);
    TextIsHeard(w.buffer, bytes);
    DatagramIsAnswered(turns, t, bytes, from);
    RunOneMore(turns, t);
    if StrLen(bytes) > 3 {
      EchoText(heard, bytes);
    } else {
      RunOneMore(turns + [t], next);
    }
  }

  lemma EchoText(heard: seq<char>, bytes: seq<char>)
    requires 3 < StrLen(bytes) == StrLen(heard) && heard[..StrLen(bytes)] == bytes[..StrLen(bytes)]
    ensures StrLen("HI_" + heard[3..]) == StrLen(bytes)
    ensures ("HI_" + heard[3..])[..StrLen(bytes)] == "HI_" + bytes[3..StrLen(bytes)]
  {
    EchoKeepsLength(heard);
    EchoChangesThreeCharacters(heard);
    assert heard[3..StrLen(bytes)] == heard[..StrLen(bytes)][3..];
    assert bytes[3..StrLen(bytes)] == bytes[..StrLen(bytes)][3..];
  }

  /** A worker that waits and gets a good message greets that client and talks to it. */
  lemma MessageIsGreeted(turns: seq<Turn>, t: Turn, m: QueueMessage)
    requires var w := RunWorker(NewWorker(), turns); !w.isExit && w.state.WaitForClient?
    requires t.message == Some(m) && m.fd != -1 && !t.errno
    ensures var w := RunWorker(NewWorker(), turns);
            var w' := RunWorker(NewWorker(), turns + [t]);
            && |w'.sent| == |w.sent| + 1 && w'.sent[..|w.sent|] == w.sent
            && w'.state.Talking? && w'.address == m.address && w'.log == w.log + [m.address]
            && var p := w'.sent[|w.sent|];
               p.kind == Hello && p.to == m.address && Carries(p.data, HELLO)
  {
    RunOneMore(turns, t);
  }

  /** A worker in its error state apologises to whom it last talked to, in front of what it heard, and waits. */
  lemma ErrorIsApologisedFor(turns: seq<Turn>, t: Turn)
    requires var w := RunWorker(NewWorker(), turns); !w.isExit && w.state.ErrorState?
    ensures var w := RunWorker(NewWorker(), turns);
            var w' := RunWorker(NewWorker(), turns + [t]);
            && w'.sent == w.sent + [Packet(Apology, w'.buffer, w.address, [])] && w'.state.WaitForClient?
            && Carries(w'.buffer, APOLOGY) && w'.buffer[|APOLOGY| + 1..] == w.buffer[|APOLOGY| + 1..]
  {
    RunOneMore(turns, t);
  }

  /** Except between a text that was too short and the apology, the buffer holds the last packet sent: so a datagram
      that is shorter than the buffer and not terminated is heard with the rest of that packet behind it. */
  lemma {:induction false} BufferHoldsLastPacket(turns: seq<Turn>)
    ensures var w := RunWorker(NewWorker(), turns);
            !w.state.ErrorState? ==>
              if w.sent == [] then Carries(w.buffer, HELLO) else w.buffer == w.sent[|w.sent| - 1].data
    decreases |turns|
  {
    if turns != [] {
      var n := |turns| - 1;
      BufferHoldsLastPacket(turns[..n]);
      TurnKeepsBuffer(RunWorker(NewWorker(), turns[..n]), turns[n]);
    }
  }

  lemma TurnKeepsBuffer(w: Worker, t: Turn)
    requires |w.buffer| == BUFFER_SIZE
    ensures var w' := WorkerTurn(w, t);
            && (|w'.sent| == |w.sent| ==> w'.sent == w.sent && (w'.buffer == w.buffer || w'.state.ErrorState?))
            && (|w'.sent| != |w.sent| ==>
                  |w'.sent| == |w.sent| + 1 && w'.buffer == w'.sent[|w.sent|].data && !w.isExit)
            && (w.state.ErrorState? && !w'.state.ErrorState? ==> |w'.sent| == |w.sent| + 1)
  {
  }

  /** The handler has run, or the worker has come to msgrcv in vain. */
  ghost predicate ExitsAt(turns: seq<Turn>, i: nat)
    requires i < |turns|
  {
    var t := turns[i];
    || t.signal
    || (RunWorker(NewWorker(), turns[..i]).state.WaitForClient?
        && (t.message.None? || t.message.value.fd == -1 || t.errno))
  }

  /** A worker leaves its loop exactly so, and then does nothing any more. */
  lemma {:induction false} WorkerExitsExactly(turns: seq<Turn>)
    ensures RunWorker(NewWorker(), turns).isExit <==> exists i | 0 <= i < |turns| :: ExitsAt(turns, i)
    decreases |turns|
  {
    if turns != [] {
      var n := |turns| - 1;
      var before := turns[..n];
      WorkerExitsExactly(before);
      forall i | 0 <= i < n ensures ExitsAt(before, i) <==> ExitsAt(turns, i) {
        assert before[..i] == turns[..i];
      }
      var w := RunWorker(NewWorker(), before);
      TurnExits(w, turns[n]);
      if w.isExit {
        var i :| 0 <= i < n && ExitsAt(before, i);
        assert ExitsAt(turns, i);
      }
      if WorkerTurn(w, turns[n]).isExit && !w.isExit {
        assert ExitsAt(turns, n);
      }
    }
  }

  lemma TurnExits(w: Worker, t: Turn)
    requires |w.buffer| == BUFFER_SIZE
    ensures WorkerTurn(w, t).isExit <==>
            w.isExit || t.signal
            || (w.state.WaitForClient? && (t.message.None? || t.message.value.fd == -1 || t.errno))
    ensures w.isExit ==> WorkerTurn(w, t) == w
  {
  }

  // -------------------------------------------------------------- the dropped client

  /** The guard of the exit branch, on a turn that did take a message. */
  predicate Drops(w: Worker, t: Turn) {
    && !w.isExit && w.state.WaitForClient? && t.message.Some?
    && (t.message.value.fd == -1 || t.errno)
  }

  ghost predicate DropsAt(turns: seq<Turn>, i: nat)
    requires i < |turns|
  {
    Drops(RunWorker(NewWorker(), turns[..i]), turns[i])
  }

  ghost predicate NeverDrops(turns: seq<Turn>) {
    forall i | 0 <= i < |turns| :: !DropsAt(turns, i)
  }

  lemma NeverDropsSplits(turns: seq<Turn>)
    requires turns != []
    ensures var n := |turns| - 1;
            NeverDrops(turns) <==> NeverDrops(turns[..n]) && !DropsAt(turns, n)
  {
    var n := |turns| - 1;
    forall i | 0 <= i < n ensures DropsAt(turns[..n], i) <==> DropsAt(turns, i) {
      assert turns[..n][..i] == turns[..i];
    }
  }

  /** The client a turn takes from the queue. */
  function TakenIn(w: Worker, t: Turn): seq<Address> {
    if !w.isExit && w.state.WaitForClient? && t.message.Some? then [t.message.value.address] else []
  }

  lemma TurnGreets(w: Worker, t: Turn)
    requires |w.buffer| == BUFFER_SIZE
    ensures var w' := WorkerTurn(w, t);
            && w'.log == w.log + TakenIn(w, t)
            && Greeted(w'.sent) == Greeted(w.sent) + (if Drops(w, t) then [] else TakenIn(w, t))
            && (w.isExit || Drops(w, t) ==> w'.isExit)
  {
    if !w.isExit {
      var w' := WorkerTurn(w, t);
      TurnSends(w, t);
      if |w'.sent| > |w.sent| {
        SendOne(w.sent, w'.sent[|w.sent|]);
      }
    }
  }

  /** A worker greets every client it takes, in order, if it never runs into the exit branch with a message;
      if it does, it stops there, and has greeted all it took but that one. */
  lemma {:induction false} GreetsUnlessItDrops(turns: seq<Turn>)
    ensures var w := RunWorker(NewWorker(), turns);
            if NeverDrops(turns) then Greeted(w.sent) == w.log
            else w.isExit && w.log != [] && Greeted(w.sent) == w.log[..|w.log| - 1]
    decreases |turns|
  {
    if turns != [] {
      var n := |turns| - 1;
      GreetsUnlessItDrops(turns[..n]);
      NeverDropsSplits(turns);
      TurnGreets(RunWorker(NewWorker(), turns[..n]), turns[n]);
    }
  }

  /** Exactly when no client is dropped. */
  lemma AllTakenAreGreeted(turns: seq<Turn>)
    ensures var w := RunWorker(NewWorker(), turns);
            Greeted(w.sent) == w.log <==> NeverDrops(turns)
  {
    GreetsUnlessItDrops(turns);
  }

  /** A worker does drop a client: one message with the fd it tests for, or one stale errno, is enough. */
  lemma DroppedClient(errno: bool)
    ensures var t := Turn(Some(QueueMessage(if errno then 0 else -1, 7)), errno, None, false);
            var w := RunWorker(NewWorker(), [t]);
            w.log == [7] && w.sent == [] && Greeted(w.sent) == []
  {
    var t := Turn(Some(QueueMessage(if errno then 0 else -1, 7)), errno, None, false);
    assert [t][..0] == [];
    assert RunWorker(NewWorker(), [t]) == WorkerTurn(NewWorker(), t);
  }

  // --------------------------------------------------------------------- the system

  datatype DispatcherState = CreateQueue | CreateHandlers | WaitClients | QueueClient | Failed

  /** accepted, taken and turns are history: addresses received by the dispatcher without error, who took which
      message from the queue, and the turns each worker has had. */
  datatype System = System(
    handlers: nat, state: DispatcherState, isExit: bool, address: Address,
    queue: seq<Address>, workers: seq<Worker>,
    accepted: seq<Address>, taken: seq<(nat, Address)>, turns: seq<seq<Turn>>)

  datatype Action =
    | DispatcherTurns(errno: bool, from: Address)
    | DispatcherInterrupted
    | WorkerTurns(k: nat, t: Turn)

  /** A worker at msgrcv either takes the head of the queue or fails; elsewhere it does not touch the queue. */
  predicate Takes(s: System, k: nat, t: Turn)
    requires k < |s.workers|
  {
    !s.workers[k].isExit && s.workers[k].state.WaitForClient? && t.message.Some?
  }

  predicate Enabled(s: System, a: Action) {
    match a
    case DispatcherTurns(_, _) => !s.isExit
    case DispatcherInterrupted => true
    case WorkerTurns(k, t) =>
      && k < |s.workers| && k < |s.turns| && |s.workers[k].buffer| == BUFFER_SIZE
      && (Takes(s, k, t) ==> s.queue != [] && t.message.value.address == s.queue[0])
  }

  /** What the forks make. */
  function NewWorkers(n: nat): seq<Worker> { seq(n, _ => NewWorker()) }

  function NoTurns(n: nat): seq<seq<Turn>> { seq(n, _ => []) }

  function DispatcherTurn(s: System, errno: bool, from: Address): System {
    match s.state
    case CreateQueue => s.(state := if errno then Failed else CreateHandlers)
    case CreateHandlers =>
      s.(workers := s.workers + NewWorkers(s.handlers), turns := s.turns + NoTurns(s.handlers),
         state := if errno then Failed else WaitClients)
    case WaitClients =>
      if errno then s.(state := Failed)
      else s.(state := QueueClient, address := from, accepted := s.accepted + [from])
    case QueueClient => s.(state := WaitClients, queue := s.queue + [s.address])
    case Failed => s.(isExit := true)
  }

  function Step(s: System, a: Action): System
    requires Enabled(s, a)
  {
    match a
    case DispatcherTurns(errno, from) => DispatcherTurn(s, errno, from)
    case DispatcherInterrupted => s.(isExit := true)
    case WorkerTurns(k, t) =>
      var s' := s.(workers := s.workers[k := WorkerTurn(s.workers[k], t)], turns := s.turns[k := s.turns[k] + [t]]);
      if Takes(s, k, t) then s'.(queue := s.queue[1..], taken := s.taken + [(k, s.queue[0])]) else s'
  }

  ghost predicate Init(s: System) {
    && s.state.CreateQueue? && !s.isExit
    && s.queue == [] && s.workers == [] && s.accepted == [] && s.taken == [] && s.turns == []
  }

  function Addresses(taken: seq<(nat, Address)>): seq<Address> {
    seq(|taken|, i requires 0 <= i < |taken| => taken[i].1)
  }

  /** The part of the taken messages that went to worker k. */
  function TakenBy(taken: seq<(nat, Address)>, k: nat): seq<Address> {
    if taken == [] then []
    else
      var last := taken[|taken| - 1];
      TakenBy(taken[..|taken| - 1], k) + if last.0 == k then [last.1] else []
  }

  function InHand(s: System): seq<Address> { if s.state.QueueClient? then [s.address] else [] }

  ghost predicate Inv(s: System) {
    && s.accepted == Addresses(s.taken) + s.queue + InHand(s)
    && (forall i | 0 <= i < |s.taken| :: s.taken[i].0 < |s.workers|)
    && |s.turns| == |s.workers|
    && (forall k | 0 <= k < |s.workers| :: HistoryOk(s.workers[k], s.turns[k], s.taken, k))
  }

  ghost predicate HistoryOk(w: Worker, turns: seq<Turn>, taken: seq<(nat, Address)>, k: nat) {
    w == RunWorker(NewWorker(), turns) && w.log == TakenBy(taken, k)
  }

  lemma AddressesGrow(taken: seq<(nat, Address)>, j: nat, a: Address)
    ensures Addresses(taken + [(j, a)]) == Addresses(taken) + [a]
  {
  }

  lemma TakenByGrows(taken: seq<(nat, Address)>, j: nat, a: Address, k: nat)
    ensures TakenBy(taken + [(j, a)], k) == TakenBy(taken, k) + if j == k then [a] else []
  {
  }

  lemma {:induction false} TakenByNobodyElse(taken: seq<(nat, Address)>, k: nat)
    requires forall i | 0 <= i < |taken| :: taken[i].0 < k
    ensures TakenBy(taken, k) == []
  {
    if taken != [] {
      TakenByNobodyElse(taken[..|taken| - 1], k);
    }
  }

  lemma DispatcherKeepsInv(s: System, errno: bool, from: Address)
    requires Inv(s)
    ensures Inv(DispatcherTurn(s, errno, from))
  {
    var s' := DispatcherTurn(s, errno, from);
    if s.state.CreateHandlers? {
      forall k | 0 <= k < |s'.workers| ensures HistoryOk(s'.workers[k], s'.turns[k], s'.taken, k) {
        if k < |s.workers| {
          assert HistoryOk(s.workers[k], s.turns[k], s.taken, k);
        } else {
          TakenByNobodyElse(s.taken, k);
        }
      }
    }
  }

  lemma TurnLogs(s: System, k: nat, t: Turn)
    requires k < |s.workers| && |s.workers[k].buffer| == BUFFER_SIZE
    ensures var w := s.workers[k];
            WorkerTurn(w, t).log == w.log + if Takes(s, k, t) then [t.message.value.address] else []
  {
  }

  lemma TurnKeepsHistory(s: System, k: nat, t: Turn, j: nat)
    requires Inv(s) && Enabled(s, WorkerTurns(k, t)) && j < |s.workers|
    ensures var s' := Step(s, WorkerTurns(k, t)); HistoryOk(s'.workers[j], s'.turns[j], s'.taken, j)
  {
    assert HistoryOk(s.workers[j], s.turns[j], s.taken, j);
    if Takes(s, k, t) {
      TakenByGrows(s.taken, k, s.queue[0], j);
    }
    if j == k {
      TurnLogs(s, k, t);
      assert (s.turns[k] + [t])[..|s.turns[k]|] == s.turns[k];
    }
  }

  lemma HeadIsTaken(taken: seq<(nat, Address)>, queue: seq<Address>, hand: seq<Address>, k: nat)
    requires queue != []
    ensures Addresses(taken + [(k, queue[0])]) + queue[1..] + hand == Addresses(taken) + queue + hand
  {
    AddressesGrow(taken, k, queue[0]);
    assert queue == [queue[0]] + queue[1..];
  }

  lemma TurnKeepsQueue(s: System, k: nat, t: Turn)
    requires Enabled(s, WorkerTurns(k, t))
    requires s.accepted == Addresses(s.taken) + s.queue + InHand(s)
    ensures var s' := Step(s, WorkerTurns(k, t)); s'.accepted == Addresses(s'.taken) + s'.queue + InHand(s')
  {
    if Takes(s, k, t) {
      HeadIsTaken(s.taken, s.queue, InHand(s), k);
    }
  }

  lemma WorkerKeepsInv(s: System, k: nat, t: Turn)
    requires Inv(s) && Enabled(s, WorkerTurns(k, t))
    ensures Inv(Step(s, WorkerTurns(k, t)))
  {
    var s' := Step(s, WorkerTurns(k, t));
    TurnKeepsQueue(s, k, t);
    forall j | 0 <= j < |s'.workers| ensures HistoryOk(s'.workers[j], s'.turns[j], s'.taken, j) {
      TurnKeepsHistory(s, k, t, j);
    }
  }

  function RunDispatcher(s: System, inputs: seq<(bool, Address)>): System
    decreases |inputs|
  {
    if inputs == [] then s
    else
      var n := |inputs| - 1;
      var r := RunDispatcher(s, inputs[..n]);
      if r.isExit then r else DispatcherTurn(r, inputs[n].0, inputs[n].1)
  }

  function Start(handlers: nat): System {
    System(handlers, CreateQueue, false, 0, [], [], [], [], [])
  }

  /** The forks of the handlers. */
  method CreateWorkers(handlers: nat) returns (workers: seq<Worker>)
    ensures workers == NewWorkers(handlers)
  {
    workers := [];
    for i := 0 to handlers
      invariant workers == NewWorkers(i)
    {
      workers := workers + [NewWorker()];
    }
  }

  /** The loop in main: each turn sees errno as it is tested and, at recvfrom, the sender. */
  method Dispatch(handlers: nat, inputs: seq<(bool, Address)>) returns (s: System)
    ensures s == RunDispatcher(Start(handlers), inputs)
    ensures s.accepted == s.queue + InHand(s)
    ensures s.workers == [] || s.workers == NewWorkers(handlers)
  {
    var state, isExit, address := CreateQueue, false, 0;
    var queue: seq<Address>, accepted: seq<Address> := [], [];
    var workers: seq<Worker> := [];
    var n := 0;
    while n < |inputs|
      invariant 0 <= n <= |inputs|
      invariant System(handlers, state, isExit, address, queue, workers, accepted, [], NoTurns(|workers|))
                == RunDispatcher(Start(handlers), inputs[..n])
      invariant accepted == queue + (if state.QueueClient? then [address] else [])
      invariant state.CreateQueue? || state.CreateHandlers? ==> workers == []
      invariant workers == [] || workers == NewWorkers(handlers)
    {
      assert inputs[..n + 1][..n] == inputs[..n];
      var (errno, from) := inputs[n];
      ghost var before := RunDispatcher(Start(handlers), inputs[..n]);
      if !isExit {
        match state {
          case CreateQueue =>
            state := if errno then Failed else CreateHandlers;
          case CreateHandlers =>
            workers := CreateWorkers(handlers);
            assert [] + NewWorkers(handlers) == workers && NoTurns(0) + NoTurns(handlers) == NoTurns(|workers|);
            state := if errno then Failed else WaitClients;
          case WaitClients =>
            if errno {
              state := Failed;
            } else {
              address := from;
              accepted := accepted + [from];
              state := QueueClient;
            }
          case QueueClient =>
            queue := queue + [address];
            state := WaitClients;
          case Failed =>
            isExit := true;
        }
      }
      assert RunDispatcher(Start(handlers), inputs[..n + 1])
             == if before.isExit then before else DispatcherTurn(before, errno, from);
      n := n + 1;
    }
    assert inputs[..n] == inputs;
    s := System(handlers, state, isExit, address, queue, workers, accepted, [], NoTurns(|workers|));
  }

  /** The turns in which main looks at errno, as long as all goes well: all but those that queue a client. */
  predicate Tested(i: nat) { i < 2 || i % 2 == 0 }

  ghost predicate Quiet(inputs: seq<(bool, Address)>, n: nat)
    requires n <= |inputs|
  {
    forall i | 0 <= i < n && Tested(i) :: !inputs[i].0
  }

  function QuietState(n: nat): DispatcherState {
    if n == 0 then CreateQueue
    else if n == 1 then CreateHandlers
    else if n % 2 == 0 then WaitClients
    else QueueClient
  }

  function Accepts(n: nat): nat { if n < 3 then 0 else (n - 1) / 2 }

  /** As long as errno stays clear the dispatcher makes its workers with its second turn, and accepts the sender of
      every second datagram turn after that, in order. */
  lemma {:induction false} DispatcherAccepts(handlers: nat, inputs: seq<(bool, Address)>)
    requires Quiet(inputs, |inputs|)
    ensures var n := |inputs|;
            var s := RunDispatcher(Start(handlers), inputs);
            && !s.isExit && s.state == QuietState(n) && s.handlers == handlers
            && s.workers == (if n < 2 then [] else NewWorkers(handlers))
            && |s.accepted| == Accepts(n)
            && forall j | 0 <= j < |s.accepted| :: s.accepted[j] == inputs[2 + 2 * j].1
    decreases |inputs|
  {
    if inputs != [] {
      var n := |inputs| - 1;
      DispatcherAccepts(handlers, inputs[..n]);
      assert [] + NewWorkers(handlers) == NewWorkers(handlers);
      if n >= 2 && n % 2 == 0 {
        assert Accepts(n + 1) == Accepts(n) + 1 && 2 + 2 * Accepts(n) == n;
      }
    }
  }

  /** The first errno it looks at ends it: it accepts nobody any more, and leaves its loop with the turn after. */
  lemma {:induction false} DispatcherFails(handlers: nat, inputs: seq<(bool, Address)>, f: nat)
    requires f < |inputs| && Tested(f) && inputs[f].0 && Quiet(inputs, f)
    ensures var s := RunDispatcher(Start(handlers), inputs);
            && s.state.Failed? && (s.isExit <==> f + 1 < |inputs|)
            && s.workers == (if f == 0 then [] else NewWorkers(handlers))
            && |s.accepted| == Accepts(f)
            && forall j | 0 <= j < |s.accepted| :: s.accepted[j] == inputs[2 + 2 * j].1
    decreases |inputs|
  {
    var n := |inputs| - 1;
    if n == f {
      assert Quiet(inputs[..n], n);
      DispatcherAccepts(handlers, inputs[..n]);
      assert [] + NewWorkers(handlers) == NewWorkers(handlers);
    } else {
      assert Quiet(inputs[..n], f);
      DispatcherFails(handlers, inputs[..n], f);
    }
  }

  ghost predicate Follows(trace: seq<System>, i: nat)
    requires i + 1 < |trace|
  {
    exists a :: Enabled(trace[i], a) && trace[i + 1] == Step(trace[i], a)
  }

  ghost predicate Run(trace: seq<System>) {
    && |trace| > 0 && Init(trace[0])
    && forall i | 0 <= i < |trace| - 1 :: Follows(trace, i)
  }

  lemma {:induction false} RunInv(trace: seq<System>, n: nat)
    requires Run(trace) && n < |trace|
    ensures Inv(trace[n])
  {
    if n > 0 {
      RunInv(trace, n - 1);
      assert Follows(trace, n - 1);
      var a :| Enabled(trace[n - 1], a) && trace[n] == Step(trace[n - 1], a);
      match a
      case DispatcherTurns(errno, from) => DispatcherKeepsInv(trace[n - 1], errno, from);
      case DispatcherInterrupted =>
      case WorkerTurns(k, t) => WorkerKeepsInv(trace[n - 1], k, t);
    }
  }

  /** The machine's dispatcher steps alone are the loop of main. */
  ghost predicate DispatcherRun(trace: seq<System>, inputs: seq<(bool, Address)>) {
    && |trace| == |inputs| + 1
    && forall i | 0 <= i < |inputs| :: DispatcherMoves(trace[i], inputs[i], trace[i + 1])
  }

  predicate DispatcherMoves(s: System, input: (bool, Address), s': System) {
    var a := DispatcherTurns(input.0, input.1);
    s' == if Enabled(s, a) then Step(s, a) else s
  }

  lemma {:induction false} DispatcherRunIsLoop(trace: seq<System>, inputs: seq<(bool, Address)>)
    requires DispatcherRun(trace, inputs)
    ensures trace[|inputs|] == RunDispatcher(trace[0], inputs)
    decreases |inputs|
  {
    if inputs != [] {
      var n := |inputs| - 1;
      forall i | 0 <= i < n ensures DispatcherMoves(trace[..n + 1][i], inputs[..n][i], trace[..n + 1][i + 1]) {
        assert DispatcherMoves(trace[i], inputs[i], trace[i + 1]);
      }
      DispatcherRunIsLoop(trace[..n + 1], inputs[..n]);
      assert DispatcherMoves(trace[n], inputs[n], trace[n + 1]);
    }
  }

  /** The signal ends the dispatcher for good: nobody is accepted or queued after it. */
  lemma {:induction false} InterruptIsObeyed(trace: seq<System>, m: nat, n: nat)
    requires Run(trace) && m < n < |trace| && trace[m + 1] == Step(trace[m], DispatcherInterrupted)
    ensures trace[n].isExit && trace[n].accepted == trace[m].accepted && trace[n].state == trace[m].state
    ensures |trace[n].queue| <= |trace[m].queue|
  {
    if m + 1 < n {
      InterruptIsObeyed(trace, m, n - 1);
      assert Follows(trace, n - 1);
      var a :| Enabled(trace[n - 1], a) && trace[n] == Step(trace[n - 1], a);
      StepAfterExit(trace[n - 1], a);
    }
  }

  lemma StepAfterExit(s: System, a: Action)
    requires Enabled(s, a) && s.isExit
    ensures var s' := Step(s, a);
            s'.isExit && s'.accepted == s.accepted && s'.state == s.state && |s'.queue| <= |s.queue|
  {
  }

  /** A queued client can always be served by a worker that waits: the oldest is taken and greeted. */
  lemma QueuedClientCanBeGreeted(s: System, k: nat) returns (t: Turn)
    requires Inv(s) && k < |s.workers| && !s.workers[k].isExit && s.workers[k].state.WaitForClient? && s.queue != []
    ensures Enabled(s, WorkerTurns(k, t))
    ensures var s' := Step(s, WorkerTurns(k, t));
            && s'.queue == s.queue[1..] && s'.taken == s.taken + [(k, s.queue[0])] && s'.accepted == s.accepted
            && k < |s'.workers| && s'.workers[k].state.Talking?
            && Greeted(s'.workers[k].sent) == Greeted(s.workers[k].sent) + [s.queue[0]]
  {
    assert HistoryOk(s.workers[k], s.turns[k], s.taken, k);
    t := Turn(Some(QueueMessage(0, s.queue[0])), false, None, false);
    TurnGreets(s.workers[k], t);
  }

  function TotalTaken(workers: seq<Worker>): nat {
    if workers == [] then 0 else TotalTaken(workers[..|workers| - 1]) + |workers[|workers| - 1].log|
  }

  /** Messages that went to the workers below k. */
  function TakenBelow(taken: seq<(nat, Address)>, k: nat): nat {
    if taken == [] then 0
    else TakenBelow(taken[..|taken| - 1], k) + if taken[|taken| - 1].0 < k then 1 else 0
  }

  lemma {:induction false} OneMoreWorker(taken: seq<(nat, Address)>, k: nat)
    ensures TakenBelow(taken, k + 1) == TakenBelow(taken, k) + |TakenBy(taken, k)|
  {
    if taken != [] {
      OneMoreWorker(taken[..|taken| - 1], k);
    }
  }

  lemma {:induction false} NobodyBelowZero(taken: seq<(nat, Address)>)
    ensures TakenBelow(taken, 0) == 0
  {
    if taken != [] {
      NobodyBelowZero(taken[..|taken| - 1]);
    }
  }

  lemma {:induction false} EverybodyBelow(taken: seq<(nat, Address)>, k: nat)
    requires forall i | 0 <= i < |taken| :: taken[i].0 < k
    ensures TakenBelow(taken, k) == |taken|
  {
    if taken != [] {
      EverybodyBelow(taken[..|taken| - 1], k);
    }
  }

  lemma {:induction false} LogsAddUp(taken: seq<(nat, Address)>, workers: seq<Worker>)
    requires forall k | 0 <= k < |workers| :: workers[k].log == TakenBy(taken, k)
    ensures TotalTaken(workers) == TakenBelow(taken, |workers|)
  {
    if workers == [] {
      NobodyBelowZero(taken);
    } else {
      LogsAddUp(taken, workers[..|workers| - 1]);
      OneMoreWorker(taken, |workers| - 1);
    }
  }

  function TotalGreeted(workers: seq<Worker>): nat {
    if workers == [] then 0
    else TotalGreeted(workers[..|workers| - 1]) + |Greeted(workers[|workers| - 1].sent)|
  }

  /** The number of workers that did not greet everyone they took. */
  function Lost(greetsAll: seq<bool>): (n: nat)
    ensures n <= |greetsAll|
    ensures n == 0 <==> forall k | 0 <= k < |greetsAll| :: greetsAll[k]
  {
    if greetsAll == [] then 0
    else
      var n := |greetsAll| - 1;
      assert forall k | 0 <= k < n :: greetsAll[..n][k] == greetsAll[k];
      Lost(greetsAll[..n]) + if greetsAll[n] then 0 else 1
  }

  lemma {:induction false} GreetingsAddUp(workers: seq<Worker>, greetsAll: seq<bool>)
    requires |workers| == |greetsAll|
    requires forall k | 0 <= k < |workers| ::
               |workers[k].log| == |Greeted(workers[k].sent)| + if greetsAll[k] then 0 else 1
    ensures TotalTaken(workers) == TotalGreeted(workers) + Lost(greetsAll)
  {
    if workers != [] {
      var n := |workers| - 1;
      GreetingsAddUp(workers[..n], greetsAll[..n]);
    }
  }

  /** In every state of every run: the accepted clients are, in order, those taken, those queued and the one in hand;
      each taken one is in the log of the one worker that took it, and the logs together hold nothing else. */
  lemma ClientsAreServedOnce(trace: seq<System>, n: nat)
    requires Run(trace) && n < |trace|
    ensures var s := trace[n];
            && s.accepted == Addresses(s.taken) + s.queue + InHand(s)
            && (forall k | 0 <= k < |s.workers| :: s.workers[k].log == TakenBy(s.taken, k))
            && TotalTaken(s.workers) == |s.taken| <= |s.accepted|
            && (forall k | 0 <= k < |s.workers| :: WorkerOk(s.workers[k]))
  {
    var s := trace[n];
    RunInv(trace, n);
    forall k | 0 <= k < |s.workers| ensures WorkerOk(s.workers[k]) && s.workers[k].log == TakenBy(s.taken, k) {
      assert HistoryOk(s.workers[k], s.turns[k], s.taken, k);
      WorkerTalksInSessions(s.turns[k]);
    }
    LogsAddUp(s.taken, s.workers);
    EverybodyBelow(s.taken, |s.workers|);
  }

  lemma WorkerGreets(w: Worker, turns: seq<Turn>, taken: seq<(nat, Address)>, k: nat)
    requires HistoryOk(w, turns, taken, k)
    ensures Greeted(w.sent) == TakenBy(taken, k) <==> NeverDrops(turns)
    ensures |w.log| == |Greeted(w.sent)| + if NeverDrops(turns) then 0 else 1
  {
    GreetsUnlessItDrops(turns);
  }

  /** Which workers have greeted everyone they took. */
  ghost function GreetsAll(turns: seq<seq<Turn>>): seq<bool> {
    seq(|turns|, k requires 0 <= k < |turns| => NeverDrops(turns[k]))
  }

  /** In every state of every run: a worker has greeted exactly the clients it took, in order, if and only if it
      has not dropped one; and the clients taken are those greeted and one for every worker that has. */
  lemma TakenClientsAreGreeted(trace: seq<System>, n: nat, k: nat)
    requires Run(trace) && n < |trace|
    ensures var s := trace[n];
            && |s.turns| == |s.workers|
            && (k < |s.workers| ==> (Greeted(s.workers[k].sent) == TakenBy(s.taken, k) <==> NeverDrops(s.turns[k])))
            && |s.taken| == TotalGreeted(s.workers) + Lost(GreetsAll(s.turns))
  {
    RunInv(trace, n);
    if k < |trace[n].workers| {
      WorkerGreets(trace[n].workers[k], trace[n].turns[k], trace[n].taken, k);
    }
    GreetingsCount(trace[n]);
  }

  lemma GreetingsCount(s: System)
    requires Inv(s)
    ensures |s.taken| == TotalGreeted(s.workers) + Lost(GreetsAll(s.turns))
  {
    forall k | 0 <= k < |s.workers|
      ensures |s.workers[k].log| == |Greeted(s.workers[k].sent)| + if GreetsAll(s.turns)[k] then 0 else 1
      ensures s.workers[k].log == TakenBy(s.taken, k)
    {
      WorkerGreets(s.workers[k], s.turns[k], s.taken, k);
    }
    LogsAddUp(s.taken, s.workers);
    EverybodyBelow(s.taken, |s.workers|);
    GreetingsAddUp(s.workers, GreetsAll(s.turns));
  }
}
