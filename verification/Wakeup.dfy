/** The register-then-recheck sleep of channels and ports: src/syscall/ipc.rs with src/ipc/channel.rs and
    src/ipc/port.rs. One reader, any number of writers, and a peer that may be dropped; every lock region
    and every atomic access is one step, and steps interleave in any order. */
module Wakeup {

  /** A message, and whether it fits the reader's buffers. */
  datatype Message = Message(body: int, fits: bool)

  /** The reader's place in `sys_channel_read` or `sys_port_wait`. */
  datatype Reader =
    | Away
    | Trying
    | CheckingClosed
    | Registering
    | Retrying
    | RecheckingClosed
    | Clearing
    | GoingToSleep
    | Asleep

  /** A writer's place in `write`, `write_fast` or `queue_packet`, or the dropper's in `drop`. */
  datatype Writer =
    | Idle
    | MustTake
    | MustWake(pid: int)

  /** `waiter` is the registered pid or zero; `ready` counts the reader's entries in the run queue. A port has
      no peer, so its reader never looks at `closed`. */
  datatype State = State(port: bool, reader: int, queue: seq<Message>, closed: bool, waiter: int, ready: nat,
                         at: Reader, writers: map<nat, Writer>, dropper: Writer,
                         sent: seq<Message>, got: seq<Message>)

  // ---- the reader ----

  /** `try_recv_constrained`: a message too large for the buffers stays and the call returns an error. */
  function TryReceive(s: State, received: Reader, refused: Reader, empty: Reader): State {
    if s.queue == [] then s.(at := empty)
    else if !s.queue[0].fits then s.(at := refused)
    else s.(queue := s.queue[1..], got := s.got + [s.queue[0]], at := received)
  }

  predicate ReaderCan(s: State) {
    s.at == Asleep ==> s.ready > 0
  }

  function ReaderStep(s: State): State
    requires ReaderCan(s)
  {
    match s.at
    case Away => s.(at := Trying)
    case Trying => TryReceive(s, Away, Away, if s.port then Registering else CheckingClosed)
    case CheckingClosed => s.(at := if s.closed then Away else Registering)
    case Registering => s.(waiter := s.reader, at := Retrying)
    case Retrying => TryReceive(s, Clearing, Clearing, if s.port then GoingToSleep else RecheckingClosed)
    case RecheckingClosed => s.(at := if s.closed then Clearing else GoingToSleep)
    case Clearing => s.(waiter := 0, at := Away)
    case GoingToSleep => s.(at := Asleep)
    case Asleep => s.(ready := s.ready - 1, at := Trying)
  }

  // ---- writers and the dropper ----

  /** Take the registered pid, then put it in the run queue. */
  function WakeStep(s: State, w: Writer): (State, Writer) {
    match w
    case Idle => (s, Idle)
    case MustTake => (s.(waiter := 0), MustWake(s.waiter))
    case MustWake(pid) => (if pid > 0 && pid == s.reader then s.(ready := s.ready + 1) else s, Idle)
  }

  function WriterStep(s: State, i: nat, m: Message): State
    requires i in s.writers
  {
    if s.writers[i] == Idle then
      s.(queue := s.queue + [m], sent := s.sent + [m], writers := s.writers[i := MustTake])
    else
      var (t, w) := WakeStep(s, s.writers[i]);
      t.(writers := s.writers[i := w])
  }

  function DropperStep(s: State): State
    requires !s.port
  {
    if s.dropper == Idle then if s.closed then s else s.(closed := true, dropper := MustTake)
    else
      var (t, w) := WakeStep(s, s.dropper);
      t.(dropper := w)
  }

  /** A try takes the message at the head of the queue and gives it to the reader exactly when there is one and it
      fits; otherwise nothing moves but the reader. */
  lemma TryTakes(s: State)
    requires (s.at == Trying || s.at == Retrying) && ReaderCan(s)
    ensures var t := ReaderStep(s);
      && (s.queue != [] && s.queue[0].fits ==> t.got == s.got + [s.queue[0]] && [s.queue[0]] + t.queue == s.queue)
      && (s.queue == [] || !s.queue[0].fits ==> t.got == s.got && t.queue == s.queue)
      && (s.queue == [] <==> t.at.CheckingClosed? || t.at.Registering? || t.at.RecheckingClosed? || t.at.GoingToSleep?)
      && t.closed == s.closed && t.waiter == s.waiter && t.ready == s.ready && t.sent == s.sent
  {
  }

  /** The reader goes to sleep only registered, with the queue found empty and, on a channel, the peer alive. */
  lemma SleepsOnlyAfter(s: State)
    requires ReaderCan(s) && ReaderStep(s).at == GoingToSleep
    ensures (s.at == RecheckingClosed && !s.closed) || (s.at == Retrying && s.queue == [] && s.port)
  {
  }

  /** A write appends its message and leaves the writer to take the waiter. */
  lemma WriteAppends(s: State, i: nat, m: Message)
    requires i in s.writers && s.writers[i] == Idle
    ensures var t := WriterStep(s, i, m);
      && t.queue == s.queue + [m] && t.sent == s.sent + [m] && t.writers[i] == MustTake
      && t.got == s.got && t.at == s.at && t.closed == s.closed && t.waiter == s.waiter && t.ready == s.ready
  {
  }

  /** Taking the waiter clears it; waking puts the reader in the run queue if it was the one taken. */
  lemma TakesThenWakes(s: State, i: nat, m: Message)
    requires i in s.writers && s.writers[i] != Idle
    ensures var t := WriterStep(s, i, m);
      && (s.writers[i] == MustTake ==> t.waiter == 0 && t.writers[i] == MustWake(s.waiter) && t.ready == s.ready)
      && (s.writers[i].MustWake? ==> t.writers[i] == Idle && t.waiter == s.waiter)
      && (s.writers[i].MustWake? ==>
            t.ready == if s.writers[i].pid == s.reader && s.reader > 0 then s.ready + 1 else s.ready)
      && t.queue == s.queue && t.sent == s.sent && t.got == s.got && t.closed == s.closed && t.at == s.at
  {
  }

  /** A drop closes the channel, once, and then takes and wakes as a writer does. */
  lemma DropCloses(s: State)
    requires !s.port && s.dropper == Idle
    ensures DropperStep(s).closed
    ensures !s.closed ==> DropperStep(s) == s.(closed := true, dropper := MustTake)
    ensures s.closed ==> DropperStep(s) == s
  {
  }

  // ---- no lost wakeup ----

  /** Somebody is at `w`. */
  ghost predicate Some(s: State, w: Writer) {
    s.dropper == w || exists i :: i in s.writers && s.writers[i] == w
  }

  /** The reader's wakeup is on its way: it is in the run queue, or somebody has its pid and must enqueue it. */
  ghost predicate Coming(s: State) {
    s.ready > 0 || Some(s, MustWake(s.reader))
  }

  /** The reader has registered and not yet cleared. */
  predicate Registered(at: Reader) {
    at.Retrying? || at.RecheckingClosed? || at.GoingToSleep? || at.Asleep?
  }

  /** What the reader has to be woken for, given what it has rechecked. */
  predicate Due(s: State) {
    match s.at
    case RecheckingClosed => s.queue != []
    case GoingToSleep => s.queue != [] || s.closed
    case Asleep => s.queue != [] || s.closed
    case _ => false
  }

  /** No lost wakeup: a reader asleep, or about to be, with a message queued or its peer gone is in the run
      queue, or some writer or dropper still has to take or enqueue its pid. */
  ghost predicate NoneLost(s: State) {
    && (Registered(s.at) ==> s.waiter == s.reader || Coming(s))
    && (Due(s) ==> Some(s, MustTake) || Coming(s))
  }

  ghost predicate Inv(s: State) {
    && s.reader > 0 && (s.port ==> !s.closed && s.dropper == Idle)
    && s.sent == s.got + s.queue && NoneLost(s)
  }

  lemma SameOthers(s: State, t: State, w: Writer)
    requires t.writers == s.writers && t.dropper == s.dropper
    ensures Some(t, w) <==> Some(s, w)
  {
  }

  lemma ReaderKeeps(s: State)
    requires Inv(s) && ReaderCan(s)
    ensures Inv(ReaderStep(s))
  {
    hide Some;
    var t := ReaderStep(s);
    SameOthers(s, t, MustTake);
    SameOthers(s, t, MustWake(s.reader));
    if s.queue != [] {
      assert s.got + s.queue == s.got + [s.queue[0]] + s.queue[1..];
    }
  }

  /** One writer moves. */
  lemma WriterMoves(s: State, t: State, i: nat, w: Writer)
    requires i in s.writers && i in t.writers && t.writers == s.writers[i := t.writers[i]] && t.dropper == s.dropper
    ensures t.writers[i] == w ==> Some(t, w)
    ensures s.writers[i] != w && Some(s, w) ==> Some(t, w)
  {
    if s.dropper != w && s.writers[i] != w {
      if j :| j in s.writers && s.writers[j] == w {
        assert t.writers[j] == w;
      }
    }
  }

  lemma DropperMoves(s: State, t: State, w: Writer)
    requires t.writers == s.writers
    ensures t.dropper == w ==> Some(t, w)
    ensures s.dropper != w && Some(s, w) ==> Some(t, w)
  {
  }

  /** Any step of somebody else: a push or a close, a take, a wake. */
  lemma OthersKeep(s: State, t: State, before: Writer, after: Writer)
    requires Inv(s) && t.at == s.at && t.reader == s.reader && t.port == s.port && t.sent == t.got + t.queue
    requires Some(t, after) && (forall w: Writer :: w != before && Some(s, w) ==> Some(t, w))
    requires (before, after) == (Idle, MustTake) ==> t.waiter == s.waiter && t.ready == s.ready
    requires before == MustTake ==>
      after == MustWake(s.waiter) && t.waiter == 0 && t.ready == s.ready && t.queue == s.queue && t.closed == s.closed
    requires before.MustWake? ==> after == Idle && t.waiter == s.waiter && t.queue == s.queue && t.closed == s.closed
    requires before.MustWake? ==> t.ready == s.ready + if before.pid > 0 && before.pid == s.reader then 1 else 0
    requires before == Idle ==> after == MustTake
    requires t.port ==> !t.closed && t.dropper == Idle
    ensures Inv(t)
  {
    hide Some;
  }

  lemma WriterKeeps(s: State, i: nat, m: Message)
    requires Inv(s) && i in s.writers
    ensures Inv(WriterStep(s, i, m))
  {
    hide Some;
    var t := WriterStep(s, i, m);
    WriterMoves(s, t, i, t.writers[i]);
    forall w: Writer | w != s.writers[i] && Some(s, w) ensures Some(t, w) {
      WriterMoves(s, t, i, w);
    }
    OthersKeep(s, t, s.writers[i], t.writers[i]);
  }

  lemma DropperKeeps(s: State)
    requires Inv(s) && !s.port
    ensures Inv(DropperStep(s))
  {
    hide Some;
    var t := DropperStep(s);
    if t != s {
      DropperMoves(s, t, t.dropper);
      forall w: Writer | w != s.dropper && Some(s, w) ensures Some(t, w) {
        DropperMoves(s, t, w);
      }
      OthersKeep(s, t, s.dropper, t.dropper);
    }
  }

  // ---- every interleaving ----

  datatype Act = Read | Write(i: nat, m: Message) | Drop

  predicate Can(s: State, a: Act) {
    match a
    case Read => ReaderCan(s)
    case Write(i, _) => i in s.writers
    case Drop => !s.port
  }

  function Step(s: State, a: Act): State
    requires Can(s, a)
  {
    match a
    case Read => ReaderStep(s)
    case Write(i, m) => WriterStep(s, i, m)
    case Drop => DropperStep(s)
  }

  ghost predicate Run(s: State, acts: seq<Act>, end: State)
    decreases |acts|
  {
    if acts == [] then end == s else Can(s, acts[0]) && Run(Step(s, acts[0]), acts[1..], end)
  }

  /** Nothing sent, nobody waiting. */
  predicate Quiet(s: State) {
    && s.reader > 0 && s.queue == [] && s.sent == s.got && !s.closed && s.waiter == 0 && s.at == Away
    && s.dropper == Idle
  }

  lemma {:induction false} RunKeeps(s: State, acts: seq<Act>, end: State)
    requires (Quiet(s) || Inv(s)) && Run(s, acts, end)
    ensures Inv(end)
    decreases |acts|
  {
    hide NoneLost, ReaderStep, WriterStep, DropperStep;
    if !Inv(s) {
      QuietInv(s);
    }
    if acts != [] {
      match acts[0] {
        case Read => ReaderKeeps(s);
        case Write(i, m) => WriterKeeps(s, i, m);
        case Drop => DropperKeeps(s);
      }
      RunKeeps(Step(s, acts[0]), acts[1..], end);
    }
  }

  lemma QuietInv(s: State)
    requires Quiet(s)
    ensures Inv(s)
  {
    assert s.got + s.queue == s.got;
  }

  ghost predicate OthersDone(s: State) {
    s.dropper == Idle && forall i :: i in s.writers ==> s.writers[i] == Idle
  }

  /** When everybody else is done, a sleeping reader with something to see is in the run queue; and what it
      has been given is what was sent, in order. */
  lemma WokenInTheEnd(s: State, acts: seq<Act>, end: State)
    requires Quiet(s) && Run(s, acts, end)
    ensures end.got <= end.sent
    ensures end.at == Asleep && (end.queue != [] || end.closed) && OthersDone(end) ==> end.ready > 0
  {
    RunKeeps(s, acts, end);
  }
}
