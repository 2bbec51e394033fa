/** The MINIX-style rendezvous of src/syscall/ipc.rs: `send`, `receive` and `sendrec`. Each call is one
    atomic step under the process table's lock; a blocked call is executed again when its process is
    woken. The log records what was accepted and what was delivered, in order. */
module Rendezvous {
  import opened Words

  const ANY: Pid := -1

  /** `id` is the position of the message's acceptance in the log. */
  datatype Msg = Msg(source: Pid, body: int, id: nat)

  /** `IpcState`. The request in `ReceivingReply` and `MessageAvailable` is history: what the awaited
      or deposited message answers. */
  datatype Ipc =
    | Calm
    | Sending(target: Pid, msg: Msg, reply: bool)
    | Receiving(source: Pid)
    | ReceivingReply(source: Pid, request: Msg)
    | MessageAvailable(msg: Msg, answers: Opt)
    | SendComplete

  datatype Opt = No | Yes(m: Msg)

  datatype Call = Send(to: Pid, body: int) | Receive(from: Pid) | SendRec(to: Pid, body: int)

  /** Where a process is: free to make a call, asleep in one, or woken to execute it again. */
  datatype Ctl = Free | Asleep(call: Call) | Woken(call: Call)

  datatype Event = Accepted(to: Pid, msg: Msg) | Delivered(to: Pid, msg: Msg, answers: Opt)

  /** `directed` collects the processes that ever used anything but `send` and receive-any. */
  datatype State = State(ipc: map<Pid, Ipc>, senders: map<Pid, seq<Pid>>, ctl: map<Pid, Ctl>,
                         log: seq<Event>, directed: set<Pid>)

  predicate Proc(s: State, p: Pid) {
    p in s.ipc && p in s.senders && p in s.ctl
  }

  function Wake(ctl: map<Pid, Ctl>, p: Pid): map<Pid, Ctl> {
    if p in ctl && ctl[p].Asleep? then ctl[p := Woken(ctl[p].call)] else ctl
  }

  predicate Match(source: Pid, p: Pid) {
    source == ANY || source == p
  }

  // ---- the calls ----

  /** The sender goes to the back of the target's queue and sleeps. */
  function Enqueue(s: State, p: Pid, to: Pid, msg: Msg, reply: bool, call: Call): State
    requires Proc(s, p) && Proc(s, to)
  {
    s.(ipc := s.ipc[p := Sending(to, msg, reply)], senders := s.senders[to := s.senders[to] + [p]],
       ctl := s.ctl[p := Asleep(call)], log := s.log + [Accepted(to, msg)])
  }

  /** The message is put in the waiting target's hands. */
  function Deposit(s: State, to: Pid, msg: Msg, answers: Opt): State
    requires Proc(s, to)
  {
    s.(ipc := s.ipc[to := MessageAvailable(msg, answers)], ctl := Wake(s.ctl, to), log := s.log + [Accepted(to, msg)])
  }

  function SendStep(s: State, p: Pid, to: Pid, body: int): State
    requires Proc(s, p)
  {
    var msg := Msg(p, body, |s.log|);
    if s.ipc[p] == SendComplete then s.(ipc := s.ipc[p := Calm], ctl := s.ctl[p := Free])
    else if !Proc(s, to) then s.(ctl := s.ctl[p := Free])
    else if s.ipc[to].Receiving? && Match(s.ipc[to].source, p) then
      Deposit(s.(ctl := s.ctl[p := Free]), to, msg, No)
    else if s.ipc[to].ReceivingReply? && Match(s.ipc[to].source, p) then
      Deposit(s.(ctl := s.ctl[p := Free]), to, msg, Yes(s.ipc[to].request))
    else Enqueue(s, p, to, msg, false, Send(to, body))
  }

  /** The first sender in the queue that matches, or its length. */
  function FirstMatch(q: seq<Pid>, source: Pid): (i: nat)
    ensures i <= |q| && (i < |q| ==> Match(source, q[i]))
    ensures forall k :: 0 <= k < i ==> !Match(source, q[k])
  {
    if q == [] || Match(source, q[0]) then 0 else 1 + FirstMatch(q[1..], source)
  }

  function Without(q: seq<Pid>, i: nat): seq<Pid>
    requires i < |q|
  {
    q[..i] + q[i + 1..]
  }

  /** Takes the message of the queued sender `q`; a `sendrec` goes on to await its reply. */
  function Accept(s: State, p: Pid, i: nat): State
    requires Proc(s, p) && i < |s.senders[p]| && Proc(s, s.senders[p][i])
  {
    var q := s.senders[p][i];
    var t := s.(senders := s.senders[p := Without(s.senders[p], i)], ctl := s.ctl[p := Free]);
    if !s.ipc[q].Sending? then t
    else if s.ipc[q].reply then
      t.(ipc := s.ipc[q := ReceivingReply(p, s.ipc[q].msg)], log := s.log + [Delivered(p, s.ipc[q].msg, No)])
    else
      t.(ipc := s.ipc[q := SendComplete], ctl := Wake(t.ctl, q), log := s.log + [Delivered(p, s.ipc[q].msg, No)])
  }

  function ReceiveStep(s: State, p: Pid, from: Pid): State
    requires Proc(s, p)
  {
    if s.ipc[p].MessageAvailable? then
      s.(ipc := s.ipc[p := Calm], ctl := s.ctl[p := Free], log := s.log + [Delivered(p, s.ipc[p].msg, No)])
    else
      var i := FirstMatch(s.senders[p], from);
      if i < |s.senders[p]| && Proc(s, s.senders[p][i]) then Accept(s, p, i)
      else s.(ipc := s.ipc[p := Receiving(from)], ctl := s.ctl[p := Asleep(Receive(from))])
  }

  function SendRecStep(s: State, p: Pid, to: Pid, body: int): State
    requires Proc(s, p)
  {
    var msg := Msg(p, body, |s.log|);
    match s.ipc[p]
    case MessageAvailable(m, answers) =>
      s.(ipc := s.ipc[p := Calm], ctl := s.ctl[p := Free], log := s.log + [Delivered(p, m, answers)])
    case ReceivingReply(_, _) => s.(ctl := s.ctl[p := Asleep(SendRec(to, body))])
    case Calm =>
      if !Proc(s, to) then s.(ctl := s.ctl[p := Free])
      else if s.ipc[to].Receiving? && Match(s.ipc[to].source, p) then
        var t := Deposit(s, to, msg, No);
        t.(ipc := t.ipc[p := ReceivingReply(to, msg)], ctl := t.ctl[p := Asleep(SendRec(to, body))])
      else Enqueue(s, p, to, msg, true, SendRec(to, body))
    case _ => s.(ipc := s.ipc[p := Calm], ctl := s.ctl[p := Free])
  }

  function Exec(s: State, p: Pid, call: Call): State
    requires Proc(s, p)
  {
    match call
    case Send(to, body) => SendStep(s, p, to, body)
    case Receive(from) => ReceiveStep(s, p, from)
    case SendRec(to, body) => SendRecStep(s, p, to, body)
  }

  // ---- what holds between steps ----

  predicate Domains(s: State) {
    s.ipc.Keys == s.senders.Keys == s.ctl.Keys && ANY !in s.ipc
  }

  /** What a process's place in its call says about its `IpcState`. */
  predicate Placed(c: Ctl, i: Ipc) {
    match c
    case Free => i == Calm
    case Asleep(Send(to, body)) => i.Sending? && i.target == to && !i.reply && i.msg.body == body
    case Woken(Send(_, _)) => i == SendComplete
    case Asleep(Receive(from)) => i == Receiving(from)
    case Woken(Receive(from)) => i.MessageAvailable? && Match(from, i.msg.source) && i.answers == No
    case Asleep(SendRec(to, body)) =>
      || (i.Sending? && i.target == to && i.reply && i.msg.body == body)
      || (i.ReceivingReply? && i.source == to && i.request.body == body)
    case Woken(SendRec(to, body)) =>
      i.MessageAvailable? && i.msg.source == to && i.answers.Yes? && i.answers.m.body == body
  }

  ghost predicate AllPlaced(ctl: map<Pid, Ctl>, ipc: map<Pid, Ipc>) {
    forall p :: p in ctl && p in ipc ==> Placed(ctl[p], ipc[p])
  }

  predicate SendsTo(ipc: map<Pid, Ipc>, q: Pid, t: Pid) {
    q in ipc && ipc[q].Sending? && ipc[q].target == t
  }

  /** A process is in `t`'s queue, once, exactly when it is sending to `t`. */
  ghost predicate Queued(ipc: map<Pid, Ipc>, senders: map<Pid, seq<Pid>>) {
    && (forall t :: t in senders ==> NoDup(senders[t]))
    && (forall t, q :: t in senders ==> (q in senders[t] <==> SendsTo(ipc, q, t)))
    && (forall q :: q in ipc && ipc[q].Sending? ==> ipc[q].target in senders && ipc[q].target != q)
  }

  /** Nobody waits in `receive` while a matching sender is queued. */
  ghost predicate NoneMissed(ipc: map<Pid, Ipc>, senders: map<Pid, seq<Pid>>) {
    forall t, q :: t in ipc && t in senders && ipc[t].Receiving? && q in senders[t] ==> !Match(ipc[t].source, q)
  }

  /** A reply is awaited from a process, not from anyone. */
  ghost predicate Partners(ipc: map<Pid, Ipc>) {
    forall p :: p in ipc && ipc[p].ReceivingReply? ==> ipc[p].source in ipc
  }

  /** Who awaits a reply finds no plain `send` of that process in its queue: the reply went into its hands. Only a
      `sendrec` of the awaited process can be queued there. */
  ghost predicate NoneOwed(ipc: map<Pid, Ipc>) {
    forall p :: p in ipc && ipc[p].ReceivingReply? && SendsTo(ipc, ipc[p].source, p) ==> ipc[ipc[p].source].reply
  }

  ghost predicate Shape(s: State) {
    && Domains(s) && AllPlaced(s.ctl, s.ipc) && Queued(s.ipc, s.senders) && NoneMissed(s.ipc, s.senders)
    && Partners(s.ipc) && NoneOwed(s.ipc)
  }

  /** A process may make a call when it is free, or execute the one it was woken in; nobody sends to itself. */
  predicate Enabled(s: State, p: Pid, call: Call) {
    && Proc(s, p) && (s.ctl[p] == Free || s.ctl[p] == Woken(call))
    && (call.Receive? || call.to != p)
  }

  // ---- queues ----

  lemma WithoutIs(q: seq<Pid>, i: nat)
    requires i < |q| && NoDup(q)
    ensures NoDup(Without(q, i)) && forall x :: x in Without(q, i) <==> x in q && x != q[i]
  {
    var w := Without(q, i);
    forall x | x in q && x != q[i] ensures x in w {
      var k :| 0 <= k < |q| && q[k] == x;
      assert w[if k < i then k else k - 1] == x;
    }
    forall x | x in w ensures x in q && x != q[i] {
      var k :| 0 <= k < |w| && w[k] == x;
      assert q[if k < i then k else k + 1] == x;
    }
  }

  /** One process changes its state and neither was nor is sending. */
  lemma QueuedOther(ipc: map<Pid, Ipc>, senders: map<Pid, seq<Pid>>, p: Pid, i: Ipc)
    requires Queued(ipc, senders) && p in ipc && !ipc[p].Sending? && !i.Sending?
    ensures Queued(ipc[p := i], senders)
  {
  }

  lemma QueuedMore(ipc: map<Pid, Ipc>, senders: map<Pid, seq<Pid>>, p: Pid, to: Pid, msg: Msg, reply: bool)
    requires Queued(ipc, senders) && p in ipc && !ipc[p].Sending? && to in senders && to != p
    ensures Queued(ipc[p := Sending(to, msg, reply)], senders[to := senders[to] + [p]])
  {
    assert !SendsTo(ipc, p, to);
    var ipc', senders' := ipc[p := Sending(to, msg, reply)], senders[to := senders[to] + [p]];
    forall t, q | t in senders' ensures q in senders'[t] <==> SendsTo(ipc', q, t) {
      assert q in senders[t] <==> SendsTo(ipc, q, t);
    }
  }

  lemma QueuedLess(ipc: map<Pid, Ipc>, senders: map<Pid, seq<Pid>>, p: Pid, k: nat, i: Ipc)
    requires Queued(ipc, senders) && p in senders && k < |senders[p]| && !i.Sending?
    ensures senders[p][k] in ipc && ipc[senders[p][k]].Sending? && ipc[senders[p][k]].target == p && p != senders[p][k]
    ensures Queued(ipc[senders[p][k] := i], senders[p := Without(senders[p], k)])
  {
    var c := senders[p][k];
    assert c in senders[p];
    WithoutIs(senders[p], k);
    var ipc', senders' := ipc[c := i], senders[p := Without(senders[p], k)];
    forall t, q | t in senders' ensures q in senders'[t] <==> SendsTo(ipc', q, t) {
      assert q in senders[t] <==> SendsTo(ipc, q, t);
    }
  }

  // ---- the steps keep the shape ----

  /** `p` returns from its call. */
  lemma ReturnKept(s: State, p: Pid)
    requires Shape(s) && Proc(s, p) && !s.ipc[p].Sending?
    ensures Shape(s.(ipc := s.ipc[p := Calm], ctl := s.ctl[p := Free]))
  {
    hide Queued;
    QueuedOther(s.ipc, s.senders, p, Calm);
  }

  /** Waiting processes are asleep, in the call they wait in. */
  lemma Waiting(s: State, t: Pid)
    requires Shape(s) && Proc(s, t)
    ensures s.ipc[t].Receiving? ==> s.ctl[t] == Asleep(Receive(s.ipc[t].source))
    ensures s.ipc[t].ReceivingReply? ==>
      s.ctl[t].Asleep? && s.ctl[t].call.SendRec? && s.ctl[t].call.to == s.ipc[t].source
    ensures s.ipc[t].Sending? ==> s.ctl[t].Asleep? && !s.ctl[t].call.Receive? && s.ctl[t].call.to == s.ipc[t].target
    ensures s.ipc[t].Sending? ==> (s.ctl[t].call.SendRec? <==> s.ipc[t].reply)
  {
    assert Placed(s.ctl[t], s.ipc[t]);
  }

  lemma DepositKept(s: State, p: Pid, to: Pid, msg: Msg, answers: Opt)
    requires Shape(s) && Proc(s, to) && msg.source == p
    requires
      || (s.ipc[to].Receiving? && Match(s.ipc[to].source, p) && answers == No)
      || (s.ipc[to].ReceivingReply? && s.ipc[to].source == p && answers == Yes(s.ipc[to].request))
    ensures Shape(Deposit(s, to, msg, answers))
  {
    hide Queued;
    Waiting(s, to);
    QueuedOther(s.ipc, s.senders, to, MessageAvailable(msg, answers));
  }

  lemma EnqueueKept(s: State, p: Pid, to: Pid, msg: Msg, reply: bool, call: Call)
    requires Shape(s) && Proc(s, p) && Proc(s, to) && to != p && s.ipc[p] == Calm
    requires !(s.ipc[to].Receiving? && Match(s.ipc[to].source, p))
    requires call == if reply then SendRec(to, msg.body) else Send(to, msg.body)
    requires !reply ==> !(s.ipc[to].ReceivingReply? && s.ipc[to].source == p)
    ensures Shape(Enqueue(s, p, to, msg, reply, call))
  {
    hide Queued;
    QueuedMore(s.ipc, s.senders, p, to, msg, reply);
  }

  lemma AcceptKept(s: State, p: Pid, k: nat)
    requires Shape(s) && Proc(s, p) && k < |s.senders[p]| && s.ipc[p] == Calm
    ensures Proc(s, s.senders[p][k]) && s.ipc[s.senders[p][k]].Sending? && Shape(Accept(s, p, k))
  {
    hide Queued;
    var q := s.senders[p][k];
    QueuedLess(s.ipc, s.senders, p, k, SendComplete);
    QueuedLess(s.ipc, s.senders, p, k, ReceivingReply(p, s.ipc[q].msg));
    Waiting(s, q);
  }

  lemma BlockKept(s: State, p: Pid, from: Pid)
    requires Shape(s) && Proc(s, p) && s.ipc[p] == Calm && (forall q :: q in s.senders[p] ==> !Match(from, q))
    ensures Shape(s.(ipc := s.ipc[p := Receiving(from)], ctl := s.ctl[p := Asleep(Receive(from))]))
  {
    hide Queued;
    QueuedOther(s.ipc, s.senders, p, Receiving(from));
  }

  lemma AwaitKept(s: State, p: Pid, to: Pid, msg: Msg, body: int)
    requires Shape(s) && Proc(s, p) && Proc(s, to) && to != p && s.ipc[p] == Calm && msg.source == p
    requires s.ipc[to].Receiving? && Match(s.ipc[to].source, p) && msg.body == body
    ensures var t := Deposit(s, to, msg, No);
      Shape(t.(ipc := t.ipc[p := ReceivingReply(to, msg)], ctl := t.ctl[p := Asleep(SendRec(to, body))]))
  {
    hide Queued;
    DepositKept(s, p, to, msg, No);
    var t := Deposit(s, to, msg, No);
    QueuedOther(t.ipc, t.senders, p, ReceivingReply(to, msg));
  }

  /** In a call, a process is calm at first and finds what it waited for when woken. */
  lemma AtCall(s: State, p: Pid, call: Call)
    requires Shape(s) && Enabled(s, p, call)
    ensures s.ctl[p] == Free ==> s.ipc[p] == Calm
    ensures s.ctl[p] != Free && call.Send? ==> s.ipc[p] == SendComplete
    ensures s.ctl[p] != Free && call.Receive? ==> s.ipc[p].MessageAvailable? && s.ipc[p].answers == No
    ensures s.ctl[p] != Free && call.SendRec? ==>
      s.ipc[p].MessageAvailable? && s.ipc[p].answers.Yes? && s.ipc[p].msg.source == call.to
  {
    assert Placed(s.ctl[p], s.ipc[p]);
  }

  lemma SendShape(s: State, p: Pid, to: Pid, body: int)
    requires Shape(s) && Enabled(s, p, Send(to, body))
    ensures Shape(SendStep(s, p, to, body))
  {
    hide Shape;
    AtCall(s, p, Send(to, body));
    var msg := Msg(p, body, |s.log|);
    if s.ipc[p] == SendComplete {
      ReturnKept(s, p);
    } else {
      ShapeFree(s, p);
      if Proc(s, to) {
        if s.ipc[to].Receiving? && Match(s.ipc[to].source, p) {
          DepositKept(s, p, to, msg, No);
        } else if s.ipc[to].ReceivingReply? && Match(s.ipc[to].source, p) {
          NotAny(s, to);
          DepositKept(s, p, to, msg, Yes(s.ipc[to].request));
        } else {
          EnqueueKept(s, p, to, msg, false, Send(to, body));
        }
      }
    }
  }

  lemma ReceiveShape(s: State, p: Pid, from: Pid)
    requires Shape(s) && Enabled(s, p, Receive(from))
    ensures Shape(ReceiveStep(s, p, from))
  {
    hide Shape;
    AtCall(s, p, Receive(from));
    if s.ipc[p].MessageAvailable? {
      ReturnKept(s, p);
      AnyLog(s.(ipc := s.ipc[p := Calm], ctl := s.ctl[p := Free]), s.log + [Delivered(p, s.ipc[p].msg, No)]);
    } else {
      var i := FirstMatch(s.senders[p], from);
      if i < |s.senders[p]| {
        AcceptKept(s, p, i);
      } else {
        BlockKept(s, p, from);
      }
    }
  }

  lemma SendRecShape(s: State, p: Pid, to: Pid, body: int)
    requires Shape(s) && Enabled(s, p, SendRec(to, body))
    ensures Shape(SendRecStep(s, p, to, body))
  {
    hide Shape;
    AtCall(s, p, SendRec(to, body));
    var msg := Msg(p, body, |s.log|);
    if s.ipc[p].MessageAvailable? {
      ReturnKept(s, p);
      AnyLog(s.(ipc := s.ipc[p := Calm], ctl := s.ctl[p := Free]),
        s.log + [Delivered(p, s.ipc[p].msg, s.ipc[p].answers)]);
    } else {
      ShapeFree(s, p);
      if Proc(s, to) {
        if s.ipc[to].Receiving? && Match(s.ipc[to].source, p) {
          AwaitKept(s, p, to, msg, body);
        } else {
          EnqueueKept(s, p, to, msg, true, SendRec(to, body));
        }
      }
    }
  }

  lemma ShapeFree(s: State, p: Pid)
    requires Proc(s, p) && s.ctl[p] == Free
    ensures s.(ctl := s.ctl[p := Free]) == s
  {
  }

  lemma AnyLog(s: State, log: seq<Event>)
    requires Shape(s)
    ensures Shape(s.(log := log))
  {
  }

  lemma NotAny(s: State, t: Pid)
    requires Shape(s) && Proc(s, t) && s.ipc[t].ReceivingReply?
    ensures s.ipc[t].source != ANY
  {
  }

  // ---- the log ----

  /** The log holds the acceptance of `msg` for `to`, at the message's own position. */
  predicate MsgAt(log: seq<Event>, to: Pid, msg: Msg) {
    msg.id < |log| && log[msg.id] == Accepted(to, msg)
  }

  /** `t` received `q` before position `n`. */
  ghost predicate GotBefore(log: seq<Event>, t: Pid, q: Msg, n: nat) {
    exists j :: 0 <= j < n && j < |log| && log[j].Delivered? && log[j].to == t && log[j].msg == q
  }

  /** Nothing of `p` was accepted between positions `id` and `n`. */
  ghost predicate Latest(log: seq<Event>, p: Pid, id: nat, n: nat) {
    forall k :: id < k < n && k < |log| && log[k].Accepted? ==> log[k].msg.source != p
  }

  /** The message a process has on its way or awaits the answer to, and its partner. */
  function Own(i: Ipc): Opt {
    match i
    case Sending(_, m, _) => Yes(m)
    case ReceivingReply(_, q) => Yes(q)
    case MessageAvailable(_, answers) => answers
    case _ => No
  }

  function Partner(i: Ipc): Pid {
    match i
    case Sending(t, _, _) => t
    case ReceivingReply(t, _) => t
    case MessageAvailable(m, _) => m.source
    case _ => ANY
  }

  ghost predicate LoggedAt(log: seq<Event>, p: Pid, i: Ipc) {
    && (Own(i).Yes? ==> Own(i).m.source == p && MsgAt(log, Partner(i), Own(i).m) && Latest(log, p, Own(i).m.id, |log|))
    && (i.MessageAvailable? ==> MsgAt(log, p, i.msg))
  }

  ghost predicate Logged(ipc: map<Pid, Ipc>, log: seq<Event>) {
    forall p :: p in ipc ==> LoggedAt(log, p, ipc[p])
  }

  ghost predicate LogOk(log: seq<Event>) {
    && (forall k :: 0 <= k < |log| && log[k].Accepted? ==> log[k].msg.id == k)
    && (forall k :: 0 <= k < |log| && log[k].Delivered? ==> log[k].msg.id < k && MsgAt(log, log[k].to, log[k].msg))
  }

  /** `m` answers `p`'s request `q`: `q` went to `m`'s sender, who had received it before `m` was accepted. */
  ghost predicate Answers(log: seq<Event>, p: Pid, q: Msg, m: Msg) {
    && q.source == p && MsgAt(log, m.source, q) && GotBefore(log, m.source, q, m.id)
  }

  ghost predicate CausalAt(ipc: map<Pid, Ipc>, log: seq<Event>, p: Pid, i: Ipc) {
    && (i.ReceivingReply? ==>
         GotBefore(log, i.source, i.request, |log|)
           || (i.source in ipc && ipc[i.source] == MessageAvailable(i.request, No)))
    && (i.MessageAvailable? && i.answers.Yes? ==> Answers(log, p, i.answers.m, i.msg))
  }

  ghost predicate Causal(ipc: map<Pid, Ipc>, log: seq<Event>) {
    forall p :: p in ipc ==> CausalAt(ipc, log, p, ipc[p])
  }

  /** Request/reply causality: every `sendrec` that returned got a message sent by the process it called,
      after that process had received this very request, the caller's latest. */
  ghost predicate CausalLog(log: seq<Event>) {
    forall l :: 0 <= l < |log| && log[l].Delivered? && log[l].answers.Yes? ==>
      && Answers(log, log[l].to, log[l].answers.m, log[l].msg)
      && Latest(log, log[l].to, log[l].answers.m.id, l)
  }

  ghost predicate Hist(ipc: map<Pid, Ipc>, log: seq<Event>) {
    LogOk(log) && Logged(ipc, log) && Causal(ipc, log) && CausalLog(log)
  }

  lemma LaterStill(log: seq<Event>, e: Event, t: Pid, q: Msg, n: nat)
    ensures GotBefore(log, t, q, n) ==> GotBefore(log + [e], t, q, n) && GotBefore(log + [e], t, q, |log| + 1)
    ensures MsgAt(log, t, q) ==> MsgAt(log + [e], t, q)
  {
    if GotBefore(log, t, q, n) {
      var j :| 0 <= j < n && j < |log| && log[j].Delivered? && log[j].to == t && log[j].msg == q;
      assert (log + [e])[j] == log[j];
    }
  }

  /** What an unchanged process's history says survives one more event not its own. */
  lemma AtExtend(ipc: map<Pid, Ipc>, log: seq<Event>, e: Event, p: Pid, i: Ipc)
    requires LoggedAt(log, p, i) && (e.Accepted? ==> e.msg.source != p)
    ensures LoggedAt(log + [e], p, i)
  {
  }

  lemma CausalExtend(log: seq<Event>, e: Event)
    requires CausalLog(log) && (e.Delivered? && e.answers.Yes? ==>
      Answers(log, e.to, e.answers.m, e.msg) && Latest(log, e.to, e.answers.m.id, |log|))
    ensures CausalLog(log + [e])
  {
    var log' := log + [e];
    forall l | 0 <= l < |log'| && log'[l].Delivered? && log'[l].answers.Yes?
      ensures Answers(log', log'[l].to, log'[l].answers.m, log'[l].msg)
      ensures Latest(log', log'[l].to, log'[l].answers.m.id, l)
    {
      var d := log'[l];
      assert Answers(log, d.to, d.answers.m, d.msg) && Latest(log, d.to, d.answers.m.id, l);
      LaterStill(log, e, d.msg.source, d.answers.m, d.msg.id);
    }
  }

  lemma LogOkExtend(log: seq<Event>, e: Event)
    requires LogOk(log) && (e.Accepted? ==> e.msg.id == |log|) && (e.Delivered? ==> MsgAt(log, e.to, e.msg))
    ensures LogOk(log + [e])
  {
  }

  /** A process with nothing deposited moves to a state without history. */
  lemma HistQuiet(ipc: map<Pid, Ipc>, log: seq<Event>, p: Pid, i: Ipc)
    requires Hist(ipc, log) && p in ipc && !ipc[p].MessageAvailable? && (i == Calm || i.Receiving?)
    ensures Hist(ipc[p := i], log)
  {
    var ipc' := ipc[p := i];
    forall r | r in ipc' ensures CausalAt(ipc', log, r, ipc'[r]) {
      assert r != p ==> CausalAt(ipc, log, r, ipc[r]);
    }
  }

  /** Every process but those in `moved` keeps its state through one more event, made by none of them. */
  lemma OthersKept(ipc: map<Pid, Ipc>, ipc': map<Pid, Ipc>, log: seq<Event>, e: Event, r: Pid)
    requires Hist(ipc, log) && r in ipc && r in ipc' && ipc'[r] == ipc[r] && (e.Accepted? ==> e.msg.source != r)
    requires forall t, q :: t in ipc && ipc[t] == MessageAvailable(q, No) ==>
      (t in ipc' && ipc'[t] == ipc[t]) || (e.Delivered? && e.to == t && e.msg == q)
    ensures LoggedAt(log + [e], r, ipc'[r]) && CausalAt(ipc', log + [e], r, ipc'[r])
  {
    var i := ipc[r];
    assert LoggedAt(log, r, i) && CausalAt(ipc, log, r, i);
    AtExtend(ipc, log, e, r, i);
    if i.ReceivingReply? {
      LaterStill(log, e, i.source, i.request, |log|);
      if !GotBefore(log, i.source, i.request, |log|) && e.Delivered? && e.to == i.source && e.msg == i.request {
        assert (log + [e])[|log|] == e;
      }
    }
    if i.MessageAvailable? && i.answers.Yes? {
      LaterStill(log, e, i.msg.source, i.answers.m, i.msg.id);
    }
  }

  lemma HistDeliver(ipc: map<Pid, Ipc>, log: seq<Event>, p: Pid)
    requires Hist(ipc, log) && p in ipc && ipc[p].MessageAvailable?
    ensures Hist(ipc[p := Calm], log + [Delivered(p, ipc[p].msg, ipc[p].answers)])
  {
    hide LogOk, CausalLog, GotBefore, Latest, Answers;
    var e, ipc' := Delivered(p, ipc[p].msg, ipc[p].answers), ipc[p := Calm];
    assert LoggedAt(log, p, ipc[p]) && CausalAt(ipc, log, p, ipc[p]);
    LogOkExtend(log, e);
    CausalExtend(log, e);
    forall r | r in ipc' ensures LoggedAt(log + [e], r, ipc'[r]) && CausalAt(ipc', log + [e], r, ipc'[r]) {
      if r != p {
        OthersKept(ipc, ipc', log, e, r);
      }
    }
  }

  lemma HistDeposit(ipc: map<Pid, Ipc>, log: seq<Event>, p: Pid, to: Pid, msg: Msg, answers: Opt)
    requires Hist(ipc, log) && p in ipc && to in ipc && p != to && ipc[p] == Calm && msg.source == p && msg.id == |log|
    requires (ipc[to].Receiving? && answers == No)
      || (ipc[to].ReceivingReply? && ipc[to].source == p && answers == Yes(ipc[to].request))
    ensures Hist(ipc[to := MessageAvailable(msg, answers)], log + [Accepted(to, msg)])
  {
    hide LogOk, CausalLog, GotBefore, Latest;
    var e, ipc' := Accepted(to, msg), ipc[to := MessageAvailable(msg, answers)];
    LogOkExtend(log, e);
    CausalExtend(log, e);
    assert LoggedAt(log, to, ipc[to]) && CausalAt(ipc, log, to, ipc[to]);
    AtExtend(ipc, log, e, to, ipc[to]);
    if answers.Yes? {
      LaterStill(log, e, p, answers.m, |log|);
    }
    forall r | r in ipc' ensures LoggedAt(log + [e], r, ipc'[r]) && CausalAt(ipc', log + [e], r, ipc'[r]) {
      if r != to && r != p {
        OthersKept(ipc, ipc', log, e, r);
      }
    }
  }

  lemma HistEnqueue(ipc: map<Pid, Ipc>, log: seq<Event>, p: Pid, to: Pid, msg: Msg, reply: bool)
    requires Hist(ipc, log) && p in ipc && ipc[p] == Calm && msg.source == p && msg.id == |log|
    ensures Hist(ipc[p := Sending(to, msg, reply)], log + [Accepted(to, msg)])
  {
    hide LogOk, CausalLog, GotBefore;
    var e, ipc' := Accepted(to, msg), ipc[p := Sending(to, msg, reply)];
    LogOkExtend(log, e);
    CausalExtend(log, e);
    forall r | r in ipc' ensures LoggedAt(log + [e], r, ipc'[r]) && CausalAt(ipc', log + [e], r, ipc'[r]) {
      if r != p {
        OthersKept(ipc, ipc', log, e, r);
      }
    }
  }

  lemma HistAccept(ipc: map<Pid, Ipc>, log: seq<Event>, p: Pid, q: Pid)
    requires Hist(ipc, log) && p in ipc && q in ipc && p != q && ipc[p] == Calm && ipc[q].Sending? && ipc[q].target == p
    ensures var m := ipc[q].msg;
      && Hist(ipc[q := SendComplete], log + [Delivered(p, m, No)])
      && Hist(ipc[q := ReceivingReply(p, m)], log + [Delivered(p, m, No)])
  {
    hide LogOk, CausalLog, GotBefore, Latest;
    var m := ipc[q].msg;
    var e := Delivered(p, m, No);
    assert LoggedAt(log, q, ipc[q]);
    LogOkExtend(log, e);
    CausalExtend(log, e);
    var ipc1, ipc2 := ipc[q := SendComplete], ipc[q := ReceivingReply(p, m)];
    forall r | r in ipc
      ensures LoggedAt(log + [e], r, ipc1[r]) && CausalAt(ipc1, log + [e], r, ipc1[r])
      ensures LoggedAt(log + [e], r, ipc2[r]) && CausalAt(ipc2, log + [e], r, ipc2[r])
    {
      if r != q {
        OthersKept(ipc, ipc1, log, e, r);
        OthersKept(ipc, ipc2, log, e, r);
      } else {
        AtExtend(ipc, log, e, q, ipc[q]);
        JustGot(log, p, m);
      }
    }
  }

  lemma JustGot(log: seq<Event>, p: Pid, m: Msg)
    ensures GotBefore(log + [Delivered(p, m, No)], p, m, |log| + 1)
  {
    assert (log + [Delivered(p, m, No)])[|log|] == Delivered(p, m, No);
  }

  lemma HistAwait(ipc: map<Pid, Ipc>, log: seq<Event>, p: Pid, to: Pid, msg: Msg)
    requires Hist(ipc, log) && p in ipc && to in ipc && p != to && ipc[p] == Calm && msg.source == p && msg.id == |log|
    requires ipc[to].Receiving?
    ensures Hist(ipc[to := MessageAvailable(msg, No)][p := ReceivingReply(to, msg)], log + [Accepted(to, msg)])
  {
    hide LogOk, CausalLog, GotBefore, Latest;
    HistDeposit(ipc, log, p, to, msg, No);
    var ipc1, log1 := ipc[to := MessageAvailable(msg, No)], log + [Accepted(to, msg)];
    var ipc2 := ipc1[p := ReceivingReply(to, msg)];
    forall r | r in ipc2 ensures LoggedAt(log1, r, ipc2[r]) && CausalAt(ipc2, log1, r, ipc2[r]) {
      if r != p {
        assert LoggedAt(log1, r, ipc1[r]) && CausalAt(ipc1, log1, r, ipc1[r]);
      } else {
        assert Latest(log1, p, msg.id, |log1|) by { LatestSelf(log1, p, |log|); }
      }
    }
  }

  lemma LatestSelf(log: seq<Event>, p: Pid, id: nat)
    requires |log| == id + 1
    ensures Latest(log, p, id, |log|)
  {
  }

  // ---- conservation ----

  /** The messages accepted for `t`, and those delivered to it, in order. */
  function Arrived(log: seq<Event>, t: Pid): seq<Msg> {
    if log == [] then []
    else
      var e := log[|log| - 1];
      Arrived(log[..|log| - 1], t) + if e.Accepted? && e.to == t then [e.msg] else []
  }

  function Got(log: seq<Event>, t: Pid): seq<Msg> {
    if log == [] then []
    else
      var e := log[|log| - 1];
      Got(log[..|log| - 1], t) + if e.Delivered? && e.to == t then [e.msg] else []
  }

  lemma Appended(log: seq<Event>, e: Event, t: Pid)
    ensures Arrived(log + [e], t) == if e.Accepted? && e.to == t then Arrived(log, t) + [e.msg] else Arrived(log, t)
    ensures Got(log + [e], t) == if e.Delivered? && e.to == t then Got(log, t) + [e.msg] else Got(log, t)
  {
    assert (log + [e])[..|log|] == log;
  }

  function InHand(i: Ipc): seq<Msg> {
    if i.MessageAvailable? then [i.msg] else []
  }

  function Queue(ipc: map<Pid, Ipc>, q: seq<Pid>): seq<Msg> {
    if q == [] then [] else Queue(ipc, q[..|q| - 1]) + Item(ipc, q[|q| - 1])
  }

  function Item(ipc: map<Pid, Ipc>, p: Pid): seq<Msg> {
    if p in ipc && ipc[p].Sending? then [ipc[p].msg] else []
  }

  lemma QueueSnoc(ipc: map<Pid, Ipc>, q: seq<Pid>, p: Pid)
    ensures Queue(ipc, q + [p]) == Queue(ipc, q) + Item(ipc, p)
  {
    assert (q + [p])[..|q|] == q;
  }

  /** What is on its way to `t`: deposited, then queued. */
  function Pending(s: State, t: Pid): seq<Msg>
    requires Proc(s, t)
  {
    InHand(s.ipc[t]) + Queue(s.ipc, s.senders[t])
  }

  /** What arrived is what was delivered and what is on its way; in that very order if `ordered`. */
  ghost predicate Balanced(arrived: seq<Msg>, got: seq<Msg>, pending: seq<Msg>, ordered: bool) {
    && multiset(arrived) == multiset(got) + multiset(pending)
    && (ordered ==> arrived == got + pending)
  }

  lemma BalancedArrive(arrived: seq<Msg>, got: seq<Msg>, pending: seq<Msg>, ordered: bool, m: Msg)
    requires Balanced(arrived, got, pending, ordered)
    ensures Balanced(arrived + [m], got, pending + [m], ordered)
  {
  }

  lemma BalancedDeliver(arrived: seq<Msg>, got: seq<Msg>, pending: seq<Msg>, rest: seq<Msg>, ordered: bool, m: Msg)
    requires Balanced(arrived, got, pending, ordered) && multiset(pending) == multiset{m} + multiset(rest)
    requires ordered ==> pending == [m] + rest
    ensures Balanced(arrived, got + [m], rest, ordered)
  {
    if ordered {
      assert got + ([m] + rest) == got + [m] + rest;
    }
  }

  /** Every message accepted for a process has been delivered to it, once, or is on its way; and a process
      that only ever receives from anyone gets its messages in the order they arrived. */
  ghost predicate ConservedAt(s: State, t: Pid)
    requires Proc(s, t)
  {
    Balanced(Arrived(s.log, t), Got(s.log, t), Pending(s, t), t !in s.directed)
  }

  ghost predicate Conserved(s: State) {
    forall t :: Proc(s, t) ==> ConservedAt(s, t)
  }

  lemma {:induction false} QueueSame(ipc: map<Pid, Ipc>, p: Pid, i: Ipc, q: seq<Pid>)
    requires p !in q
    ensures Queue(ipc[p := i], q) == Queue(ipc, q)
  {
    if q != [] {
      QueueSame(ipc, p, i, q[..|q| - 1]);
    }
  }

  lemma {:induction false} QueueWithout(ipc: map<Pid, Ipc>, q: seq<Pid>, k: nat)
    requires k < |q| && q[k] in ipc && ipc[q[k]].Sending?
    ensures multiset(Queue(ipc, q)) == multiset{ipc[q[k]].msg} + multiset(Queue(ipc, Without(q, k)))
    ensures k == 0 ==> Queue(ipc, q) == [ipc[q[k]].msg] + Queue(ipc, Without(q, k))
  {
    hide Queue, Item;
    var n := |q| - 1;
    assert q == q[..n] + [q[n]];
    QueueSnoc(ipc, q[..n], q[n]);
    if k < n {
      QueueWithout(ipc, q[..n], k);
      assert Without(q, k) == Without(q[..n], k) + [q[n]];
      QueueSnoc(ipc, Without(q[..n], k), q[n]);
    } else {
      assert Without(q, k) == q[..n];
      ItemIs(ipc, q[n]);
      if k == 0 {
        QueueEmpty(ipc, q[..n]);
      }
    }
  }

  lemma ItemIs(ipc: map<Pid, Ipc>, p: Pid)
    requires p in ipc && ipc[p].Sending?
    ensures Item(ipc, p) == [ipc[p].msg]
  {
  }

  lemma QueueEmpty(ipc: map<Pid, Ipc>, q: seq<Pid>)
    requires q == []
    ensures Queue(ipc, q) == []
  {
  }

  /** A process whose queue and log are untouched. */
  lemma ConservedOther(s: State, s': State, e: Event, t: Pid, p: Pid, i: Ipc)
    requires Proc(s, t) && Proc(s', t) && ConservedAt(s, t) && s'.senders[t] == s.senders[t] && p !in s.senders[t]
    requires t != p
    requires s'.ipc == s.ipc[p := i] && e.to != t && s'.log == s.log + [e] && s'.directed == s.directed
    ensures ConservedAt(s', t)
  {
    hide Balanced, Arrived, Got, Queue;
    Appended(s.log, e, t);
    QueueSame(s.ipc, p, i, s.senders[t]);
  }

  /** The same, with no event. */
  lemma ConservedQuiet(s: State, s': State, p: Pid, i: Ipc)
    requires Shape(s) && Conserved(s) && Proc(s, p) && !s.ipc[p].Sending? && !s.ipc[p].MessageAvailable?
    requires !i.MessageAvailable? && !i.Sending?
    requires s'.ipc == s.ipc[p := i] && s'.senders == s.senders && s'.ctl.Keys == s.ctl.Keys && s'.log == s.log
    requires s'.directed == s.directed
    ensures Conserved(s')
  {
    hide Balanced, Arrived, Got, Queue;
    forall t | Proc(s', t) ensures ConservedAt(s', t) {
      assert ConservedAt(s, t);
      NotQueued(s, p, t);
      QueueSame(s.ipc, p, i, s.senders[t]);
    }
  }

  lemma NotQueued(s: State, p: Pid, t: Pid)
    requires Shape(s) && Proc(s, p) && t in s.senders && (!s.ipc[p].Sending? || s.ipc[p].target != t)
    ensures p !in s.senders[t]
  {
    assert p in s.senders[t] <==> SendsTo(s.ipc, p, t);
  }

  /** A deposited message is delivered. */
  lemma ConservedDeliver(s: State, s': State, p: Pid, a: Opt)
    requires Shape(s) && Conserved(s) && Proc(s, p) && s.ipc[p].MessageAvailable?
    requires s'.ipc == s.ipc[p := Calm] && s'.senders == s.senders && s'.ctl.Keys == s.ctl.Keys
    requires s'.log == s.log + [Delivered(p, s.ipc[p].msg, a)] && s'.directed == s.directed
    ensures Conserved(s')
  {
    hide Balanced, Arrived, Got, Queue, Shape;
    var e := Delivered(p, s.ipc[p].msg, a);
    forall t | Proc(s', t) ensures ConservedAt(s', t) {
      assert ConservedAt(s, t);
      NotQueued(s, p, t);
      if t != p {
        ConservedOther(s, s', e, t, p, Calm);
      } else {
        Appended(s.log, e, p);
        QueueSame(s.ipc, p, Calm, s.senders[p]);
        var rest := Queue(s.ipc, s.senders[p]);
        assert InHand(Calm) + rest == rest;
        BalancedDeliver(Arrived(s.log, p), Got(s.log, p), Pending(s, p), rest, p !in s.directed, s.ipc[p].msg);
      }
    }
  }

  /** A message is put in the hands of a process with an empty queue, or into a reply. */
  lemma ConservedDeposit(s: State, s': State, to: Pid, msg: Msg, a: Opt)
    requires Shape(s) && Conserved(s) && Proc(s, to) && (s.ipc[to].Receiving? || s.ipc[to].ReceivingReply?)
    requires to in s.directed || s.senders[to] == []
    requires s'.ipc == s.ipc[to := MessageAvailable(msg, a)] && s'.senders == s.senders && s'.ctl.Keys == s.ctl.Keys
    requires s'.log == s.log + [Accepted(to, msg)] && s'.directed == s.directed
    ensures Conserved(s')
  {
    hide Balanced, Arrived, Got, Queue, Shape;
    var e := Accepted(to, msg);
    forall t | Proc(s', t) ensures ConservedAt(s', t) {
      assert ConservedAt(s, t);
      NotQueued(s, to, t);
      if t != to {
        ConservedOther(s, s', e, t, to, MessageAvailable(msg, a));
      } else {
        Appended(s.log, e, to);
        QueueSame(s.ipc, to, MessageAvailable(msg, a), s.senders[to]);
        var q := Queue(s.ipc, s.senders[to]);
        assert Pending(s, to) == q && Pending(s', to) == [msg] + q;
        BalancedArrive(Arrived(s.log, to), Got(s.log, to), q, to !in s.directed, msg);
        if s.senders[to] == [] {
          QueueEmpty(s.ipc, s.senders[to]);
        }
        Reordered(Arrived(s.log, to) + [msg], Got(s.log, to), q + [msg], [msg] + q, to !in s.directed);
      }
    }
  }

  lemma Reordered(arrived: seq<Msg>, got: seq<Msg>, pending: seq<Msg>, pending': seq<Msg>, ordered: bool)
    requires Balanced(arrived, got, pending, ordered) && multiset(pending) == multiset(pending')
    requires (ordered ==> pending == pending')
    ensures Balanced(arrived, got, pending', ordered)
  {
  }

  lemma ConservedEnqueue(s: State, p: Pid, to: Pid, msg: Msg, reply: bool, call: Call)
    requires Shape(s) && Conserved(s) && Proc(s, p) && Proc(s, to) && p != to && s.ipc[p] == Calm
    ensures Conserved(Enqueue(s, p, to, msg, reply, call))
  {
    hide Balanced, Arrived, Got, Queue, Shape;
    var e, s' := Accepted(to, msg), Enqueue(s, p, to, msg, reply, call);
    forall t | Proc(s', t) ensures ConservedAt(s', t) {
      assert ConservedAt(s, t);
      NotQueued(s, p, t);
      QueueSame(s.ipc, p, s'.ipc[p], s.senders[t]);
      Appended(s.log, e, t);
      if t == to {
        QueueSnoc(s'.ipc, s.senders[to], p);
        ItemIs(s'.ipc, p);
        assert Pending(s', to) == Pending(s, to) + [msg];
        BalancedArrive(Arrived(s.log, to), Got(s.log, to), Pending(s, to), to !in s.directed, msg);
      } else if t == p {
        assert InHand(s'.ipc[p]) == InHand(s.ipc[p]);
      }
    }
  }

  /** A queued message is delivered: any of them, but the first to a receive-any. */
  lemma ConservedAccept(s: State, p: Pid, k: nat)
    requires Shape(s) && Conserved(s) && Proc(s, p) && k < |s.senders[p]| && s.ipc[p] == Calm
    requires (p in s.directed || k == 0)
    requires Proc(s, s.senders[p][k]) && s.ipc[s.senders[p][k]].Sending? && s.ipc[s.senders[p][k]].target == p
    requires s.senders[p][k] != p
    ensures Conserved(Accept(s, p, k))
  {
    hide Balanced, Arrived, Got, Queue, Shape;
    var q, s' := s.senders[p][k], Accept(s, p, k);
    var m, rest := s.ipc[q].msg, Without(s.senders[p], k);
    var e := Delivered(p, m, No);
    forall t | Proc(s', t) ensures ConservedAt(s', t) {
      assert ConservedAt(s, t);
      Appended(s.log, e, t);
      if t == p {
        QueueWithout(s.ipc, s.senders[p], k);
        assert q !in rest by { GoneFrom(s, p, k); }
        QueueSame(s.ipc, q, s'.ipc[q], rest);
        assert Pending(s, p) == Queue(s.ipc, s.senders[p]) && Pending(s', p) == Queue(s.ipc, rest);
        BalancedDeliver(Arrived(s.log, p), Got(s.log, p), Pending(s, p), Pending(s', p), p !in s.directed, m);
      } else {
        NotQueued(s, q, t);
        QueueSame(s.ipc, q, s'.ipc[q], s.senders[t]);
        assert InHand(s'.ipc[t]) == InHand(s.ipc[t]);
      }
    }
  }

  lemma GoneFrom(s: State, p: Pid, k: nat)
    requires Shape(s) && p in s.senders && k < |s.senders[p]|
    ensures s.senders[p][k] !in Without(s.senders[p], k)
  {
    WithoutIs(s.senders[p], k);
  }

  // ---- steps and runs ----

  predicate AnyOnly(call: Call) {
    call.Send? || call == Receive(ANY)
  }

  function Mark(s: State, p: Pid, call: Call): State {
    if AnyOnly(call) then s else s.(directed := s.directed + {p})
  }

  function Step(s: State, p: Pid, call: Call): State
    requires Proc(s, p)
  {
    Exec(Mark(s, p, call), p, call)
  }

  ghost predicate DirectedOk(ipc: map<Pid, Ipc>, directed: set<Pid>) {
    forall t :: t in ipc && t !in directed ==>
      !ipc[t].ReceivingReply? && (ipc[t].Receiving? ==> ipc[t].source == ANY) && (ipc[t].Sending? ==> !ipc[t].reply)
  }

  ghost predicate Inv(s: State) {
    Shape(s) && Hist(s.ipc, s.log) && Conserved(s) && DirectedOk(s.ipc, s.directed)
  }

  lemma MarkKeeps(s: State, p: Pid, call: Call)
    requires Inv(s) && Enabled(s, p, call)
    ensures Inv(Mark(s, p, call)) && Enabled(Mark(s, p, call), p, call)
    ensures (!AnyOnly(call) ==> p in Mark(s, p, call).directed)
  {
    hide Hist, Arrived, Got, Pending;
    var s' := Mark(s, p, call);
    forall t | Proc(s', t) ensures ConservedAt(s', t) {
      assert ConservedAt(s, t);
      assert Pending(s', t) == Pending(s, t) by { PendingSame(s, s', t); }
    }
  }

  lemma PendingSame(s: State, s': State, t: Pid)
    requires Proc(s, t) && Proc(s', t) && s'.ipc == s.ipc && s'.senders == s.senders
    ensures Pending(s', t) == Pending(s, t)
  {
  }

  /** A process waiting for anyone has an empty queue. */
  lemma NoQueue(s: State, t: Pid)
    requires Shape(s) && DirectedOk(s.ipc, s.directed) && Proc(s, t)
    requires (s.ipc[t].Receiving? || s.ipc[t].ReceivingReply?)
    ensures t in s.directed || s.senders[t] == []
  {
    if s.senders[t] != [] {
      assert s.senders[t][0] in s.senders[t];
      assert s.ipc[t].Receiving? ==> !Match(s.ipc[t].source, s.senders[t][0]);
    }
  }

  lemma SendKeeps(s: State, p: Pid, to: Pid, body: int)
    requires Inv(s) && Enabled(s, p, Send(to, body))
    ensures Inv(SendStep(s, p, to, body))
  {
    hide Shape, Hist, Conserved;
    SendShape(s, p, to, body);
    AtCall(s, p, Send(to, body));
    var s', msg := SendStep(s, p, to, body), Msg(p, body, |s.log|);
    if s.ipc[p] == SendComplete {
      HistQuiet(s.ipc, s.log, p, Calm);
      ConservedQuiet(s, s', p, Calm);
    } else {
      ShapeFree(s, p);
      if Proc(s, to) {
        if s.ipc[to].Receiving? && Match(s.ipc[to].source, p) {
          NoQueue(s, to);
          HistDeposit(s.ipc, s.log, p, to, msg, No);
          ConservedDeposit(s, s', to, msg, No);
        } else if s.ipc[to].ReceivingReply? && Match(s.ipc[to].source, p) {
          NotAny(s, to);
          NoQueue(s, to);
          HistDeposit(s.ipc, s.log, p, to, msg, Yes(s.ipc[to].request));
          ConservedDeposit(s, s', to, msg, Yes(s.ipc[to].request));
        } else {
          HistEnqueue(s.ipc, s.log, p, to, msg, false);
          ConservedEnqueue(s, p, to, msg, false, Send(to, body));
        }
      }
    }
  }

  lemma ReceiveKeeps(s: State, p: Pid, from: Pid)
    requires Inv(s) && Enabled(s, p, Receive(from)) && (from != ANY ==> p in s.directed)
    ensures Inv(ReceiveStep(s, p, from))
  {
    hide Shape, Hist, Conserved;
    ReceiveShape(s, p, from);
    AtCall(s, p, Receive(from));
    var s' := ReceiveStep(s, p, from);
    if s.ipc[p].MessageAvailable? {
      HistDeliver(s.ipc, s.log, p);
      ConservedDeliver(s, s', p, No);
    } else {
      var i := FirstMatch(s.senders[p], from);
      if i < |s.senders[p]| {
        AcceptKept(s, p, i);
        Sender(s, p, i);
        HistAccept(s.ipc, s.log, p, s.senders[p][i]);
        ConservedAccept(s, p, i);
      } else {
        HistQuiet(s.ipc, s.log, p, Receiving(from));
        ConservedQuiet(s, s', p, Receiving(from));
      }
    }
  }

  lemma Sender(s: State, p: Pid, k: nat)
    requires Shape(s) && p in s.senders && k < |s.senders[p]|
    ensures SendsTo(s.ipc, s.senders[p][k], p) && s.senders[p][k] != p
  {
    assert s.senders[p][k] in s.senders[p];
  }

  lemma SendRecKeeps(s: State, p: Pid, to: Pid, body: int)
    requires Inv(s) && Enabled(s, p, SendRec(to, body)) && p in s.directed
    ensures Inv(SendRecStep(s, p, to, body))
  {
    hide Shape, Hist, Conserved;
    SendRecShape(s, p, to, body);
    AtCall(s, p, SendRec(to, body));
    var s', msg := SendRecStep(s, p, to, body), Msg(p, body, |s.log|);
    if s.ipc[p].MessageAvailable? {
      HistDeliver(s.ipc, s.log, p);
      ConservedDeliver(s, s', p, s.ipc[p].answers);
    } else {
      ShapeFree(s, p);
      if Proc(s, to) {
        if s.ipc[to].Receiving? && Match(s.ipc[to].source, p) {
          NoQueue(s, to);
          HistAwait(s.ipc, s.log, p, to, msg);
          var t := Deposit(s, to, msg, No);
          DepositKept(s, p, to, msg, No);
          ConservedDeposit(s, t, to, msg, No);
          ConservedQuiet(t, s', p, ReceivingReply(to, msg));
        } else {
          HistEnqueue(s.ipc, s.log, p, to, msg, true);
          ConservedEnqueue(s, p, to, msg, true, SendRec(to, body));
        }
      }
    }
  }

  /** Every call keeps every invariant. */
  lemma StepKeeps(s: State, p: Pid, call: Call)
    requires Inv(s) && Enabled(s, p, call)
    ensures Inv(Step(s, p, call))
  {
    hide Inv, SendStep, ReceiveStep, SendRecStep;
    MarkKeeps(s, p, call);
    match call
    case Send(to, body) => SendKeeps(Mark(s, p, call), p, to, body);
    case Receive(from) => ReceiveKeeps(Mark(s, p, call), p, from);
    case SendRec(to, body) => SendRecKeeps(Mark(s, p, call), p, to, body);
  }

  datatype Act = Act(p: Pid, call: Call)

  /** A run: every act is possible where it happens. */
  ghost predicate Run(s: State, acts: seq<Act>, end: State)
    decreases |acts|
  {
    if acts == [] then end == s
    else Enabled(s, acts[0].p, acts[0].call) && Run(Step(s, acts[0].p, acts[0].call), acts[1..], end)
  }

  function Initial(pids: set<Pid>): State {
    State(map p | p in pids :: Calm, map p | p in pids :: [], map p | p in pids :: Free, [], {})
  }

  lemma InitialInv(pids: set<Pid>)
    requires ANY !in pids
    ensures Inv(Initial(pids))
  {
  }

  lemma {:induction false} RunKeeps(s: State, acts: seq<Act>, end: State)
    requires Inv(s) && Run(s, acts, end)
    ensures Inv(end)
    decreases |acts|
  {
    hide Inv, Step;
    if acts != [] {
      StepKeeps(s, acts[0].p, acts[0].call);
      RunKeeps(Step(s, acts[0].p, acts[0].call), acts[1..], end);
    }
  }

  // ---- what that means ----

  lemma {:induction false} ArrivedIds(log: seq<Event>, t: Pid)
    requires LogOk(log)
    ensures forall i, j :: 0 <= i < j < |Arrived(log, t)| ==> Arrived(log, t)[i].id < Arrived(log, t)[j].id
    ensures forall i :: 0 <= i < |Arrived(log, t)| ==> Arrived(log, t)[i].id < |log|
  {
    if log != [] {
      var n := |log| - 1;
      assert LogOk(log[..n]) by { LogOkPrefix(log, n); }
      ArrivedIds(log[..n], t);
    }
  }

  lemma LogOkPrefix(log: seq<Event>, n: nat)
    requires LogOk(log) && n <= |log|
    ensures LogOk(log[..n])
  {
  }

  lemma {:induction false} OnceEach(q: seq<Msg>, m: Msg)
    requires forall i, j :: 0 <= i < j < |q| ==> q[i].id < q[j].id
    ensures multiset(q)[m] <= 1
  {
    if q != [] {
      var n := |q| - 1;
      assert q == q[..n] + [q[n]];
      OnceEach(q[..n], m);
      if m == q[n] {
        assert m !in q[..n];
      }
    }
  }

  /** In every reachable state each message accepted for `t` is in exactly one place: delivered to `t`, or
      on its way there. */
  lemma DeliveredOnce(s: State, t: Pid, m: Msg)
    requires Inv(s) && Proc(s, t)
    ensures multiset(Got(s.log, t))[m] + multiset(Pending(s, t))[m] == if m in Arrived(s.log, t) then 1 else 0
  {
    hide Shape, Arrived, Got, Pending, DirectedOk;
    assert ConservedAt(s, t);
    assert multiset(Arrived(s.log, t))[m] <= 1 by {
      ArrivedIds(s.log, t);
      OnceEach(Arrived(s.log, t), m);
    }
    assert m in Arrived(s.log, t) <==> m in multiset(Arrived(s.log, t));
  }

  /** A server that only uses receive-any takes messages in arrival order. */
  lemma ServedInOrder(s: State, t: Pid)
    requires Inv(s) && Proc(s, t) && t !in s.directed
    ensures Got(s.log, t) <= Arrived(s.log, t)
  {
    assert ConservedAt(s, t);
  }

  /** A `sendrec` to `to` that returns hands over a message sent by `to` after it had received the caller's
      latest message, which is this very call's, and nobody else's. */
  lemma ReplyIsCausal(s: State, p: Pid, to: Pid, body: int)
    requires Inv(s) && Enabled(s, p, SendRec(to, body)) && s.ctl[p] == Woken(SendRec(to, body))
    ensures var s' := Step(s, p, SendRec(to, body));
      && s'.ctl[p] == Free && |s'.log| == |s.log| + 1
      && var d := s'.log[|s.log|];
      && d.Delivered? && d.to == p && d.msg.source == to && d.answers.Yes? && d.answers.m.body == body
      && Answers(s'.log, p, d.answers.m, d.msg) && Latest(s'.log, p, d.answers.m.id, |s.log|)
  {
    hide Conserved, DirectedOk;
    AtCall(s, p, SendRec(to, body));
    var s' := Step(s, p, SendRec(to, body));
    StepKeeps(s, p, SendRec(to, body));
    assert CausalLog(s'.log);
  }

  // ---- what each call does ----

  /** `to` waits for a message that `p` may send: any, or one from `p`. */
  predicate Awaits(s: State, to: Pid, p: Pid) {
    && to in s.ipc && (s.ipc[to].Receiving? || s.ipc[to].ReceivingReply?)
    && (s.ipc[to].source == p || s.ipc[to].source == -1)
  }

  /** Nothing of a process outside `ps` changes. */
  ghost predicate OthersSame(s: State, t: State, ps: set<Pid>) {
    && t.ipc.Keys == s.ipc.Keys && t.senders.Keys == s.senders.Keys && t.ctl.Keys == s.ctl.Keys
    && forall q :: q !in ps ==>
         && (q in s.ipc ==> t.ipc[q] == s.ipc[q]) && (q in s.senders ==> t.senders[q] == s.senders[q])
         && (q in s.ctl ==> t.ctl[q] == s.ctl[q])
  }

  /** A new message of `p`'s is accepted for `to`. */
  ghost predicate OneAccepted(s: State, t: State, p: Pid, to: Pid, body: int) {
    |t.log| == |s.log| + 1 && t.log[..|s.log|] == s.log && t.log[|s.log|] == Accepted(to, Msg(p, body, |s.log|))
  }

  ghost predicate OneDelivered(s: State, t: State, p: Pid, msg: Msg, answers: Opt) {
    |t.log| == |s.log| + 1 && t.log[..|s.log|] == s.log && t.log[|s.log|] == Delivered(p, msg, answers)
  }

  /** A `send`: to nobody it fails; to a process that waits for it, the message goes into its hands, it is woken, and
      the sender is free; otherwise the sender sleeps at the end of the queue. */
  ghost predicate SendDoes(s: State, t: State, p: Pid, to: Pid, body: int)
    requires Domains(s) && p in s.ipc
  {
    if to !in s.ipc then OthersSame(s, t, {}) && t.log == s.log
    else if Awaits(s, to, p) then
      && OthersSame(s, t, {to}) && OneAccepted(s, t, p, to, body)
      && t.senders == s.senders && s.ctl[to].Asleep? && t.ctl[to] == Woken(s.ctl[to].call)
      && t.ipc[to] == MessageAvailable(Msg(p, body, |s.log|),
                                       if s.ipc[to].ReceivingReply? then Yes(s.ipc[to].request) else No)
    else
      && OthersSame(s, t, {p, to}) && OneAccepted(s, t, p, to, body)
      && t.ipc[to] == s.ipc[to] && t.ctl[to] == s.ctl[to] && t.senders[p] == s.senders[p]
      && t.senders[to] == s.senders[to] + [p] && t.ctl[p] == Asleep(Send(to, body))
      && t.ipc[p] == Sending(to, Msg(p, body, |s.log|), false)
  }

  lemma SendLaw(s: State, p: Pid, to: Pid, body: int)
    requires Inv(s) && Enabled(s, p, Send(to, body)) && s.ctl[p] == Free
    ensures SendDoes(s, Step(s, p, Send(to, body)), p, to, body)
  {
    hide Hist, Conserved, DirectedOk, NoneMissed, Queued, NoneOwed;
    AtCall(s, p, Send(to, body));
    if to in s.ipc {
      Waiting(s, to);
    }
  }

  /** The first sender in `p`'s queue that `from` admits is the one at `k`. */
  ghost predicate FirstIn(s: State, p: Pid, from: Pid, k: nat) {
    && p in s.senders && k < |s.senders[p]| && (from == -1 || s.senders[p][k] == from)
    && forall i :: 0 <= i < k ==> from != -1 && s.senders[p][i] != from
  }

  /** A `receive` takes the message of the first sender that matches and takes it off the queue. A `send` is then
      done and its process woken; a `sendrec` sleeps on, now for the reply. */
  ghost predicate Takes(s: State, t: State, p: Pid, k: nat)
    requires Domains(s) && p in s.senders && k < |s.senders[p]|
  {
    var q := s.senders[p][k];
    && q in s.ipc && s.ipc[q].Sending? && OthersSame(s, t, {p, q}) && OneDelivered(s, t, p, s.ipc[q].msg, No)
    && t.ctl[p] == Free && t.ipc[p] == Calm && t.senders[p] == s.senders[p][..k] + s.senders[p][k + 1..]
    && t.senders[q] == s.senders[q]
    && (if s.ipc[q].reply then t.ipc[q] == ReceivingReply(p, s.ipc[q].msg) && t.ctl[q] == s.ctl[q]
        else t.ipc[q] == SendComplete && s.ctl[q].Asleep? && t.ctl[q] == Woken(s.ctl[q].call))
  }

  lemma ReceiveTakes(s: State, p: Pid, from: Pid, k: nat)
    requires Inv(s) && Enabled(s, p, Receive(from)) && s.ctl[p] == Free && FirstIn(s, p, from, k)
    ensures Takes(s, Step(s, p, Receive(from)), p, k)
  {
    hide Hist, Conserved, DirectedOk, NoneMissed, NoneOwed, AllPlaced, Partners, Queued;
    AtCall(s, p, Receive(from));
    FirstIs(s.senders[p], from, k);
    Sender(s, p, k);
    Waiting(s, s.senders[p][k]);
  }

  /** Without one it sleeps, and everything else is as it was. */
  lemma ReceiveSleeps(s: State, p: Pid, from: Pid)
    requires Inv(s) && Enabled(s, p, Receive(from)) && s.ctl[p] == Free
    requires forall q :: q in s.senders[p] ==> from != -1 && q != from
    ensures var t := Step(s, p, Receive(from));
      && OthersSame(s, t, {p}) && t.senders == s.senders && t.log == s.log
      && t.ipc[p] == Receiving(from) && t.ctl[p] == Asleep(Receive(from))
  {
    hide Hist, Conserved, DirectedOk, NoneMissed, Queued, NoneOwed;
    AtCall(s, p, Receive(from));
    assert forall k :: 0 <= k < |s.senders[p]| ==> s.senders[p][k] in s.senders[p];
    FirstIs(s.senders[p], from, |s.senders[p]|);
  }

  /** A `sendrec` puts its message in the hands of a process in `receive` that waits for it, and queues it otherwise,
      even when the target awaits a reply from the caller; in both cases the caller sleeps. */
  ghost predicate SendRecDoes(s: State, t: State, p: Pid, to: Pid, body: int)
    requires Domains(s) && p in s.ipc
  {
    if to !in s.ipc then OthersSame(s, t, {}) && t.log == s.log
    else if Awaits(s, to, p) && s.ipc[to].Receiving? then
      && OthersSame(s, t, {p, to}) && OneAccepted(s, t, p, to, body) && t.senders == s.senders
      && s.ctl[to].Asleep? && t.ctl[to] == Woken(s.ctl[to].call)
      && t.ipc[to] == MessageAvailable(Msg(p, body, |s.log|), No)
      && t.ipc[p] == ReceivingReply(to, Msg(p, body, |s.log|)) && t.ctl[p] == Asleep(SendRec(to, body))
    else
      && OthersSame(s, t, {p, to}) && OneAccepted(s, t, p, to, body)
      && t.ipc[to] == s.ipc[to] && t.ctl[to] == s.ctl[to] && t.senders[p] == s.senders[p]
      && t.senders[to] == s.senders[to] + [p] && t.ctl[p] == Asleep(SendRec(to, body))
      && t.ipc[p] == Sending(to, Msg(p, body, |s.log|), true)
  }

  lemma SendRecLaw(s: State, p: Pid, to: Pid, body: int)
    requires Inv(s) && Enabled(s, p, SendRec(to, body)) && s.ctl[p] == Free
    ensures SendRecDoes(s, Step(s, p, SendRec(to, body)), p, to, body)
  {
    hide Hist, Conserved, DirectedOk, NoneMissed, Queued, NoneOwed;
    AtCall(s, p, SendRec(to, body));
    if to in s.ipc {
      Waiting(s, to);
    }
  }

  /** A process executing its call again returns from it; from `receive` and `sendrec` with the message put in its
      hands. */
  lemma WokenReturns(s: State, p: Pid, call: Call)
    requires Inv(s) && Enabled(s, p, call) && s.ctl[p] == Woken(call)
    ensures var t := Step(s, p, call);
      && OthersSame(s, t, {p}) && t.senders == s.senders && t.ctl[p] == Free && t.ipc[p] == Calm
      && if call.Send? then t.log == s.log
         else s.ipc[p].MessageAvailable? && OneDelivered(s, t, p, s.ipc[p].msg, s.ipc[p].answers)
  {
    hide Hist, Conserved, DirectedOk, NoneMissed, Queued, NoneOwed;
    AtCall(s, p, call);
  }

  /** The reply: when `to` awaits one from `p`, a `send` of `p`'s leaves `p` free and `to` woken, and `to`'s next
      step returns with that very message, as the answer to its request. */
  lemma ReplyArrives(s: State, p: Pid, to: Pid, body: int)
    requires Inv(s) && Enabled(s, p, Send(to, body)) && s.ctl[p] == Free
    requires to in s.ipc && s.ipc[to].ReceivingReply? && s.ipc[to].source == p
    ensures var t := Step(s, p, Send(to, body));
      && t.ctl[p] == Free && OneAccepted(s, t, p, to, body)
      && to in t.ctl && t.ctl[to].Woken? && t.ctl[to].call.SendRec? && t.ctl[to].call.to == p
      && Enabled(t, to, t.ctl[to].call)
      && var u := Step(t, to, t.ctl[to].call);
      && u.ctl[to] == Free && u.ctl[p] == Free
      && OneDelivered(t, u, to, Msg(p, body, |s.log|), Yes(s.ipc[to].request))
  {
    hide Hist, Conserved, DirectedOk, NoneMissed, Queued, NoneOwed, Step, Inv;
    SendLaw(s, p, to, body);
    StepKeeps(s, p, Send(to, body));
    AwaitsPlace(s, to);
    var t := Step(s, p, Send(to, body));
    WokenReturns(t, to, t.ctl[to].call);
  }

  lemma AwaitsPlace(s: State, to: Pid)
    requires Inv(s) && to in s.ipc && s.ipc[to].ReceivingReply?
    ensures Proc(s, to) && s.ctl[to].Asleep? && s.ctl[to].call.SendRec? && s.ctl[to].call.to == s.ipc[to].source
  {
    hide Hist, Conserved, DirectedOk, NoneMissed, Queued, NoneOwed;
    Waiting(s, to);
  }

  /** Who awaits a reply has the awaited process in its queue exactly when that process has itself called `sendrec`
      on it. */
  lemma OwedOnlyBySendRec(s: State, p: Pid)
    requires Inv(s) && Proc(s, p) && s.ipc[p].ReceivingReply?
    ensures var q := s.ipc[p].source;
      q in s.senders[p] <==> SendsTo(s.ipc, q, p) && q in s.ctl && s.ctl[q].Asleep? && s.ctl[q].call.SendRec?
  {
    hide Hist, Conserved, DirectedOk, NoneMissed;
    var q := s.ipc[p].source;
    if q in s.ipc {
      Waiting(s, q);
    }
  }

  // ---- two processes that call each other ----

  /** `c` awaits a reply from `t`, which has called `sendrec` on `c` instead of replying. */
  ghost predicate Crossed(s: State, c: Pid, t: Pid) {
    && c in s.ipc && t in s.ipc && s.ipc[c].ReceivingReply? && s.ipc[c].source == t
    && s.ipc[t].Sending? && s.ipc[t].target == c && s.ipc[t].reply
  }

  /** Then neither ever takes another step. */
  lemma CrossedStays(s: State, c: Pid, t: Pid, p: Pid, call: Call)
    requires Inv(s) && Crossed(s, c, t) && Enabled(s, p, call)
    ensures p != c && p != t && Crossed(Step(s, p, call), c, t)
  {
    hide Hist, Conserved, DirectedOk, NoneMissed, NoneOwed, Step, Inv;
    CrossedSleep(s, c, t);
    if s.ctl[p] == Free {
      match call {
        case Send(to, body) => SendLaw(s, p, to, body);
        case SendRec(to, body) => SendRecLaw(s, p, to, body);
        case Receive(from) =>
          var k := FirstMatch(s.senders[p], from);
          if k < |s.senders[p]| {
            ReceiveTakes(s, p, from, k);
            SenderIs(s, p, k);
          } else {
            ReceiveSleeps(s, p, from);
          }
      }
    } else {
      WokenReturns(s, p, call);
    }
  }

  lemma CrossedSleep(s: State, c: Pid, t: Pid)
    requires Inv(s) && Crossed(s, c, t)
    ensures Proc(s, c) && Proc(s, t) && s.ctl[c].Asleep? && s.ctl[t].Asleep? && t != ANY
  {
    hide Hist, Conserved, DirectedOk, NoneMissed, Queued, NoneOwed;
    Waiting(s, c);
    Waiting(s, t);
  }

  lemma {:induction false} CrossedForever(s: State, c: Pid, t: Pid, acts: seq<Act>, end: State)
    requires Inv(s) && Crossed(s, c, t) && Run(s, acts, end)
    ensures Crossed(end, c, t) && forall i :: 0 <= i < |acts| ==> acts[i].p != c && acts[i].p != t
    decreases |acts|
  {
    hide Inv, Step, Crossed;
    if acts != [] {
      CrossedStays(s, c, t, acts[0].p, acts[0].call);
      StepKeeps(s, acts[0].p, acts[0].call);
      CrossedForever(Step(s, acts[0].p, acts[0].call), c, t, acts[1..], end);
    }
  }

  /** It happens: a client calls, and the server calls back before it replies. */
  lemma CallBack(c: Pid, t: Pid) returns (end: State)
    requires c != t && c != ANY && t != ANY
    ensures Run(Initial({c, t}), [Act(c, SendRec(t, 1)), Act(t, Receive(ANY)), Act(t, SendRec(c, 2))], end)
    ensures Inv(end) && Crossed(end, c, t)
  {
    hide Inv, Hist, Conserved, DirectedOk;
    var s0 := Initial({c, t});
    var s1 := Step(s0, c, SendRec(t, 1));
    var s2 := Step(s1, t, Receive(ANY));
    end := Step(s2, t, SendRec(c, 2));
    InitialInv({c, t});
    assert s1.senders[t] == [] + [c];
    var acts := [Act(c, SendRec(t, 1)), Act(t, Receive(ANY)), Act(t, SendRec(c, 2))];
    assert acts[1..] == [Act(t, Receive(ANY)), Act(t, SendRec(c, 2))] && acts[1..][1..] == [Act(t, SendRec(c, 2))];
    assert acts[1..][1..][1..] == [];
    assert Run(s2, acts[1..][1..], end);
    assert Run(s1, acts[1..], end);
    RunKeeps(s0, acts, end);
  }

  // ---- the process table ----

  datatype Result = Returned(ok: bool) | Blocked

  predicate Sleeps(ctl: map<Pid, Ctl>, p: Pid) {
    p in ctl && ctl[p].Asleep?
  }

  predicate Calmly(ipc: map<Pid, Ipc>, p: Pid) {
    p in ipc && ipc[p] == Calm
  }

  /** The IPC part of the process table. Each method is one call by process `p`, made or made again. */
  class Table {
    var ipc: map<Pid, Ipc>
    var senders: map<Pid, seq<Pid>>
    var ctl: map<Pid, Ctl>
    var log: seq<Event>
    var directed: set<Pid>

    ghost function St(): State
      reads this
    {
      State(ipc, senders, ctl, log, directed)
    }

    /** `enqueue_with_prio` */
    method Rouse(p: Pid)
      modifies this`ctl
      ensures ctl == Wake(old(ctl), p)
    {
      if p in ctl && ctl[p].Asleep? {
        ctl := ctl[p := Woken(ctl[p].call)];
      }
    }

    method Send(p: Pid, to: Pid, body: int) returns (r: Result)
      requires Inv(St()) && Enabled(St(), p, Call.Send(to, body))
      modifies this
      ensures St() == Step(old(St()), p, Call.Send(to, body)) && Inv(St())
      ensures old(ctl)[p] == Free ==> SendDoes(old(St()), St(), p, to, body)
      ensures r.Blocked? <==> Sleeps(ctl, p)
      ensures r == Returned(false) <==> Calmly(old(ipc), p) && !Proc(old(St()), to)
    {
      hide Inv, SendDoes;
      if ctl[p] == Free {
        SendLaw(St(), p, to, body);
      }
      AtCalls(St(), p, Call.Send(to, body));
      StepKeeps(St(), p, Call.Send(to, body));
      if ipc[p] == SendComplete {
        ipc, ctl := ipc[p := Calm], ctl[p := Free];
        return Returned(true);
      }
      var msg := Msg(p, body, |log|);
      if to !in ipc {
        ctl := ctl[p := Free];
        return Returned(false);
      }
      var i := ipc[to];
      if (i.Receiving? || i.ReceivingReply?) && (i.source == p || i.source == ANY) {
        ctl := ctl[p := Free];
        ipc := ipc[to := MessageAvailable(msg, if i.ReceivingReply? then Yes(i.request) else No)];
        Rouse(to);
        log := log + [Accepted(to, msg)];
        return Returned(true);
      }
      ipc := ipc[p := Sending(to, msg, false)];
      senders := senders[to := senders[to] + [p]];
      ctl := ctl[p := Asleep(Call.Send(to, body))];
      log := log + [Accepted(to, msg)];
      return Blocked;
    }

    /** Index of the first queued sender that matches. */
    method Find(q: seq<Pid>, from: Pid) returns (i: nat)
      ensures i == FirstMatch(q, from)
    {
      i := 0;
      while i < |q|
        invariant i <= |q| && forall k :: 0 <= k < i ==> !Match(from, q[k])
      {
        if from == ANY || from == q[i] {
          break;
        }
        i := i + 1;
      }
      FirstIs(q, from, i);
    }

    method Receive(p: Pid, from: Pid) returns (r: Result)
      requires Inv(St()) && Enabled(St(), p, Call.Receive(from))
      modifies this
      ensures St() == Step(old(St()), p, Call.Receive(from)) && Inv(St())
      ensures r.Blocked? <==> Sleeps(ctl, p)
      ensures r != Returned(false)
    {
      hide Inv;
      AtCalls(St(), p, Call.Receive(from));
      StepKeeps(St(), p, Call.Receive(from));
      if from != ANY {
        directed := directed + {p};
      }
      if ipc[p].MessageAvailable? {
        var m := ipc[p].msg;
        ipc, ctl, log := ipc[p := Calm], ctl[p := Free], log + [Delivered(p, m, No)];
        return Returned(true);
      }
      var i := Find(senders[p], from);
      if i < |senders[p]| {
        var q := senders[p][i];
        SenderIs(old(St()), p, i);
        senders := senders[p := Without(senders[p], i)];
        var m := ipc[q].msg;
        ctl, log := ctl[p := Free], log + [Delivered(p, m, No)];
        if ipc[q].reply {
          ipc := ipc[q := ReceivingReply(p, m)];
        } else {
          ipc := ipc[q := SendComplete];
          Rouse(q);
        }
        return Returned(true);
      }
      ipc, ctl := ipc[p := Receiving(from)], ctl[p := Asleep(Call.Receive(from))];
      return Blocked;
    }

    method SendRec(p: Pid, to: Pid, body: int) returns (r: Result)
      requires Inv(St()) && Enabled(St(), p, Call.SendRec(to, body))
      modifies this
      ensures St() == Step(old(St()), p, Call.SendRec(to, body)) && Inv(St())
      ensures old(ctl)[p] == Free ==> SendRecDoes(old(St()), St(), p, to, body)
      ensures r.Blocked? <==> Sleeps(ctl, p)
      ensures r == Returned(false) <==> Calmly(old(ipc), p) && !Proc(old(St()), to)
    {
      hide Inv, SendRecDoes;
      if ctl[p] == Free {
        SendRecLaw(St(), p, to, body);
      }
      AtCalls(St(), p, Call.SendRec(to, body));
      StepKeeps(St(), p, Call.SendRec(to, body));
      directed := directed + {p};
      if ipc[p].MessageAvailable? {
        var i := ipc[p];
        ipc, ctl, log := ipc[p := Calm], ctl[p := Free], log + [Delivered(p, i.msg, i.answers)];
        return Returned(true);
      }
      var msg := Msg(p, body, |log|);
      if to !in ipc {
        ctl := ctl[p := Free];
        return Returned(false);
      }
      if ipc[to].Receiving? && (ipc[to].source == p || ipc[to].source == ANY) {
        ipc := ipc[to := MessageAvailable(msg, No)];
        Rouse(to);
        ipc := ipc[p := ReceivingReply(to, msg)];
      } else {
        ipc := ipc[p := Sending(to, msg, true)];
        senders := senders[to := senders[to] + [p]];
      }
      log := log + [Accepted(to, msg)];
      ctl := ctl[p := Asleep(Call.SendRec(to, body))];
      return Blocked;
    }
  }

  lemma AtCalls(s: State, p: Pid, call: Call)
    requires Inv(s) && Enabled(s, p, call)
    ensures s.ctl[p] == Free ==> s.ipc[p] == Calm
    ensures s.ctl[p] != Free && call.Send? ==> s.ipc[p] == SendComplete
    ensures s.ctl[p] != Free && !call.Send? ==> s.ipc[p].MessageAvailable?
    ensures s.ipc.Keys == s.senders.Keys == s.ctl.Keys
  {
    AtCall(s, p, call);
  }

  lemma SenderIs(s: State, p: Pid, k: nat)
    requires Inv(s) && p in s.senders && k < |s.senders[p]|
    ensures SendsTo(s.ipc, s.senders[p][k], p) && s.senders[p][k] != p
  {
    Sender(s, p, k);
  }

  lemma {:induction false} FirstIs(q: seq<Pid>, from: Pid, i: nat)
    requires i <= |q| && (forall k :: 0 <= k < i ==> !Match(from, q[k])) && (i < |q| ==> Match(from, q[i]))
    ensures i == FirstMatch(q, from)
  {
  }
}
