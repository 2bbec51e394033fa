/** Signal delivery, src/trap/mod.rs, and `sys_sigreturn`, src/syscall/proc.rs: a delivery saves the
    interrupted context in a frame on the user stack; the matching return restores it. */
module Signals {
  import opened Words

  /** `size_of::<SignalFrame>()`: the mask and padding, then a trap frame of 36 words. */
  const FRAME_WORDS: nat := 37
  const FRAME_SIZE: nat := 296

  const SP: nat := 2
  const A0: nat := 10
  const RA: nat := 1

  type Regs = r: seq<Word> | |r| == 32 witness seq(32, _ => 0)

  /** A signal mask: 32 bits. */
  type Mask = m: nat | m < 0x1_0000_0000

  /** What a return has to bring back: the registers, the program counter and the mask. */
  datatype Context = Context(regs: Regs, sepc: Word, blocked: Mask)

  /** The rest of a trap frame, which the kernel does not restore. */
  datatype Rest = Rest(kernelSp: Word, sstatus: Word, hartid: Word)

  // ---- memory ----

  function Read(mem: map<nat, Word>, a: nat): Word {
    if a in mem then mem[a] else 0
  }

  /** `ws` stored from address `at` on. */
  function Written(mem: map<nat, Word>, at: nat, ws: seq<Word>): map<nat, Word> {
    if ws == [] then mem else Written(mem, at, ws[..|ws| - 1])[at + 8 * (|ws| - 1) := ws[|ws| - 1]]
  }

  lemma {:induction false} WrittenAt(mem: map<nat, Word>, at: nat, ws: seq<Word>, a: nat)
    ensures forall j :: 0 <= j < |ws| && a == at + 8 * j ==> Read(Written(mem, at, ws), a) == ws[j]
    ensures (a < at || a >= at + 8 * |ws|) ==> Read(Written(mem, at, ws), a) == Read(mem, a)
  {
    if ws != [] {
      WrittenAt(mem, at, ws[..|ws| - 1], a);
    }
  }

  // ---- frames ----

  function FrameWords(c: Context, rest: Rest): (ws: seq<Word>)
    ensures |ws| == FRAME_WORDS
  {
    [c.blocked, rest.kernelSp] + c.regs + [c.sepc, rest.sstatus, rest.hartid]
  }

  /** The frame at `at` still holds what a return reads: the mask, registers 1 to 31, the program counter. */
  ghost predicate Intact(mem: map<nat, Word>, at: nat, c: Context) {
    && Read(mem, at) % 0x1_0000_0000 == c.blocked
    && (forall i :: 1 <= i < 32 ==> Read(mem, at + 16 + 8 * i) == c.regs[i])
    && Read(mem, at + 272) == c.sepc
  }

  lemma FrameIntact(mem: map<nat, Word>, at: nat, c: Context, rest: Rest)
    ensures Intact(Written(mem, at, FrameWords(c, rest)), at, c)
  {
    hide Written;
    var ws := FrameWords(c, rest);
    WrittenAt(mem, at, ws, at);
    WrittenAt(mem, at, ws, at + 272);
    assert ws[0] == c.blocked && ws[34] == c.sepc;
    forall i | 1 <= i < 32 ensures Read(Written(mem, at, ws), at + 16 + 8 * i) == c.regs[i] {
      WrittenAt(mem, at, ws, at + 16 + 8 * i);
      assert ws[i + 2] == c.regs[i];
    }
  }

  lemma IntactStill(mem: map<nat, Word>, mem': map<nat, Word>, at: nat, c: Context)
    requires Intact(mem, at, c) && forall a :: at <= a < at + FRAME_SIZE ==> Read(mem', a) == Read(mem, a)
    ensures Intact(mem', at, c)
  {
  }

  // ---- masks ----

  predicate Bit(m: nat, i: nat)
    decreases i
  {
    if i == 0 then m % 2 == 1 else Bit(m / 2, i - 1)
  }

  /** Bitwise or of the low `n` bits. */
  function Or(a: nat, b: nat, n: nat): nat {
    if n == 0 then 0 else (if a % 2 == 1 || b % 2 == 1 then 1 else 0) + 2 * Or(a / 2, b / 2, n - 1)
  }

  /** Bits of `a` that are not in `b`, of the low `n`. */
  function Minus(a: nat, b: nat, n: nat): nat {
    if n == 0 then 0 else (if a % 2 == 1 && b % 2 == 0 then 1 else 0) + 2 * Minus(a / 2, b / 2, n - 1)
  }

  function Pow2(n: nat): nat {
    if n == 0 then 1 else 2 * Pow2(n - 1)
  }

  lemma {:induction false} OrBits(a: nat, b: nat, n: nat, i: nat)
    requires i < n
    ensures Bit(Or(a, b, n), i) <==> Bit(a, i) || Bit(b, i)
  {
    var o := Or(a / 2, b / 2, n - 1);
    assert Or(a, b, n) / 2 == o;
    if i > 0 {
      OrBits(a / 2, b / 2, n - 1, i - 1);
    }
  }

  lemma {:induction false} MinusBits(a: nat, b: nat, n: nat, i: nat)
    requires i < n
    ensures Bit(Minus(a, b, n), i) <==> Bit(a, i) && !Bit(b, i)
  {
    var o := Minus(a / 2, b / 2, n - 1);
    assert Minus(a, b, n) / 2 == o;
    if i > 0 {
      MinusBits(a / 2, b / 2, n - 1, i - 1);
    }
  }

  lemma {:induction false} MaskBound(a: nat, b: nat, n: nat)
    ensures Or(a, b, n) < Pow2(n) && Minus(a, b, n) < Pow2(n)
  {
    if n > 0 {
      MaskBound(a / 2, b / 2, n - 1);
    }
  }

  lemma Pow2Is32()
    ensures Pow2(32) == 0x1_0000_0000
  {
    assert Pow2(8) == 256;
    assert Pow2(16) == 0x1_0000;
    assert Pow2(24) == 0x100_0000;
  }

  function MaskOr(a: Mask, b: Mask): Mask {
    MaskBound(a, b, 32);
    Pow2Is32();
    Or(a, b, 32)
  }

  // ---- a process as its handlers see it ----

  /** A delivery not yet returned from: where its frame is, and the context it interrupted. */
  datatype Saved = Saved(at: nat, c: Context)

  /** `stack` is history: the deliveries under way, innermost last. */
  datatype State = State(c: Context, mem: map<nat, Word>, stack: seq<Saved>)

  function FrameAt(sp: Word): nat
    requires sp >= FRAME_SIZE
  {
    (sp - FRAME_SIZE) / 16 * 16
  }

  predicate StackFits(sp: Word) {
    FRAME_SIZE + 16 <= sp <= 0x8000_0000_0000
  }

  /** The handler's context: its stack below the frame, the signal as argument, the restorer as return address. */
  function Entered(c: Context, at: Word, sig: nat, handler: Word, restorer: Word, extra: Mask): Context
    requires sig < 32
  {
    Context(c.regs[SP := at][A0 := sig][RA := restorer], handler, MaskOr(MaskOr(c.blocked, extra), OneBit(sig)))
  }

  function OneBit(sig: nat): Mask
    requires sig < 32
  {
    Pow2Small(sig);
    Pow2(sig)
  }

  lemma {:induction false} Pow2Small(n: nat)
    requires n < 32
    ensures Pow2(n) < 0x1_0000_0000
  {
    Pow2Is32();
    Pow2Mono(n, 32);
  }

  lemma {:induction false} Pow2Mono(a: nat, b: nat)
    requires a < b
    ensures Pow2(a) < Pow2(b) && Pow2(a) > 0
    decreases b
  {
    if a > 0 {
      Pow2Mono(a - 1, b - 1);
    } else if b > 1 {
      Pow2Mono(0, b - 1);
    }
  }

  function Deliver(s: State, sig: nat, handler: Word, restorer: Word, extra: Mask, rest: Rest): State
    requires sig < 32 && StackFits(s.c.regs[SP])
  {
    var at := FrameAt(s.c.regs[SP]);
    State(Entered(s.c, at, sig, handler, restorer, extra), Written(s.mem, at, FrameWords(s.c, rest)),
      s.stack + [Saved(at, s.c)])
  }

  /** What a return loads from the frame at the stack pointer. */
  function Loaded(mem: map<nat, Word>, regs: Regs): Context {
    var sp := regs[SP];
    Context([regs[0]] + seq(31, i requires 0 <= i < 31 => Read(mem, sp + 16 + 8 * (i + 1))), Read(mem, sp + 272),
      Read(mem, sp) % 0x1_0000_0000)
  }

  function Return(s: State): State {
    State(Loaded(s.mem, s.c.regs), s.mem, if s.stack == [] then [] else s.stack[..|s.stack| - 1])
  }

  /** Everything a return restores is the same. */
  ghost predicate SameContext(a: Context, b: Context) {
    (forall i :: 1 <= i < 32 ==> a.regs[i] == b.regs[i]) && a.sepc == b.sepc && a.blocked == b.blocked
  }

  // ---- what always holds ----

  /** Saved frames never overlap, later ones lying lower, and all are intact. */
  ghost predicate Inv(s: State) {
    && (forall j, k :: 0 <= j < k < |s.stack| ==> s.stack[k].at + FRAME_SIZE <= s.stack[j].at)
    && (forall k :: 0 <= k < |s.stack| ==> Intact(s.mem, s.stack[k].at, s.stack[k].c))
  }

  /** Memory from address `low` on is untouched. */
  ghost predicate KeptFrom(mem: map<nat, Word>, mem': map<nat, Word>, low: nat) {
    forall a :: a >= low ==> Read(mem', a) == Read(mem, a)
  }

  function Floor(s: State): nat {
    if s.stack == [] then 0 else s.stack[|s.stack| - 1].at
  }

  /** A handler may do anything to its registers and its mask, and write only below its frame. */
  ghost predicate UserStep(s: State, t: State) {
    t.stack == s.stack && (s.stack != [] ==> KeptFrom(s.mem, t.mem, Floor(s)))
  }

  lemma UserKeeps(s: State, t: State)
    requires Inv(s) && UserStep(s, t)
    ensures Inv(t)
  {
    hide Intact;
    forall k | 0 <= k < |t.stack| ensures Intact(t.mem, t.stack[k].at, t.stack[k].c) {
      assert t.stack[k].at >= Floor(s);
      IntactStill(s.mem, t.mem, s.stack[k].at, s.stack[k].c);
    }
  }

  /** The stack pointer is not above the innermost frame. */
  predicate Disciplined(s: State) {
    s.stack != [] ==> s.c.regs[SP] <= Floor(s)
  }

  lemma DeliverKeeps(s: State, sig: nat, handler: Word, restorer: Word, extra: Mask, rest: Rest)
    requires Inv(s) && sig < 32 && StackFits(s.c.regs[SP]) && Disciplined(s)
    ensures Inv(Deliver(s, sig, handler, restorer, extra, rest))
  {
    hide Intact, Written, Entered, FrameWords;
    var at, t := FrameAt(s.c.regs[SP]), Deliver(s, sig, handler, restorer, extra, rest);
    FrameIntact(s.mem, at, s.c, rest);
    assert at + FRAME_SIZE <= s.c.regs[SP];
    forall k | 0 <= k < |s.stack|
      ensures Intact(t.mem, s.stack[k].at, s.stack[k].c) && at + FRAME_SIZE <= s.stack[k].at
    {
      assert s.stack[k].at >= Floor(s);
      forall a | s.stack[k].at <= a < s.stack[k].at + FRAME_SIZE ensures Read(t.mem, a) == Read(s.mem, a) {
        WrittenAt(s.mem, at, FrameWords(s.c, rest), a);
      }
      IntactStill(s.mem, t.mem, s.stack[k].at, s.stack[k].c);
    }
  }

  /** A return with the delivered stack pointer restores the context its delivery interrupted. */
  lemma ReturnRestores(s: State)
    requires Inv(s) && s.stack != [] && s.c.regs[SP] == Floor(s)
    ensures Inv(Return(s)) && SameContext(Return(s).c, s.stack[|s.stack| - 1].c)
  {
    var top := s.stack[|s.stack| - 1];
    assert Intact(s.mem, top.at, top.c);
    forall i | 1 <= i < 32 ensures Return(s).c.regs[i] == top.c.regs[i] {
      assert Read(s.mem, top.at + 16 + 8 * i) == top.c.regs[i];
    }
  }

  // ---- any depth of nesting ----

  datatype Act = Run(to: State) | Signal(sig: nat, handler: Word, restorer: Word, extra: Mask, rest: Rest) | Sigreturn

  /** `sigreturn` takes a frame only from user memory. */
  predicate InUser(at: nat) {
    0x1_0000_0000 <= at && at + FRAME_SIZE <= 0x8000_0000_0000
  }

  /** Delivery accepts any stack pointer with room below it, so a handler can return exactly when the frame
      lies above 4 GB. */
  lemma CanReturn(sp: Word)
    requires StackFits(sp)
    ensures InUser(FrameAt(sp)) <==> 0x1_0000_0000 <= FrameAt(sp)
    ensures InUser(FrameAt(sp)) <==> 0x1_0000_0000 + FRAME_SIZE <= sp
  {
  }

  ghost predicate Can(s: State, a: Act) {
    match a
    case Run(to) => UserStep(s, to)
    case Signal(sig, _, _, _, _) => sig < 32 && StackFits(s.c.regs[SP]) && Disciplined(s)
    case Sigreturn => s.stack != [] && s.c.regs[SP] == Floor(s) && InUser(Floor(s))
  }

  function Step(s: State, a: Act): State
    requires Can(s, a)
  {
    match a
    case Run(to) => to
    case Signal(sig, handler, restorer, extra, rest) => Deliver(s, sig, handler, restorer, extra, rest)
    case Sigreturn => Return(s)
  }

  /** A run that never returns from the first `depth` deliveries. */
  ghost predicate Above(s: State, acts: seq<Act>, t: State, depth: nat)
    decreases |acts|
  {
    |s.stack| >= depth &&
    if acts == [] then t == s else Can(s, acts[0]) && Above(Step(s, acts[0]), acts[1..], t, depth)
  }

  lemma StepKeeps(s: State, a: Act)
    requires Inv(s) && Can(s, a)
    ensures Inv(Step(s, a))
    ensures forall n: nat :: n <= |s.stack| && n <= |Step(s, a).stack| ==> Step(s, a).stack[..n] == s.stack[..n]
  {
    hide Inv, Intact, Entered, Written;
    match a
    case Run(to) => UserKeeps(s, to);
    case Signal(sig, handler, restorer, extra, rest) => DeliverKeeps(s, sig, handler, restorer, extra, rest);
    case Sigreturn => ReturnRestores(s);
  }

  lemma {:induction false} AboveKeeps(s: State, acts: seq<Act>, t: State, depth: nat)
    requires Inv(s) && Above(s, acts, t, depth)
    ensures Inv(t) && |t.stack| >= depth && t.stack[..depth] == s.stack[..depth]
    decreases |acts|
  {
    hide Inv, Can, Step;
    if acts != [] {
      StepKeeps(s, acts[0]);
      AboveKeeps(Step(s, acts[0]), acts[1..], t, depth);
    }
  }

  /** Nested signals unwind: whatever happens between a delivery and its matching return, however many
      deliveries nest inside, the interrupted context comes back. */
  lemma Unwinds(s: State, a: Act, acts: seq<Act>, t: State)
    requires Inv(s) && a.Signal? && Can(s, a)
    requires Above(Step(s, a), acts, t, |s.stack| + 1) && |t.stack| == |s.stack| + 1 && Can(t, Sigreturn)
    ensures SameContext(Step(t, Sigreturn).c, s.c) && Step(t, Sigreturn).stack == s.stack && Inv(Step(t, Sigreturn))
  {
    hide Inv, Intact, Entered, Written, SameContext;
    StepKeeps(s, a);
    AboveKeeps(Step(s, a), acts, t, |s.stack| + 1);
    assert t.stack == t.stack[..|s.stack| + 1] == s.stack + [Saved(FrameAt(s.c.regs[SP]), s.c)];
    ReturnRestores(t);
  }

  // ---- the process ----

  const EFAULT: Word := 0xFFFF_FFFF_FFFF_FFF2
  const SIGKILL: nat := 9
  const SIGCHLD: nat := 17
  const SIGCONT: nat := 18

  predicate IsStop(sig: nat) {
    19 <= sig <= 22
  }

  datatype Outcome = Nothing | Killed(code: int) | Stopped | Resumed | Ignored | Handled(sig: nat)

  lemma {:induction false} OneBitIs(sig: nat, i: nat)
    ensures Bit(Pow2(sig), i) <==> i == sig
  {
    if sig > 0 && i > 0 {
      OneBitIs(sig - 1, i - 1);
      assert Pow2(sig) / 2 == Pow2(sig - 1);
    } else if sig == 0 && i > 0 {
      ZeroBits(i - 1);
    }
  }

  lemma {:induction false} ZeroBits(i: nat)
    ensures !Bit(0, i)
  {
    if i > 0 {
      ZeroBits(i - 1);
    }
  }

  /** A mask with no bit set is zero. */
  lemma {:induction false} NoBits(m: nat, n: nat)
    requires m < Pow2(n) && forall i: nat :: i < n ==> !Bit(m, i)
    ensures m == 0
  {
    if n > 0 {
      assert !Bit(m, 0);
      forall i: nat | i < n - 1 ensures !Bit(m / 2, i) {
        assert !Bit(m, i + 1);
      }
      NoBits(m / 2, n - 1);
    }
  }

  /** `sig` is pending and not blocked. */
  predicate Due(pending: Mask, blocked: Mask, sig: nat) {
    sig < 32 && Bit(pending, sig) && !Bit(blocked, sig)
  }

  /** `sig` is the lowest signal due. */
  ghost predicate Lowest(pending: Mask, blocked: Mask, sig: nat) {
    Due(pending, blocked, sig) && forall i: nat :: i < sig ==> !Due(pending, blocked, i)
  }

  lemma NoneLowest(pending: Mask, blocked: Mask)
    requires forall i :: !Due(pending, blocked, i)
    ensures forall sig: nat :: !Lowest(pending, blocked, sig)
  {
  }

  lemma LowestIs(pending: Mask, blocked: Mask, sig: nat)
    requires Lowest(pending, blocked, sig)
    ensures sig < 32 && Due(pending, blocked, sig)
    ensures forall other: nat :: Lowest(pending, blocked, other) ==> other == sig
  {
  }

  /** What becomes of the lowest signal due: SIGKILL and SIGCONT have one answer; otherwise a stop signal stops,
      SIGCHLD is ignored and the rest kill by default; an ignored signal is dropped; and a caught one is handled
      if its frame fits, and kills as SIGSEGV does if not. */
  ghost predicate OutcomeIs(sig: nat, handler: Word, sp: Word, room: bool, o: Outcome) {
    && (sig == 9 ==> o == Killed(-9))
    && (sig == 18 ==> o == Resumed)
    && (sig != 9 && sig != 18 && handler == 0 ==>
         o == if 19 <= sig <= 22 then Stopped else if sig == 17 then Ignored else Killed(-(sig as int)))
    && (sig != 9 && sig != 18 && handler == 1 ==> o == Ignored)
    && (sig != 9 && sig != 18 && handler > 1 ==>
         o == if 312 <= sp <= 0x8000_0000_0000 && room then Handled(sig) else Killed(-11))
  }

  /** The signal leaves the pending ones, and SIGCONT takes the stop signals with it. */
  ghost predicate PendingIs(before: Mask, after: Mask, sig: nat) {
    forall i: nat :: i < 32 ==> (Bit(after, i) <==> Bit(before, i) && i != sig && !(sig == 18 && 19 <= i <= 22))
  }

  /** How a handler is entered: the signal in a0, the restorer in ra, the stack pointer at the 16-aligned frame just
      below the old one, every other register as it was; the signal and the handler's mask blocked besides. */
  ghost predicate EntersHandler(c: Context, d: Context, sig: nat, handler: Word, restorer: Word, extra: Mask) {
    && d.regs[10] == sig && d.regs[1] == restorer && d.sepc == handler
    && d.regs[2] % 16 == 0 && 296 <= c.regs[2] as int - d.regs[2] as int < 312
    && (forall i :: 0 <= i < 32 && i != 1 && i != 2 && i != 10 ==> d.regs[i] == c.regs[i])
    && (forall i: nat :: i < 32 ==> (Bit(d.blocked, i) <==> Bit(c.blocked, i) || Bit(extra, i) || i == sig))
  }

  /** The frame: the mask, then the trap frame word by word; the rest of memory is as it was. */
  ghost predicate FrameIs(mem: map<nat, Word>, mem': map<nat, Word>, at: nat, c: Context, rest: Rest) {
    && Read(mem', at) == c.blocked && Read(mem', at + 8) == rest.kernelSp
    && (forall i :: 0 <= i < 32 ==> Read(mem', at + 16 + 8 * i) == c.regs[i])
    && Read(mem', at + 272) == c.sepc && Read(mem', at + 280) == rest.sstatus && Read(mem', at + 288) == rest.hartid
    && (forall a: nat :: a < at || a >= at + 296 ==> Read(mem', a) == Read(mem, a))
  }

  lemma MaskIs(a: Mask, b: Mask, sig: nat, i: nat)
    requires sig < 32 && i < 32
    ensures Bit(MaskOr(MaskOr(a, b), OneBit(sig)), i) <==> Bit(a, i) || Bit(b, i) || i == sig
  {
    hide Bit, Or, Pow2;
    OrBits(a, b, 32, i);
    OrBits(MaskOr(a, b), OneBit(sig), 32, i);
    OneBitIs(sig, i);
  }

  lemma EntersIs(c: Context, sig: nat, handler: Word, restorer: Word, extra: Mask)
    requires sig < 32 && StackFits(c.regs[2])
    ensures var d := Entered(c, FrameAt(c.regs[2]), sig, handler, restorer, extra);
      EntersHandler(c, d, sig, handler, restorer, extra)
  {
    hide Bit, MaskOr, OneBit;
    forall i: nat | i < 32
      ensures Bit(Entered(c, FrameAt(c.regs[2]), sig, handler, restorer, extra).blocked, i) <==>
        Bit(c.blocked, i) || Bit(extra, i) || i == sig
    {
      MaskIs(c.blocked, extra, sig, i);
    }
  }

  lemma FrameWrites(mem: map<nat, Word>, at: nat, c: Context, rest: Rest)
    ensures FrameIs(mem, Written(mem, at, FrameWords(c, rest)), at, c, rest)
  {
    hide Written;
    var ws := FrameWords(c, rest);
    WrittenAt(mem, at, ws, at);
    WrittenAt(mem, at, ws, at + 8);
    WrittenAt(mem, at, ws, at + 272);
    WrittenAt(mem, at, ws, at + 280);
    WrittenAt(mem, at, ws, at + 288);
    assert ws[0] == c.blocked && ws[1] == rest.kernelSp && ws[34] == c.sepc;
    assert ws[35] == rest.sstatus && ws[36] == rest.hartid;
    forall i | 0 <= i < 32 ensures Read(Written(mem, at, ws), at + 16 + 8 * i) == c.regs[i] {
      WrittenAt(mem, at, ws, at + 16 + 8 * i);
      assert ws[i + 2] == c.regs[i];
    }
    forall a: nat | a < at || a >= at + 296 ensures Read(Written(mem, at, ws), a) == Read(mem, a) {
      WrittenAt(mem, at, ws, a);
    }
  }

  /** What a delivery does, register by register, bit by bit and word by word. */
  lemma DeliverIs(s: State, sig: nat, handler: Word, restorer: Word, extra: Mask, rest: Rest)
    requires sig < 32 && StackFits(s.c.regs[2])
    ensures var t := Deliver(s, sig, handler, restorer, extra, rest);
      && EntersHandler(s.c, t.c, sig, handler, restorer, extra) && FrameIs(s.mem, t.mem, t.c.regs[2], s.c, rest)
      && t.stack == s.stack + [Saved(t.c.regs[2], s.c)]
  {
    hide EntersHandler, FrameIs, FrameWords, Written, MaskOr;
    EntersIs(s.c, sig, handler, restorer, extra);
    FrameWrites(s.mem, FrameAt(s.c.regs[2]), s.c, rest);
  }

  /** What a return loads: register `i` from word `i + 2` of the frame, the program counter from word 34, the mask
      from the low half of the first. */
  lemma ReturnIs(s: State)
    ensures var t, sp: nat := Return(s), s.c.regs[2];
      && t.c.regs[0] == s.c.regs[0] && (forall i :: 1 <= i < 32 ==> t.c.regs[i] == Read(s.mem, sp + 16 + 8 * i))
      && t.c.sepc == Read(s.mem, sp + 272) && t.c.blocked == Read(s.mem, sp) % 0x1_0000_0000 && t.mem == s.mem
  {
  }

  lemma PendingLess(before: Mask, sig: nat)
    requires sig < 32 && sig != 18
    ensures Minus(before, OneBit(sig), 32) < 0x1_0000_0000 && PendingIs(before, Minus(before, OneBit(sig), 32), sig)
  {
    hide Bit, Minus, Pow2;
    MaskBound(before, OneBit(sig), 32);
    Pow2Is32();
    forall i: nat | i < 32 ensures Bit(Minus(before, OneBit(sig), 32), i) <==> Bit(before, i) && i != sig {
      MinusBits(before, OneBit(sig), 32, i);
      OneBitIs(sig, i);
    }
  }

  lemma PendingLess32(before: Mask, less: Mask)
    ensures Minus(before, less, 32) < 0x1_0000_0000
  {
    MaskBound(before, less, 32);
    Pow2Is32();
  }

  function StopMask(): Mask {
    MaskOr(MaskOr(OneBit(19), OneBit(20)), MaskOr(OneBit(21), OneBit(22)))
  }

  lemma StopBits(i: nat)
    requires i < 32
    ensures Bit(StopMask(), i) <==> 19 <= i <= 22
  {
    hide Bit, Or, Pow2;
    OrBits(MaskOr(OneBit(19), OneBit(20)), MaskOr(OneBit(21), OneBit(22)), 32, i);
    OrBits(OneBit(19), OneBit(20), 32, i);
    OrBits(OneBit(21), OneBit(22), 32, i);
    OneBitIs(19, i);
    OneBitIs(20, i);
    OneBitIs(21, i);
    OneBitIs(22, i);
  }

  lemma PendingResumed(before: Mask)
    ensures var rest := Minus(before, OneBit(18), 32);
      Minus(rest, StopMask(), 32) < 0x1_0000_0000 && PendingIs(before, Minus(rest, StopMask(), 32), 18)
  {
    hide Bit, Minus, Pow2, StopMask;
    var rest := Minus(before, OneBit(18), 32);
    MaskBound(rest, StopMask(), 32);
    Pow2Is32();
    forall i: nat | i < 32
      ensures Bit(Minus(rest, StopMask(), 32), i) <==> Bit(before, i) && i != 18 && !(19 <= i <= 22)
    {
      MinusBits(rest, StopMask(), 32, i);
      MinusBits(before, OneBit(18), 32, i);
      OneBitIs(18, i);
      StopBits(i);
    }
  }

  class Process {
    var regs: Regs
    var sepc: Word
    var rest: Rest
    var blocked: Mask
    var pending: Mask
    var handlers: seq<Word>
    var restorers: seq<Word>
    var masks: seq<Mask>
    var mem: map<nat, Word>
    ghost var stack: seq<Saved>

    ghost function St(): State
      reads this
    {
      State(Context(regs, sepc, blocked), mem, stack)
    }

    ghost predicate Tables()
      reads this
    {
      |handlers| == 32 && |restorers| == 32 && |masks| == 32
    }

    /** `trailing_zeros` of the deliverable signals. */
    method FirstDue() returns (sig: Option<nat>)
      ensures sig.None? ==> forall i :: !Due(pending, blocked, i)
      ensures sig.Some? ==> Lowest(pending, blocked, sig.value)
    {
      var deliverable := Minus(pending, blocked, 32);
      if deliverable == 0 {
        forall i: nat | i < 32 ensures !Due(pending, blocked, i) {
          MinusBits(pending, blocked, 32, i);
          ZeroBits(i);
        }
        return None;
      }
      var m: nat, i: nat := deliverable, 0;
      MaskBound(pending, blocked, 32);
      while m % 2 == 0
        invariant i < 32 && 0 < m < Pow2(32 - i)
        invariant forall j: nat :: j < i ==> !Bit(deliverable, j)
        invariant forall j: nat :: Bit(deliverable, i + j) <==> Bit(m, j)
        decreases m
      {
        assert Bit(deliverable, i + 0) <==> Bit(m, 0);
        forall j: nat ensures Bit(deliverable, i + 1 + j) <==> Bit(m / 2, j) {
          assert Bit(deliverable, i + (1 + j)) <==> Bit(m, 1 + j);
        }
        if i == 31 {
          assert Pow2(1) == 2 * Pow2(0);
        }
        m, i := m / 2, i + 1;
      }
      assert Bit(deliverable, i + 0) <==> Bit(m, 0);
      forall j: nat | j <= i ensures Due(pending, blocked, j) <==> j == i {
        MinusBits(pending, blocked, 32, j);
      }
      return Some(i);
    }

    /** The tail of the trap handler on the way back to user mode: the lowest signal due is taken, and handled
        exactly when it is caught and its frame fits. `room` says whether the pages under the frame are, or can
        be, mapped. */
    method DeliverPending(room: bool) returns (o: Outcome)
      requires Tables()
      modifies this
      ensures Tables() && handlers == old(handlers) && restorers == old(restorers) && masks == old(masks)
      ensures rest == old(rest)
      ensures o == Nothing <==> forall i :: !Due(old(pending), old(blocked), i)
      ensures forall sig: nat :: Lowest(old(pending), old(blocked), sig) ==>
        && OutcomeIs(sig, handlers[sig], old(regs)[2], room, o) && PendingIs(old(pending), pending, sig)
        && (o == Handled(sig) ==> St() == Deliver(old(St()), sig, handlers[sig], restorers[sig], masks[sig], rest))
        && (o == Handled(sig) ==>
              EntersHandler(old(St()).c, St().c, sig, handlers[sig], restorers[sig], masks[sig]))
        && (o == Handled(sig) ==> FrameIs(old(mem), mem, regs[2], old(St()).c, rest))
        && (o != Handled(sig) ==> St() == old(St()))
    {
      hide Lowest, Due, MaskOr, OneBit, Minus, FrameWords, Written, Bit, EntersHandler, FrameIs, PendingIs, StopMask;
      var first := FirstDue();
      if first.None? {
        NoneLowest(pending, blocked);
        return Nothing;
      }
      var sig := first.value;
      LowestIs(pending, blocked, sig);
      PendingLess32(pending, OneBit(sig));
      if sig == SIGCONT {
        PendingResumed(pending);
      } else {
        PendingLess(pending, sig);
      }
      pending := Minus(pending, OneBit(sig), 32);
      if sig == SIGKILL {
        return Killed(-9);
      }
      var handler := handlers[sig];
      if sig == SIGCONT {
        pending := Minus(pending, StopMask(), 32);
        return Resumed;
      }
      if IsStop(sig) && handler == 0 {
        return Stopped;
      }
      if handler == 1 || (handler == 0 && sig == SIGCHLD) {
        return Ignored;
      }
      if handler == 0 {
        return Killed(-(sig as int));
      }
      if regs[SP] < FRAME_SIZE + 16 || regs[SP] > 0x8000_0000_0000 {
        return Killed(-11);
      }
      if !room {
        return Killed(-11);
      }
      DeliverIs(St(), sig, handler, restorers[sig], masks[sig], rest);
      Push(sig, handler);
      return Handled(sig);
    }

    /** The frame goes on the user stack, and the context becomes the handler's. */
    method Push(sig: nat, handler: Word)
      requires Tables() && sig < 32 && StackFits(regs[SP])
      modifies this`mem, this`regs, this`sepc, this`blocked, this`stack
      ensures St() == Deliver(old(St()), sig, handler, restorers[sig], masks[sig], rest)
    {
      hide MaskOr, OneBit, FrameWords, Written;
      var at := (regs[SP] - FRAME_SIZE) / 16 * 16;
      var saved := Context(regs, sepc, blocked);
      Store(at, FrameWords(saved, rest));
      regs := regs[SP := at][A0 := sig][RA := restorers[sig]];
      sepc := handler;
      blocked := MaskOr(MaskOr(blocked, masks[sig]), OneBit(sig));
      stack := stack + [Saved(at, saved)];
    }

    method Store(at: nat, ws: seq<Word>)
      modifies this`mem
      ensures mem == Written(old(mem), at, ws)
    {
      var j := 0;
      while j < |ws|
        invariant 0 <= j <= |ws| && mem == Written(old(mem), at, ws[..j])
      {
        assert ws[..j + 1][..j] == ws[..j];
        mem := mem[at + 8 * j := ws[j]];
        j := j + 1;
      }
      assert ws[..j] == ws;
    }

    /** Restores registers 1 to 31, the program counter and the mask from the frame at the stack pointer. */
    method Sigreturn() returns (ok: bool)
      modifies this
      ensures ok <==> InUser(old(regs)[SP])
      ensures ok <==> 0x1_0000_0000 <= old(regs)[2] <= 0x8000_0000_0000 - 296
      ensures ok ==> St() == Return(old(St())) && regs[0] == old(regs)[0]
      ensures ok ==> forall i :: 1 <= i < 32 ==> regs[i] == Read(mem, old(regs)[2] + 16 + 8 * i)
      ensures ok ==> sepc == Read(mem, old(regs)[2] + 272) && blocked == Read(mem, old(regs)[2]) % 0x1_0000_0000
      ensures mem == old(mem) && (!ok ==> stack == old(stack) && blocked == old(blocked) && sepc == old(sepc))
      ensures !ok ==> regs == old(regs)[10 := 0xFFFF_FFFF_FFFF_FFF2]
    {
      var sp := regs[SP];
      if sp < 0x1_0000_0000 || sp + FRAME_SIZE > 0x8000_0000_0000 {
        regs := regs[A0 := EFAULT];
        return false;
      }
      ghost var was := regs;
      var i := 1;
      while i < 32
        invariant 1 <= i <= 32 && mem == old(mem) && sepc == old(sepc) && blocked == old(blocked) && stack == old(stack)
        invariant forall k :: i <= k < 32 ==> regs[k] == was[k]
        invariant regs[0] == was[0] && forall k :: 1 <= k < i ==> regs[k] == Read(mem, sp + 16 + 8 * k)
      {
        regs := regs[i := Read(mem, sp + 16 + 8 * i)];
        i := i + 1;
      }
      sepc := Read(mem, sp + 272);
      blocked := Read(mem, sp) % 0x1_0000_0000;
      ghost var top := if stack == [] then [] else stack[..|stack| - 1];
      stack := top;
      assert regs == Loaded(mem, was).regs;
      return true;
    }
  }
}
