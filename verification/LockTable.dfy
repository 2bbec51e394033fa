/** The byte-range lock table of src/syscall/ipc.rs: acquiring, releasing, and granting queued requests. */
module LockTable {

  type File = nat

  const I64_MAX: int := 0x7FFF_FFFF_FFFF_FFFF

  /** A lock held, or asked for: bytes `start` up to, but not including, `end`. */
  datatype Lock = Lock(pid: int, write: bool, start: int, end: int)

  /** The absolute range of an `flock` request: length zero means to the end of the file. */
  function ResolveRange(start: int, len: int): (int, int) {
    var s := if start < 0 then 0 else start;
    (s, if len == 0 then I64_MAX else if s + len > I64_MAX then I64_MAX else s + len)
  }

  predicate Overlap(s1: int, e1: int, s2: int, e2: int) {
    s1 < e2 && s2 < e1
  }

  predicate Conflicts(req: Lock, e: Lock) {
    e.pid != req.pid && Overlap(req.start, req.end, e.start, e.end) && (req.write || e.write)
  }

  ghost predicate AnyConflict(req: Lock, es: seq<Lock>) {
    exists i :: 0 <= i < |es| && Conflicts(req, es[i])
  }

  /** The lock survives when `pid` takes or gives up the range. */
  predicate Stays(e: Lock, pid: int, s: int, t: int) {
    e.pid != pid || !Overlap(s, t, e.start, e.end)
  }

  function Retained(es: seq<Lock>, pid: int, s: int, t: int): seq<Lock> {
    if es == [] then []
    else Retained(es[..|es| - 1], pid, s, t) + if Stays(es[|es| - 1], pid, s, t) then [es[|es| - 1]] else []
  }

  // ---- what always holds of a file's locks ----

  /** Two processes never hold overlapping locks with one of them a write lock. */
  ghost predicate Exclusive(es: seq<Lock>) {
    forall i, j :: 0 <= i < |es| && 0 <= j < |es| ==> !Conflicts(es[i], es[j])
  }

  /** One process's locks never overlap. */
  ghost predicate OwnDisjoint(es: seq<Lock>) {
    forall i, j :: 0 <= i < j < |es| && es[i].pid == es[j].pid ==>
      !Overlap(es[i].start, es[i].end, es[j].start, es[j].end)
  }

  ghost predicate Sound(es: seq<Lock>) {
    Exclusive(es) && OwnDisjoint(es)
  }

  lemma {:induction false} RetainedIn(es: seq<Lock>, pid: int, s: int, t: int, e: Lock)
    ensures e in Retained(es, pid, s, t) <==> e in es && Stays(e, pid, s, t)
  {
    if es != [] {
      var n := |es| - 1;
      RetainedIn(es[..n], pid, s, t, e);
      assert es == es[..n] + [es[n]];
    }
  }

  lemma {:induction false} RetainedSound(es: seq<Lock>, pid: int, s: int, t: int)
    requires Sound(es)
    ensures Sound(Retained(es, pid, s, t))
  {
    if es != [] {
      hide Stays;
      var n := |es| - 1;
      var r := Retained(es[..n], pid, s, t);
      RetainedSound(es[..n], pid, s, t);
      forall x | x in r ensures x in es[..n] {
        RetainedIn(es[..n], pid, s, t, x);
      }
      SoundSnoc(es, r, es[n]);
    }
  }

  /** A process without locks on the file loses none. */
  lemma {:induction false} RetainedAll(es: seq<Lock>, pid: int, s: int, t: int)
    requires forall e :: e in es ==> e.pid != pid
    ensures Retained(es, pid, s, t) == es
  {
    if es != [] {
      var n := |es| - 1;
      assert es == es[..n] + [es[n]];
      RetainedAll(es[..n], pid, s, t);
    }
  }

  lemma SoundSnoc(es: seq<Lock>, r: seq<Lock>, e: Lock)
    requires Sound(es) && Sound(r) && |es| > 0 && es[|es| - 1] == e && forall x :: x in r ==> x in es[..|es| - 1]
    ensures Sound(r + [e])
  {
    forall i | 0 <= i < |r|
      ensures !Conflicts(r[i], e) && !Conflicts(e, r[i])
      ensures r[i].pid == e.pid ==> !Overlap(r[i].start, r[i].end, e.start, e.end)
    {
      assert r[i] in r;
      var k :| 0 <= k < |es| - 1 && es[..|es| - 1][k] == r[i];
      assert es[k] == r[i];
    }
  }

  /** A granted lock keeps the table sound. */
  lemma GrantSound(es: seq<Lock>, req: Lock)
    requires Sound(es) && !AnyConflict(req, es)
    ensures Sound(Retained(es, req.pid, req.start, req.end) + [req])
  {
    var r := Retained(es, req.pid, req.start, req.end);
    RetainedSound(es, req.pid, req.start, req.end);
    forall i | 0 <= i < |r|
      ensures !Conflicts(r[i], req) && !Conflicts(req, r[i])
      ensures r[i].pid == req.pid ==> !Overlap(r[i].start, r[i].end, req.start, req.end)
    {
      RetainedIn(es, req.pid, req.start, req.end, r[i]);
      var k :| 0 <= k < |es| && es[k] == r[i];
      assert !Conflicts(req, es[k]);
    }
  }

  predicate Covers(e: Lock, byte: int) {
    e.start <= byte < e.end
  }

  /** No byte is under a write lock of one process and any lock of another. */
  lemma ByteExclusion(es: seq<Lock>, i: nat, j: nat, byte: int)
    requires Sound(es) && i < |es| && j < |es| && es[i].write && Covers(es[i], byte) && Covers(es[j], byte)
    ensures es[i].pid == es[j].pid && i == j
  {
    assert !Conflicts(es[i], es[j]);
  }

  ghost predicate BytesExclusive(es: seq<Lock>) {
    forall i, j, byte :: 0 <= i < |es| && 0 <= j < |es| && es[i].write && Covers(es[i], byte) && Covers(es[j], byte) ==>
      i == j
  }

  lemma ByteExclusions(es: seq<Lock>)
    requires Sound(es)
    ensures BytesExclusive(es)
  {
    forall i, j, byte | 0 <= i < |es| && 0 <= j < |es| && es[i].write && Covers(es[i], byte) && Covers(es[j], byte)
      ensures i == j
    {
      ByteExclusion(es, i, j, byte);
    }
  }

  // ---- in bytes ----

  /** What a request covers: from its start, or the file's if that is negative, for its length, or to the end of the
      file if that is zero. */
  lemma AskedBytes(pid: int, write: bool, start: int, len: int, byte: int)
    requires byte < 0x7FFF_FFFF_FFFF_FFFF
    ensures var req := Asked(pid, write, start, len);
      && req.pid == pid && req.write == write && 0 <= req.start && req.end <= 0x7FFF_FFFF_FFFF_FFFF
      && (Covers(req, byte) <==>
          start <= byte && 0 <= byte && (len == 0 || byte < (if start < 0 then 0 else start) + len))
  {
  }

  predicate NotEmpty(e: Lock) {
    e.start < e.end
  }

  /** No byte of the request is under a lock of another process, unless both are read locks. */
  ghost predicate BytesFree(req: Lock, es: seq<Lock>) {
    forall i, byte :: 0 <= i < |es| && Covers(es[i], byte) && Covers(req, byte) && es[i].pid != req.pid ==>
      !req.write && !es[i].write
  }

  lemma FreeWhenGranted(req: Lock, es: seq<Lock>)
    requires !AnyConflict(req, es)
    ensures BytesFree(req, es)
  {
    forall i, byte | 0 <= i < |es| && Covers(es[i], byte) && Covers(req, byte) && es[i].pid != req.pid
      ensures !req.write && !es[i].write
    {
      assert !Conflicts(req, es[i]);
    }
  }

  lemma GrantedWhenFree(req: Lock, es: seq<Lock>)
    requires NotEmpty(req) && (forall i :: 0 <= i < |es| ==> NotEmpty(es[i])) && BytesFree(req, es)
    ensures !AnyConflict(req, es)
  {
    forall i | 0 <= i < |es| ensures !Conflicts(req, es[i]) {
      var byte := if req.start < es[i].start then es[i].start else req.start;
      if es[i].pid != req.pid && req.start < es[i].end && es[i].start < req.end {
        assert Covers(es[i], byte) && Covers(req, byte);
      }
    }
  }

  /** Read locks always coexist. */
  lemma ReadersCoexist(req: Lock, es: seq<Lock>)
    requires !req.write && forall i :: 0 <= i < |es| ==> !es[i].write
    ensures !AnyConflict(req, es)
  {
  }

  /** What taking or giving up a range leaves: every lock but the process's own that reach into it. */
  lemma Left(es: seq<Lock>, pid: int, s: int, t: int, e: Lock)
    ensures e in Retained(es, pid, s, t) <==> e in es && (e.pid != pid || e.end <= s || t <= e.start)
  {
    RetainedIn(es, pid, s, t, e);
  }

  // ---- granting queued requests ----

  /** `wake_lock_waiters`: each request in turn is granted or stays queued. */
  function Granted(es: seq<Lock>, waiters: seq<Lock>): (seq<Lock>, seq<Lock>)
    decreases |waiters|
  {
    if waiters == [] then (es, [])
    else
      var (mid, still) := Granted(es, waiters[..|waiters| - 1]);
      var w := waiters[|waiters| - 1];
      if exists i :: 0 <= i < |mid| && Conflicts(w, mid[i]) then (mid, still + [w])
      else (Retained(mid, w.pid, w.start, w.end) + [w], still)
  }

  lemma GrantedNone(es: seq<Lock>)
    ensures Granted(es, []) == (es, [])
  {
  }

  /** One more request considered. */
  lemma GrantedNext(es: seq<Lock>, queue: seq<Lock>, i: nat)
    requires i < |queue|
    ensures var (mid, still) := Granted(es, queue[..i]);
      Granted(es, queue[..i + 1]) ==
        if AnyConflict(queue[i], mid) then (mid, still + [queue[i]])
        else (Retained(mid, queue[i].pid, queue[i].start, queue[i].end) + [queue[i]], still)
  {
    assert queue[..i + 1][..i] == queue[..i];
  }

  lemma {:induction false} GrantedSound(es: seq<Lock>, waiters: seq<Lock>)
    requires Sound(es)
    ensures Sound(Granted(es, waiters).0)
    decreases |waiters|
  {
    if waiters != [] {
      GrantedSound(es, waiters[..|waiters| - 1]);
      var mid, w := Granted(es, waiters[..|waiters| - 1]).0, waiters[|waiters| - 1];
      if !AnyConflict(w, mid) {
        GrantSound(mid, w);
      }
    }
  }

  ghost predicate DistinctPids(ws: seq<Lock>) {
    forall i, j :: 0 <= i < j < |ws| ==> ws[i].pid != ws[j].pid
  }

  /** No process waiting on the file holds a lock on it. */
  ghost predicate HoldNone(es: seq<Lock>, ws: seq<Lock>) {
    forall e, w :: e in es && w in ws ==> e.pid != w.pid
  }

  /** Locks in the table are those held before and those just granted, and none is lost. */
  lemma {:induction false} GrantedFrom(es: seq<Lock>, waiters: seq<Lock>)
    requires DistinctPids(waiters) && HoldNone(es, waiters)
    ensures es <= Granted(es, waiters).0
    ensures forall e :: e in Granted(es, waiters).0 ==> e in es || e in waiters
    ensures forall w :: w in Granted(es, waiters).1 ==> w in waiters && AnyConflict(w, Granted(es, waiters).0)
    ensures forall w :: w in waiters ==> w in Granted(es, waiters).1 || w in Granted(es, waiters).0
    decreases |waiters|
  {
    if waiters != [] {
      var n := |waiters| - 1;
      var rest, w := waiters[..n], waiters[n];
      assert waiters == rest + [w];
      GrantedFrom(es, rest);
      var (mid, still) := Granted(es, rest);
      forall e | e in mid ensures e.pid != w.pid {
        if e in rest {
          var k :| 0 <= k < |rest| && rest[k] == e;
          assert waiters[k].pid != waiters[n].pid;
        }
      }
      RetainedAll(mid, w.pid, w.start, w.end);
      forall x | x in still ensures AnyConflict(x, mid + [w]) {
        var i :| 0 <= i < |mid| && Conflicts(x, mid[i]);
        assert (mid + [w])[i] == mid[i];
      }
    }
  }

  /** One request considered after the rest: it is granted or kept, and nothing is decided anew. */
  lemma GrantedLast(es: seq<Lock>, waiters: seq<Lock>)
    requires waiters != [] && DistinctPids(waiters) && HoldNone(es, waiters)
    ensures var n := |waiters| - 1;
      && var (rest, w) := (waiters[..n], waiters[n]);
      && var (mid, still) := Granted(es, rest);
      && DistinctPids(rest) && HoldNone(es, rest) && w !in mid && w !in rest && es <= mid
      && (forall e :: e in mid ==> e in es || e in rest)
      && Granted(es, waiters) == if AnyConflict(w, mid) then (mid, still + [w]) else (mid + [w], still)
  {
    var n := |waiters| - 1;
    var rest, w := waiters[..n], waiters[n];
    assert waiters == rest + [w];
    GrantedFrom(es, rest);
    var mid := Granted(es, rest).0;
    forall e | e in mid || e in rest ensures e.pid != w.pid {
      if e in rest {
        var k :| 0 <= k < |rest| && rest[k] == e;
        assert waiters[k].pid != waiters[n].pid;
      }
    }
    RetainedAll(mid, w.pid, w.start, w.end);
  }

  /** First come, first served: a queued request is granted exactly when it conflicts neither with a lock held
      before nor with an earlier request that is granted. */
  lemma {:induction false} FirstCome(es: seq<Lock>, waiters: seq<Lock>, i: nat)
    requires DistinctPids(waiters) && HoldNone(es, waiters) && i < |waiters|
    ensures var after := Granted(es, waiters).0;
      waiters[i] in after <==>
        && (forall e :: e in es ==> !Conflicts(waiters[i], e))
        && (forall j :: 0 <= j < i && waiters[j] in after ==> !Conflicts(waiters[i], waiters[j]))
    decreases |waiters|
  {
    hide Granted, Conflicts, DistinctPids, HoldNone;
    var n := |waiters| - 1;
    var rest := waiters[..n];
    var mid, after := Granted(es, rest).0, Granted(es, waiters).0;
    GrantedLast(es, waiters);
    forall j | 0 <= j < n ensures waiters[j] == rest[j] && (waiters[j] in after <==> waiters[j] in mid) {
    }
    if i < n {
      FirstCome(es, rest, i);
    } else {
      forall e | e in mid ensures e in es || exists j :: 0 <= j < n && waiters[j] == e {
      }
    }
  }

  /** Those of `ws` that are not among `gs`, in order. */
  function Others(ws: seq<Lock>, gs: seq<Lock>): seq<Lock> {
    if ws == [] then []
    else Others(ws[..|ws| - 1], gs) + if ws[|ws| - 1] in gs then [] else [ws[|ws| - 1]]
  }

  lemma {:induction false} OthersSame(ws: seq<Lock>, gs: seq<Lock>, hs: seq<Lock>)
    requires forall w :: w in ws ==> (w in gs <==> w in hs)
    ensures Others(ws, gs) == Others(ws, hs)
  {
    if ws != [] {
      OthersSame(ws[..|ws| - 1], gs, hs);
    }
  }

  /** The rest stay queued, in order. */
  lemma {:induction false} StillQueued(es: seq<Lock>, waiters: seq<Lock>)
    requires DistinctPids(waiters) && HoldNone(es, waiters)
    ensures Granted(es, waiters).1 == Others(waiters, Granted(es, waiters).0)
    decreases |waiters|
  {
    if waiters != [] {
      hide Granted, Conflicts, DistinctPids, HoldNone;
      var rest := waiters[..|waiters| - 1];
      GrantedLast(es, waiters);
      StillQueued(es, rest);
      OthersSame(rest, Granted(es, rest).0, Granted(es, waiters).0);
    }
  }

  // ---- the tables ----

  class Table {
    /** `FILE_LOCKS` and `LOCK_WAITERS` */
    var locks: map<File, seq<Lock>>
    var waiters: map<File, seq<Lock>>

    function Held(file: File): seq<Lock>
      reads this`locks
    {
      if file in locks then locks[file] else []
    }

    function Waiting(file: File): seq<Lock>
      reads this`waiters
    {
      if file in waiters then waiters[file] else []
    }

    /** Exclusion, for every file. */
    ghost predicate Valid()
      reads this`locks
    {
      forall file :: file in locks ==> Sound(locks[file])
    }

    constructor ()
      ensures Valid() && locks == map[] && waiters == map[]
    {
      locks, waiters := map[], map[];
    }

    method FindConflict(req: Lock, es: seq<Lock>) returns (found: bool)
      ensures found <==> AnyConflict(req, es)
    {
      var i := 0;
      while i < |es|
        invariant 0 <= i <= |es| && forall k :: 0 <= k < i ==> !Conflicts(req, es[k])
      {
        if Conflicts(req, es[i]) {
          return true;
        }
        i := i + 1;
      }
      return false;
    }

    method Retain(es: seq<Lock>, pid: int, s: int, t: int) returns (r: seq<Lock>)
      ensures r == Retained(es, pid, s, t)
    {
      r := [];
      var i := 0;
      while i < |es|
        invariant 0 <= i <= |es| && r == Retained(es[..i], pid, s, t)
      {
        assert es[..i + 1][..i] == es[..i];
        if es[i].pid != pid || !Overlap(s, t, es[i].start, es[i].end) {
          r := r + [es[i]];
        }
        i := i + 1;
      }
      assert es[..i] == es;
    }

    /** Granted exactly when no other process's lock conflicts; the caller's overlapping locks are replaced. */
    method TryAcquire(file: File, req: Lock) returns (ok: bool)
      requires Valid()
      modifies this`locks
      ensures Valid() && (ok <==> !AnyConflict(req, old(Held(file)))) && (ok ==> BytesFree(req, old(Held(file))))
      ensures NotEmpty(req) && (forall e :: e in old(Held(file)) ==> NotEmpty(e)) ==>
        BytesFree(req, old(Held(file))) ==> ok
      ensures ok ==> forall e :: e in Held(file) <==>
        e == req || (e in old(Held(file)) && (e.pid != req.pid || e.end <= req.start || req.end <= e.start))
      ensures Held(file) ==
        if ok then Retained(old(Held(file)), req.pid, req.start, req.end) + [req] else old(Held(file))
      ensures forall f :: f != file ==> Held(f) == old(Held(f))
    {
      if file !in locks {
        locks := locks[file := []];
      }
      var es := locks[file];
      var found := FindConflict(req, es);
      if found {
        if NotEmpty(req) && (forall e :: e in es ==> NotEmpty(e)) && BytesFree(req, es) {
          GrantedWhenFree(req, es);
        }
        return false;
      }
      FreeWhenGranted(req, es);
      forall e: Lock
        ensures e in Retained(es, req.pid, req.start, req.end) <==>
          e in es && (e.pid != req.pid || e.end <= req.start || req.end <= e.start)
      {
        Left(es, req.pid, req.start, req.end, e);
      }
      GrantSound(es, req);
      var kept := Retain(es, req.pid, req.start, req.end);
      locks := locks[file := kept + [req]];
      return true;
    }

    /** Queued requests are granted in turn where they can be. */
    method WakeWaiters(file: File)
      requires Valid()
      modifies this
      ensures Valid() && Held(file) == Granted(old(Held(file)), old(Waiting(file))).0
      ensures Waiting(file) == Granted(old(Held(file)), old(Waiting(file))).1
      ensures forall f :: f != file ==> Held(f) == old(Held(f)) && Waiting(f) == old(Waiting(f))
    {
      if file !in waiters {
        return;
      }
      var queue := waiters[file];
      if queue == [] {
        return;
      }
      hide Granted, Retained, Sound, AnyConflict;
      var still: seq<Lock> := [];
      var i := 0;
      assert queue[..0] == [];
      GrantedNone(Held(file));
      while i < |queue|
        invariant 0 <= i <= |queue| && Valid() && waiters == old(waiters)
        invariant (Held(file), still) == Granted(old(Held(file)), queue[..i])
        invariant forall f :: f != file ==> Held(f) == old(Held(f))
      {
        GrantedNext(old(Held(file)), queue, i);
        var ok := TryAcquire(file, queue[i]);
        if !ok {
          still := still + [queue[i]];
        }
        i := i + 1;
      }
      assert queue[..i] == queue;
      waiters := waiters[file := still];
    }

    /** The caller's locks in the range go whole; then, if waiting processes are distinct and hold nothing on
        the file, every request still queued conflicts with a lock held. */
    method ReleaseRange(file: File, pid: int, s: int, t: int)
      requires Valid()
      modifies this
      ensures Valid()
      ensures (Held(file), Waiting(file)) == Granted(Retained(old(Held(file)), pid, s, t), old(Waiting(file)))
      ensures forall f :: f != file ==> Held(f) == old(Held(f)) && Waiting(f) == old(Waiting(f))
      ensures DistinctPids(old(Waiting(file))) && HoldNone(old(Held(file)), old(Waiting(file))) ==>
        forall w :: w in Waiting(file) ==> AnyConflict(w, Held(file))
    {
      ghost var held := Held(file);
      if file in locks {
        RetainedSound(locks[file], pid, s, t);
        var kept := Retain(locks[file], pid, s, t);
        locks := locks[file := kept];
        if kept == [] {
          locks := locks - {file};
        }
      }
      ghost var left := Held(file);
      assert left == Retained(held, pid, s, t);
      WakeWaiters(file);
      if DistinctPids(old(Waiting(file))) && HoldNone(held, old(Waiting(file))) {
        forall e | e in left ensures e in held {
          RetainedIn(held, pid, s, t, e);
        }
        GrantedFrom(left, old(Waiting(file)));
      }
    }

    /** `F_SETLK` and `F_SETLKW` with a lock: granted, refused, or, when the caller will wait, queued. */
    method SetLock(file: File, pid: int, write: bool, start: int, len: int, wait: bool) returns (o: Outcome)
      requires Valid()
      modifies this
      ensures Valid() && (o == Granting <==> !AnyConflict(Asked(pid, write, start, len), old(Held(file))))
      ensures o == Granting ==> Asked(pid, write, start, len) in Held(file)
      ensures o != Granting ==> Held(file) == old(Held(file)) && (o == Queued <==> wait)
      ensures Waiting(file) ==
        if o == Queued then old(Waiting(file)) + [Asked(pid, write, start, len)] else old(Waiting(file))
      ensures forall f :: f != file ==> Held(f) == old(Held(f)) && Waiting(f) == old(Waiting(f))
    {
      var req := Asked(pid, write, start, len);
      var ok := TryAcquire(file, req);
      if ok {
        return Granting;
      }
      if !wait {
        return Refused;
      }
      waiters := waiters[file := Waiting(file) + [req]];
      return Queued;
    }

    /** Any sequence of lock calls by any processes keeps exclusion on every file. */
    method Serve(ops: seq<Op>)
      requires Valid()
      modifies this
      ensures Valid()
      ensures forall file :: BytesExclusive(Held(file))
    {
      var n := 0;
      while n < |ops|
        invariant 0 <= n <= |ops| && Valid()
      {
        match ops[n] {
          case Set(file, pid, write, start, len, wait) =>
            var _ := SetLock(file, pid, write, start, len, wait);
          case Unset(file, pid, start, len) =>
            var (s, t) := ResolveRange(start, len);
            ReleaseRange(file, pid, s, t);
        }
        n := n + 1;
      }
      forall file ensures BytesExclusive(Held(file)) {
        ByteExclusions(Held(file));
      }
    }
  }

  datatype Outcome = Granting | Refused | Queued

  datatype Op = Set(file: File, pid: int, write: bool, start: int, len: int, wait: bool)
    | Unset(file: File, pid: int, start: int, len: int)

  function Asked(pid: int, write: bool, start: int, len: int): Lock {
    Lock(pid, write, ResolveRange(start, len).0, ResolveRange(start, len).1)
  }
}
