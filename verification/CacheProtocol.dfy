/**
  Any number of `inode_cache_get`, `inode_cache_put` and `inode_cache_del` calls on one
  key, interleaved.  A step is one system call: opening the lock file (created by
  writers), `flock`, opening or unlinking the entry, one `read` or `write` of any size,
  and unlocking.  Nothing fails; processes do not die.
 */
module CacheProtocol {
  import opened Bytes
  import opened CacheEntry
  import opened Sequences
  import opened Totals

  datatype Op = Get | Put(value: seq<byte>) | Del

  /** What a call returns.  `Missed` is `-ENOENT`; `Refused` is `-E2BIG`. */
  datatype Result = Missed | Got(lookup: Lookup) | Stored | Refused | Deleted

  /** Where a call stands; `lock` and `entry` are open file objects. */
  datatype Pc =
    | Start
    | WaitLock(lock: nat)
    | Locked(lock: nat)
    | Writing(lock: nat, entry: nat, written: nat)
    | Reading(lock: nat, entry: nat, got: seq<byte>)
    | Unlock(lock: nat, result: Result)
    | Done(result: Result)

  /** Who holds a lock-file object. */
  datatype Holders = Holders(exclusive: set<nat>, shared: set<nat>)

  /** A call that has taken effect. */
  datatype Event = Event(caller: nat, result: Result)

  /** The directory (a lock name and an entry name), the file objects, and the calls. */
  datatype State = State(
    ops: seq<Op>,
    pcs: seq<Pc>,
    lockName: Option<nat>,
    entryName: Option<nat>,
    locks: map<nat, Holders>,
    files: map<nat, seq<byte>>,
    nextId: nat,
    history: seq<Event>)

  function At(s: State, p: nat, pc: Pc): State
    requires p < |s.pcs|
  {
    s.(pcs := s.pcs[p := pc])
  }

  /** The call takes effect with this result. */
  function Commit(s: State, p: nat, r: Result): State {
    s.(history := s.history + [Event(p, r)])
  }

  predicate Exclusive(op: Op) { !op.Get? }

  predicate CanLock(op: Op, h: Holders) {
    h.exclusive == {} && (Exclusive(op) ==> h.shared == {})
  }

  predicate Enabled(s: State, p: nat) {
    && p < |s.pcs| && |s.ops| == |s.pcs|
    && match s.pcs[p]
       case WaitLock(l) => l in s.locks && CanLock(s.ops[p], s.locks[l])
       case Done(_) => false
       case _ => true
  }

  /** Opening the lock file: writers create it, readers do not. */
  function OpenLock(s: State, p: nat): State
    requires p < |s.pcs| == |s.ops|
  {
    match s.ops[p]
    case Put(v) =>
      if PutStatus(v) == TooBig then At(Commit(s, p, Refused), p, Done(Refused))
      else CreateLock(s, p)
    case Del => CreateLock(s, p)
    case Get =>
      if s.lockName.Some? then At(s, p, WaitLock(s.lockName.value))
      else At(Commit(s, p, Missed), p, Done(Missed))
  }

  function CreateLock(s: State, p: nat): State
    requires p < |s.pcs|
  {
    if s.lockName.Some? then At(s, p, WaitLock(s.lockName.value))
    else
      At(s.(lockName := Some(s.nextId), locks := s.locks[s.nextId := Holders({}, {})], nextId := s.nextId + 1),
         p, WaitLock(s.nextId))
  }

  function Acquire(s: State, p: nat, l: nat): State
    requires p < |s.pcs| == |s.ops| && l in s.locks
  {
    var h := s.locks[l];
    var h' := if Exclusive(s.ops[p]) then h.(exclusive := h.exclusive + {p}) else h.(shared := h.shared + {p});
    At(s.(locks := s.locks[l := h']), p, Locked(l))
  }

  function Release(s: State, p: nat, l: nat, r: Result): State
    requires p < |s.pcs|
  {
    var h := if l in s.locks then s.locks[l] else Holders({}, {});
    At(s.(locks := s.locks[l := Holders(h.exclusive - {p}, h.shared - {p})]), p, Done(r))
  }

  /** With the lock in hand: open the entry, or unlink it. */
  function OpenEntry(s: State, p: nat, l: nat): State
    requires p < |s.pcs| == |s.ops|
  {
    match s.ops[p]
    case Put(_) =>
      if s.entryName.Some? then
        At(s.(files := s.files[s.entryName.value := []]), p, Writing(l, s.entryName.value, 0))
      else
        At(s.(entryName := Some(s.nextId), files := s.files[s.nextId := []], nextId := s.nextId + 1),
           p, Writing(l, s.nextId, 0))
    case Get =>
      if s.entryName.Some? then At(s, p, Reading(l, s.entryName.value, []))
      else At(Commit(s, p, Missed), p, Unlock(l, Missed))
    case Del =>
      At(Commit(s.(entryName := None), p, Deleted), p, Unlock(l, Deleted))
  }

  function Contents(s: State, f: nat): seq<byte> {
    if f in s.files then s.files[f] else []
  }

  /** The size of a transfer: some of what is left, nothing only if nothing is left. */
  function Transfer(k: nat, left: nat): (n: nat)
    ensures n <= left && (n == 0 <==> left == 0)
    ensures 1 <= k <= left ==> n == k
  {
    if left == 0 then 0 else if 1 <= k <= left then k else left
  }

  /** Replaces what the file holds from `at` on, as far as `value` goes. */
  function WriteAt(data: seq<byte>, at: nat, value: seq<byte>): seq<byte> {
    if at <= |data| then
      data[..at] + value + (if at + |value| <= |data| then data[at + |value|..] else [])
    else data + seq(at - |data|, _ => 0) + value
  }

  /** The bytes end up where they belong; the others stay, and a gap is filled with zeros. */
  lemma WriteAtPlaces(data: seq<byte>, at: nat, value: seq<byte>, k: nat)
    ensures var r := WriteAt(data, at, value);
      && |r| == (if at + |value| <= |data| then |data| else at + |value|)
      && (at <= k < at + |value| ==> r[k] == value[k - at])
      && (k < |data| && !(at <= k < at + |value|) ==> r[k] == data[k])
      && (|data| <= k < at ==> r[k] == 0)
  {}

  function WriteSome(s: State, p: nat, l: nat, f: nat, n: nat, k: nat): State
    requires p < |s.pcs| == |s.ops|
  {
    var bytes := if s.ops[p].Put? then Encode(s.ops[p].value) else [];
    if n >= |bytes| then At(Commit(s, p, Stored), p, Unlock(l, Stored))
    else
      var m := Transfer(k, |bytes| - n);
      var data := WriteAt(Contents(s, f), n, bytes[n..n + m]);
      At(s.(files := s.files[f := data]), p, Writing(l, f, n + m))
  }

  function ReadSome(s: State, p: nat, l: nat, f: nat, got: seq<byte>, k: nat): State
    requires p < |s.pcs|
  {
    var data := Contents(s, f);
    var left := if |got| <= |data| then data[|got|..] else [];
    var room := if |got| < ENTRY_MAX - 1 then ENTRY_MAX - 1 - |got| else 0;
    if room == 0 || left == [] then
      At(Commit(s, p, Got(LookUp(got))), p, Unlock(l, Got(LookUp(got))))
    else
      var m := Transfer(k, if room < |left| then room else |left|);
      At(s, p, Reading(l, f, got + left[..m]))
  }

  /** One system call of process `p`; `k` is how much a transfer would like to move. */
  function Step(s: State, p: nat, k: nat): State
    requires Enabled(s, p)
  {
    match s.pcs[p]
    case Start => OpenLock(s, p)
    case WaitLock(l) => Acquire(s, p, l)
    case Locked(l) => OpenEntry(s, p, l)
    case Writing(l, f, n) => WriteSome(s, p, l, f, n, k)
    case Reading(l, f, got) => ReadSome(s, p, l, f, got, k)
    case Unlock(l, r) => Release(s, p, l, r)
  }

  /* ---------- the sequential specification ---------- */

  type Register = Option<seq<byte>>

  /** What a call would return if it ran alone. */
  function Answer(op: Op, reg: Register): Result {
    match op
    case Get => if reg.None? then Missed else Got(LookUp(Encode(reg.value)))
    case Put(v) => if PutStatus(v) == TooBig then Refused else Stored
    case Del => Deleted
  }

  /** What a call would leave behind if it ran alone. */
  function Effect(op: Op, reg: Register): Register {
    match op
    case Get => reg
    case Put(v) => if PutStatus(v) == TooBig then reg else Some(v)
    case Del => None
  }

  /** The register after the calls in the history, one after the other. */
  function Replay(initial: Register, ops: seq<Op>, h: seq<Event>): Register {
    if h == [] then initial
    else
      var e := h[|h| - 1];
      var reg := Replay(initial, ops, h[..|h| - 1]);
      if e.caller < |ops| then Effect(ops[e.caller], reg) else reg
  }

  /** Every call in the history returned what it would have returned running alone. */
  predicate Legal(initial: Register, ops: seq<Op>, h: seq<Event>) {
    forall i :: 0 <= i < |h| ==>
      h[i].caller < |ops| && h[i].result == Answer(ops[h[i].caller], Replay(initial, ops, h[..i]))
  }

  /* ---------- the invariant ---------- */

  predicate Holding(pc: Pc) { pc.Locked? || pc.Writing? || pc.Reading? || pc.Unlock? }

  predicate HasLockFile(pc: Pc) { pc.WaitLock? || Holding(pc) }

  predicate Committed(pc: Pc) { pc.Unlock? || pc.Done? }

  /** What each call is doing fits what it is for. */
  predicate PcFits(op: Op, pc: Pc) {
    && (HasLockFile(pc) && op.Put? ==> PutStatus(op.value) == Ok)
    && (pc.Writing? ==> op.Put? && pc.written <= |Encode(op.value)|)
    && (pc.Reading? ==> op.Get? && |pc.got| < ENTRY_MAX)
  }

  /** All calls contend on the same lock file, because nobody unlinks it. */
  predicate OneLock(s: State) {
    && |s.ops| == |s.pcs|
    && (forall p :: 0 <= p < |s.pcs| ==> PcFits(s.ops[p], s.pcs[p]))
    && (forall p :: 0 <= p < |s.pcs| && HasLockFile(s.pcs[p]) ==> s.lockName == Some(s.pcs[p].lock))
    && (s.lockName.Some? ==> s.lockName.value in s.locks && s.lockName.value < s.nextId)
    && (s.entryName.Some? ==> s.lockName.Some? && s.entryName.value < s.nextId)
  }

  /** Either one writer or any number of readers hold the lock. */
  ghost predicate LockInv(s: State)
    requires OneLock(s)
  {
    s.lockName.Some? ==>
      var h := s.locks[s.lockName.value];
      && (forall p :: p in h.exclusive <==> 0 <= p < |s.pcs| && Holding(s.pcs[p]) && Exclusive(s.ops[p]))
      && (forall p :: p in h.shared <==> 0 <= p < |s.pcs| && Holding(s.pcs[p]) && !Exclusive(s.ops[p]))
      && (h.exclusive != {} ==> h.shared == {})
      && (forall p, q :: p in h.exclusive && q in h.exclusive ==> p == q)
  }

  predicate NoWriter(s: State) {
    forall p :: 0 <= p < |s.pcs| ==> !s.pcs[p].Writing?
  }

  /** What the directory and the files say about the register. */
  predicate FileInv(s: State, reg: Register)
    requires OneLock(s)
  {
    && (reg.Some? ==> s.entryName.Some?)
    && (NoWriter(s) && s.entryName.Some? ==>
          reg.Some? && Contents(s, s.entryName.value) == Encode(reg.value))
    && forall p :: 0 <= p < |s.pcs| ==>
         match s.pcs[p]
         case Writing(l, f, n) =>
           s.entryName == Some(f) && Contents(s, f) == Encode(s.ops[p].value)[..n]
         case Reading(l, f, got) =>
           s.entryName == Some(f) && got <= Contents(s, f)
         case _ => true
  }

  /** Whoever is in the history has taken effect, with that result. */
  predicate EventsFit(pcs: seq<Pc>, h: seq<Event>) {
    forall i :: 0 <= i < |h| ==>
      && h[i].caller < |pcs| && Committed(pcs[h[i].caller])
      && pcs[h[i].caller].result == h[i].result
  }

  predicate Once(h: seq<Event>) {
    forall i, j :: 0 <= i < j < |h| ==> h[i].caller != h[j].caller
  }

  /** Whoever has taken effect is in the history. */
  predicate AllRecorded(pcs: seq<Pc>, h: seq<Event>) {
    forall p :: 0 <= p < |pcs| && Committed(pcs[p]) ==> Event(p, pcs[p].result) in h
  }

  /** The history is a legal sequential run, and it holds exactly the calls that have
      taken effect, once each, with the results they return. */
  predicate HistoryInv(initial: Register, s: State) {
    Legal(initial, s.ops, s.history) && EventsFit(s.pcs, s.history) && Once(s.history) && AllRecorded(s.pcs, s.history)
  }

  ghost predicate Inv(initial: Register, s: State) {
    && OneLock(s)
    && LockInv(s)
    && FileInv(s, Replay(initial, s.ops, s.history))
    && HistoryInv(initial, s)
  }

  lemma ReplayCommit(initial: Register, ops: seq<Op>, h: seq<Event>, e: Event)
    requires e.caller < |ops|
    ensures Replay(initial, ops, h + [e]) == Effect(ops[e.caller], Replay(initial, ops, h))
    ensures Legal(initial, ops, h) && e.result == Answer(ops[e.caller], Replay(initial, ops, h))
            ==> Legal(initial, ops, h + [e])
  {
    assert (h + [e])[..|h|] == h;
    forall i | 0 <= i < |h| ensures (h + [e])[..i] == h[..i] {}
  }

  /** A call that has not taken effect is not in the history. */
  lemma NotYet(pcs: seq<Pc>, h: seq<Event>, p: nat)
    requires EventsFit(pcs, h) && p < |pcs| && !Committed(pcs[p])
    ensures forall i :: 0 <= i < |h| ==> h[i].caller != p
  {}

  lemma EventsExtended(pcs: seq<Pc>, h: seq<Event>, p: nat, pc: Pc)
    requires EventsFit(pcs, h) && Once(h) && p < |pcs| && !Committed(pcs[p]) && Committed(pc)
    ensures EventsFit(pcs[p := pc], h + [Event(p, pc.result)]) && Once(h + [Event(p, pc.result)])
  {
    NotYet(pcs, h, p);
  }

  lemma RecordsExtended(pcs: seq<Pc>, h: seq<Event>, p: nat, pc: Pc)
    requires AllRecorded(pcs, h) && p < |pcs| && Committed(pc)
    ensures AllRecorded(pcs[p := pc], h + [Event(p, pc.result)])
  {
    var g := h + [Event(p, pc.result)];
    assert g[|h|] == Event(p, pc.result);
    forall e | e in h ensures e in g {
      var i :| 0 <= i < |h| && h[i] == e;
      assert g[i] == e;
    }
  }

  /** A call that takes effect now keeps the history right. */
  lemma CommitHistory(initial: Register, s: State, t: State, p: nat, pc: Pc)
    requires HistoryInv(initial, s) && p < |s.pcs| == |s.ops|
    requires !Committed(s.pcs[p]) && Committed(pc)
    requires pc.result == Answer(s.ops[p], Replay(initial, s.ops, s.history))
    requires t.ops == s.ops && t.pcs == s.pcs[p := pc] && t.history == s.history + [Event(p, pc.result)]
    ensures HistoryInv(initial, t)
    ensures Replay(initial, t.ops, t.history) == Effect(s.ops[p], Replay(initial, s.ops, s.history))
  {
    hide Legal, Replay, Answer, Effect, EventsFit, Once, AllRecorded;
    ReplayCommit(initial, s.ops, s.history, Event(p, pc.result));
    EventsExtended(s.pcs, s.history, p, pc);
    RecordsExtended(s.pcs, s.history, p, pc);
  }

  /** A step that is not the effect of its call keeps the history. */
  lemma KeepHistory(initial: Register, s: State, t: State, p: nat, pc: Pc)
    requires HistoryInv(initial, s) && p < |s.pcs|
    requires Committed(s.pcs[p]) <==> Committed(pc)
    requires Committed(pc) ==> pc.result == s.pcs[p].result
    requires t.ops == s.ops && t.pcs == s.pcs[p := pc] && t.history == s.history
    ensures HistoryInv(initial, t)
  {}

  /** Puts the parts together: the call stays where it is in the history, or takes
      effect with the answer of the register. */
  lemma Assemble(initial: Register, s: State, t: State, p: nat, pc: Pc)
    requires Inv(initial, s) && p < |s.pcs| && t.ops == s.ops && t.pcs == s.pcs[p := pc]
    requires OneLock(t) && LockInv(t)
    requires
      var reg := Replay(initial, s.ops, s.history);
      if Committed(s.pcs[p]) == Committed(pc) then
        && t.history == s.history && FileInv(t, reg)
        && (Committed(pc) ==> pc.result == s.pcs[p].result)
      else
        && Committed(pc) && pc.result == Answer(s.ops[p], reg)
        && t.history == s.history + [Event(p, pc.result)] && FileInv(t, Effect(s.ops[p], reg))
    ensures Inv(initial, t)
  {
    hide Replay, Legal, FileInv, LockInv, Answer, Effect;
    if Committed(s.pcs[p]) == Committed(pc) {
      KeepHistory(initial, s, t, p, pc);
    } else {
      CommitHistory(initial, s, t, p, pc);
    }
  }

  /** A step that changes neither the lock nor who holds it. */
  lemma LocksKept(s: State, t: State, p: nat, pc: Pc)
    requires OneLock(s) && LockInv(s) && p < |s.pcs| && t.pcs == s.pcs[p := pc] && t.ops == s.ops
    requires t.lockName == s.lockName && t.locks == s.locks && t.nextId >= s.nextId
    requires t.entryName.Some? ==> t.lockName.Some? && t.entryName.value < t.nextId
    requires Holding(s.pcs[p]) && Holding(pc) && pc.lock == s.pcs[p].lock && PcFits(s.ops[p], pc)
    ensures OneLock(t) && LockInv(t)
  {
    assert forall q :: 0 <= q < |s.pcs| && q != p ==> t.pcs[q] == s.pcs[q];
  }

  /** The holder of an exclusive lock is the only holder. */
  lemma Alone(s: State, p: nat)
    requires OneLock(s) && LockInv(s)
    requires p < |s.pcs| && Holding(s.pcs[p]) && Exclusive(s.ops[p])
    ensures forall q :: 0 <= q < |s.pcs| && q != p ==> !Holding(s.pcs[q])
  {}

  /** Who can move: readers share the lock, a writer has it to itself, and nobody waits
      for anything else. */
  lemma GrantedExactly(s: State, p: nat)
    requires OneLock(s) && LockInv(s) && p < |s.pcs|
    ensures Enabled(s, p) <==>
            && !s.pcs[p].Done?
            && (s.pcs[p].WaitLock? ==>
                  forall q :: 0 <= q < |s.pcs| && Holding(s.pcs[q]) ==> s.ops[p] == Get && s.ops[q] == Get)
  {
    if s.pcs[p].WaitLock? {
      var h := s.locks[s.pcs[p].lock];
      assert forall q :: 0 <= q < |s.pcs| && Holding(s.pcs[q]) ==> q in h.exclusive || q in h.shared;
      if x :| x in h.exclusive {
        assert Holding(s.pcs[x]) && s.ops[x] != Get;
      }
      if x :| x in h.shared {
        assert Holding(s.pcs[x]);
      }
    }
  }

  /** A step of a call that is neither reading nor writing, before or after, and that
      leaves names and files alone. */
  lemma FilesKept(s: State, t: State, p: nat, pc: Pc, reg: Register)
    requires OneLock(s) && OneLock(t) && FileInv(s, reg)
    requires p < |s.pcs| && t.pcs == s.pcs[p := pc] && t.ops == s.ops
    requires !pc.Writing? && !pc.Reading? && !s.pcs[p].Writing? && !s.pcs[p].Reading?
    requires t.entryName == s.entryName && t.files == s.files
    ensures FileInv(t, reg)
  {
    assert forall q :: 0 <= q < |s.pcs| && q != p ==> t.pcs[q] == s.pcs[q];
    if NoWriter(t) {
      forall q | 0 <= q < |s.pcs| ensures !s.pcs[q].Writing? {
        assert q != p ==> !t.pcs[q].Writing?;
      }
    }
  }

  lemma OpenLockLocks(s: State, p: nat)
    requires OneLock(s) && LockInv(s) && p < |s.pcs| && s.pcs[p] == Start
    ensures OneLock(OpenLock(s, p)) && LockInv(OpenLock(s, p))
  {
    hide Encode;
    var t := OpenLock(s, p);
    assert forall q :: 0 <= q < |s.pcs| && q != p ==> t.pcs[q] == s.pcs[q];
  }

  /** Either the call goes on, or it takes effect without the lock. */
  lemma OpenLockShape(s: State, p: nat)
    requires p < |s.pcs| == |s.ops| && s.pcs[p] == Start
    ensures var t := OpenLock(s, p); var pc := t.pcs[p];
      && t.ops == s.ops && t.pcs == s.pcs[p := pc] && t.entryName == s.entryName && t.files == s.files
      && (pc.WaitLock? || pc.Done?)
      && (pc.WaitLock? ==> t.history == s.history)
      && (pc.Done? ==> t.history == s.history + [Event(p, pc.result)])
      && (pc.Done? ==> pc.result == if s.ops[p].Get? then Missed else Refused)
      && (pc.Done? ==> if s.ops[p].Get? then s.lockName.None? else s.ops[p].Put? && PutStatus(s.ops[p].value) == TooBig)
  {
    hide PutStatus;
  }

  lemma OpenLockInv(initial: Register, s: State, p: nat)
    requires Inv(initial, s) && p < |s.pcs| && s.pcs[p] == Start
    ensures Inv(initial, OpenLock(s, p))
  {
    var t := OpenLock(s, p);
    var reg := Replay(initial, s.ops, s.history);
    OpenLockLocks(s, p);
    OpenLockShape(s, p);
    assert s.lockName.None? ==> reg.None?;
    hide Replay, LookUp, LockInv, OneLock, FileInv, HistoryInv, PutStatus, OpenLock;
    FilesKept(s, t, p, t.pcs[p], reg);
    Assemble(initial, s, t, p, t.pcs[p]);
  }

  lemma AcquireLocks(s: State, p: nat)
    requires OneLock(s) && LockInv(s) && Enabled(s, p) && s.pcs[p].WaitLock?
    ensures OneLock(Acquire(s, p, s.pcs[p].lock)) && LockInv(Acquire(s, p, s.pcs[p].lock))
  {
    var t := Acquire(s, p, s.pcs[p].lock);
    assert forall q :: 0 <= q < |s.pcs| && q != p ==> t.pcs[q] == s.pcs[q];
  }

  lemma AcquireInv(initial: Register, s: State, p: nat)
    requires Inv(initial, s) && Enabled(s, p) && s.pcs[p].WaitLock?
    ensures Inv(initial, Acquire(s, p, s.pcs[p].lock))
  {
    var t := Acquire(s, p, s.pcs[p].lock);
    AcquireLocks(s, p);
    FilesKept(s, t, p, t.pcs[p], Replay(initial, s.ops, s.history));
    hide Replay, LockInv, FileInv, HistoryInv;
    Assemble(initial, s, t, p, t.pcs[p]);
  }

  lemma OpenEntryFiles(s: State, p: nat, reg: Register)
    requires OneLock(s) && LockInv(s) && FileInv(s, reg) && p < |s.pcs| && s.pcs[p].Locked?
    ensures OneLock(OpenEntry(s, p, s.pcs[p].lock)) && LockInv(OpenEntry(s, p, s.pcs[p].lock))
    ensures FileInv(OpenEntry(s, p, s.pcs[p].lock), if s.ops[p].Del? then None else reg)
  {
    hide Encode, LookUp, CanLock;
    var t := OpenEntry(s, p, s.pcs[p].lock);
    assert forall q :: 0 <= q < |s.pcs| && q != p ==> t.pcs[q] == s.pcs[q];
    LocksKept(s, t, p, t.pcs[p]);
    if Exclusive(s.ops[p]) {
      Alone(s, p);
      assert t.pcs[p] == t.pcs[p];
    } else {
      assert NoWriter(t) ==> NoWriter(s);
    }
  }

  /** Unless it takes effect, the call goes on without touching the history. */
  predicate Commits(s: State, t: State, p: nat) {
    && p < |s.pcs| == |t.pcs| && t.ops == s.ops && t.pcs == s.pcs[p := t.pcs[p]]
    && t.history == s.history + if Committed(t.pcs[p]) then [Event(p, t.pcs[p].result)] else []
  }

  lemma OpenEntryShape(s: State, p: nat)
    requires p < |s.pcs| == |s.ops| && s.pcs[p].Locked?
    ensures var t := OpenEntry(s, p, s.pcs[p].lock);
      && Commits(s, t, p)
      && (Committed(t.pcs[p]) ==> if s.ops[p].Get? then t.pcs[p].result == Missed && s.entryName.None?
                                  else s.ops[p].Del? && t.pcs[p].result == Deleted)
      && (!Committed(t.pcs[p]) ==> !s.ops[p].Del?)
  {}

  lemma OpenEntryInv(initial: Register, s: State, p: nat)
    requires Inv(initial, s) && p < |s.pcs| && s.pcs[p].Locked?
    ensures Inv(initial, OpenEntry(s, p, s.pcs[p].lock))
  {
    var t := OpenEntry(s, p, s.pcs[p].lock);
    var reg := Replay(initial, s.ops, s.history);
    OpenEntryFiles(s, p, reg);
    OpenEntryShape(s, p);
    assert s.entryName.None? ==> reg.None?;
    assert PcFits(s.ops[p], s.pcs[p]);
    hide Replay, LookUp, OneLock, LockInv, FileInv, HistoryInv, Encode, OpenEntry, PutStatus;
    Assemble(initial, s, t, p, t.pcs[p]);
  }

  /** A write extends the prefix of the new value; the last one completes it. */
  lemma WriteFiles(s: State, p: nat, k: nat, reg: Register)
    requires OneLock(s) && LockInv(s) && FileInv(s, reg) && p < |s.pcs| && s.pcs[p].Writing?
    ensures OneLock(Step(s, p, k)) && LockInv(Step(s, p, k))
    ensures FileInv(Step(s, p, k), if Step(s, p, k).pcs[p].Unlock? then Some(s.ops[p].value) else reg)
  {
    hide Encode, LookUp, WriteAt, PutStatus;
    var t := Step(s, p, k);
    var Writing(l, f, n) := s.pcs[p];
    var bytes := Encode(s.ops[p].value);
    assert forall q :: 0 <= q < |s.pcs| && q != p ==> t.pcs[q] == s.pcs[q];
    Alone(s, p);
    LocksKept(s, t, p, t.pcs[p]);
    hide LockInv;
    if n == |bytes| {
      assert bytes[..n] == bytes;
    } else {
      var m := Transfer(k, |bytes| - n);
      WriteAtEnd(bytes[..n], bytes[n..n + m]);
      assert bytes[..n] + bytes[n..n + m] == bytes[..n + m];
      assert t.pcs[p].Writing?;
    }
  }

  lemma WriteAtEnd(data: seq<byte>, value: seq<byte>)
    ensures WriteAt(data, |data|, value) == data + value
  {}

  lemma WriteShape(s: State, p: nat, k: nat)
    requires p < |s.pcs| == |s.ops| && s.pcs[p].Writing?
    ensures var t := Step(s, p, k);
      Commits(s, t, p) && (t.pcs[p].Unlock? || t.pcs[p].Writing?) && (t.pcs[p].Unlock? ==> t.pcs[p].result == Stored)
  {
    hide Encode, WriteAt, Contents, PutStatus, Transfer, LookUp, CanLock;
  }

  lemma WriteInv(initial: Register, s: State, p: nat, k: nat)
    requires Inv(initial, s) && p < |s.pcs| && s.pcs[p].Writing?
    ensures Inv(initial, Step(s, p, k))
  {
    var t := Step(s, p, k);
    WriteFiles(s, p, k, Replay(initial, s.ops, s.history));
    WriteShape(s, p, k);
    assert PcFits(s.ops[p], s.pcs[p]);
    hide Replay, LookUp, OneLock, LockInv, FileInv, HistoryInv, Encode, WriteAt, Step;
    Assemble(initial, s, t, p, t.pcs[p]);
  }

  /** A reader has a prefix of the entry, and ends with what the whole entry gives. */
  lemma ReadFiles(s: State, p: nat, k: nat, reg: Register)
    requires OneLock(s) && LockInv(s) && FileInv(s, reg) && p < |s.pcs| && s.pcs[p].Reading?
    ensures OneLock(Step(s, p, k)) && LockInv(Step(s, p, k)) && FileInv(Step(s, p, k), reg)
    ensures Step(s, p, k).pcs[p].Unlock? ==> Step(s, p, k).pcs[p].result == Answer(Get, reg)
  {
    var t := Step(s, p, k);
    var Reading(l, f, got) := s.pcs[p];
    assert forall q :: 0 <= q < |s.pcs| && q != p ==> t.pcs[q] == s.pcs[q];
    forall q | 0 <= q < |s.pcs| ensures !s.pcs[q].Writing? {
      if s.pcs[q].Writing? {
        Alone(s, q);
      }
    }
    LocksKept(s, t, p, t.pcs[p]);
    var data := Contents(s, f);
    assert data == Encode(reg.value);
    if |got| == |data| {
      assert got == data;
    } else if |got| == ENTRY_MAX - 1 {
      assert LookUp(got) == LookUp(data) == Failed(Full);
    }
  }

  lemma ReadShape(s: State, p: nat, k: nat)
    requires p < |s.pcs| == |s.ops| && s.pcs[p].Reading?
    ensures var t := Step(s, p, k);
      Commits(s, t, p) && (t.pcs[p].Unlock? || t.pcs[p].Reading?)
  {
    hide Encode, WriteAt, Contents, PutStatus, Transfer, LookUp, CanLock;
  }

  lemma ReadInv(initial: Register, s: State, p: nat, k: nat)
    requires Inv(initial, s) && p < |s.pcs| && s.pcs[p].Reading?
    ensures Inv(initial, Step(s, p, k))
  {
    var t := Step(s, p, k);
    ReadFiles(s, p, k, Replay(initial, s.ops, s.history));
    ReadShape(s, p, k);
    assert PcFits(s.ops[p], s.pcs[p]);
    hide Replay, LookUp, OneLock, LockInv, FileInv, HistoryInv, Encode, Step, Answer;
    Assemble(initial, s, t, p, t.pcs[p]);
  }

  lemma ReleaseLocks(s: State, p: nat)
    requires OneLock(s) && LockInv(s) && p < |s.pcs| && s.pcs[p].Unlock?
    ensures OneLock(Release(s, p, s.pcs[p].lock, s.pcs[p].result))
    ensures LockInv(Release(s, p, s.pcs[p].lock, s.pcs[p].result))
  {
    var t := Release(s, p, s.pcs[p].lock, s.pcs[p].result);
    assert forall q :: 0 <= q < |s.pcs| && q != p ==> t.pcs[q] == s.pcs[q];
  }

  lemma ReleaseInv(initial: Register, s: State, p: nat)
    requires Inv(initial, s) && p < |s.pcs| && s.pcs[p].Unlock?
    ensures Inv(initial, Release(s, p, s.pcs[p].lock, s.pcs[p].result))
  {
    var t := Release(s, p, s.pcs[p].lock, s.pcs[p].result);
    ReleaseLocks(s, p);
    FilesKept(s, t, p, t.pcs[p], Replay(initial, s.ops, s.history));
    hide Replay, LockInv, FileInv, HistoryInv;
    Assemble(initial, s, t, p, t.pcs[p]);
  }

  lemma StepInv(initial: Register, s: State, p: nat, k: nat)
    requires Inv(initial, s) && Enabled(s, p)
    ensures Inv(initial, Step(s, p, k))
  {
    hide Inv, OpenLock, Acquire, OpenEntry, Release;
    match s.pcs[p]
    case Start => OpenLockInv(initial, s, p);
    case WaitLock(_) => AcquireInv(initial, s, p);
    case Locked(_) => OpenEntryInv(initial, s, p);
    case Writing(_, _, _) => WriteInv(initial, s, p, k);
    case Reading(_, _, _) => ReadInv(initial, s, p, k);
    case Unlock(_, _) => ReleaseInv(initial, s, p);
  }

  /* ---------- whole runs ---------- */

  /** Nobody has started; the directory holds at most one finished entry, and an entry
      never without its lock file. */
  ghost predicate Initial(initial: Register, s: State) {
    && |s.ops| == |s.pcs| && s.history == []
    && (forall p :: 0 <= p < |s.pcs| ==> s.pcs[p] == Start)
    && (s.lockName.Some? ==>
          && s.lockName.value in s.locks && s.lockName.value < s.nextId
          && s.locks[s.lockName.value] == Holders({}, {}))
    && (s.entryName.Some? ==> s.lockName.Some? && s.entryName.value < s.nextId)
    && (s.entryName.None? ==> initial.None?)
    && (s.entryName.Some? ==> initial.Some? && Contents(s, s.entryName.value) == Encode(initial.value))
  }

  lemma InitialInv(initial: Register, s: State)
    requires Initial(initial, s)
    ensures Inv(initial, s)
  {}

  ghost predicate CanMove(s: State) {
    exists p :: Enabled(s, p)
  }

  /** Somebody's system call happens, or nobody can move and the state stays. */
  ghost predicate Follows(s: State, p: nat, k: nat, t: State) {
    || (Enabled(s, p) && t == Step(s, p, k))
    || (!CanMove(s) && t == s)
  }

  /** A run: who moves, and how much each transfer would like to move. */
  ghost predicate IsRun(initial: Register, run: nat -> State, who: nat -> nat, size: nat -> nat) {
    && Initial(initial, run(0))
    && forall n: nat :: Follows(run(n), who(n), size(n), run(n + 1))
  }

  lemma {:induction false} RunInv(initial: Register, run: nat -> State, who: nat -> nat, size: nat -> nat, n: nat)
    requires IsRun(initial, run, who, size)
    ensures Inv(initial, run(n))
    ensures run(n).ops == run(0).ops && |run(n).pcs| == |run(0).pcs|
  {
    hide Inv;
    if n == 0 {
      InitialInv(initial, run(0));
    } else {
      RunInv(initial, run, who, size, n - 1);
      assert Follows(run(n - 1), who(n - 1), size(n - 1), run(n));
      if run(n) != run(n - 1) {
        StepInv(initial, run(n - 1), who(n - 1), size(n - 1));
        StepShape(run(n - 1), who(n - 1), size(n - 1));
      }
    }
  }

  /** What the parts of a step have in common. */
  predicate OnlyMoves(s: State, t: State, p: nat) {
    && t.ops == s.ops && |t.pcs| == |s.pcs| && s.history <= t.history
    && forall q :: 0 <= q < |s.pcs| && q != p ==> t.pcs[q] == s.pcs[q]
  }

  lemma StepShape(s: State, p: nat, k: nat)
    requires Enabled(s, p)
    ensures OnlyMoves(s, Step(s, p, k), p)
  {
    hide OpenLock, Acquire, OpenEntry, Release, WriteSome, ReadSome, OnlyMoves, CanLock;
    match s.pcs[p]
    case Start => OpenLockMoves(s, p);
    case WaitLock(l) => LockMoves(s, p, l);
    case Locked(l) => OpenEntryMoves(s, p, l);
    case Writing(l, f, n) => TransferMoves(s, p, l, f, n, [], k);
    case Reading(l, f, got) => TransferMoves(s, p, l, f, 0, got, k);
    case Unlock(l, r) => ReleaseMoves(s, p, l, r);
  }

  lemma OpenLockMoves(s: State, p: nat)
    requires p < |s.pcs| == |s.ops| && s.pcs[p].Start?
    ensures OnlyMoves(s, OpenLock(s, p), p)
  {
    hide PutStatus;
  }

  lemma LockMoves(s: State, p: nat, l: nat)
    requires p < |s.pcs| == |s.ops| && l in s.locks
    ensures OnlyMoves(s, Acquire(s, p, l), p)
  {}

  lemma ReleaseMoves(s: State, p: nat, l: nat, r: Result)
    requires p < |s.pcs|
    ensures OnlyMoves(s, Release(s, p, l, r), p)
  {}

  lemma OpenEntryMoves(s: State, p: nat, l: nat)
    requires p < |s.pcs| == |s.ops|
    ensures OnlyMoves(s, OpenEntry(s, p, l), p)
  {}

  lemma TransferMoves(s: State, p: nat, l: nat, f: nat, n: nat, got: seq<byte>, k: nat)
    requires p < |s.pcs| == |s.ops|
    ensures OnlyMoves(s, WriteSome(s, p, l, f, n, k), p) && OnlyMoves(s, ReadSome(s, p, l, f, got, k), p)
  {
    hide Encode, LookUp, WriteAt, Transfer, Contents;
  }

  lemma {:induction false} HistoryGrows(initial: Register, run: nat -> State, who: nat -> nat, size: nat -> nat,
                                        i: nat, j: nat)
    requires IsRun(initial, run, who, size) && i <= j
    ensures run(i).history <= run(j).history
    decreases j - i
  {
    if i < j {
      HistoryGrows(initial, run, who, size, i, j - 1);
      assert Follows(run(j - 1), who(j - 1), size(j - 1), run(j));
      if run(j) != run(j - 1) {
        StepShape(run(j - 1), who(j - 1), size(j - 1));
      }
    }
  }

  /** Atomicity: at every moment of every run, the calls that have taken effect form a
      legal sequential history, and every call that has returned is in it, once, with
      the result it returned. */
  lemma Atomic(initial: Register, run: nat -> State, who: nat -> nat, size: nat -> nat, n: nat)
    requires IsRun(initial, run, who, size)
    ensures HistoryInv(initial, run(n))
  {
    RunInv(initial, run, who, size, n);
  }

  /** The history respects real time: a call that had returned before another one
      started comes first. */
  lemma RealTimeOrder(initial: Register, run: nat -> State, who: nat -> nat, size: nat -> nat,
                      i: nat, j: nat, a: nat, b: nat, x: nat, y: nat)
    requires IsRun(initial, run, who, size) && i <= j
    requires a < |run(i).pcs| && b < |run(i).pcs|
    requires run(i).pcs[a].Done? && run(i).pcs[b] == Start
    requires x < |run(j).history| && run(j).history[x].caller == a
    requires y < |run(j).history| && run(j).history[y].caller == b
    ensures x < y
  {
    Atomic(initial, run, who, size, i);
    Atomic(initial, run, who, size, j);
    HistoryGrows(initial, run, who, size, i, j);
    NotYet(run(i).pcs, run(i).history, b);
    var e := Event(a, run(i).pcs[a].result);
    assert e in run(i).history;
    hide *;
    EarlierFirst(run(i).history, run(j).history, e, b, x, y);
  }

  lemma EarlierFirst(h: seq<Event>, g: seq<Event>, e: Event, b: nat, x: nat, y: nat)
    requires h <= g && Once(g) && e in h && forall k :: 0 <= k < |h| ==> h[k].caller != b
    requires x < |g| && g[x].caller == e.caller && y < |g| && g[y].caller == b
    ensures x < y
  {
    var z :| 0 <= z < |h| && h[z] == e;
    assert g[z] == e;
    assert x == z;
    forall k | 0 <= k < |h| ensures g[k].caller != b {
      assert g[k] == h[k];
    }
  }

  /** A value in the register came from one `put`, or was there from the beginning. */
  ghost predicate Source(initial: Register, ops: seq<Op>, v: seq<byte>) {
    initial == Some(v) || Put(v) in ops
  }

  lemma {:induction false} ReplaySource(initial: Register, ops: seq<Op>, h: seq<Event>)
    ensures Replay(initial, ops, h).Some? ==> Source(initial, ops, Replay(initial, ops, h).value)
  {
    if h != [] {
      ReplaySource(initial, ops, h[..|h| - 1]);
    }
  }

  /** Nothing from `from` on changes the register. */
  predicate Quiet(ops: seq<Op>, h: seq<Event>, from: nat) {
    forall k :: from <= k < |h| && h[k].caller < |ops| ==>
      ops[h[k].caller].Get? || (ops[h[k].caller].Put? && h[k].result == Refused)
  }

  /** The call `h[j]` is the last one that changed the register, and leaves `reg` there. */
  predicate LastWord(ops: seq<Op>, h: seq<Event>, j: nat, reg: Register) {
    && j < |h| && h[j].caller < |ops| && Quiet(ops, h, j + 1)
    && match ops[h[j].caller]
       case Put(v) => h[j].result == Stored && reg == Some(v)
       case Del => reg == None
       case Get => false
  }

  /** The register is what the last accepted `put` stored, unless a `del` came after it;
      without either it is what it was. */
  ghost predicate HasLastWord(initial: Register, ops: seq<Op>, h: seq<Event>, reg: Register) {
    (Quiet(ops, h, 0) && reg == initial) || exists j: nat :: LastWord(ops, h, j, reg)
  }

  lemma QuietEvent(initial: Register, ops: seq<Op>, h: seq<Event>, e: Event, reg: Register)
    requires HasLastWord(initial, ops, h, reg) && Quiet(ops, h + [e], |h|)
    ensures HasLastWord(initial, ops, h + [e], reg)
  {
    var g := h + [e];
    assert g[|h|] == e && forall k :: 0 <= k < |h| ==> g[k] == h[k];
    if Quiet(ops, h, 0) && reg == initial {
      assert Quiet(ops, g, 0);
    } else {
      var j: nat :| LastWord(ops, h, j, reg);
      assert Quiet(ops, g, j + 1);
      assert LastWord(ops, g, j, reg);
    }
  }

  lemma OneMoreEvent(initial: Register, ops: seq<Op>, h: seq<Event>, e: Event, reg: Register)
    requires HasLastWord(initial, ops, h, reg) && e.caller < |ops| && e.result == Answer(ops[e.caller], reg)
    ensures HasLastWord(initial, ops, h + [e], Effect(ops[e.caller], reg))
  {
    hide LookUp, PutStatus, HasLastWord;
    var g := h + [e];
    assert g[|h|] == e;
    if Quiet(ops, g, |h|) {
      QuietEvent(initial, ops, h, e, reg);
    } else {
      LoudEvent(initial, ops, g, |h|, Effect(ops[e.caller], reg));
    }
  }

  lemma LoudEvent(initial: Register, ops: seq<Op>, h: seq<Event>, j: nat, reg: Register)
    requires LastWord(ops, h, j, reg)
    ensures HasLastWord(initial, ops, h, reg)
  {}

  lemma {:induction false} ReplayHasLastWord(initial: Register, ops: seq<Op>, h: seq<Event>)
    requires Legal(initial, ops, h)
    ensures HasLastWord(initial, ops, h, Replay(initial, ops, h))
  {
    if h == [] {
      assert Quiet(ops, h, 0);
    } else {
      var n := |h| - 1;
      var front, e := h[..n], h[n];
      assert h == front + [e];
      assert forall i :: 0 <= i < n ==> front[..i] == h[..i];
      hide HasLastWord, Answer, Effect;
      ReplayHasLastWord(initial, ops, front);
      ReplayCommit(initial, ops, front, e);
      OneMoreEvent(initial, ops, front, e, Replay(initial, ops, front));
    }
  }

  /** The call `p` took effect with this result after the first `i` events. */
  predicate TookEffect(h: seq<Event>, p: nat, r: Result, i: nat) {
    i < |h| && h[i] == Event(p, r)
  }

  /** A get never returns a mixture: what it finds is, byte for byte, the value of the
      last accepted `put` before it in the history if no `del` came in between, or the
      initial one if there was neither; and it misses exactly if there is none. */
  lemma NoMixture(initial: Register, run: nat -> State, who: nat -> nat, size: nat -> nat, n: nat, p: nat)
    requires IsRun(initial, run, who, size) && p < |run(n).pcs| == |run(n).ops|
    requires run(n).ops[p] == Get && run(n).pcs[p].Done?
    requires forall v :: Source(initial, run(n).ops, v) ==> 0 !in v
    ensures exists i: nat, reg ::
      && TookEffect(run(n).history, p, run(n).pcs[p].result, i)
      && HasLastWord(initial, run(n).ops, run(n).history[..i], reg)
      && run(n).pcs[p].result == GetResult(reg)
  {
    Atomic(initial, run, who, size, n);
    hide *;
    GetIsRight(initial, run(n), p);
  }

  lemma GetIsRight(initial: Register, s: State, p: nat)
    requires HistoryInv(initial, s) && p < |s.pcs| == |s.ops| && s.ops[p] == Get && s.pcs[p].Done?
    requires forall v :: Source(initial, s.ops, v) ==> 0 !in v
    ensures exists i: nat, reg ::
      && TookEffect(s.history, p, s.pcs[p].result, i)
      && HasLastWord(initial, s.ops, s.history[..i], reg)
      && s.pcs[p].result == GetResult(reg)
  {
    assert Event(p, s.pcs[p].result) in s.history;
    var i: nat :| i < |s.history| && s.history[i] == Event(p, s.pcs[p].result);
    var h := s.history[..i];
    var reg := Replay(initial, s.ops, h);
    LegalPrefix(initial, s.ops, s.history, i);
    ReplaySource(initial, s.ops, h);
    hide Replay, HasLastWord, Legal, EventsFit, Once, AllRecorded, Answer;
    ReplayHasLastWord(initial, s.ops, h);
    GetAnswers(reg);
    assert TookEffect(s.history, p, s.pcs[p].result, i) && HasLastWord(initial, s.ops, s.history[..i], reg);
  }

  lemma LegalPrefix(initial: Register, ops: seq<Op>, h: seq<Event>, i: nat)
    requires Legal(initial, ops, h) && i < |h|
    ensures Legal(initial, ops, h[..i])
    ensures h[i].caller < |ops| && h[i].result == Answer(ops[h[i].caller], Replay(initial, ops, h[..i]))
  {
    hide Replay, Answer;
    assert forall k :: 0 <= k < i ==> h[..i][..k] == h[..k];
  }

  lemma GetAnswers(reg: Register)
    requires reg.Some? ==> 0 !in reg.value
    ensures Answer(Get, reg) == GetResult(reg)
  {
    if reg.Some? {
      EntryRoundTrip(reg.value);
    }
  }

  /** What a get should return: nothing, or the whole value if it is short enough. */
  function GetResult(reg: Register): Result {
    match reg
    case None => Missed
    case Some(v) => Got(if |v| <= 509 then Found(v) else Failed(Full))
  }

  /* ---------- every call returns ---------- */

  predicate AllDone(s: State) {
    forall p :: 0 <= p < |s.pcs| ==> s.pcs[p].Done?
  }

  /** Nobody waits for a lock that will not be released. */
  lemma Progress(initial: Register, s: State)
    requires Inv(initial, s)
    ensures CanMove(s) || AllDone(s)
  {
    if p :| 0 <= p < |s.pcs| && !s.pcs[p].Done? && !s.pcs[p].WaitLock? {
      assert Enabled(s, p);
    } else if p :| 0 <= p < |s.pcs| && s.pcs[p].WaitLock? {
      assert Enabled(s, p);
    }
  }

  /** System calls a call may still make. */
  function Remaining(op: Op, pc: Pc): nat {
    var bytes := match op case Put(v) => |Encode(v)| case Get => ENTRY_MAX case Del => 0;
    match pc
    case Start => bytes + 5
    case WaitLock(_) => bytes + 4
    case Locked(_) => bytes + 3
    case Writing(_, _, n) => if n <= bytes then bytes - n + 2 else 2
    case Reading(_, _, got) => if |got| <= bytes then bytes - |got| + 2 else 2
    case Unlock(_, _) => 1
    case Done(_) => 0
  }

  function Calls(s: State): seq<(Op, Pc)>
    requires |s.ops| == |s.pcs|
  {
    seq(|s.pcs|, p requires 0 <= p < |s.pcs| => (s.ops[p], s.pcs[p]))
  }

  function Work(s: State): nat
    requires |s.ops| == |s.pcs|
  {
    Total(Calls(s), (c: (Op, Pc)) => Remaining(c.0, c.1))
  }

  lemma StepWorks(initial: Register, s: State, p: nat, k: nat)
    requires Inv(initial, s) && Enabled(s, p)
    ensures |Step(s, p, k).ops| == |Step(s, p, k).pcs| && Work(Step(s, p, k)) < Work(s)
  {
    var t := Step(s, p, k);
    StepShape(s, p, k);
    StepRemaining(s, p, k);
    var w := (c: (Op, Pc)) => Remaining(c.0, c.1);
    TotalUpdate(Calls(s), p, (s.ops[p], t.pcs[p]), w);
    assert Calls(t) == Calls(s)[p := (s.ops[p], t.pcs[p])];
  }

  lemma StepRemaining(s: State, p: nat, k: nat)
    requires Enabled(s, p) && PcFits(s.ops[p], s.pcs[p])
    ensures Remaining(s.ops[p], Step(s, p, k).pcs[p]) < Remaining(s.ops[p], s.pcs[p])
  {
    hide WriteAt, LookUp, Encode, PutStatus, Contents, CanLock;
    match s.pcs[p]
    case Writing(l, f, n) =>
      var t := WriteSome(s, p, l, f, n, k);
      assert t.pcs[p].Unlock? || (t.pcs[p].Writing? && t.pcs[p].written > n);
    case Reading(l, f, got) =>
      var t := ReadSome(s, p, l, f, got, k);
      assert t.pcs[p].Unlock? || (t.pcs[p].Reading? && |t.pcs[p].got| > |got|);
    case _ =>
  }

  lemma {:induction false} RunsEnd(initial: Register, run: nat -> State, who: nat -> nat, size: nat -> nat, n: nat)
    returns (end: nat)
    requires IsRun(initial, run, who, size) && Inv(initial, run(n))
    ensures AllDone(run(end))
    decreases Work(run(n))
  {
    hide Work, Step, HistoryInv, LockInv, FileInv;
    if CanMove(run(n)) {
      assert Follows(run(n), who(n), size(n), run(n + 1));
      StepInv(initial, run(n), who(n), size(n));
      StepWorks(initial, run(n), who(n), size(n));
      end := RunsEnd(initial, run, who, size, n + 1);
    } else {
      Progress(initial, run(n));
      end := n;
    }
  }

  /** Every call of every run returns. */
  lemma EveryCallReturns(initial: Register, run: nat -> State, who: nat -> nat, size: nat -> nat)
    requires IsRun(initial, run, who, size)
    ensures exists n: nat :: AllDone(run(n))
  {
    InitialInv(initial, run(0));
    var n := RunsEnd(initial, run, who, size, 0);
  }

  /* ---------- the directory and the calls, updated in place ---------- */

  class CacheDir {
    const ops: seq<Op>
    var pcs: seq<Pc>
    var lockName: Option<nat>
    var entryName: Option<nat>
    var locks: map<nat, Holders>
    var files: map<nat, seq<byte>>
    var nextId: nat
    var history: seq<Event>

    function View(): State
      reads this
    {
      State(ops, pcs, lockName, entryName, locks, files, nextId, history)
    }

    /** An empty directory, and the calls that are about to be made. */
    constructor (ops: seq<Op>)
      ensures View().ops == ops && Initial(None, View())
    {
      this.ops := ops;
      pcs := seq(|ops|, _ => Start);
      lockName, entryName := None, None;
      locks, files, nextId, history := map[], map[], 0, [];
    }

    /** `inode_cache_lock` up to `flock`: opens the lock file, which writers create. */
    method OpenLockFile(p: nat)
      requires p < |pcs| == |ops|
      modifies this
      ensures View() == OpenLock(old(View()), p)
    {
      var result := Missed;
      if ops[p].Put? && PutStatus(ops[p].value) == TooBig {
        result := Refused;
      } else {
        if Exclusive(ops[p]) && lockName.None? {
          lockName := Some(nextId);
          locks := locks[nextId := Holders({}, {})];
          nextId := nextId + 1;
        }
        if lockName.Some? {
          pcs := pcs[p := WaitLock(lockName.value)];
          return;
        }
      }
      history := history + [Event(p, result)];
      pcs := pcs[p := Done(result)];
    }

    /** With the lock: `openat` for `put` and `get`, `unlinkat` for `del`. */
    method OpenEntryFile(p: nat, l: nat)
      requires p < |pcs| == |ops|
      modifies this
      ensures View() == OpenEntry(old(View()), p, l)
    {
      match ops[p] {
        case Put(_) =>
          if entryName.None? {
            entryName := Some(nextId);
            nextId := nextId + 1;
          }
          files := files[entryName.value := []];
          pcs := pcs[p := Writing(l, entryName.value, 0)];
        case Get =>
          if entryName.Some? {
            pcs := pcs[p := Reading(l, entryName.value, [])];
          } else {
            history := history + [Event(p, Missed)];
            pcs := pcs[p := Unlock(l, Missed)];
          }
        case Del =>
          entryName := None;
          history := history + [Event(p, Deleted)];
          pcs := pcs[p := Unlock(l, Deleted)];
      }
    }

    /** A granted `flock`. */
    method Lock(p: nat, l: nat)
      requires p < |pcs| == |ops| && l in locks
      modifies this
      ensures View() == Acquire(old(View()), p, l)
    {
      var h := locks[l];
      if Exclusive(ops[p]) {
        h := h.(exclusive := h.exclusive + {p});
      } else {
        h := h.(shared := h.shared + {p});
      }
      locks, pcs := locks[l := h], pcs[p := Locked(l)];
    }

    /** `inode_cache_unlock`. */
    method LetGo(p: nat, l: nat, r: Result)
      requires p < |pcs|
      modifies this
      ensures View() == Release(old(View()), p, l, r)
    {
      var h := if l in locks then locks[l] else Holders({}, {});
      locks := locks[l := Holders(h.exclusive - {p}, h.shared - {p})];
      pcs := pcs[p := Done(r)];
    }

    /** One `write` of `write_entry`, or its end. */
    method Write(p: nat, l: nat, f: nat, n: nat, k: nat)
      requires p < |pcs| == |ops|
      modifies this
      ensures View() == WriteSome(old(View()), p, l, f, n, k)
    {
      hide Encode, WriteAt, Transfer;
      var bytes := if ops[p].Put? then Encode(ops[p].value) else [];
      if n < |bytes| {
        var m := Transfer(k, |bytes| - n);
        files := files[f := WriteAt(Contents(View(), f), n, bytes[n..n + m])];
        pcs := pcs[p := Writing(l, f, n + m)];
      } else {
        history, pcs := history + [Event(p, Stored)], pcs[p := Unlock(l, Stored)];
      }
    }

    /** One `read` of `read_entry`, or its end. */
    method Read(p: nat, l: nat, f: nat, got: seq<byte>, k: nat)
      requires p < |pcs| == |ops|
      modifies this
      ensures View() == ReadSome(old(View()), p, l, f, got, k)
    {
      hide Contents, LookUp, Transfer;
      var data := Contents(View(), f);
      var left := if |got| <= |data| then data[|got|..] else [];
      var room := if |got| < ENTRY_MAX - 1 then ENTRY_MAX - 1 - |got| else 0;
      if room > 0 && left != [] {
        var m := Transfer(k, if room < |left| then room else |left|);
        pcs := pcs[p := Reading(l, f, got + left[..m])];
      } else {
        var r := Got(LookUp(got));
        history, pcs := history + [Event(p, r)], pcs[p := Unlock(l, r)];
      }
    }

    /** The next system call of call `p`. */
    method Act(p: nat, k: nat)
      requires Enabled(View(), p)
      modifies this
      ensures View() == Step(old(View()), p, k)
    {
      hide OpenLock, Acquire, OpenEntry, WriteSome, ReadSome, Release;
      match pcs[p] {
        case Start => OpenLockFile(p);
        case WaitLock(l) => Lock(p, l);
        case Locked(l) => OpenEntryFile(p, l);
        case Writing(l, f, n) => Write(p, l, f, n, k);
        case Reading(l, f, got) => Read(p, l, f, got, k);
        case Unlock(l, r) => LetGo(p, l, r);
      }
    }

    /** All calls run to the end under an arbitrary scheduler. */
    method Run()
      requires Initial(None, View())
      modifies this
      ensures AllDone(View()) && HistoryInv(None, View())
    {
      hide Work, Step, HistoryInv, LockInv, FileInv;
      InitialInv(None, View());
      while exists p :: 0 <= p < |pcs| && !pcs[p].Done?
        invariant Inv(None, View())
        decreases Work(View())
      {
        Progress(None, View());
        var p :| 0 <= p < |pcs| && Enabled(View(), p);
        var k: nat := *;
        StepInv(None, View(), p, k);
        StepWorks(None, View(), p, k);
        Act(p, k);
      }
    }
  }
}
