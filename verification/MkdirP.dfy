/**
  Creating a directory and everything above it, one component at a time, while
  editing the path in place.  Permissions and resources never run out.
 */
module MkdirP {
  import opened Sequences

  /* ---------- a tree of directories and files ---------- */

  datatype Node = File | Dir(entries: map<string, nat>)

  type Tree = map<nat, Node>

  datatype Errno = ENOENT | ENOTDIR | EEXIST

  /** A directory has its dots, no name in it is empty, and no entry dangles. */
  predicate NodeOk(fs: Tree, id: nat, node: Node) {
    node.Dir? ==>
      var e := node.entries;
      && "." in e && e["."] == id
      && ".." in e && e[".."] in fs && fs[e[".."]].Dir?
      && "" !in e
      && forall name :: name in e ==> e[name] in fs
  }

  predicate WellFormed(fs: Tree, next: nat) {
    forall id :: id in fs ==> id < next && NodeOk(fs, id, fs[id])
  }

  predicate IsDir(fs: Tree, id: nat) { id in fs && fs[id].Dir? }

  /** The tree with a new, empty directory `next` called `name` in `dir`. */
  function AddDir(fs: Tree, next: nat, dir: nat, name: string): Tree
    requires IsDir(fs, dir)
  {
    fs[dir := Dir(fs[dir].entries[name := next])][next := Dir(map["." := next, ".." := dir])]
  }

  /** A file stays a file, and a directory keeps its entries. */
  predicate NodeExtends(a: Node, b: Node) {
    && b.Dir? == a.Dir?
    && (a.Dir? ==> forall name :: name in a.entries ==> name in b.entries && b.entries[name] == a.entries[name])
  }

  /** Nothing that was there is gone, and files and directories stay what they are. */
  predicate Extends(fs: Tree, fs': Tree) {
    forall id :: id in fs ==> id in fs' && NodeExtends(fs[id], fs'[id])
  }

  /* ---------- the walk ---------- */

  datatype Outcome = Reached(dir: nat) | Failed(errno: Errno)

  datatype Result = Result(fs: Tree, next: nat, outcome: Outcome)

  /** Creates or enters each component in turn. */
  function Walk(fs: Tree, next: nat, dir: nat, components: seq<string>): Result
    requires WellFormed(fs, next) && IsDir(fs, dir)
    decreases |components|
  {
    if components == [] then Result(fs, next, Reached(dir))
    else
      var name, rest := components[0], components[1..];
      if name == "" then Result(fs, next, Failed(ENOENT))
      else if name in fs[dir].entries then
        var id := fs[dir].entries[name];
        if fs[id].Dir? then Walk(fs, next, id, rest) else Result(fs, next, Failed(ENOTDIR))
      else
        AddDirWellFormed(fs, next, dir, name);
        Walk(AddDir(fs, next, dir, name), next + 1, next, rest)
  }

  /** What is where in the larger tree. */
  lemma AddDirAt(fs: Tree, next: nat, dir: nat, name: string)
    requires IsDir(fs, dir) && next !in fs
    ensures var fs1 := AddDir(fs, next, dir, name);
      && (forall id :: id in fs1 <==> id in fs || id == next)
      && dir in fs1 && fs1[dir] == Dir(fs[dir].entries[name := next])
      && fs1[next] == Dir(map["." := next, ".." := dir])
      && forall id :: id in fs && id != dir ==> fs1[id] == fs[id]
  {}

  /** A node stays as it should be while the tree grows. */
  lemma NodeStays(fs: Tree, fs': Tree, id: nat, node: Node)
    requires NodeOk(fs, id, node)
    requires forall x :: x in fs ==> x in fs' && (fs[x].Dir? ==> fs'[x].Dir?)
    ensures NodeOk(fs', id, node)
  {}

  lemma EntryAdded(fs: Tree, id: nat, e: map<string, nat>, name: string, x: nat)
    requires NodeOk(fs, id, Dir(e)) && name != "" && name !in e && x in fs
    ensures NodeOk(fs, id, Dir(e[name := x]))
  {}

  lemma NewDirOk(fs: Tree, next: nat, dir: nat)
    requires next in fs && IsDir(fs, dir)
    ensures NodeOk(fs, next, Dir(map["." := next, ".." := dir]))
  {
    assert ".."[1] == '.';
  }

  lemma AddDirWellFormed(fs: Tree, next: nat, dir: nat, name: string)
    requires WellFormed(fs, next) && IsDir(fs, dir) && name != "" && name !in fs[dir].entries
    ensures WellFormed(AddDir(fs, next, dir, name), next + 1)
    ensures IsDir(AddDir(fs, next, dir, name), next)
  {
    var fs1 := AddDir(fs, next, dir, name);
    assert next !in fs;
    AddDirAt(fs, next, dir, name);
    hide NodeOk, AddDir;
    NewDirOk(fs1, next, dir);
    forall id | id in fs1 ensures id < next + 1 && NodeOk(fs1, id, fs1[id]) {
      if id != next {
        assert NodeOk(fs, id, fs[id]);
        NodeStays(fs, fs1, id, fs[id]);
        if id == dir {
          assert fs[dir] == Dir(fs[dir].entries);
          EntryAdded(fs1, dir, fs[dir].entries, name, next);
        }
      }
    }
  }

  lemma EntryGrows(e: map<string, nat>, name: string, x: nat)
    requires name !in e
    ensures NodeExtends(Dir(e), Dir(e[name := x]))
  {}

  lemma NodeExtendsSelf(node: Node)
    ensures NodeExtends(node, node)
  {}

  lemma NewEntry(fs: Tree, next: nat, dir: nat, name: string)
    requires WellFormed(fs, next) && IsDir(fs, dir)
    ensures next !in fs && IsDir(AddDir(fs, next, dir, name), dir) && IsDir(AddDir(fs, next, dir, name), next)
    ensures AddDir(fs, next, dir, name)[dir].entries == fs[dir].entries[name := next]
  {
    assert next !in fs;
    AddDirAt(fs, next, dir, name);
    hide *;
  }

  lemma AddDirExtends(fs: Tree, next: nat, dir: nat, name: string)
    requires next !in fs && IsDir(fs, dir) && name !in fs[dir].entries
    ensures Extends(fs, AddDir(fs, next, dir, name))
  {
    AddDirAt(fs, next, dir, name);
    hide AddDir, NodeExtends;
    var fs1 := AddDir(fs, next, dir, name);
    forall id | id in fs ensures id in fs1 && NodeExtends(fs[id], fs1[id]) {
      NodeExtendsSelf(fs[id]);
      if id == dir {
        EntryGrows(fs[dir].entries, name, next);
      }
    }
  }

  lemma EntryIsThere(fs: Tree, next: nat, dir: nat, name: string)
    requires WellFormed(fs, next) && IsDir(fs, dir) && name in fs[dir].entries
    ensures name != "" && fs[dir].entries[name] in fs
  {
    assert NodeOk(fs, dir, fs[dir]);
  }

  lemma ExtendsEntry(a: Tree, b: Tree, dir: nat, name: string)
    requires Extends(a, b) && IsDir(a, dir)
    ensures IsDir(b, dir)
    ensures name in a[dir].entries ==> name in b[dir].entries && b[dir].entries[name] == a[dir].entries[name]
  {}

  /** The directory a path leads to, if there is one. */
  function Resolve(fs: Tree, dir: nat, components: seq<string>): Option<nat>
    decreases |components|
  {
    if !IsDir(fs, dir) then None
    else if components == [] then Some(dir)
    else if components[0] !in fs[dir].entries then None
    else Resolve(fs, fs[dir].entries[components[0]], components[1..])
  }

  lemma ExtendsTransitive(a: Tree, b: Tree, c: Tree)
    requires Extends(a, b) && Extends(b, c)
    ensures Extends(a, c)
  {}

  /** Nothing existing is removed, and success means that the whole path, hence every
      prefix of it, is now a chain of directories. */
  lemma {:induction false} WalkKeeps(fs: Tree, next: nat, dir: nat, components: seq<string>)
    requires WellFormed(fs, next) && IsDir(fs, dir)
    ensures var r := Walk(fs, next, dir, components);
      && Extends(fs, r.fs) && WellFormed(r.fs, r.next)
      && (r.outcome.Reached? ==> Resolve(r.fs, dir, components) == Some(r.outcome.dir))
    decreases |components|
  {
    hide WellFormed, AddDir, Extends;
    if components == [] {
      ExtendsSelf(fs);
    } else if components[0] == "" {
      ExtendsSelf(fs);
    } else {
      var name, rest := components[0], components[1..];
      if name in fs[dir].entries {
        EntryIsThere(fs, next, dir, name);
        ExtendsSelf(fs);
        if fs[fs[dir].entries[name]].Dir? {
          WalkKeeps(fs, next, fs[dir].entries[name], rest);
          ExtendsEntry(fs, Walk(fs, next, dir, components).fs, dir, name);
        }
      } else {
        AddDirWellFormed(fs, next, dir, name);
        NewEntry(fs, next, dir, name);
        AddDirExtends(fs, next, dir, name);
        var fs1 := AddDir(fs, next, dir, name);
        WalkKeeps(fs1, next + 1, next, rest);
        ExtendsTransitive(fs, fs1, Walk(fs1, next + 1, next, rest).fs);
        ExtendsEntry(fs1, Walk(fs1, next + 1, next, rest).fs, dir, name);
      }
    }
  }

  lemma ExtendsSelf(fs: Tree)
    ensures Extends(fs, fs)
  {}

  /** A component that is empty or names something that is not a directory. */
  predicate Blocks(fs: Tree, dir: nat, name: string)
    requires IsDir(fs, dir)
  {
    name == "" || (name in fs[dir].entries && !IsDir(fs, fs[dir].entries[name]))
  }

  /** Component `k` of the path is where it gets stuck. */
  predicate BlockedAt(fs: Tree, dir: nat, components: seq<string>, k: nat) {
    && k < |components|
    && Resolve(fs, dir, components[..k]).Some?
    && (ResolveIsDir(fs, dir, components[..k]);
        Blocks(fs, Resolve(fs, dir, components[..k]).value, components[k]))
  }

  lemma {:induction false} ResolveIsDir(fs: Tree, dir: nat, components: seq<string>)
    ensures Resolve(fs, dir, components).Some? ==> IsDir(fs, Resolve(fs, dir, components).value)
    decreases |components|
  {
    if IsDir(fs, dir) && components != [] && components[0] in fs[dir].entries {
      ResolveIsDir(fs, fs[dir].entries[components[0]], components[1..]);
    }
  }

  /** Stuck one component later, seen from one directory earlier. */
  lemma BlockedLater(fs: Tree, dir: nat, components: seq<string>, k: nat)
    requires IsDir(fs, dir) && components != [] && components[0] in fs[dir].entries
    ensures BlockedAt(fs, fs[dir].entries[components[0]], components[1..], k) <==> BlockedAt(fs, dir, components, k + 1)
  {
    if k < |components| - 1 {
      assert components[..k + 1] == [components[0]] + components[1..][..k];
      assert components[..k + 1][1..] == components[1..][..k];
    }
  }

  lemma BlockedNow(fs: Tree, dir: nat, components: seq<string>)
    requires IsDir(fs, dir) && components != []
    ensures BlockedAt(fs, dir, components, 0) <==> Blocks(fs, dir, components[0])
  {
    assert components[..0] == [];
  }

  lemma {:induction false} FailureIsBlocked(fs: Tree, next: nat, dir: nat, components: seq<string>) returns (k: nat)
    requires WellFormed(fs, next) && IsDir(fs, dir)
    requires Walk(fs, next, dir, components).outcome.Failed?
    ensures BlockedAt(Walk(fs, next, dir, components).fs, dir, components, k)
    decreases |components|
  {
    hide WellFormed, AddDir, Extends, BlockedAt, Resolve;
    var r := Walk(fs, next, dir, components);
    var name, rest := components[0], components[1..];
    WalkKeeps(fs, next, dir, components);
    ExtendsEntry(fs, r.fs, dir, name);
    BlockedNow(r.fs, dir, components);
    k := 0;
    if name != "" {
      if name in fs[dir].entries {
        EntryIsThere(fs, next, dir, name);
        if fs[fs[dir].entries[name]].Dir? {
          k := FailureIsBlocked(fs, next, fs[dir].entries[name], rest);
          BlockedLater(r.fs, dir, components, k);
          k := k + 1;
        } else {
          ExtendsFile(fs, r.fs, fs[dir].entries[name]);
        }
      } else {
        AddDirWellFormed(fs, next, dir, name);
        NewEntry(fs, next, dir, name);
        AddDirExtends(fs, next, dir, name);
        var fs1 := AddDir(fs, next, dir, name);
        WalkKeeps(fs1, next + 1, next, rest);
        ExtendsEntry(fs1, r.fs, dir, name);
        k := FailureIsBlocked(fs1, next + 1, next, rest);
        BlockedLater(r.fs, dir, components, k);
        k := k + 1;
      }
    }
  }

  lemma ExtendsFile(a: Tree, b: Tree, id: nat)
    requires Extends(a, b) && id in a && !a[id].Dir?
    ensures !IsDir(b, id)
  {}

  /** The walk fails exactly when, in the tree it leaves behind, some component is empty
      or names a non-directory. */
  lemma WalkFails(fs: Tree, next: nat, dir: nat, components: seq<string>)
    requires WellFormed(fs, next) && IsDir(fs, dir)
    ensures var r := Walk(fs, next, dir, components);
      r.outcome.Failed? <==> exists k :: BlockedAt(r.fs, dir, components, k)
  {
    hide WellFormed, BlockedAt, Resolve;
    var r := Walk(fs, next, dir, components);
    WalkKeeps(fs, next, dir, components);
    if r.outcome.Failed? {
      var k := FailureIsBlocked(fs, next, dir, components);
    } else {
      forall k: nat ensures !BlockedAt(r.fs, dir, components, k) {
        NotBlocked(r.fs, r.next, dir, components, k);
      }
    }
  }

  /** A path that resolves is not blocked anywhere. */
  lemma {:induction false} NotBlocked(fs: Tree, next: nat, dir: nat, components: seq<string>, k: nat)
    requires WellFormed(fs, next) && Resolve(fs, dir, components).Some?
    ensures !BlockedAt(fs, dir, components, k)
    decreases |components|
  {
    if components == [] {
      NothingBlocks(fs, dir);
    } else {
      ResolveStep(fs, dir, components);
      EntryIsThere(fs, next, dir, components[0]);
      hide WellFormed, Resolve, BlockedAt;
      if k == 0 {
        BlockedNow(fs, dir, components);
      } else {
        BlockedLater(fs, dir, components, k - 1);
        NotBlocked(fs, next, fs[dir].entries[components[0]], components[1..], k - 1);
      }
    }
  }

  lemma ResolveStep(fs: Tree, dir: nat, components: seq<string>)
    requires components != [] && Resolve(fs, dir, components).Some?
    ensures IsDir(fs, dir) && components[0] in fs[dir].entries
    ensures IsDir(fs, fs[dir].entries[components[0]])
    ensures Resolve(fs, fs[dir].entries[components[0]], components[1..]).Some?
  {}

  /** For paths without dots, failure can be told from the tree as it was before: some
      component is empty, or a prefix leads to something that is not a directory. */
  lemma {:induction false} DotlessFails(fs: Tree, next: nat, dir: nat, components: seq<string>)
    requires WellFormed(fs, next) && IsDir(fs, dir)
    requires "." !in components && ".." !in components
    ensures Walk(fs, next, dir, components).outcome.Failed?
            <==> "" in components || exists k :: BlockedAt(fs, dir, components, k)
    decreases |components|
  {
    hide WellFormed, AddDir, BlockedAt, Resolve;
    if components == [] {
      assert forall k :: !BlockedAt(fs, dir, components, k) by { NothingBlocks(fs, dir); }
    } else {
      var name, rest := components[0], components[1..];
      assert components == [name] + rest;
      BlockedNow(fs, dir, components);
      if name != "" && name in fs[dir].entries {
        var id := fs[dir].entries[name];
        EntryIsThere(fs, next, dir, name);
        forall k: nat ensures BlockedAt(fs, id, rest, k) <==> BlockedAt(fs, dir, components, k + 1) {
          BlockedLater(fs, dir, components, k);
        }
        if fs[id].Dir? {
          DotlessFails(fs, next, id, rest);
          if k: nat :| BlockedAt(fs, id, rest, k) {
            assert BlockedAt(fs, dir, components, k + 1);
          }
          if k: nat :| BlockedAt(fs, dir, components, k) {
            assert k > 0 && BlockedAt(fs, id, rest, k - 1);
          }
        }
      } else if name != "" {
        var fs1 := AddDir(fs, next, dir, name);
        AddDirWellFormed(fs, next, dir, name);
        DotlessFails(fs1, next + 1, next, rest);
        NewDirBlocksNothing(fs, next, dir, name, rest);
        MissingBlocksNothing(fs, dir, components);
      }
    }
  }

  lemma NothingBlocks(fs: Tree, dir: nat)
    ensures forall k :: !BlockedAt(fs, dir, [], k)
  {}

  lemma MissingBlocksNothing(fs: Tree, dir: nat, components: seq<string>)
    requires IsDir(fs, dir) && components != [] && components[0] != "" && components[0] !in fs[dir].entries
    ensures forall k :: !BlockedAt(fs, dir, components, k)
  {
    forall k: nat | k < |components| ensures !BlockedAt(fs, dir, components, k) {
      if k > 0 {
        assert components[..k][0] == components[0];
      } else {
        BlockedNow(fs, dir, components);
      }
    }
  }

  lemma NewDirBlocksNothing(fs: Tree, next: nat, dir: nat, name: string, rest: seq<string>)
    requires IsDir(fs, dir) && "." !in rest && ".." !in rest
    ensures forall k :: BlockedAt(AddDir(fs, next, dir, name), next, rest, k) ==> "" in rest
  {
    if rest != [] {
      var fs1 := AddDir(fs, next, dir, name);
      assert rest[0] in rest && rest[0] !in fs1[next].entries;
      if rest[0] != "" {
        MissingBlocksNothing(fs1, next, rest);
      }
    }
  }

  /* ---------- system calls ---------- */

  const AT_FDCWD: int := -100

  datatype Opened = Descriptor(fd: int) | Error(errno: Errno)

  /** What `mkdirat` answers, and the tree afterwards. */
  function MkdirIn(fs: Tree, next: nat, dir: nat, name: string): (r: (Option<Errno>, Tree, nat))
    requires IsDir(fs, dir) && dir < next
    ensures IsDir(r.1, dir)
  {
    if name == "" then (Some(ENOENT), fs, next)
    else if name in fs[dir].entries then (Some(EEXIST), fs, next)
    else (None, AddDir(fs, next, dir, name), next + 1)
  }

  /** Which directory `openat` opens. */
  function OpenIn(fs: Tree, dir: nat, name: string): Outcome
    requires IsDir(fs, dir)
  {
    if name !in fs[dir].entries then Failed(ENOENT)
    else if IsDir(fs, fs[dir].entries[name]) then Reached(fs[dir].entries[name])
    else Failed(ENOTDIR)
  }

  /** `mkdirat`, which may find the name taken, and then `openat`. */
  function EnterIn(fs: Tree, next: nat, dir: nat, name: string): Result
    requires IsDir(fs, dir) && dir < next
  {
    var (err, fs1, next1) := MkdirIn(fs, next, dir, name);
    if err.Some? && err.value != EEXIST then Result(fs1, next1, Failed(err.value))
    else Result(fs1, next1, OpenIn(fs1, dir, name))
  }

  /** Entering the first component and walking on is the walk. */
  lemma FirstStep(fs: Tree, next: nat, dir: nat, name: string, rest: seq<string>)
    requires WellFormed(fs, next) && IsDir(fs, dir)
    ensures var e := EnterIn(fs, next, dir, name);
      && WellFormed(e.fs, e.next)
      && match e.outcome
         case Reached(id) =>
           IsDir(e.fs, id) && Walk(fs, next, dir, [name] + rest) == Walk(e.fs, e.next, id, rest)
         case Failed(_) =>
           Walk(fs, next, dir, [name] + rest) == e
  {
    FirstOfWalk(fs, next, dir, name, rest);
    EnterResult(fs, next, dir, name);
    hide *;
  }

  /** The tree after the first component, and where it leads. */
  function FirstResult(fs: Tree, next: nat, dir: nat, name: string): Result
    requires WellFormed(fs, next) && IsDir(fs, dir)
  {
    if name == "" then Result(fs, next, Failed(ENOENT))
    else if name !in fs[dir].entries then Result(AddDir(fs, next, dir, name), next + 1, Reached(next))
    else if IsDir(fs, fs[dir].entries[name]) then Result(fs, next, Reached(fs[dir].entries[name]))
    else Result(fs, next, Failed(ENOTDIR))
  }

  lemma EnterResult(fs: Tree, next: nat, dir: nat, name: string)
    requires WellFormed(fs, next) && IsDir(fs, dir) && dir < next
    ensures EnterIn(fs, next, dir, name) == FirstResult(fs, next, dir, name)
  {
    NewEntry(fs, next, dir, name);
    if name in fs[dir].entries {
      EntryIsThere(fs, next, dir, name);
    }
    hide WellFormed, AddDir;
  }

  lemma WalkOld(fs: Tree, next: nat, dir: nat, name: string, rest: seq<string>)
    requires WellFormed(fs, next) && IsDir(fs, dir) && name != "" && name in fs[dir].entries
    ensures var id := fs[dir].entries[name];
      Walk(fs, next, dir, [name] + rest)
      == if IsDir(fs, id) then Walk(fs, next, id, rest) else Result(fs, next, Failed(ENOTDIR))
  {
    EntryIsThere(fs, next, dir, name);
    hide WellFormed;
    assert ([name] + rest)[1..] == rest;
  }

  lemma WalkNew(fs: Tree, next: nat, dir: nat, name: string, rest: seq<string>)
    requires WellFormed(fs, next) && IsDir(fs, dir) && name != "" && name !in fs[dir].entries
    ensures WellFormed(AddDir(fs, next, dir, name), next + 1) && IsDir(AddDir(fs, next, dir, name), next)
    ensures Walk(fs, next, dir, [name] + rest) == Walk(AddDir(fs, next, dir, name), next + 1, next, rest)
  {
    AddDirWellFormed(fs, next, dir, name);
    hide WellFormed, AddDir;
    assert ([name] + rest)[1..] == rest;
  }

  lemma WalkEmpty(fs: Tree, next: nat, dir: nat, rest: seq<string>)
    requires WellFormed(fs, next) && IsDir(fs, dir)
    ensures dir < next && Walk(fs, next, dir, [""] + rest) == Result(fs, next, Failed(ENOENT))
  {}

  lemma FirstOfWalk(fs: Tree, next: nat, dir: nat, name: string, rest: seq<string>)
    requires WellFormed(fs, next) && IsDir(fs, dir)
    ensures var e := FirstResult(fs, next, dir, name);
      && dir < next && WellFormed(e.fs, e.next)
      && match e.outcome
         case Reached(id) => IsDir(e.fs, id) && Walk(fs, next, dir, [name] + rest) == Walk(e.fs, e.next, id, rest)
         case Failed(_) => Walk(fs, next, dir, [name] + rest) == e
  {
    hide WellFormed, AddDir, Walk;
    WalkEmpty(fs, next, dir, rest);
    if name != "" {
      if name in fs[dir].entries {
        WalkOld(fs, next, dir, name, rest);
      } else {
        WalkNew(fs, next, dir, name, rest);
      }
    }
  }

  class Kernel {
    var fs: Tree
    var next: nat
    /** The open descriptors and the directories they denote. */
    var fds: map<int, nat>
    const root: nat
    const cwd: nat

    ghost predicate Valid()
      reads this
    {
      && WellFormed(fs, next) && IsDir(fs, root) && IsDir(fs, cwd)
      && (forall fd :: fd in fds ==> fd >= 0 && IsDir(fs, fds[fd]))
    }

    /** A descriptor that `*at` calls accept. */
    predicate Usable(fd: int)
      reads this
    {
      fd == AT_FDCWD || fd in fds
    }

    function DirOf(fd: int): nat
      requires Usable(fd)
      reads this
    {
      if fd in fds then fds[fd] else cwd
    }

    /** A descriptor number not in use. */
    method NewFd() returns (fd: int)
      requires Valid()
      ensures fd >= 0 && fd !in fds
    {
      fd := 0;
      var left := fds.Keys;
      while fd in fds
        invariant fd >= 0
        invariant left <= fds.Keys && forall k :: k in fds && k >= fd ==> k in left
        decreases left
      {
        left := left - {fd};
        fd := fd + 1;
      }
    }

    method Install(dir: nat) returns (fd: int)
      requires Valid() && IsDir(fs, dir)
      modifies `fds
      ensures Valid() && fd >= 0 && fd !in old(fds) && fds == old(fds)[fd := dir]
    {
      fd := NewFd();
      fds := fds[fd := dir];
    }

    /** `mkdirat`: `None` on success. */
    method MkdirAt(dirfd: int, name: string) returns (err: Option<Errno>)
      requires Valid() && Usable(dirfd)
      modifies `fs, `next
      ensures Valid() && (err, fs, next) == old(MkdirIn(fs, next, DirOf(dirfd), name))
    {
      hide WellFormed, AddDir, Extends;
      var dir := DirOf(dirfd);
      if name == "" {
        return Some(ENOENT);
      }
      if name in fs[dir].entries {
        return Some(EEXIST);
      }
      AddDirWellFormed(fs, next, dir, name);
      NewEntry(fs, next, dir, name);
      AddDirExtends(fs, next, dir, name);
      ghost var before := fs;
      fs := AddDir(fs, next, dir, name);
      next := next + 1;
      forall id | IsDir(before, id) ensures IsDir(fs, id) {
        ExtendsEntry(before, fs, id, name);
      }
      return None;
    }

    /** `openat` with `O_PATH|O_DIRECTORY`: a descriptor, or the reason why not. */
    method OpenDirAt(dirfd: int, name: string) returns (r: Opened)
      requires Valid() && Usable(dirfd)
      modifies `fds
      ensures Valid()
      ensures match OpenIn(fs, old(DirOf(dirfd)), name)
              case Reached(id) =>
                r.Descriptor? && r.fd >= 0 && r.fd !in old(fds) && fds == old(fds)[r.fd := id]
              case Failed(errno) => r == Error(errno) && fds == old(fds)
    {
      var dir := DirOf(dirfd);
      if name !in fs[dir].entries {
        return Error(ENOENT);
      }
      EntryIsThere(fs, next, dir, name);
      var id := fs[dir].entries[name];
      if !IsDir(fs, id) {
        return Error(ENOTDIR);
      }
      var fd := Install(id);
      return Descriptor(fd);
    }

    /** `close`; an unknown descriptor is an error the caller ignores. */
    method Close(fd: int)
      requires Valid()
      modifies `fds
      ensures Valid() && fds == old(fds) - {fd}
    {
      fds := fds - {fd};
    }

    constructor (fs: Tree, next: nat, root: nat, cwd: nat)
      requires WellFormed(fs, next) && IsDir(fs, root) && IsDir(fs, cwd)
      ensures Valid() && this.fs == fs && this.next == next && fds == map[]
      ensures this.root == root && this.cwd == cwd
    {
      hide WellFormed;
      this.fs, this.next, fds := fs, next, map[];
      this.root, this.cwd := root, cwd;
    }
  }

  /* ---------- paths ---------- */

  const NUL: char := 0 as char

  /** Where `c` first occurs from `from` on; the length if it does not. */
  function Find(s: string, c: char, from: nat): (i: nat)
    requires from <= |s|
    ensures from <= i <= |s|
    ensures c !in s[from..i]
    ensures i < |s| ==> s[i] == c
    decreases |s| - from
  {
    if from == |s| || s[from] == c then from
    else
      var i := Find(s, c, from + 1);
      assert s[from..i] == [s[from]] + s[from + 1..i];
      i
  }

  lemma {:induction false} FindUnique(s: string, c: char, from: nat, i: nat)
    requires from <= i <= |s| && c !in s[from..i] && (i < |s| ==> s[i] == c)
    ensures Find(s, c, from) == i
    decreases i - from
  {
    if from < i {
      assert s[from] == s[from..i][0];
      assert s[from + 1..i] == s[from..i][1..];
      FindUnique(s, c, from + 1, i);
    }
  }

  /** The components between the slashes, empty ones included. */
  function Split(path: string): (parts: seq<string>)
    ensures parts != []
    decreases |path|
  {
    var i := Find(path, '/', 0);
    if i == |path| then [path] else [path[..i]] + Split(path[i + 1..])
  }

  /** The C string in a buffer. */
  function CString(buf: seq<char>): string {
    buf[..Find(buf, NUL, 0)]
  }

  /** `strchr(path + from, '/')`; the string ends at `n`. */
  method StrChr(path: array<char>, from: nat, ghost n: nat) returns (end: Option<nat>)
    requires from <= n < path.Length && path[n] == NUL && NUL !in path[from..n]
    ensures match end
      case Some(e) => from <= e < n && path[e] == '/' && '/' !in path[from..e]
      case None => '/' !in path[from..n]
  {
    var i := from;
    while path[i] != '/' && path[i] != NUL
      invariant from <= i <= n && '/' !in path[from..i]
      decreases n - i
    {
      assert path[from..i + 1] == path[from..i] + [path[i]];
      i := i + 1;
    }
    if i < n {
      assert path[i] in path[from..n];
    }
    end := if path[i] == '/' then Some(i) else None;
  }

  /** The string that starts at `from`, as a system call reads it. */
  method ReadName(path: array<char>, from: nat, ghost n: nat) returns (name: string)
    requires from <= n < path.Length && path[n] == NUL && NUL !in path[from..n]
    ensures name == path[from..n]
  {
    var i := from;
    name := "";
    while path[i] != NUL
      invariant from <= i <= n && name == path[from..i]
      decreases n - i
    {
      name := name + [path[i]];
      i := i + 1;
    }
    assert i == n;
  }

  /* ---------- mkdir_p ---------- */

  /** Where an absolute or relative path starts, and its components. */
  function StartOf(path: string, root: nat, cwd: nat): (nat, seq<string>) {
    if path != [] && path[0] == '/' then (root, Split(path[1..])) else (cwd, Split(path))
  }

  /** What `mkdir_p` does to the tree and what it reports. */
  ghost function Effect(k: Kernel, path: string): Result
    requires k.Valid()
    reads k
  {
    var (dir, components) := StartOf(path, k.root, k.cwd);
    Walk(k.fs, k.next, dir, components)
  }

  /** One round of the loop: create the component if it is missing, enter it, and let
      go of the directory above. */
  method Enter(k: Kernel, dirfd: int, name: string) returns (r: Opened)
    requires k.Valid() && k.Usable(dirfd)
    modifies k
    ensures k.Valid()
    ensures var e := old(EnterIn(k.fs, k.next, k.DirOf(dirfd), name));
      && k.fs == e.fs && k.next == e.next
      && match e.outcome
         case Reached(id) =>
           && r.Descriptor? && r.fd >= 0 && r.fd !in old(k.fds)
           && k.fds == (old(k.fds) - {dirfd})[r.fd := id]
         case Failed(errno) =>
           r == Error(errno) && k.fds == old(k.fds)
  {
    hide WellFormed, MkdirIn, OpenIn;
    var made := k.MkdirAt(dirfd, name);
    if made.Some? && made.value != EEXIST {
      return Error(made.value);
    }
    r := k.OpenDirAt(dirfd, name);
    if r.Descriptor? {
      k.Close(dirfd);
    }
  }

  lemma WalkDone(fs: Tree, next: nat, dir: nat)
    requires WellFormed(fs, next) && IsDir(fs, dir)
    ensures Walk(fs, next, dir, []) == Result(fs, next, Reached(dir))
  {}

  lemma SplitStep(s: string)
    ensures var i := Find(s, '/', 0);
      Split(s) == if i == |s| then [s] else [s[..i]] + Split(s[i + 1..])
  {
    hide Find;
  }

  lemma Slices(p: string, pos: nat, stop: nat)
    requires pos <= stop <= |p|
    ensures p[pos..][0..stop - pos] == p[pos..stop] == p[pos..][..stop - pos]
    ensures stop == |p| ==> p[pos..] == p[pos..stop]
    ensures stop < |p| ==> p[pos..][stop - pos] == p[stop] && p[pos..][stop - pos + 1..] == p[stop + 1..]
  {}

  /** Cutting a path at its first slash, or not at all. */
  lemma SplitAt(p: string, pos: nat, stop: nat)
    requires pos <= stop <= |p| && '/' !in p[pos..stop] && (stop < |p| ==> p[stop] == '/')
    ensures Split(p[pos..]) == [p[pos..stop]] + if stop < |p| then Split(p[stop + 1..]) else []
  {
    hide *;
    Slices(p, pos, stop);
    FindUnique(p[pos..], '/', 0, stop - pos);
    SplitStep(p[pos..]);
  }

  /** What is left to walk after the slash at `end`. */
  function Remaining(p: string, end: Option<nat>): seq<string>
    requires end.Some? ==> end.value < |p|
  {
    if end.Some? then Split(p[end.value + 1..]) else []
  }

  /** `strchr`, and a terminator where the slash is. */
  method Cut(path: array<char>, pos: nat, ghost p: string) returns (end: Option<nat>, name: string)
    requires |p| < path.Length && path[..|p|] == p && NUL !in p && path[|p|] == NUL && pos <= |p|
    modifies path
    ensures match end
      case Some(e) => pos <= e < |p| && p[e] == '/' && path[..] == old(path[..])[e := NUL]
      case None => path[..] == old(path[..])
    ensures Split(p[pos..]) == [name] + Remaining(p, end)
  {
    hide Split, Find;
    end := StrChr(path, pos, |p|);
    ghost var stop := |p|;
    assert p[pos..] == path[pos..|p|];
    if end.Some? {
      stop := end.value;
      path[end.value] := NUL;
    }
    SplitAt(p, pos, stop);
    name := ReadName(path, pos, stop);
    assert name == p[pos..stop];
  }

  /** Undoes the cut. */
  method PutBack(path: array<char>, end: nat, ghost before: string, ghost p: string)
    requires |before| == path.Length && |p| <= |before| && before[..|p|] == p && end < |p| && p[end] == '/'
    requires path[..] == before[end := NUL]
    modifies path
    ensures path[..] == before
  {
    assert before[end] == before[..|p|][end];
    path[end] := '/';
    assert path[..] == before[end := NUL][end := '/'];
  }

  lemma OneInOneOut(fds: map<int, nat>, out: int, fd: int, dir: nat)
    requires fd !in fds
    ensures (fds - {out})[fd := dir] - {fd} == fds - {out}
  {}

  /** Enters one component; what is left of the walk starts there. */
  method EnterFirst(k: Kernel, dirfd: int, name: string, ghost rest: seq<string>) returns (r: Opened)
    requires k.Valid() && k.Usable(dirfd)
    modifies k
    ensures k.Valid()
    ensures var w := old(Walk(k.fs, k.next, k.DirOf(dirfd), [name] + rest));
      match r
      case Descriptor(fd) =>
        && fd >= 0 && fd !in old(k.fds) && fd in k.fds && k.fds - {fd} == old(k.fds) - {dirfd}
        && w == Walk(k.fs, k.next, k.fds[fd], rest)
      case Error(errno) =>
        k.fds == old(k.fds) && w == Result(k.fs, k.next, Failed(errno))
  {
    hide Walk, WellFormed, EnterIn, IsDir;
    FirstStep(k.fs, k.next, k.DirOf(dirfd), name, rest);
    ghost var fds := k.fds;
    r := Enter(k, dirfd, name);
    if r.Descriptor? {
      OneInOneOut(fds, dirfd, r.fd, k.fds[r.fd]);
    }
  }

  /** One round of the loop; the path is cut for its duration only. */
  method Round(k: Kernel, path: array<char>, pos: nat, dirfd: int, ghost p: string)
    returns (r: Opened, end: Option<nat>)
    requires k.Valid() && k.Usable(dirfd)
    requires |p| < path.Length && path[..|p|] == p && NUL !in p && path[|p|] == NUL && pos <= |p|
    modifies k, path
    ensures k.Valid() && path[..] == old(path[..])
    ensures end.Some? ==> pos <= end.value < |p|
    ensures var w := old(Walk(k.fs, k.next, k.DirOf(dirfd), Split(p[pos..])));
      match r
      case Descriptor(fd) =>
        && fd >= 0 && fd !in old(k.fds) && fd in k.fds && k.fds - {fd} == old(k.fds) - {dirfd}
        && w == Walk(k.fs, k.next, k.fds[fd], Remaining(p, end))
      case Error(errno) =>
        k.fds == old(k.fds) && w == Result(k.fs, k.next, Failed(errno))
  {
    hide Walk, WellFormed, Split, Find, IsDir, Remaining;
    ghost var before := path[..];
    var name;
    end, name := Cut(path, pos, p);
    r := EnterFirst(k, dirfd, name, Remaining(p, end));
    if end.Some? {
      PutBack(path, end.value, before, p);
    }
  }

  /** Walks the rest of the path from an open directory, or from the current one. */
  method WalkPath(k: Kernel, path: array<char>, start: nat, at: int, ghost p: string) returns (r: Opened)
    requires k.Valid() && k.Usable(at)
    requires |p| < path.Length && path[..|p|] == p && NUL !in p && path[|p|] == NUL && start <= |p|
    modifies k, path
    ensures k.Valid() && path[..] == old(path[..])
    ensures var w := old(Walk(k.fs, k.next, k.DirOf(at), Split(p[start..])));
      match r
      case Descriptor(fd) =>
        && fd !in old(k.fds) - {at} && w.outcome.Reached? && w.fs == k.fs && w.next == k.next
        && k.fds == (old(k.fds) - {at})[fd := w.outcome.dir]
      case Error(errno) =>
        w == Result(k.fs, k.next, Failed(errno)) && k.fds == old(k.fds) - {at}
  {
    hide Walk, WellFormed, Split;
    var pos, dirfd, keepGoing := start, at, true;
    while keepGoing
      invariant path[..] == old(path[..]) && k.Valid() && k.Usable(dirfd)
      invariant 0 <= pos <= |p|
      invariant k.fds - {dirfd} == old(k.fds) - {at}
      invariant !keepGoing ==> dirfd in k.fds && dirfd !in old(k.fds) - {at}
      invariant old(Walk(k.fs, k.next, k.DirOf(at), Split(p[start..]))) ==
        Walk(k.fs, k.next, k.DirOf(dirfd), if keepGoing then Split(p[pos..]) else [])
      decreases keepGoing, |p| - pos
    {
      var end;
      r, end := Round(k, path, pos, dirfd, p);
      if r.Error? {
        if dirfd >= 0 {
          k.Close(dirfd);
        }
        return r;
      }
      dirfd := r.fd;
      keepGoing := end.Some?;
      if end.Some? {
        pos := end.value + 1;
      }
    }
    WalkDone(k.fs, k.next, k.DirOf(dirfd));
    return Descriptor(dirfd);
  }

  /** `mkdir_p`.  The path buffer comes back as it was; on success exactly one more
      descriptor is open, for the directory at the path; on failure none is. */
  method MkdirPath(k: Kernel, path: array<char>) returns (r: Opened)
    requires k.Valid() && 0 as char in path[..]
    modifies k, path
    ensures k.Valid() && path[..] == old(path[..])
    ensures var w := old(Effect(k, CString(path[..])));
      && k.fs == w.fs && k.next == w.next
      && match r
         case Descriptor(fd) =>
           fd !in old(k.fds) && w.outcome.Reached? && k.fds == old(k.fds)[fd := w.outcome.dir]
         case Error(errno) =>
           w.outcome == Failed(errno) && k.fds == old(k.fds)
  {
    ghost var p := CString(path[..]);
    CStringInBuffer(path[..]);
    hide Walk, WellFormed, Split, CString, Find, IsDir, StartOf;
    var at, start := AT_FDCWD, 0;
    ghost var fds := k.fds;
    if path[0] == '/' {
      at := k.Install(k.root);
      start := 1;
      assert k.fds - {at} == fds;
    } else {
      assert k.fds - {at} == fds;
    }
    StartsAt(p, start, k.root, k.cwd);
    hide Effect;
    r := WalkPath(k, path, start, at, p);
  }

  lemma StartsAt(p: string, start: nat, root: nat, cwd: nat)
    requires start == if p != [] && p[0] == '/' then 1 else 0
    ensures StartOf(p, root, cwd) == (if start == 1 then root else cwd, Split(p[start..]))
  {
    hide Split;
    assert p[0..] == p;
  }

  lemma CStringInBuffer(buf: seq<char>)
    requires NUL in buf
    ensures |CString(buf)| < |buf| && buf[..|CString(buf)|] == CString(buf)
    ensures NUL !in CString(buf) && buf[|CString(buf)|] == NUL
    ensures CString(buf) != [] <==> buf[0] != NUL
    ensures CString(buf) != [] ==> CString(buf)[0] == buf[0]
  {
    var i := Find(buf, NUL, 0);
    assert buf[0..i] == buf[..i];
    assert buf[..|buf|] == buf;
  }
}
