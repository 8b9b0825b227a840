# pdistcc: models and proofs

A Dafny model of the parts of pdistcc where something can go wrong quietly: threads
that sleep on condition variables, a semaphore barrier, a streaming digest, a cache
shared by processes, a wire protocol, a command line that is rewritten twice, merged
statistics, and a path that is edited while directories are created.

| file | what it models |
|---|---|
| `ThunderingHerd.dfy` | the producer, the workers, the bounded queue and its two condition variables |
| `Barrier.dfy` | the semaphore barrier, with loads and stores of the counter as separate steps |
| `Rfc1321.dfy`, `Md5.dfy` | MD5 as RFC 1321 describes it, and the streaming implementation |
| `InodeKey.dfy` | the cache key, in C and in Python |
| `CacheEntry.dfy` | reading and writing one entry with short transfers |
| `CacheProtocol.dfy` | concurrent get, put and del on one key, system call by system call |
| `BenchStats.dfy` | Welford's update and the parallel merge |
| `Tokens.dfy`, `Wire.dfy`, `Peers.dfy` | the token codec, the protocol as functions of byte streams, and the two peers |
| `Gcc.dfy` | the gcc wrapper on the client and on the server |
| `MkdirP.dfy` | `mkdir_p` over a tree of directories and a table of descriptors |
| `Totals.dfy`, `Bytes.dfy`, `Sequences.dfy` | sums over sequences, little-endian integers, facts about sequences |

Where the source updates objects in place, the model does: a class holds the fields, its
methods are proved against functions of the old state, and the lemmas are about those
functions. The three concurrent parts (queue, barrier, cache) are state machines; each also
has a class whose method `Run` drives all threads under an arbitrary scheduler to the end.

Main results:

* **Queue.** No wake-up is lost. Every run with finitely many spurious wake-ups ends with
  all threads gone if and only if the producer can push everything
  (`msgCount <= maxSize`, or there is a worker and room for one item), and then every
  message has been delivered once and in order if and only if somebody can pop. Each
  delivery was the pop of that item by that worker.
* **Barrier.** Nobody passes before N callers have finished their increment; the opening
  post happens once; who can move at any moment is exact. Every run is over after at most eight steps per caller, and everybody
  has returned if and only if `1 <= N <= callers` (or there are no callers).
* **MD5.** However a message is cut into chunks, the streaming code computes the one-shot
  digest, with the bit count wrapping at 2^64. The unrolled transform equals the
  standard's table-driven loop, whose rotations, additions and words are pinned down by
  their bits and bytes.
* **Cache.** Every interleaving of get, put and del is linearizable, respects real time,
  and ends; readers share the lock and wait for nothing but a writer, writers wait for
  everybody; a get returns the whole value of the last put that took effect before it, and
  misses exactly if there is none or a del came after it.
* **Protocol.** Arguments, source, status, output and object file arrive exactly, however
  the streams are fragmented, and no byte too many is consumed; when a reader raises, what
  it has consumed and written by then is determined as well. A wrong token is refused
  wherever it comes, and so is a stream that breaks off anywhere.
* **Rewriting.** For every well-formed command that the client accepts, the server accepts
  what it is sent, and its command is the client's with source and object replaced and the
  preprocessor flags gone, exactly if no `-D` is separated from its operand and the names of
  the object and of the preprocessed file stand for nothing else. A command is read by
  `Gcc.Parse`, which loses nothing and is the only way of reading it, so all of this can be
  checked on the command line. Which flags go, with or without an operand, which names are
  sources and in which language, and the verdict on any command line are stated in literal
  names.
* **Statistics.** Updates and merges keep the average and the sum of squared deviations
  exact, and the order of merging does not matter.
* **Directories.** The path buffer is restored on every exit, exactly one descriptor is
  left open on success and none on failure, and the conditions of failure are exact.

Promises that hold only up to a condition, each stated with that condition:

* Values of 510 and 511 characters are accepted by put but cannot be read back
  (`CacheEntry.EntryRoundTrip`). An empty entry file would make `read_entry` look at the
  byte before its buffer (status `Underrun`).
* The server replaces the object's name wherever it stands in the command
  (`Gcc.ReplaceItems`). `-c a.cc -o c++` therefore ends with the operand of the added `-x`
  replaced (`Gcc.LanguageReplaced`), and `-c a.cc -o a.ii` with the source replaced by the
  object, because `a.ii` is also what the preprocessed file is called
  (`Gcc.SourceReplaced`; `Gcc.SourceArrives` says exactly when). `Gcc.ServerHop` has the
  exact condition for whole commands.
* A bare `-D` is dropped without its operand, which reaches the server's compiler as an
  argument of its own (`Gcc.OperandLeft`); the command has exactly one argument too many
  for each (`Gcc.ServerHop`).
* For a value of 511 characters `inode_cache_get` copies a buffer without a terminator
  among the bytes that were read (`CacheEntry.CopyTerminates`).
* Outside -(16^7-1) .. 16^8-1 a token is longer than twelve bytes and is rejected
  (`Tokens.CodecRange`).
* Where a field of the key does not fit, Python raises while C wraps around
  (`InodeKey.KeysAgree`).

The comment at `c/md5.c:104` says that the bit count is stored most significant byte
first; the code stores it least significant byte first, as RFC 1321 asks, and so does the
model.

## Model

| member | source | states |
|---|---|---|
| ThunderingHerd.NextInv | dat/thunderingherd.cpp:43-88 | every atomic action of any thread, and any spurious wake-up, keeps the mutex, queue, producer and worker invariants and loses no wake-up |
| ThunderingHerd.RunInv | dat/thunderingherd.cpp:43-88 | the invariant holds at every moment of every run |
| ThunderingHerd.Safety | dat/thunderingherd.cpp:43-88 | at every moment: a worker asleep with something to do implies a pending notify_all, a producer asleep with room implies a pending notify_one; one mutex owner; popped then queued items are exactly the pushed ones in order, at most max_size queued; a worker that leaves its loop leaves after all deliveries |
| ThunderingHerd.WhoCanMove | dat/thunderingherd.cpp:43-88 | a thread that wants the mutex can move iff nobody is in a critical section, a sleeper never by itself, any other thread always; a sleeper may wake for no reason at any time |
| ThunderingHerd.StepDelivers | dat/thunderingherd.cpp:54-56 | only a worker that pops delivers, one item at a time, to itself |
| ThunderingHerd.DeliveredByPop | dat/thunderingherd.cpp:54-56 | in every run each delivery was the pop of that item by that worker, at its turn |
| ThunderingHerd.EverybodyIdle | dat/thunderingherd.cpp:50-74 | threads that all sleep or are gone are all gone, unless the configuration was hopeless |
| ThunderingHerd.Progress | dat/thunderingherd.cpp:50-74 | until all threads have exited some thread can move |
| ThunderingHerd.LeavingMeansDelivered | dat/thunderingherd.cpp:51-53 | a worker breaks out of its loop only when all maxItems items have been popped, each by one worker |
| ThunderingHerd.ExitNeedsRoom | dat/thunderingherd.cpp:71-88 | what it takes for all threads to exit, and for everything to be delivered then |
| ThunderingHerd.StepDecreases | dat/thunderingherd.cpp:46-87 | every step but a spurious wake-up decreases a lexicographic measure, stale notify_one at a full queue included |
| ThunderingHerd.EveryRunCompletes | dat/thunderingherd.cpp:99-117 | every run with finitely many spurious wake-ups joins all threads, and delivers everything, exactly under the stated conditions |
| ThunderingHerd.OneWorkerIsEnough | dat/thunderingherd.cpp:20-27 | with the default capacity, every run in which the environment falls quiet delivers every message iff there is a worker or no message, and ends iff there is a worker or at most 128 messages |
| ThunderingHerd.Herd.constructor | dat/thunderingherd.cpp:20-27 | the initial queue, all threads about to start |
| ThunderingHerd.Herd.WorkerAct | dat/thunderingherd.cpp:46-63 | one atomic action of a worker is the step of the machine |
| ThunderingHerd.Herd.ProducerAct | dat/thunderingherd.cpp:71-87 | one atomic action of the producer is the step of the machine |
| ThunderingHerd.Herd.Schedule | dat/thunderingherd.cpp:43-88 | any choice of the scheduler keeps the invariant and makes progress |
| ThunderingHerd.Herd.Run | dat/thunderingherd.cpp:111-117 | all threads can be joined, with everything delivered in order |
| Barrier.MutualExclusion | c/barrier.c:18-34 | a caller inside the mutex is there alone |
| Barrier.OpenedAfter | c/barrier.c:25-26 | the turnstile is opened by the N-th caller's post and by no other step |
| Barrier.StepInv | c/barrier.c:16-53 | every step keeps the invariant: no increment is lost, mutex and turnstile stay balanced |
| Barrier.RunInv | c/barrier.c:16-53 | the invariant holds at every moment of every run, and runs that still move are short |
| Barrier.Safety | c/barrier.c:24-46 | nobody has passed the turnstile unless N callers have finished their increment; the opening post has then happened once; the count is exact |
| Barrier.TurnstileBalance | c/barrier.c:25-46 | turnstile plus callers between wait and second post is 0 before the opening and 1 after it |
| Barrier.WhoCanMove | c/barrier.c:18-46 | a caller waits for the mutex iff somebody is inside it, and at the turnstile iff it has not been opened or somebody is passing |
| Barrier.StuckMeansSettled | c/barrier.c:40-46 | a state nobody can leave has everybody returned, or everybody held at the turnstile for lack of callers |
| Barrier.StepDecreases | c/barrier.c:16-53 | every step uses up one of the caller's remaining steps |
| Barrier.EveryRunSettles | c/barrier.c:16-53 | every run is over after eight steps per caller, with all callers returned iff 1 <= N <= callers or there are none |
| Barrier.SharedBarrier.constructor | c/barrier.c:66-86 | mutex 1, turnstile 0, count 0 |
| Barrier.SharedBarrier.Act | c/barrier.c:16-53 | one action of a caller is the step of the machine |
| Barrier.SharedBarrier.Run | c/barrier.c:16-53 | with enough callers all return, leaving count == M, mutex 1 and turnstile 1 |
| Rfc1321.PaddingIsLeast | c/md5.c:102-105 | the padding is the shortest one that fits the mark and the length |
| Rfc1321.Rotations | c/md5.c:150-151 | for each of the sixteen shifts the top bits come out at the bottom and the others move up |
| Rfc1321.PlusWraps | c/md5.c:248-251 | additions are modulo 2^32 |
| Rfc1321.WordsInOrder | c/md5.c:164-172 | a block is sixteen words in order, each least significant byte first |
| Rfc1321.AfterAppend | c/md5.c:89-94 | the state after k blocks does not depend on what follows |
| Rfc1321.OutputFaithful | c/md5.c:134-135 | the sixteen output bytes give back the four state words |
| Md5.F1 | c/md5.c:144 | the optimised F1 is the standard's F |
| Md5.F2 | c/md5.c:145 | F1 with rotated arguments is the standard's G |
| Md5.F3 | c/md5.c:146 | is the standard's H |
| Md5.F4 | c/md5.c:147 | is the standard's I |
| Md5.StepIsOperation | c/md5.c:150-151 | the macro computes the standard's operation |
| Md5.Md5Step | c/md5.c:150-151 | updating one register advances the standard's loop by one step, the registers changing places |
| Md5.Lines0 | c/md5.c:180-187 | these lines are steps 1 to 8 of the standard's loop |
| Md5.Lines8 | c/md5.c:188-195 | steps 9 to 16 |
| Md5.Lines16 | c/md5.c:197-204 | steps 17 to 24 |
| Md5.Lines24 | c/md5.c:205-212 | steps 25 to 32 |
| Md5.Lines32 | c/md5.c:214-221 | steps 33 to 40 |
| Md5.Lines40 | c/md5.c:222-229 | steps 41 to 48 |
| Md5.Lines48 | c/md5.c:231-238 | steps 49 to 56 |
| Md5.Lines56 | c/md5.c:239-246 | steps 57 to 64 |
| Md5.Transform | c/md5.c:158-252 | the state is updated in place to the standard's state after one more block |
| Md5.HaveIsTail | c/md5.c:74 | the wrapped bit count still determines how many bytes are buffered |
| Md5.Context.Init | c/md5.c:54-62 | the standard's initial state, nothing processed |
| Md5.Context.Fill | c/md5.c:98-99 | bytes appended to the buffered ones |
| Md5.Context.AddBlock | c/md5.c:83 | one more block of the message is in the state |
| Md5.Context.AddBlocks | c/md5.c:90-94 | whole blocks are taken straight from the input until less than one is left |
| Md5.Context.CompleteBlock | c/md5.c:81-87 | the buffered block is filled up from the input and added |
| Md5.Context.ProcessBlocks | c/md5.c:80-95 | all whole blocks are added, and less than one is left |
| Md5.Context.Update | c/md5.c:68-100 | for any input the context now stands for the message extended by it: state over whole blocks, buffer with exactly the rest, count modulo 2^64 |
| Md5.PaddingSplit | c/md5.c:115-121 | what MD5Pad feeds to MD5Update is the standard's padding |
| Md5.Context.Pad | c/md5.c:106-122 | the context stands for the padded message |
| Md5.Context.PutDigest | c/md5.c:134-135 | writes the standard's output of the state words |
| Md5.Context.Final | c/md5.c:127-138 | the digest of the whole message is written and the context wiped; without a destination the context is only padded |
| Md5.PutLE64 | c/md5.c:28-36 | the eight bytes of the count, least significant first |
| Md5.PutLE32 | c/md5.c:38-42 | the four bytes of a word, least significant first, and nothing else changed |
| Md5.DigestOfChunks | c/md5.c:54-138 | for every way of splitting a message the streamed digest is the one-shot digest |
| Md5.PutHex | c/md5.c:264-268 | 32 hexadecimal digits and a NUL |
| Md5.DigestString | c/md5.c:254-269 | the text of the digest of the data |
| Md5.HexDigitsOnly | c/md5.c:258 | only lowercase hexadecimal digits |
| Md5.UnhexOfHex | c/md5.c:264-267 | the text decodes to the bytes |
| Md5.DigestTextFaithful | c/md5.c:127-138 | the text determines the four final state words |
| InodeKey.InoHash.Fill | c/inodecache.c:58-64 | the struct's image is the key, each field wrapped at its width |
| InodeKey.MtimeWraps | c/inodecache.c:63-64 | 10^6*sec + nsec/1000 is (10^9*sec + nsec) div 1000, wrapping included |
| InodeKey.KeysAgree | pdistcc/inodecache.py:13-21 | Python computes the same 32 bytes as C exactly when all fields fit, and raises otherwise |
| InodeKey.KeyFields | c/inodecache.c:19-26 | where each field of the key is, and how it is written |
| InodeKey.KeyVersion | c/inodecache.c:58 | every key begins with version 1 |
| InodeKey.KeyInjective | c/inodecache.c:19-26 | the bytes determine kind, device, inode, size and modification time in microseconds |
| CacheEntry.ReadEntry | c/inodecache.c:77-102 | whatever the short reads: the status as a function of the file, on success the file's string, terminated, and otherwise a buffer that holds exactly what was read |
| CacheEntry.ReadAll | c/inodecache.c:85-88 | the loop reads a prefix of the file into the buffer, and stops at the end, when one byte is left in the buffer, or on an error |
| CacheEntry.Terminate | c/inodecache.c:93-96 | the string is terminated unless it ends with a terminator |
| CacheEntry.WriteEntry | c/inodecache.c:104-116 | whatever the short writes: all bytes appended, or an I/O error on a faulty file |
| CacheEntry.EntryRoundTrip | c/inodecache.c:227-231 | values come back iff they have at most 509 characters; 510 and 511 are stored but unreadable; longer ones are refused |
| CacheEntry.CopyTerminates | c/inodecache.c:190-191 | the bytes read contain a terminator iff the value has at most 510 characters |
| CacheEntry.StoreAndLoad | c/inodecache.c:190-191 | put then get on a working disk, with the exact bounds |
| CacheProtocol.Alone | c/inodecache.c:137 | whoever holds the exclusive lock is the only holder |
| CacheProtocol.GrantedExactly | c/inodecache.c:137 | a call that waits for the lock gets it iff it and all holders are readers, or nobody holds it; no other call waits |
| CacheProtocol.OpenLockInv | c/inodecache.c:128-136 | opening the lock file: all callers get the same object; a reader that finds none has a true miss |
| CacheProtocol.AcquireInv | c/inodecache.c:137-140 | a granted flock keeps one writer or many readers |
| CacheProtocol.OpenEntryInv | c/inodecache.c:245-249 | truncating, opening or unlinking the entry under the lock keeps files and register in step |
| CacheProtocol.WriteInv | c/inodecache.c:104-116 | each short write extends the prefix of the new value; the last one makes it the value |
| CacheProtocol.WriteAtPlaces | c/inodecache.c:104-116 | written bytes end up where they belong and no others change |
| CacheProtocol.ReadInv | c/inodecache.c:85-88 | each short read extends a prefix of the entry; the last one answers for the whole entry |
| CacheProtocol.ReleaseInv | c/inodecache.c:156-160 | unlocking keeps the invariant |
| CacheProtocol.StepInv | c/inodecache.c:162-305 | every system call of every caller keeps the invariant |
| CacheProtocol.RunInv | c/inodecache.c:162-305 | the invariant holds at every moment of every run |
| CacheProtocol.Atomic | c/inodecache.c:162-305 | the calls that have taken effect form a legal sequential history, each returned call in it once with its result |
| CacheProtocol.RealTimeOrder | c/inodecache.c:162-305 | a call that returned before another started comes first in the history |
| CacheProtocol.ReplayHasLastWord | c/inodecache.c:205-305 | after any legal history the entry is what the last accepted put stored, unless a del came after it |
| CacheProtocol.NoMixture | c/inodecache.c:179-201 | a get finds, byte for byte, the value of the last put that took effect before it unless a del came in between, or the initial value if neither happened, and misses iff there is none |
| CacheProtocol.Progress | c/inodecache.c:118-160 | nobody waits for a lock that will not be released |
| CacheProtocol.EveryCallReturns | c/inodecache.c:162-305 | every call of every run returns |
| CacheProtocol.CacheDir.OpenLockFile | c/inodecache.c:118-136 | opening the lock file is the step of the machine |
| CacheProtocol.CacheDir.OpenEntryFile | c/inodecache.c:185-189 | opening or unlinking the entry is the step of the machine |
| CacheProtocol.CacheDir.Lock | c/inodecache.c:137-140 | a granted flock is the step of the machine |
| CacheProtocol.CacheDir.Write | c/inodecache.c:104-116 | one write is the step of the machine |
| CacheProtocol.CacheDir.Read | c/inodecache.c:85-88 | one read is the step of the machine |
| CacheProtocol.CacheDir.LetGo | c/inodecache.c:156-160 | unlocking is the step of the machine |
| CacheProtocol.CacheDir.Act | c/inodecache.c:162-305 | one system call is the step of the machine |
| CacheProtocol.CacheDir.Run | c/inodecache.c:162-305 | all calls return, with a legal history |
| BenchStats.WelfordStep | c/bench_stats.c:14-17 | what one more sample does to average and squared deviations |
| BenchStats.OneLess | c/bench_stats.c:13-24 | taking any one sample out again changes sum, deviations, minimum and maximum as putting it in last did |
| BenchStats.MergeStep | c/bench_stats.c:35-43 | the formula of the parallel merge |
| BenchStats.UpdateDescribes | c/bench_stats.c:14-23 | the updated numbers describe the extended samples |
| BenchStats.MergeDescribes | c/bench_stats.c:35-43 | the merged numbers describe both groups of samples together |
| BenchStats.Accumulator.Reset | c/bench_stats.c:4-11 | describes no samples |
| BenchStats.Accumulator.Update | c/bench_stats.c:13-24 | describes the samples and one more: avg*count is the sum, m2 the squared deviations, min and max |
| BenchStats.Accumulator.Merge | c/bench_stats.c:34-50 | describes the samples of both, for any two accumulators with a sample between them |
| BenchStats.ExtremesAreExtreme | c/bench_stats.c:18-23 | min and max are samples and bound all samples |
| BenchStats.SameSamplesSameStats | c/bench_stats.c:34-50 | the samples, in any order, determine every field |
| BenchStats.MergeOrderIrrelevant | c/bench_inodecache.c:206-217 | the totals do not depend on the order in which the processes merge |
| BenchStats.MergeAll | c/bench_inodecache.c:206-217 | merging one accumulator after the other describes all samples, empty ones included unless the first is |
| Tokens.CodecRange | pdistcc/net.py:26-37 | decode inverts encode exactly for -(16^7-1) <= v <= 16^8-1, and rejects every other token |
| Tokens.WrittenLower | pdistcc/net.py:26-27 | only lowercase digits are written, after a minus sign iff the number is negative |
| Tokens.DigitsOfBothCases | pdistcc/net.py:36 | digits of both cases are read, and nothing else is a digit |
| Tokens.SpacesSkipped | pdistcc/net.py:36 | spaces around a number are skipped |
| Tokens.PlusSkipped | pdistcc/net.py:36 | so is a plus sign |
| Tokens.PrefixSkipped | pdistcc/net.py:36 | so is the prefix of a hexadecimal number, with an underscore behind it or not |
| Tokens.UnderscoreSkipped | pdistcc/net.py:36 | so is a single underscore between digits |
| Tokens.UnderscoreMisplaced | pdistcc/net.py:36 | an underscore at either end, or two in a row, make a number invalid |
| Tokens.ForeignRefused | pdistcc/net.py:36 | and so does any byte that belongs to no number |
| Wire.TokenRoundTrip | pdistcc/net.py:61-67 | a written token is read back, and not a byte more |
| Wire.FrameRoundTrip | pdistcc/net.py:52-58 | so is a token with its data |
| Wire.ArgsRoundTrip | pdistcc/server.py:40-48 | any list of arguments, empty ones included, is read back argument by argument |
| Wire.RequestRoundTrip | pdistcc/net.py:142-153 | the server's readers recover exactly the arguments and the source |
| Wire.ResponseRoundTrip | pdistcc/server.py:97-121 | the client's reader recovers status, output and, on success, the object; otherwise the object frame stays unread |
| Wire.FirstToken | pdistcc/net.py:26-27 | a request begins with the text DIST00000001; a negative status keeps its sign in front of the zeros |
| Wire.WrongToken | pdistcc/net.py:61-67 | a token with another name than the expected one is consumed and refused |
| Wire.MalformedToken | pdistcc/net.py:30-37 | a token without a number raises |
| Wire.WrongRequest | pdistcc/server.py:50-58 | a request that does not begin with DIST and ARGC is refused |
| Wire.WrongArgument | pdistcc/server.py:40-48 | another field in the place of any argument is consumed and refused |
| Wire.WrongResponse | pdistcc/net.py:155-160 | a response that does not begin with DONE of version 1 and STAT is refused |
| Wire.WrongOutput | pdistcc/net.py:162-172 | so is one in which another token stands in the place of SERR, SOUT or, on success, DOTO |
| Wire.RequestTruncated | pdistcc/server.py:40-73 | a request that breaks off after any number of bytes raises a disconnect in the reader of the arguments or of the source |
| Wire.ResponseTruncated | pdistcc/net.py:155-175 | so does a response that breaks off before the last byte that is needed |
| Wire.AllWritten | pdistcc/net.py:155-175 | without an exception the files hold the whole response |
| Peers.RecvExactly | pdistcc/net.py:40-49 | exactly so many bytes for every fragmentation, or a disconnect with nothing left to read |
| Peers.ReadToken | pdistcc/net.py:61-67 | the next token, or the error it deserves |
| Peers.ReadExpected | pdistcc/net.py:61-67 | the next token, if it has the expected name |
| Peers.ReadField | pdistcc/net.py:52-58 | token and data, then the check of the name |
| Peers.ChunkedReadWrite | pdistcc/net.py:70-87 | exactly so many bytes copied to the file, for every fragmentation, or as many as came before the disconnect |
| Peers.ChunkedSend | pdistcc/net.py:90-95 | the announced part of the file sent, in pieces; the last one may reach further if the file is longer |
| Peers.Request | pdistcc/net.py:142-153 | sends exactly the request bytes |
| Peers.ReadRequest | pdistcc/server.py:50-58 | reads the arguments of a request, or raises |
| Peers.ReadArgs | pdistcc/server.py:40-48 | reads that many arguments, or raises at the first bad one |
| Peers.ReadFile | pdistcc/server.py:60-73 | reads an announced file, as far as it comes |
| Peers.ReplyOutput | pdistcc/server.py:97-106 | sends status and output |
| Peers.Reply | pdistcc/server.py:97-121 | sends the reply bytes; raises iff a successful compiler left no object |
| Peers.HandleResponse | pdistcc/net.py:155-175 | writes stderr and stdout exactly, and the object file only on success; when it raises, what it has written is what had arrived |
| Peers.Session | pdistcc/server.py:123-139 | a whole exchange: every argument and byte arrives, in both directions |
| Gcc.PreprocessedName | pdistcc/compiler/gcc.py:65-68 | the preprocessed file counts as a source, and is the object itself iff the object has its extension |
| Gcc.PreprocessedPlain | pdistcc/compiler/gcc.py:65-68 | its name is no flag if the object's is none |
| Gcc.NameOfPreprocessed | pdistcc/compiler/gcc.py:65-68 | the object's last extension is replaced by ii or i, or that is the whole name if it has none |
| Gcc.LowerLetters | pdistcc/compiler/gcc.py:58 | case folding changes capital letters, to the same small ones |
| Gcc.SourceByExtension | pdistcc/compiler/gcc.py:41-63 | a name is a source iff its last extension is cpp, cxx, cc, c, i or ii in letters of any case, and C iff it is c |
| Gcc.FlagTable | pdistcc/compiler/gcc.py:181-199 | which tokens are dropped alone, and which with the next one |
| Gcc.ParseKeepsArguments | pdistcc/compiler/gcc.py:159-199 | reading a command line into flags with their operands loses no argument |
| Gcc.ParseUnique | pdistcc/compiler/gcc.py:159-199 | a well-formed command can be read in one way only |
| Gcc.ScanItems | pdistcc/compiler/gcc.py:70-103 | the scanning loop finds sources, mode and object, and looks past operands |
| Gcc.Verdicts | pdistcc/compiler/gcc.py:70-103 | the verdict on any command line: accepted iff it has exactly one source, -c or -S, and an object, looking past the operands of -o and -x; each refusal likewise |
| Gcc.SimplestAccepted | pdistcc/compiler/gcc.py:70-103 | -c stem.ext -o obj is accepted with that source and object for each of the six extensions |
| Gcc.FirstObjectFound | pdistcc/compiler/gcc.py:142-148 | the object not yet known is the argument after the first -o |
| Gcc.PreprocessorItems | pdistcc/compiler/gcc.py:105-126 | the local command is the given one with -c and the object replaced |
| Gcc.CompilerItems | pdistcc/compiler/gcc.py:159-176 | the remote command is the given one without preprocessor flags and their operands (but a bare -D leaves its operand), the source replaced and its language said |
| Gcc.TokenFate | pdistcc/compiler/gcc.py:159-176 | every token is dropped alone, dropped with the next one, replaced or kept, according to its literal name |
| Gcc.NoFlagLeft | pdistcc/compiler/gcc.py:159-199 | whatever the command, no preprocessor flag gets through |
| Gcc.NoFlagsReplaces | pdistcc/compiler/gcc.py:159-176 | without preprocessor flags and with the language said, the loop only replaces the source |
| Gcc.ReplaceItems | pdistcc/compiler/gcc.py:135-140 | replacing the object's name replaces the operand of -o and nothing else iff the name is used for nothing else |
| Gcc.ClientHop | pdistcc/compiler/wrapper.py:25-37 | the client preprocesses exactly the given command and sends it without preprocessor flags; what is left of a bare -D is its operand |
| Gcc.ServerAccepts | pdistcc/server.py:130-132 | the server accepts whatever the client sends for a well-formed command, with the preprocessed file as its only source and the same object |
| Gcc.ServerMoves | pdistcc/server.py:75-85 | for every well-formed command the server runs what it received with two names replaced wherever they occur |
| Gcc.ServedTokens | pdistcc/compiler/gcc.py:159-176 | no preprocessor flag reaches the server's compiler, and -x is there as often as in the client's command, or once if it was not there |
| Gcc.ServerHop | pdistcc/server.py:75-85 | the server runs the client's command with only source and object replaced iff every argument survives; otherwise it is longer by one argument for each bare -D |
| Gcc.FinalContents | pdistcc/compiler/gcc.py:159-199 | in that command no token is a preprocessor flag, no operand of one is left, all other arguments are kept in order, and the source is the preprocessed file |
| Gcc.SourceArrives | pdistcc/compiler/gcc.py:135-140 | the preprocessed file reaches the server's compiler iff the object does not already have its extension |
| Gcc.LanguageReplaced | pdistcc/compiler/gcc.py:135-140 | for -c a.cc -o c++ the server replaces the operand of the added -x |
| Gcc.SourceReplaced | pdistcc/compiler/gcc.py:135-140 | for -c a.cc -o a.ii the server's compiler does not get the source |
| Gcc.OperandLeft | pdistcc/compiler/gcc.py:181-187 | for -D FOO -c a.cc -o a.o the server's compiler gets FOO |
| Gcc.DependencyFlagsGone | pdistcc/compiler/gcc.py:181-199 | for -MD -MF a.d -isystem inc -c a.cc -o a.o the server runs the command without those flags and operands |
| Gcc.CommandInC | pdistcc/compiler/gcc.py:61-68 | -c a.c -o a.o is compiled as C |
| Gcc.Wrapper.constructor | pdistcc/compiler/wrapper.py:11-13 | splits compiler and arguments |
| Gcc.Wrapper.CanHandleCommand | pdistcc/compiler/gcc.py:70-103 | the verdict, source and object of the scan |
| Gcc.Wrapper.PreprocessorCmd | pdistcc/compiler/gcc.py:105-126 | the local command, the object it takes and the preprocessed file |
| Gcc.Wrapper.SetPreprocessedFile | pdistcc/compiler/gcc.py:153-154 | the preprocessed file |
| Gcc.Wrapper.SetObjectFile | pdistcc/compiler/gcc.py:135-140 | the object replaced wherever it occurs |
| Gcc.Wrapper.ObjectFile | pdistcc/compiler/gcc.py:142-148 | the known object, or the operand of the first -o |
| Gcc.Wrapper.CompilerCmd | pdistcc/compiler/gcc.py:159-176 | the remote command |
| Gcc.ClientSide | pdistcc/compiler/wrapper.py:25-37 | what the client runs and sends |
| Gcc.ServerSide | pdistcc/server.py:130-136 | what the server runs for any command it accepts |
| Gcc.TwoHops | pdistcc/server.py:75-85 | both hops together give the client's command with source and object replaced iff every argument survives, and in any case the sent command with two names replaced |
| MkdirP.WalkKeeps | c/mkdir_p.c:29-55 | nothing existing is removed, and on success the whole path is a chain of directories |
| MkdirP.WalkFails | c/mkdir_p.c:36-47 | failure iff some component is empty or names a non-directory in the tree left behind |
| MkdirP.DotlessFails | c/mkdir_p.c:36-47 | for paths without dots the same in terms of the tree before the call |
| MkdirP.FirstStep | c/mkdir_p.c:36-47 | mkdirat that may find the name taken, then openat, is one step of the walk |
| MkdirP.Kernel.MkdirAt | c/mkdir_p.c:36 | mkdirat over the tree |
| MkdirP.Kernel.OpenDirAt | c/mkdir_p.c:43 | openat for directories |
| MkdirP.Enter | c/mkdir_p.c:36-50 | one component entered, the descriptor above it released; on failure descriptors as before |
| MkdirP.StrChr | c/mkdir_p.c:30 | the next slash before the terminator, if any |
| MkdirP.Cut | c/mkdir_p.c:30-35 | the path is cut at its next slash into first component and rest |
| MkdirP.Round | c/mkdir_p.c:29-55 | one round of the loop restores the path and takes one step of the walk |
| MkdirP.PutBack | c/mkdir_p.c:51-59 | the slash is put back where the path was cut |
| MkdirP.WalkPath | c/mkdir_p.c:29-69 | the loop, with the descriptor it started from always released |
| MkdirP.MkdirPath | c/mkdir_p.c:14-70 | on every exit the path is unchanged; success leaves exactly one more descriptor, for the directory at the path; failure leaves none |

## Left out

- Gcc.TwoHops: covers `-c` only; `-S` is accepted by the modelled scan but outside the claim. The server's temporary names are new and no flags.
- Gcc.ServerHop: a command with a flag that lacks its operand, or whose operands are flags or (except after `-x` and `-o`) look like sources, is not well-formed.
- Peers.ChunkedSend: a file shorter than announced, on which the source's loop does not end, is excluded.
- MkdirP.MkdirPath: permissions, name lengths, symbolic links and running out of descriptors are not modelled.
- BenchStats.Accumulator.Merge: `double` is modelled by the reals, counts by unbounded integers, merging two empty accumulators (0/0) is excluded, and the square root kept in `var` is left out.
- CacheProtocol.CacheDir.Act: no I/O failures, crashes or failing `flock`; one key, since different keys use different files.
- ThunderingHerd.Herd.ProducerAct: the item counter does not overflow; the source's `int` would after 2^31 messages.
- Barrier.SharedBarrier.Act: semaphore calls succeed, and the counter does not overflow.
- The string `inode_cache_get` copies with `strdup`, and running out of memory there.
- The local work of a thread between two shared actions: service times, spinning, thread names.
- `barrier_close`, `inode_cache_open`, `inode_cache_close`: they only release or acquire resources.
- The order of bytes on a big-endian host, and the derivation of the MD5 constants from sines.
- The Python cache class `InodeCache` and its interplay with C locks; only the key is modelled.
- UTF-8: arguments are byte strings on the wire and character strings in the wrapper; case is folded for ASCII letters only.
- `rewrite_local_args` (`-march=native`), the compiler-directory setting, and the choice of a wrapper by the compiler's name.
- `pdistcc/compiler/msvc.py`: a simpler form of the same rewriting.
- Sockets, processes, temporary files, logging and timing; a compiler run is an arbitrary result, temporary names are parameters.
- `pdistcc/sched.py`, `pdistcc/config.py`, `pdistcc/cli.py`, `c/compiler_properties.c`: plumbing around foreign calls.
