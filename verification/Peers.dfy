/** Client and server, with sockets and files that are read and written in place. */
module Peers {
  import opened Bytes
  import opened Sequences
  import opened Tokens
  import opened Wire

  const CHUNK: nat := 256 * 1024
  const SEND_CHUNK: nat := 4096

  /** One end of a connection: what will still arrive, and what has been sent. */
  class Socket {
    var incoming: seq<byte>
    var outgoing: seq<byte>

    constructor (incoming: seq<byte>)
      ensures this.incoming == incoming && outgoing == []
    {
      this.incoming, outgoing := incoming, [];
    }

    /** `recv(n)`: any nonempty piece of at most `n` bytes; nothing once the peer is gone. */
    method Recv(n: nat) returns (chunk: seq<byte>)
      requires n > 0
      modifies `incoming
      ensures |chunk| <= n && old(incoming) == chunk + incoming
      ensures chunk == [] <==> old(incoming) == []
    {
      var most := if n < |incoming| then n else |incoming|;
      var k :| 0 <= k <= most && (k == 0 <==> most == 0);
      chunk := incoming[..k];
      incoming := incoming[k..];
    }

    /** `recv_into(buf, n)`. */
    method RecvInto(buf: array<byte>, n: nat) returns (k: nat)
      requires 0 < n <= buf.Length
      modifies `incoming, buf
      ensures k <= n && old(incoming) == buf[..k] + incoming
      ensures k == 0 <==> old(incoming) == []
    {
      var chunk := Recv(n);
      k := |chunk|;
      forall i | 0 <= i < k { buf[i] := chunk[i]; }
    }

    method SendAll(data: seq<byte>)
      modifies `outgoing
      ensures outgoing == old(outgoing) + data
    {
      outgoing := outgoing + data;
    }
  }

  class OutFile {
    var data: seq<byte>

    constructor ()
      ensures data == []
    {
      data := [];
    }

    method Write(chunk: seq<byte>)
      modifies this
      ensures data == old(data) + chunk
    {
      data := data + chunk;
    }
  }

  class InFile {
    const data: seq<byte>
    var pos: nat

    constructor (data: seq<byte>)
      ensures this.data == data && pos == 0
    {
      this.data, pos := data, 0;
    }

    /** `read(n)`: some of what is left, at most `n` bytes, nothing only at the end. */
    method Read(n: nat) returns (chunk: seq<byte>)
      requires pos <= |data| && n > 0
      modifies this
      ensures |chunk| <= n && pos == old(pos) + |chunk| <= |data| && chunk == data[old(pos)..pos]
      ensures chunk == [] <==> old(pos) == |data|
    {
      var most := if n < |data| - pos then n else |data| - pos;
      var k :| 0 <= k <= most && (k == 0 <==> most == 0);
      chunk := data[pos..pos + k];
      pos := pos + k;
    }
  }

  /** A result, or the exception that was raised. */
  datatype Try<+T> = Return(value: T) | Raise(error: Error)

  /* ---------- the readers ---------- */

  method RecvExactly(s: Socket, count: int) returns (r: Try<seq<byte>>)
    modifies s`incoming
    ensures match TakeExactly(old(s.incoming), count)
            case Got(data, rest) => r == Return(data) && s.incoming == rest
            case Raised(e, rest) => r == Raise(e) && s.incoming == rest
  {
    var data: seq<byte> := [];
    var remaining := count;
    while remaining > 0
      invariant remaining == count - |data| && (count > 0 ==> remaining >= 0)
      invariant count <= 0 ==> data == []
      invariant old(s.incoming) == data + s.incoming
    {
      var chunk := s.Recv(remaining);
      if |chunk| == 0 {
        return Raise(Disconnected);
      }
      data := data + chunk;
      remaining := remaining - |chunk|;
    }
    return Return(data);
  }

  /** `read_token` without an expected name, and `read_field` without data. */
  method ReadToken(s: Socket) returns (r: Try<(seq<byte>, int)>)
    modifies s`incoming
    ensures match TakeToken(old(s.incoming))
            case Got(token, rest) => r == Return(token) && s.incoming == rest
            case Raised(e, rest) => r == Raise(e) && s.incoming == rest
  {
    var data := RecvExactly(s, HEADER_LEN);
    if data.Raise? {
      return Raise(data.error);
    }
    match Decode(data.value)
    case Decoded(name, size) => return Return((name, size));
    case Rejected(e) => return Raise(e);
  }

  /** `read_token` with an expected name. */
  method ReadExpected(s: Socket, expected: seq<byte>) returns (r: Try<int>)
    modifies s`incoming
    ensures match Expect(old(s.incoming), expected)
            case Got(size, rest) => r == Return(size) && s.incoming == rest
            case Raised(e, rest) => r == Raise(e) && s.incoming == rest
  {
    hide Decode;
    var token := ReadToken(s);
    if token.Raise? {
      return Raise(token.error);
    }
    if token.value.0 != expected {
      return Raise(InvalidToken);
    }
    return Return(token.value.1);
  }

  /** The loop stops when everything has been copied, or when nothing more comes. */
  lemma CopyStops(copied: seq<byte>, rest: seq<byte>, size: int)
    requires if size <= 0 then copied == [] else |copied| <= size && (|copied| == size || rest == [])
    ensures Copied(copied + rest, size) == copied
    ensures TakeExactly(copied + rest, size) == if size > |copied| then Raised(Disconnected, []) else Got(copied, rest)
  {
    assert size > |copied| ==> copied + rest == copied;
  }

  /** `chunked_read_write`: copies `size` bytes from the socket to the file. */
  method ChunkedReadWrite(s: Socket, file: OutFile, size: int) returns (r: Try<()>)
    modifies s`incoming, file
    ensures match TakeExactly(old(s.incoming), size)
            case Got(data, rest) => r == Return(()) && s.incoming == rest && file.data == old(file.data) + data
            case Raised(e, rest) => r == Raise(e) && s.incoming == rest
    ensures file.data == old(file.data) + Copied(old(s.incoming), size)
  {
    hide TakeExactly, Copied;
    ghost var stream := s.incoming;
    var remaining, chunkSize := size, CHUNK;
    var buffer := new byte[CHUNK];
    ghost var copied: seq<byte> := [];
    while remaining > 0
      invariant remaining == size - |copied| && (size > 0 ==> remaining >= 0)
      invariant size <= 0 ==> copied == []
      invariant 0 < chunkSize <= CHUNK
      invariant stream == copied + s.incoming
      invariant file.data == old(file.data) + copied
    {
      if chunkSize > remaining {
        chunkSize := remaining;
      }
      var n := s.RecvInto(buffer, chunkSize);
      ghost var chunk := buffer[..n];
      assert stream == copied + (chunk + s.incoming);
      if n == 0 {
        CopyStops(copied, s.incoming, size);
        return Raise(Disconnected);
      } else if n < CHUNK {
        file.Write(buffer[..n]);
      } else {
        assert buffer[..] == chunk;
        file.Write(buffer[..]);
      }
      copied := copied + chunk;
      remaining := remaining - n;
    }
    CopyStops(copied, s.incoming, size);
    return Return(());
  }

  /** `chunked_send`, in pieces that may reach beyond `size` if the file has grown.  (If it
      has shrunk the loop never ends.) */
  method ChunkedSend(s: Socket, file: InFile, size: nat)
    requires file.pos == 0 && size <= |file.data|
    modifies s`outgoing, file
    ensures size <= file.pos <= |file.data| && (file.pos == 0 || file.pos < size + SEND_CHUNK)
    ensures s.outgoing == old(s.outgoing) + file.data[..file.pos]
  {
    var remaining: int := size;
    while remaining > 0
      invariant file.pos + remaining == size && file.pos <= |file.data|
      invariant file.pos == 0 || file.pos < size + SEND_CHUNK
      invariant s.outgoing == old(s.outgoing) + file.data[..file.pos]
    {
      var chunk := file.Read(SEND_CHUNK);
      s.SendAll(chunk);
      remaining := remaining - |chunk|;
    }
  }

  /* ---------- the client's request ---------- */

  lemma {:induction false} ArgFramesAppend(args: seq<seq<byte>>, arg: seq<byte>)
    ensures ArgFrames(args + [arg]) == ArgFrames(args) + Frame(ARGV, arg)
  {
    hide Frame;
    if args == [] {
      assert [arg][1..] == [];
    } else {
      ArgFramesAppend(args[1..], arg);
      assert (args + [arg])[1..] == args[1..] + [arg];
    }
  }

  /** `DccClient.request`. */
  method Request(s: Socket, args: seq<seq<byte>>, doti: InFile)
    requires doti.pos == 0
    modifies s`outgoing, doti
    ensures s.outgoing == old(s.outgoing) + RequestBytes(args, doti.data)
  {
    hide Encode;
    var buf := Encode(DIST, VERSION);
    buf := buf + Encode(ARGC, |args|);
    ghost var head := buf;
    for n := 0 to |args|
      modifies {}
      invariant buf == head + ArgFrames(args[..n])
    {
      ArgFramesAppend(args[..n], args[n]);
      assert args[..n + 1] == args[..n] + [args[n]];
      buf := buf + Encode(ARGV, |args[n]|);
      buf := buf + args[n];
    }
    assert args[..|args|] == args;
    buf := buf + Encode(DOTI, |doti.data|);
    s.SendAll(buf);
    ChunkedSend(s, doti, |doti.data|);
  }

  /* ---------- the server's side of it ---------- */

  /** `_read_request` and `_read_compiler_cmd`. */
  method ReadRequest(s: Socket) returns (r: Try<seq<seq<byte>>>)
    modifies s`incoming
    ensures match TakeRequest(old(s.incoming))
            case Got(args, rest) => r == Return(args) && s.incoming == rest
            case Raised(e, rest) => r == Raise(e) && s.incoming == rest
  {
    hide TakeToken;
    var hello := ReadExpected(s, DIST);
    if hello.Raise? {
      return Raise(hello.error);
    }
    var argc := ReadExpected(s, ARGC);
    if argc.Raise? {
      return Raise(argc.error);
    }
    r := ReadArgs(s, argc.value);
  }

  method ReadArgs(s: Socket, argc: int) returns (r: Try<seq<seq<byte>>>)
    modifies s`incoming
    ensures match TakeArgs(old(s.incoming), argc)
            case Got(args, rest) => r == Return(args) && s.incoming == rest
            case Raised(e, rest) => r == Raise(e) && s.incoming == rest
  {
    hide TakeToken, TakeExactly;
    var args: seq<seq<byte>> := [];
    var n := 0;
    while n < argc
      invariant argc > 0 ==> n <= argc
      invariant n >= 0 && (argc <= 0 ==> n == 0)
      invariant TakeArgs(old(s.incoming), n) == Got(args, s.incoming)
      decreases argc - n
    {
      ghost var before := s.incoming;
      var arg := ReadField(s, ARGV);
      TakeArgsStep(old(s.incoming), n, argc);
      if arg.Raise? {
        return Raise(arg.error);
      }
      args := args + [arg.value];
      n := n + 1;
    }
    return Return(args);
  }

  /** Where reading the arguments fails, it fails with the first failing argument. */
  lemma {:induction false} TakeArgsStep(s: seq<byte>, n: nat, argc: int)
    requires n < argc
    ensures TakeArgs(s, n + 1).Raised? ==> TakeArgs(s, argc) == TakeArgs(s, n + 1)
    decreases argc
  {
    hide TakeField;
    if n + 1 < argc {
      TakeArgsStep(s, n, argc - 1);
    }
  }

  /** `read_field`, with the check of the name that follows it. */
  method ReadField(s: Socket, name: seq<byte>) returns (r: Try<seq<byte>>)
    modifies s`incoming
    ensures match TakeField(old(s.incoming), name)
            case Got(data, rest) => r == Return(data) && s.incoming == rest
            case Raised(e, rest) => r == Raise(e) && s.incoming == rest
  {
    hide Decode;
    var token := ReadToken(s);
    if token.Raise? {
      return Raise(token.error);
    }
    var data: Try<seq<byte>> := Return([]);
    if token.value.1 > 0 {
      data := RecvExactly(s, token.value.1);
    }
    if data.Raise? {
      return Raise(data.error);
    }
    if token.value.0 != name {
      return Raise(InvalidToken);
    }
    return data;
  }

  /** A token with the size of a file, and the file: `_read_doti` on the server, and
      the parts of the response on the client. */
  method ReadFile(s: Socket, name: seq<byte>, file: OutFile) returns (r: Try<()>)
    modifies s`incoming, file
    ensures match TakeFile(old(s.incoming), name)
            case Got(data, rest) => r == Return(()) && s.incoming == rest && file.data == old(file.data) + data
            case Raised(e, rest) => r == Raise(e) && s.incoming == rest
    ensures file.data == old(file.data) + CopiedFile(old(s.incoming), name)
  {
    hide TakeToken;
    var size := ReadExpected(s, name);
    if size.Raise? {
      return Raise(size.error);
    }
    r := ChunkedReadWrite(s, file, size.value);
  }

  /** The status and the output, as `_reply` begins. */
  method ReplyOutput(s: Socket, status: int, out: seq<byte>, err: seq<byte>)
    modifies s`outgoing
    ensures s.outgoing == old(s.outgoing) + ReplyHead(status, out, err)
  {
    hide Encode;
    var buf := Encode(DONE, VERSION);
    buf := buf + Encode(STAT, status);
    buf := buf + Encode(SERR, |err|);
    s.SendAll(buf);
    s.SendAll(err);
    s.SendAll(Encode(SOUT, |out|));
    s.SendAll(out);
    assert s.outgoing == old(s.outgoing) + (buf + err + (Encode(SOUT, |out|) + out));
    assert buf + err == Encode(DONE, VERSION) + Encode(STAT, status) + (Encode(SERR, |err|) + err);
  }

  /** `_reply`; raises when a successful compiler left no object file. */
  method Reply(s: Socket, status: int, out: seq<byte>, err: seq<byte>, obj: Option<seq<byte>>) returns (raised: bool)
    modifies s`outgoing
    ensures s.outgoing == old(s.outgoing) + ReplyHead(status, out, err) + ObjectFrame(status, obj)
    ensures raised <==> status == 0 && obj.None?
  {
    hide Encode, ReplyHead;
    ReplyOutput(s, status, out, err);
    match obj {
      case Some(data) =>
        s.SendAll(Encode(DOTO, |data|));
        var doto := new InFile(data);
        ChunkedSend(s, doto, |data|);
        return false;
      case None =>
        if status != 0 {
          s.SendAll(Encode(DOTO, 0));
          return false;
        }
        return true;
    }
  }

  /** `DccClient.handle_response`: writes standard error, standard output and, on
      success, the object file, which is opened for writing only then. */
  method HandleResponse(s: Socket, err: OutFile, out: OutFile, obj: OutFile) returns (r: Try<int>)
    requires err != out && out != obj && err != obj
    modifies s`incoming, err, out, obj
    ensures match TakeResponse(old(s.incoming))
            case Got(response, rest) => r == Return(response.status) && s.incoming == rest
            case Raised(e, rest) => r == Raise(e) && s.incoming == rest
    ensures var w := WrittenResponse(old(s.incoming));
      && err.data == old(err.data) + w.err && out.data == old(out.data) + w.out
      && obj.data == if w.obj.Some? then w.obj.value else old(obj.data)
  {
    hide TakeToken, TakeExactly, Copied;
    var version := ReadExpected(s, DONE);
    if version.Raise? {
      return Raise(version.error);
    }
    if version.value != VERSION {
      return Raise(UnsupportedVersion);
    }
    var status := ReadExpected(s, STAT);
    if status.Raise? {
      return Raise(status.error);
    }
    var e := ReadFile(s, SERR, err);
    if e.Raise? {
      return Raise(e.error);
    }
    var o := ReadFile(s, SOUT, out);
    if o.Raise? {
      return Raise(o.error);
    }
    if status.value != 0 {
      return status;
    }
    var size := ReadExpected(s, DOTO);
    if size.Raise? {
      return Raise(size.error);
    }
    obj.data := [];
    var d := ChunkedReadWrite(s, obj, size.value);
    if d.Raise? {
      return Raise(d.error);
    }
    return status;
  }

  /* ---------- a whole compilation ---------- */

  /** The client asks, the server reads, compiles (whatever comes out of that) and
      replies, and the client handles the reply: every argument and every byte arrives,
      for every way the two streams are cut. */
  method Session(args: seq<seq<byte>>, source: seq<byte>,
                 status: int, out: seq<byte>, err: seq<byte>, obj: Option<seq<byte>>)
    returns (seenArgs: seq<seq<byte>>, seenSource: seq<byte>, seenStatus: int,
             stderr: seq<byte>, stdout: seq<byte>, seenObject: Option<seq<byte>>)
    requires |args| <= 0xffff_ffff && Sendable(source) && forall a :: a in args ==> Sendable(a)
    requires Representable(status) && Sendable(out) && Sendable(err)
    requires status == 0 ==> obj.Some? && Sendable(obj.value)
    ensures seenArgs == args && seenSource == source && seenStatus == status
    ensures stderr == err && stdout == out
    ensures seenObject == if status == 0 then obj else None
  {
    hide TakeRequest, TakeResponse, WrittenResponse, TakeFile, CopiedFile, RequestBytes, ReplyHead, ObjectFrame, Frame;
    var client := new Socket([]);
    var doti := new InFile(source);
    Request(client, args, doti);
    var server := new Socket(client.outgoing);
    RequestRoundTrip(args, source, []);
    assert RequestBytes(args, source) + [] == server.incoming;
    var request := ReadRequest(server);
    seenArgs := request.value;
    var received := new OutFile();
    var doneReading := ReadFile(server, DOTI, received);
    assert doneReading.Return? && server.incoming == [];
    seenSource := received.data;
    var raised := Reply(server, status, out, err, obj);
    client.incoming := server.outgoing;
    ResponseRoundTrip(status, out, err, obj, []);
    AllWritten(ReplyHead(status, out, err) + (ObjectFrame(status, obj) + []));
    assert client.incoming == ReplyHead(status, out, err) + (ObjectFrame(status, obj) + []);
    var errFile := new OutFile();
    var outFile := new OutFile();
    var objFile := new OutFile();
    var response := HandleResponse(client, errFile, outFile, objFile);
    seenStatus := response.value;
    stderr, stdout := errFile.data, outFile.data;
    seenObject := if seenStatus == 0 then Some(objFile.data) else None;
  }
}
