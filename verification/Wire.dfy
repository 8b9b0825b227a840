/**
  The distcc protocol: what the client writes the server reads, and the other way
  round, however the stream is cut into pieces on the way.
 */
module Wire {
  import opened Bytes
  import opened Sequences
  import opened Tokens

  const VERSION: int := 1

  const DIST: seq<byte> := [0x44, 0x49, 0x53, 0x54]
  const ARGC: seq<byte> := [0x41, 0x52, 0x47, 0x43]
  const ARGV: seq<byte> := [0x41, 0x52, 0x47, 0x56]
  const DOTI: seq<byte> := [0x44, 0x4f, 0x54, 0x49]
  const DONE: seq<byte> := [0x44, 0x4f, 0x4e, 0x45]
  const STAT: seq<byte> := [0x53, 0x54, 0x41, 0x54]
  const SERR: seq<byte> := [0x53, 0x45, 0x52, 0x52]
  const SOUT: seq<byte> := [0x53, 0x4f, 0x55, 0x54]
  const DOTO: seq<byte> := [0x44, 0x4f, 0x54, 0x4f]

  /* ---------- what is on the wire ---------- */

  function Frame(name: seq<byte>, data: seq<byte>): seq<byte> {
    Encode(name, |data|) + data
  }

  function ArgFrames(args: seq<seq<byte>>): seq<byte> {
    if args == [] then [] else Frame(ARGV, args[0]) + ArgFrames(args[1..])
  }

  function RequestBytes(args: seq<seq<byte>>, source: seq<byte>): seq<byte> {
    Encode(DIST, VERSION) + Encode(ARGC, |args|) + ArgFrames(args) + Frame(DOTI, source)
  }

  /** Everything before the object file. */
  function ReplyHead(status: int, out: seq<byte>, err: seq<byte>): seq<byte> {
    Encode(DONE, VERSION) + Encode(STAT, status) + Frame(SERR, err) + Frame(SOUT, out)
  }

  /** `None` when the compiler left no object file. */
  function ObjectFrame(status: int, obj: Option<seq<byte>>): seq<byte> {
    match obj
    case Some(data) => Frame(DOTO, data)
    case None => if status != 0 then Frame(DOTO, []) else []
  }

  /* ---------- reading a stream, as a function of all its bytes ---------- */

  /** Either way, `rest` is what is left on the stream. */
  datatype Outcome<+T> = Got(value: T, rest: seq<byte>) | Raised(error: Error, rest: seq<byte>)
  {
    predicate IsFailure() { Raised? }
    function PropagateFailure<U>(): Outcome<U> requires Raised? { Raised(error, rest) }
    function Extract(): (T, seq<byte>) requires Got? { (value, rest) }
  }

  function TakeExactly(s: seq<byte>, count: int): Outcome<seq<byte>> {
    if count <= 0 then Got([], s)
    else if |s| < count then Raised(Disconnected, [])
    else Got(s[..count], s[count..])
  }

  function TakeToken(s: seq<byte>): Outcome<(seq<byte>, int)> {
    var (token, rest) :- TakeExactly(s, HEADER_LEN);
    match Decode(token)
    case Decoded(name, size) => Got((name, size), rest)
    case Rejected(e) => Raised(e, rest)
  }

  /** A token that must have this name. */
  function Expect(s: seq<byte>, name: seq<byte>): Outcome<int> {
    var (token, rest) :- TakeToken(s);
    if token.0 != name then Raised(InvalidToken, rest) else Got(token.1, rest)
  }

  /** A field with its data; only then is the name looked at. */
  function TakeField(s: seq<byte>, name: seq<byte>): Outcome<seq<byte>> {
    var (token, rest) :- TakeToken(s);
    var (data, rest') :- TakeExactly(rest, token.1);
    if token.0 != name then Raised(InvalidToken, rest') else Got(data, rest')
  }

  function TakeArgs(s: seq<byte>, argc: int): Outcome<seq<seq<byte>>>
    decreases argc
  {
    if argc <= 0 then Got([], s)
    else
      var (args, rest) :- TakeArgs(s, argc - 1);
      var (arg, rest') :- TakeField(rest, ARGV);
      Got(args + [arg], rest')
  }

  function TakeRequest(s: seq<byte>): Outcome<seq<seq<byte>>> {
    var (_, s1) :- Expect(s, DIST);
    var (argc, s2) :- Expect(s1, ARGC);
    TakeArgs(s2, argc)
  }

  /** A token that announces a file, and the file. */
  function TakeFile(s: seq<byte>, name: seq<byte>): Outcome<seq<byte>> {
    var (size, rest) :- Expect(s, name);
    TakeExactly(rest, size)
  }

  datatype Response = Response(status: int, err: seq<byte>, out: seq<byte>, obj: Option<seq<byte>>)

  function TakeResponse(s: seq<byte>): Outcome<Response> {
    var (version, s1) :- Expect(s, DONE);
    if version != VERSION then Raised(UnsupportedVersion, s1)
    else
      var (status, s2) :- Expect(s1, STAT);
      var (err, s3) :- TakeFile(s2, SERR);
      var (out, s4) :- TakeFile(s3, SOUT);
      if status != 0 then Got(Response(status, err, out, None), s4)
      else
        var (obj, s5) :- TakeFile(s4, DOTO);
        Got(Response(status, err, out, Some(obj)), s5)
  }

  /* ---------- what has been copied, even when an exception is raised ---------- */

  /** As much of `size` bytes as there is. */
  function Copied(s: seq<byte>, size: int): seq<byte> {
    if size <= 0 then [] else if |s| < size then s else s[..size]
  }

  function CopiedFile(s: seq<byte>, name: seq<byte>): seq<byte> {
    match Expect(s, name)
    case Got(size, rest) => Copied(rest, size)
    case Raised(_, _) => []
  }

  /** What the client has written by the end; the object file is only opened at the end. */
  datatype Written = Written(err: seq<byte>, out: seq<byte>, obj: Option<seq<byte>>)

  function WrittenObject(s: seq<byte>): Option<seq<byte>> {
    match Expect(s, DOTO)
    case Got(size, rest) => Some(Copied(rest, size))
    case Raised(_, _) => None
  }

  function WrittenOutput(status: int, s: seq<byte>): Written {
    var err := CopiedFile(s, SERR);
    match TakeFile(s, SERR)
    case Raised(_, _) => Written(err, [], None)
    case Got(_, s1) =>
      Written(err, CopiedFile(s1, SOUT),
              match TakeFile(s1, SOUT)
              case Raised(_, _) => None
              case Got(_, s2) => if status != 0 then None else WrittenObject(s2))
  }

  function WrittenResponse(s: seq<byte>): Written {
    match Expect(s, DONE)
    case Raised(_, _) => Written([], [], None)
    case Got(version, s1) =>
      if version != VERSION then Written([], [], None)
      else
        match Expect(s1, STAT)
        case Raised(_, _) => Written([], [], None)
        case Got(status, s2) => WrittenOutput(status, s2)
  }

  /** Without an exception everything has been written. */
  lemma AllWritten(s: seq<byte>)
    requires TakeResponse(s).Got?
    ensures var r := TakeResponse(s).value;
      WrittenResponse(s) == Written(r.err, r.out, r.obj)
  {
    hide TakeToken;
  }

  /* ---------- round trips ---------- */

  predicate Sendable(data: seq<byte>) { |data| <= 0xffff_ffff }

  lemma TokenRoundTrip(name: seq<byte>, v: int, rest: seq<byte>)
    requires |name| == 4 && Representable(v)
    ensures TakeToken(Encode(name, v) + rest) == Got((name, v), rest)
  {
    CodecRange(name, v);
    var s := Encode(name, v) + rest;
    assert s[..HEADER_LEN] == Encode(name, v) && s[HEADER_LEN..] == rest;
  }

  lemma FrameRoundTrip(name: seq<byte>, data: seq<byte>, rest: seq<byte>)
    requires |name| == 4 && Sendable(data)
    ensures TakeFile(Frame(name, data) + rest, name) == Got(data, rest)
    ensures TakeField(Frame(name, data) + rest, name) == Got(data, rest)
  {
    hide Encode, Decode;
    TokenRoundTrip(name, |data|, data + rest);
    assert Frame(name, data) + rest == Encode(name, |data|) + (data + rest);
    assert (data + rest)[..|data|] == data && (data + rest)[|data|..] == rest;
  }

  /** Arguments may be empty, and so may the list. */
  lemma {:induction false} ArgsRoundTrip(args: seq<seq<byte>>, n: nat, rest: seq<byte>)
    requires n <= |args| && forall a :: a in args ==> Sendable(a)
    ensures TakeArgs(ArgFrames(args) + rest, n) == Got(args[..n], ArgFrames(args[n..]) + rest)
  {
    hide Frame, TakeField;
    if n == 0 {
      assert args[0..] == args;
    } else {
      ArgsRoundTrip(args, n - 1, rest);
      var tail := ArgFrames(args[n..]) + rest;
      assert args[n - 1..][1..] == args[n..];
      assert ArgFrames(args[n - 1..]) + rest == Frame(ARGV, args[n - 1]) + tail;
      FrameRoundTrip(ARGV, args[n - 1], tail);
      assert args[..n - 1] + [args[n - 1]] == args[..n];
    }
  }

  /** The server reads exactly the arguments, then exactly the source, and not a byte
      more. */
  lemma RequestRoundTrip(args: seq<seq<byte>>, source: seq<byte>, rest: seq<byte>)
    requires |args| <= 0xffff_ffff && Sendable(source) && forall a :: a in args ==> Sendable(a)
    ensures TakeRequest(RequestBytes(args, source) + rest) == Got(args, Frame(DOTI, source) + rest)
    ensures TakeFile(Frame(DOTI, source) + rest, DOTI) == Got(source, rest)
  {
    hide Encode, Decode, Frame, TakeArgs, TakeToken;
    var s3 := Frame(DOTI, source) + rest;
    var s2 := ArgFrames(args) + s3;
    var s1 := Encode(ARGC, |args|) + s2;
    assert RequestBytes(args, source) + rest == Encode(DIST, VERSION) + s1;
    TokenRoundTrip(DIST, VERSION, s1);
    TokenRoundTrip(ARGC, |args|, s2);
    ArgsRoundTrip(args, |args|, s3);
    assert args[..|args|] == args && args[|args|..] == [];
    assert ArgFrames([]) + s3 == s3;
    FrameRoundTrip(DOTI, source, rest);
  }

  /** The client gets back status and output exactly; on success also the object file,
      with nothing left over, and otherwise only the object frame is left unread. */
  lemma ResponseRoundTrip(status: int, out: seq<byte>, err: seq<byte>, obj: Option<seq<byte>>, rest: seq<byte>)
    requires Representable(status) && Sendable(out) && Sendable(err)
    requires status == 0 ==> obj.Some? && Sendable(obj.value)
    ensures TakeResponse(ReplyHead(status, out, err) + (ObjectFrame(status, obj) + rest)) ==
            if status == 0 then Got(Response(0, err, out, obj), rest)
            else Got(Response(status, err, out, None), ObjectFrame(status, obj) + rest)
  {
    hide Encode, Decode, Frame, TakeToken;
    var s5 := ObjectFrame(status, obj) + rest;
    var s4 := Frame(SOUT, out) + s5;
    var s3 := Frame(SERR, err) + s4;
    var s2 := Encode(STAT, status) + s3;
    assert ReplyHead(status, out, err) + s5 == Encode(DONE, VERSION) + s2;
    TokenRoundTrip(DONE, VERSION, s2);
    TokenRoundTrip(STAT, status, s3);
    FrameRoundTrip(SERR, err, s4);
    FrameRoundTrip(SOUT, out, s5);
    if status == 0 {
      FrameRoundTrip(DOTO, obj.value, rest);
    }
  }

  /* ---------- wrong tokens ---------- */

  /** A token with another name than the expected one is refused, and consumed. */
  lemma WrongToken(name: seq<byte>, v: int, expected: seq<byte>, rest: seq<byte>)
    requires |name| == 4 && Representable(v) && name != expected
    ensures Expect(Encode(name, v) + rest, expected) == Raised(InvalidToken, rest)
    ensures TakeFile(Encode(name, v) + rest, expected) == Raised(InvalidToken, rest)
  {
    hide Encode;
    TokenRoundTrip(name, v, rest);
  }

  lemma RightToken(name: seq<byte>, v: int, rest: seq<byte>)
    requires |name| == 4 && Representable(v)
    ensures Expect(Encode(name, v) + rest, name) == Got(v, rest)
  {
    hide Encode;
    TokenRoundTrip(name, v, rest);
  }

  /** A token whose number is none raises a ValueError. */
  lemma MalformedToken(token: seq<byte>, rest: seq<byte>)
    requires |token| == HEADER_LEN && ParseHex(token[4..]).NotANumber?
    ensures TakeToken(token + rest) == Raised(ValueError, rest)
  {
    hide ParseHex;
    assert (token + rest)[..HEADER_LEN] == token && (token + rest)[HEADER_LEN..] == rest;
  }

  /** A request begins with DIST and goes on with ARGC, whatever the version. */
  lemma WrongRequest(name: seq<byte>, v: int, version: int, rest: seq<byte>)
    requires |name| == 4 && Representable(v) && Representable(version)
    ensures name != DIST ==> TakeRequest(Encode(name, v) + rest) == Raised(InvalidToken, rest)
    ensures name != ARGC ==>
      TakeRequest(Encode(DIST, version) + (Encode(name, v) + rest)) == Raised(InvalidToken, rest)
  {
    hide Encode, Expect, TakeArgs;
    if name != DIST {
      WrongToken(name, v, DIST, rest);
    }
    RightToken(DIST, version, Encode(name, v) + rest);
    if name != ARGC {
      WrongToken(name, v, ARGC, rest);
    }
  }

  /** Where another field stands in the place of an argument, its data is consumed, and
      then it is refused. */
  lemma WrongArgument(args: seq<seq<byte>>, name: seq<byte>, data: seq<byte>, argc: int, rest: seq<byte>)
    requires |name| == 4 && Sendable(data) && name != ARGV && argc > |args| && forall a :: a in args ==> Sendable(a)
    ensures TakeArgs(ArgFrames(args) + (Frame(name, data) + rest), argc) == Raised(InvalidToken, rest)
    decreases argc
  {
    hide Frame, TakeField, ArgFrames;
    var tail := Frame(name, data) + rest;
    if argc == |args| + 1 {
      ArgsRoundTrip(args, |args|, tail);
      WrongField(name, data, ARGV, rest);
      NoArguments(args, tail);
    } else {
      WrongArgument(args, name, data, argc - 1, rest);
    }
  }

  lemma NoArguments(args: seq<seq<byte>>, tail: seq<byte>)
    ensures ArgFrames(args[|args|..]) + tail == tail
  {}

  lemma WrongField(name: seq<byte>, data: seq<byte>, expected: seq<byte>, rest: seq<byte>)
    requires |name| == 4 && Sendable(data) && name != expected
    ensures TakeField(Frame(name, data) + rest, expected) == Raised(InvalidToken, rest)
  {
    hide Encode, Decode;
    TokenRoundTrip(name, |data|, data + rest);
    assert Frame(name, data) + rest == Encode(name, |data|) + (data + rest);
    assert (data + rest)[..|data|] == data && (data + rest)[|data|..] == rest;
  }

  /** A response begins with DONE of this very version and goes on with STAT. */
  lemma WrongResponse(name: seq<byte>, v: int, version: int, rest: seq<byte>)
    requires |name| == 4 && Representable(v) && Representable(version)
    ensures name != DONE ==> TakeResponse(Encode(name, v) + rest) == Raised(InvalidToken, rest)
    ensures version != VERSION ==> TakeResponse(Encode(DONE, version) + rest) == Raised(UnsupportedVersion, rest)
    ensures name != STAT ==>
      TakeResponse(Encode(DONE, VERSION) + (Encode(name, v) + rest)) == Raised(InvalidToken, rest)
  {
    hide Encode, Expect, TakeFile;
    if name != DONE {
      WrongToken(name, v, DONE, rest);
    }
    RightToken(DONE, version, rest);
    RightToken(DONE, VERSION, Encode(name, v) + rest);
    if name != STAT {
      WrongToken(name, v, STAT, rest);
    }
  }

  /** After the status come standard error, standard output and, on success, the object. */
  lemma WrongOutput(status: int, err: seq<byte>, out: seq<byte>, name: seq<byte>, v: int, rest: seq<byte>)
    requires Representable(status) && Sendable(err) && Sendable(out) && |name| == 4 && Representable(v)
    ensures var head, wrong := Encode(DONE, VERSION) + Encode(STAT, status), Encode(name, v) + rest;
      && (name != SERR ==> TakeResponse(head + wrong) == Raised(InvalidToken, rest))
      && (name != SOUT ==> TakeResponse(head + (Frame(SERR, err) + wrong)) == Raised(InvalidToken, rest))
      && (name != DOTO && status == 0 ==>
            TakeResponse(head + (Frame(SERR, err) + (Frame(SOUT, out) + wrong))) == Raised(InvalidToken, rest))
  {
    hide Encode, Expect, TakeFile, Frame, TakeResponse;
    var wrong := Encode(name, v) + rest;
    HeadRead(status, wrong);
    HeadRead(status, Frame(SERR, err) + wrong);
    HeadRead(status, Frame(SERR, err) + (Frame(SOUT, out) + wrong));
    FrameRoundTrip(SERR, err, wrong);
    FrameRoundTrip(SERR, err, Frame(SOUT, out) + wrong);
    FrameRoundTrip(SOUT, out, wrong);
    if name != SERR {
      WrongToken(name, v, SERR, rest);
    }
    if name != SOUT {
      WrongToken(name, v, SOUT, rest);
    }
    if name != DOTO {
      WrongToken(name, v, DOTO, rest);
    }
  }

  /** The response once the status is known. */
  function TakeOutput(status: int, s: seq<byte>): Outcome<Response> {
    var (err, s1) :- TakeFile(s, SERR);
    var (out, s2) :- TakeFile(s1, SOUT);
    if status != 0 then Got(Response(status, err, out, None), s2)
    else
      var (obj, s3) :- TakeFile(s2, DOTO);
      Got(Response(status, err, out, Some(obj)), s3)
  }

  lemma HeadRead(status: int, rest: seq<byte>)
    requires Representable(status)
    ensures TakeResponse(Encode(DONE, VERSION) + Encode(STAT, status) + rest) == TakeOutput(status, rest)
  {
    hide Encode, Expect, TakeFile;
    RightToken(DONE, VERSION, Encode(STAT, status) + rest);
    RightToken(STAT, status, rest);
    Associative(Encode(DONE, VERSION), Encode(STAT, status), rest);
  }

  /* ---------- streams that end too early ---------- */

  /** What more bytes do to a result: nothing, unless the stream had ended too early. */
  predicate Extends<T(==)>(a: Outcome<T>, b: Outcome<T>, more: seq<byte>) {
    match a
    case Got(v, rest) => b == Got(v, rest + more)
    case Raised(e, rest) => if e == Disconnected then rest == [] else b == Raised(e, rest + more)
  }

  lemma ExactlyExtends(s: seq<byte>, more: seq<byte>, count: int)
    ensures Extends(TakeExactly(s, count), TakeExactly(s + more, count), more)
  {
    if 0 < count <= |s| {
      assert (s + more)[..count] == s[..count] && (s + more)[count..] == s[count..] + more;
    }
  }

  lemma TokenExtends(s: seq<byte>, more: seq<byte>)
    ensures Extends(TakeToken(s), TakeToken(s + more), more)
  {
    ExactlyExtends(s, more, HEADER_LEN);
    hide TakeExactly, ParseHex;
  }

  lemma ExpectExtends(s: seq<byte>, more: seq<byte>, name: seq<byte>)
    ensures Extends(Expect(s, name), Expect(s + more, name), more)
  {
    TokenExtends(s, more);
    hide TakeToken;
  }

  lemma FileExtends(s: seq<byte>, more: seq<byte>, name: seq<byte>)
    ensures Extends(TakeFile(s, name), TakeFile(s + more, name), more)
  {
    ExpectExtends(s, more, name);
    if Expect(s, name).Got? {
      ExactlyExtends(Expect(s, name).rest, more, Expect(s, name).value);
    }
    hide Expect, TakeExactly;
  }

  lemma FieldExtends(s: seq<byte>, more: seq<byte>, name: seq<byte>)
    ensures Extends(TakeField(s, name), TakeField(s + more, name), more)
  {
    TokenExtends(s, more);
    if TakeToken(s).Got? {
      ExactlyExtends(TakeToken(s).rest, more, TakeToken(s).value.1);
    }
    hide TakeToken, TakeExactly;
  }

  lemma {:induction false} ArgsExtend(s: seq<byte>, more: seq<byte>, argc: int)
    ensures Extends(TakeArgs(s, argc), TakeArgs(s + more, argc), more)
    decreases argc
  {
    hide TakeField;
    if argc > 0 {
      ArgsExtend(s, more, argc - 1);
      if TakeArgs(s, argc - 1).Got? {
        FieldExtends(TakeArgs(s, argc - 1).rest, more, ARGV);
      }
    }
  }

  lemma RequestExtends(s: seq<byte>, more: seq<byte>)
    ensures Extends(TakeRequest(s), TakeRequest(s + more), more)
  {
    hide Expect, TakeArgs;
    ExpectExtends(s, more, DIST);
    if Expect(s, DIST).Got? {
      var s1 := Expect(s, DIST).rest;
      ExpectExtends(s1, more, ARGC);
      if Expect(s1, ARGC).Got? {
        ArgsExtend(Expect(s1, ARGC).rest, more, Expect(s1, ARGC).value);
      }
    }
  }

  lemma OutputExtends(status: int, s: seq<byte>, more: seq<byte>)
    ensures Extends(TakeOutput(status, s), TakeOutput(status, s + more), more)
  {
    hide TakeFile;
    FileExtends(s, more, SERR);
    if TakeFile(s, SERR).Got? {
      var s1 := TakeFile(s, SERR).rest;
      FileExtends(s1, more, SOUT);
      if TakeFile(s1, SOUT).Got? {
        FileExtends(TakeFile(s1, SOUT).rest, more, DOTO);
      }
    }
  }

  lemma ResponseExtends(s: seq<byte>, more: seq<byte>)
    ensures Extends(TakeResponse(s), TakeResponse(s + more), more)
  {
    hide Expect, TakeFile;
    ExpectExtends(s, more, DONE);
    if Expect(s, DONE).Got? {
      var s1 := Expect(s, DONE).rest;
      ExpectExtends(s1, more, STAT);
      if Expect(s1, STAT).Got? {
        OutputExtends(Expect(s1, STAT).value, Expect(s1, STAT).rest, more);
      }
    }
  }

  /** A request that breaks off anywhere is noticed: by the reader of the arguments, or
      else by the reader of the source. */
  lemma RequestTruncated(args: seq<seq<byte>>, source: seq<byte>, n: nat)
    requires |args| <= 0xffff_ffff && Sendable(source) && forall a :: a in args ==> Sendable(a)
    requires n < |RequestBytes(args, source)|
    ensures var r := TakeRequest(RequestBytes(args, source)[..n]);
      || r == Raised(Disconnected, [])
      || (r.Got? && r.value == args && TakeFile(r.rest, DOTI) == Raised(Disconnected, []))
  {
    hide TakeRequest, TakeFile, RequestBytes, Frame;
    var all := RequestBytes(args, source);
    var s, more := all[..n], all[n..];
    assert s + more == all && all + [] == all && more != [];
    RequestRoundTrip(args, source, []);
    RequestExtends(s, more);
    if TakeRequest(s).Got? {
      FileExtends(TakeRequest(s).rest, more, DOTI);
    }
  }

  /** So is a response, up to the last byte that the client needs. */
  lemma ResponseTruncated(status: int, out: seq<byte>, err: seq<byte>, obj: Option<seq<byte>>, n: nat)
    requires Representable(status) && Sendable(out) && Sendable(err)
    requires status == 0 ==> obj.Some? && Sendable(obj.value)
    requires n < |ReplyHead(status, out, err)| + if status == 0 then |ObjectFrame(status, obj)| else 0
    ensures TakeResponse((ReplyHead(status, out, err) + ObjectFrame(status, obj))[..n]) == Raised(Disconnected, [])
  {
    hide TakeResponse, ReplyHead, ObjectFrame;
    var head, tail := ReplyHead(status, out, err), ObjectFrame(status, obj);
    var all := head + tail;
    var s, more := all[..n], all[n..];
    assert s + more == all && tail + [] == tail;
    ResponseRoundTrip(status, out, err, obj, []);
    ResponseExtends(s, more);
  }

  /* ---------- as it looks on the wire ---------- */

  function Ascii(text: string): seq<byte>
    requires forall i :: 0 <= i < |text| ==> text[i] as int < 256
  {
    seq(|text|, i requires 0 <= i < |text| => text[i] as int)
  }

  lemma Spelled()
    ensures DIST == Ascii("DIST") && ARGC == Ascii("ARGC") && ARGV == Ascii("ARGV") && DOTI == Ascii("DOTI")
    ensures DONE == Ascii("DONE") && STAT == Ascii("STAT") && SERR == Ascii("SERR") && SOUT == Ascii("SOUT")
    ensures DOTO == Ascii("DOTO")
  {}

  /** The first token of a request, and numbers of either sign. */
  lemma FirstToken()
    ensures Encode(DIST, VERSION) == Ascii("DIST") + (Ascii("0000000") + Ascii("1"))
    ensures Encode(STAT, -255) == Ascii("STAT") + (Ascii("-") + (Ascii("00000") + Ascii("ff")))
  {
    Spelled();
    assert HexDigits(1) == Ascii("1");
    assert HexDigits(255) == HexDigits(15) + [DigitByte(15)] == Ascii("ff");
    Padded(HexDigits(1), Ascii("0000000"));
    Padded(HexDigits(255), Ascii("00000"));
    hide HexDigits, PadZeros;
  }
}
