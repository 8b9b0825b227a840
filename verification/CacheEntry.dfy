/**
  Reading and writing a cache entry through `read` and `write`, which may transfer
  fewer bytes than asked for and, on a faulty file, fail.
 */
module CacheEntry {
  import opened Bytes

  const ENTRY_MAX: nat := 512

  /** The buffer with `bytes` put at `at`. */
  function Overwrite(buf: seq<byte>, at: nat, bytes: seq<byte>): seq<byte>
    requires at + |bytes| <= |buf|
  {
    buf[..at] + bytes + buf[at + |bytes|..]
  }

  /** An open file: what it holds and where the descriptor stands. */
  class OpenFile {
    var data: seq<byte>
    var pos: nat
    const faulty: bool

    constructor (data: seq<byte>, faulty: bool)
      ensures this.data == data && pos == 0 && this.faulty == faulty
    {
      this.data, pos, this.faulty := data, 0, faulty;
    }

    /** `read(2)` into `buf[at..at + len]`: some of the bytes that remain, 0 at the
        end of the file, or -1. */
    method Read(buf: array<byte>, at: nat, len: nat) returns (n: int)
      requires pos <= |data| && at + len <= buf.Length
      modifies buf, `pos
      ensures n < 0 ==> faulty && pos == old(pos) && buf[..] == old(buf[..])
      ensures n >= 0 ==>
        && n <= len && pos == old(pos) + n <= |data|
        && (n == 0 <==> len == 0 || old(pos) == |data|)
        && buf[..] == Overwrite(old(buf[..]), at, data[old(pos)..pos])
    {
      if faulty {
        if * { return -1; }
      }
      var most := if len <= |data| - pos then len else |data| - pos;
      n :| 0 <= n <= most && (n == 0 <==> most == 0);
      forall k | 0 <= k < n {
        buf[at + k] := data[pos + k];
      }
      pos := pos + n;
    }

    /** `write(2)` at the end of the file: some of the bytes, or -1. */
    method Write(value: seq<byte>) returns (n: int)
      requires pos == |data| && value != []
      modifies this
      ensures n < 0 ==> faulty && data == old(data) && pos == old(pos)
      ensures n >= 0 ==>
        0 < n <= |value| && data == old(data) + value[..n] && pos == |data|
    {
      if faulty {
        if * { return -1; }
      }
      n :| 0 < n <= |value|;
      data := data + value[..n];
      pos := |data|;
    }
  }

  /** `Underrun`: the code looks at the byte before the buffer. */
  datatype Status = Ok | EInval | EIo | Full | Underrun | TooBig

  /** What `read_entry` reports for a file with these contents and a buffer of `len` bytes. */
  function ReadStatus(data: seq<byte>, len: nat): Status {
    if len <= 1 then EInval
    else if |data| >= len - 1 then Full
    else if data == [] then Underrun
    else Ok
  }

  /** The contents of the buffer as a C string. */
  function CString(buf: seq<byte>): seq<byte> {
    if buf == [] || buf[0] == 0 then [] else [buf[0]] + CString(buf[1..])
  }

  /** What follows the terminator does not matter. */
  lemma {:induction false} CStringStops(s: seq<byte>, t: seq<byte>, u: seq<byte>)
    requires 0 in s
    ensures CString(s + t) == CString(s + u)
  {
    assert (s + t)[0] == s[0] == (s + u)[0];
    if s[0] != 0 {
      CStringStops(s[1..], t, u);
      assert (s + t)[1..] == s[1..] + t && (s + u)[1..] == s[1..] + u;
    }
  }

  /** A value without terminator, terminated. */
  lemma {:induction false} CStringOf(v: seq<byte>, t: seq<byte>)
    requires 0 !in v
    ensures CString(v + [0] + t) == v
  {
    if v != [] {
      CStringOf(v[1..], t);
      assert (v + [0] + t)[1..] == v[1..] + [0] + t;
      assert v == [v[0]] + v[1..];
    }
  }

  /** A buffer that starts with `data` and, unless `data` ends with one, a terminator. */
  lemma Terminated(data: seq<byte>, buf: seq<byte>)
    requires 0 < |data| < |buf| && buf[..|data|] == data
    requires data[|data| - 1] == 0 || buf[|data|] == 0
    ensures CString(buf) == CString(data + [0])
  {
    if data[|data| - 1] == 0 {
      assert buf == data + buf[|data|..];
      CStringStops(data, buf[|data|..], [0]);
    } else {
      assert buf == (data + [0]) + buf[|data| + 1..];
      CStringStops(data + [0], buf[|data| + 1..], []);
      assert (data + [0]) + [] == data + [0];
    }
  }

  /** The last step of `read_entry`: a string that does not end with a terminator gets one. */
  method Terminate(result: array<byte>, at: nat, ghost data: seq<byte>)
    requires 0 < at == |data| < result.Length && result[..][..at] == data
    modifies result
    ensures CString(result[..]) == CString(data + [0])
  {
    hide CString;
    assert result[at - 1] == result[..][..at][at - 1];
    if result[at - 1] != 0 {
      ghost var before := result[..];
      result[at] := 0;
      assert result[..] == before[at := 0];
    }
    Terminated(data, result[..]);
  }

  /** The buffer after `at` bytes have been read into it. */
  function Filled(data: seq<byte>, at: nat, before: seq<byte>): seq<byte>
    requires at <= |data| && at <= |before|
  {
    data[..at] + before[at..]
  }

  lemma NothingFilled(data: seq<byte>, before: seq<byte>)
    ensures Filled(data, 0, before) == before
  {}

  lemma FilledMore(data: seq<byte>, at: nat, n: nat, before: seq<byte>, buf: seq<byte>)
    requires at + n <= |data| && at + n <= |before|
    requires |buf| == |before| && buf == Filled(data, at, before)
    ensures Overwrite(buf, at, data[at..at + n]) == Filled(data, at + n, before)
  {}

  lemma FilledParts(data: seq<byte>, at: nat, before: seq<byte>)
    requires at <= |data| && at <= |before|
    ensures |Filled(data, at, before)| == |before| && Filled(data, at, before)[..at] == data[..at]
  {}

  /** The loop of `read_entry`: reads until the file ends, the buffer is full or `read`
      fails, and returns what the last `read` returned. */
  method ReadAll(fd: OpenFile, result: array<byte>, len: nat) returns (bytesRead: int, at: nat)
    requires fd.pos == 0 && result.Length == len && len > 1
    modifies result, fd`pos
    ensures at == fd.pos <= |fd.data| && at <= len - 1
    ensures bytesRead < 0 ==> fd.faulty
    ensures bytesRead == 0 ==> at == |fd.data| < len - 1
    ensures bytesRead > 0 ==> at == len - 1
    ensures result[..] == Filled(fd.data, at, old(result[..]))
  {
    hide Filled, Overwrite;
    ghost var before := result[..];
    NothingFilled(fd.data, before);
    var room := len - 1;
    bytesRead, at := 0, 0;
    while room > 0
      invariant 0 <= room && at + room == len - 1 && fd.pos == at <= |fd.data|
      invariant result[..] == Filled(fd.data, at, before)
      invariant bytesRead > 0 || (bytesRead == 0 && at == 0)
    {
      ghost var buf := result[..];
      bytesRead := fd.Read(result, at, room);
      if bytesRead < 0 {
        return;
      }
      FilledMore(fd.data, at, bytesRead, before, buf);
      if bytesRead == 0 {
        return;
      }
      at := at + bytesRead;
      room := room - bytesRead;
    }
  }

  /** `read_entry`: reads to the end of the file and terminates the string.  When it
      fails the buffer holds what was read, and nothing behind that has changed. */
  method ReadEntry(fd: OpenFile, result: array<byte>, len: nat) returns (status: Status)
    requires fd.pos == 0 && result.Length == len
    modifies result, fd`pos
    ensures status == ReadStatus(fd.data, len) || (status == EIo && fd.faulty && len > 1)
    ensures status == Ok ==> CString(result[..]) == CString(fd.data + [0])
    ensures fd.pos <= |fd.data| && fd.pos <= len
    ensures status == Full ==> fd.pos == len - 1
    ensures status != Ok ==> result[..] == Filled(fd.data, fd.pos, old(result[..]))
  {
    if len <= 1 {
      NothingFilled(fd.data, result[..]);
      return EInval;
    }
    hide Filled, CString;
    ghost var before := result[..];
    var bytesRead, at := ReadAll(fd, result, len);
    if bytesRead < 0 {
      return EIo;
    } else if bytesRead == 0 {
      if at == 0 {
        return Underrun;
      }
      FilledParts(fd.data, at, before);
      assert fd.data[..at] == fd.data;
      Terminate(result, at, fd.data);
      return Ok;
    } else {
      return Full;
    }
  }

  /** `write_entry`: writes everything, however little each `write` takes. */
  method WriteEntry(fd: OpenFile, value: seq<byte>) returns (status: Status)
    requires fd.pos == |fd.data|
    modifies fd
    ensures status == Ok ==> fd.data == old(fd.data) + value
    ensures status == Ok || (status == EIo && fd.faulty)
  {
    var rest := value;
    while rest != []
      invariant fd.pos == |fd.data|
      invariant fd.data + rest == old(fd.data) + value
      decreases |rest|
    {
      var written := fd.Write(rest);
      if written < 0 {
        return EIo;
      }
      rest := rest[written..];
    }
    return Ok;
  }

  /* ---------- a value's way through the cache ---------- */

  /** What `put` writes for a value: the characters and the terminator. */
  function Encode(value: seq<byte>): seq<byte> {
    value + [0]
  }

  /** What `put` says to a value. */
  function PutStatus(value: seq<byte>): Status {
    if |value| + 1 > ENTRY_MAX then TooBig else Ok
  }

  /** What `get` reports for an entry with these contents: a status, and the string
      when the status is good. */
  datatype Lookup = Found(value: seq<byte>) | Failed(status: Status)

  function LookUp(data: seq<byte>): Lookup {
    var status := ReadStatus(data, ENTRY_MAX);
    if status == Ok then Found(CString(data + [0])) else Failed(status)
  }

  /** The exact bound of the round trip: values of up to 509 characters come back;
      510 and 511 characters are accepted but cannot be read; longer ones are refused. */
  lemma EntryRoundTrip(value: seq<byte>)
    requires 0 !in value
    ensures LookUp(Encode(value)) == Found(value) <==> |value| <= 509
    ensures PutStatus(value) == Ok <==> |value| <= 511
    ensures |value| >= 510 ==> LookUp(Encode(value)) == Failed(Full)
  {
    CStringOf(value, [0]);
  }

  /** What `get` copies as a string, whatever `read_entry` says, has a terminator among
      the bytes read exactly for values of up to 510 characters. */
  lemma CopyTerminates(value: seq<byte>)
    requires 0 !in value && PutStatus(value) == Ok
    ensures var data := Encode(value);
      0 in data[..if |data| < ENTRY_MAX then |data| else ENTRY_MAX - 1] <==> |value| <= 510
  {
    var data := Encode(value);
    if |value| <= 510 {
      assert data[..|data|][|value|] == 0;
    } else {
      assert data[..ENTRY_MAX - 1] == value;
    }
  }

  /** `put` followed by `get` on a working disk, whatever the short transfers. */
  method StoreAndLoad(value: seq<byte>) returns (put: Status, get: Lookup)
    requires 0 !in value
    ensures put == if |value| <= 511 then Ok else TooBig
    ensures put == Ok ==> get == if |value| <= 509 then Found(value) else Failed(Full)
  {
    get := Failed(EInval);
    if |value| + 1 > ENTRY_MAX {
      return TooBig, get;
    }
    var out := new OpenFile([], false);
    put := WriteEntry(out, value + [0]);
    assert out.data == Encode(value);
    var in_ := new OpenFile(out.data, false);
    var buf := new byte[ENTRY_MAX];
    var status := ReadEntry(in_, buf, ENTRY_MAX);
    get := if status == Ok then Found(CString(buf[..])) else Failed(status);
    EntryRoundTrip(value);
  }
}
