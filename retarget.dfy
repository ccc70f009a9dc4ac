/** The newlib system-call layer of the bare-metal ARM sample. `_write`
    copies the caller's bytes into a 65-byte buffer at most 64 at a time,
    terminates each piece with NUL and hands the buffer to the debugger's
    SYS_WRITE0 call; `_sbrk` moves a bump-pointer heap break that starts at
    the linker symbol `_end`; the remaining calls are fixed-result stubs. */
module Retarget {
  /** The largest piece `_write` hands to the debugger at once. */
  const CHUNK: nat := 64

  function Min(a: int, b: int): int { if a < b then a else b }

  /** The NUL-terminated strings `_write` passes to SYS_WRITE0 for `s`. */
  function ChunksOf(s: seq<char>): (r: seq<seq<char>>)
    ensures forall k :: 0 <= k < |r| ==> 2 <= |r[k]| <= CHUNK + 1 && r[k][|r[k]| - 1] == '\0'
    decreases |s|
  {
    if s == [] then []
    else
      var n := Min(CHUNK, |s|);
      [s[..n] + ['\0']] + ChunksOf(s[n..])
  }

  /** The chunk bodies, terminators dropped, one after another. */
  function Joined(cs: seq<seq<char>>): seq<char>
  {
    if cs == [] then [] else (if |cs[0]| == 0 then [] else cs[0][..|cs[0]| - 1]) + Joined(cs[1..])
  }

  /** What SYS_WRITE0 prints for a NUL-terminated string: everything before
      the first NUL. */
  function Printed(c: seq<char>): (r: seq<char>)
    ensures '\0' !in r && r <= c
  {
    if c == [] || c[0] == '\0' then [] else [c[0]] + Printed(c[1..])
  }

  function PrintedAll(cs: seq<seq<char>>): seq<char>
  {
    if cs == [] then [] else Printed(cs[0]) + PrintedAll(cs[1..])
  }

  /** One step of the split: the first chunk, then the chunks of the rest. */
  lemma ChunksStep(rest: seq<char>, c: nat)
    requires rest != [] && c == Min(CHUNK, |rest|)
    ensures ChunksOf(rest) == [rest[..c] + ['\0']] + ChunksOf(rest[c..])
  {
  }

  /** Joining the chunks gives back exactly the bytes written. */
  lemma {:induction false} ChunksJoin(s: seq<char>)
    ensures Joined(ChunksOf(s)) == s
    decreases |s|
  {
    if s != [] {
      var n := Min(CHUNK, |s|);
      var c := s[..n] + ['\0'];
      assert ChunksOf(s) == [c] + ChunksOf(s[n..]);
      assert ([c] + ChunksOf(s[n..]))[1..] == ChunksOf(s[n..]);
      ChunksJoin(s[n..]);
      assert c[..|c| - 1] == s[..n];
      assert s[..n] + s[n..] == s;
    }
  }

  /** The number of chunks is the length divided by 64, rounded up. */
  lemma {:induction false} ChunkCount(s: seq<char>)
    ensures |ChunksOf(s)| == (|s| + CHUNK - 1) / CHUNK
    decreases |s|
  {
    if s != [] {
      var n := Min(CHUNK, |s|);
      ChunkCount(s[n..]);
      if |s| > CHUNK {
        assert (|s| + CHUNK - 1) / CHUNK == 1 + (|s| - CHUNK + CHUNK - 1) / CHUNK;
      }
    }
  }

  /** Text with no NUL in it is printed in full. */
  lemma {:induction false} NulFreeIsPrinted(s: seq<char>)
    requires '\0' !in s
    ensures PrintedAll(ChunksOf(s)) == s
    decreases |s|
  {
    if s != [] {
      var n := Min(CHUNK, |s|);
      var c := s[..n] + ['\0'];
      assert ChunksOf(s) == [c] + ChunksOf(s[n..]);
      assert ([c] + ChunksOf(s[n..]))[1..] == ChunksOf(s[n..]);
      PrintedBody(s[..n]);
      NulFreeIsPrinted(s[n..]);
      assert s[..n] + s[n..] == s;
    }
  }

  lemma {:induction false} PrintedBody(b: seq<char>)
    requires '\0' !in b
    ensures Printed(b + ['\0']) == b
    decreases |b|
  {
    if b != [] {
      assert (b + ['\0'])[1..] == b[1..] + ['\0'];
      PrintedBody(b[1..]);
    }
  }

  /** SYS_WRITE0 stops at the first NUL, so it prints no more of a string
      than precedes any NUL in it. */
  lemma PrintedStopsAtNul(c: seq<char>, j: nat)
    requires j < |c| && c[j] == '\0'
    ensures |Printed(c)| <= j
  {
  }

  /** Text with a NUL anywhere in it is cut short: fewer characters are
      printed than were written, so the output differs from the text. */
  lemma {:induction false} EmbeddedNulTruncates(s: seq<char>, i: nat)
    requires i < |s| && s[i] == '\0'
    ensures |PrintedAll(ChunksOf(s))| < |s|
    ensures PrintedAll(ChunksOf(s)) != s
    decreases |s|
  {
    var n := Min(CHUNK, |s|);
    var c := s[..n] + ['\0'];
    assert ChunksOf(s) == [c] + ChunksOf(s[n..]);
    assert ([c] + ChunksOf(s[n..]))[1..] == ChunksOf(s[n..]);
    if i < n {
      PrintedStopsAtNul(c, i);
      PrintedAllShort(s[n..]);
    } else {
      PrintedStopsAtNul(c, n);
      EmbeddedNulTruncates(s[n..], i - n);
    }
  }

  /** No text is printed longer than it was written. */
  lemma {:induction false} PrintedAllShort(s: seq<char>)
    ensures |PrintedAll(ChunksOf(s))| <= |s|
    decreases |s|
  {
    if s != [] {
      var n := Min(CHUNK, |s|);
      var c := s[..n] + ['\0'];
      assert ChunksOf(s) == [c] + ChunksOf(s[n..]);
      assert ([c] + ChunksOf(s[n..]))[1..] == ChunksOf(s[n..]);
      PrintedStopsAtNul(c, n);
      PrintedAllShort(s[n..]);
    }
  }

  /** For instance, "a\0b" is printed as "a". */
  lemma EmbeddedNulExample()
    ensures PrintedAll(ChunksOf(['a', '\0', 'b'])) == ['a']
  {
    var s := ['a', '\0', 'b'];
    assert s[..3] == s && s[3..] == [];
    assert ChunksOf(s) == [s + ['\0']] + ChunksOf([]);
    assert Printed(s + ['\0']) == ['a'];
  }

  class Console {
    /** The strings handed to SYS_WRITE0, in order, each with its NUL. */
    var written: seq<seq<char>>
    /** `char buf[65]` */
    const buf: array<char>

    ghost predicate Valid()
      reads this
    {
      buf.Length == CHUNK + 1
    }

    constructor ()
      ensures Valid() && written == [] && fresh(buf)
    {
      written := [];
      buf := new char[CHUNK + 1];
    }

    /** `_write(file, ptr, len)`: `len` bytes of `ptr` leave as the chunks
        above; a `len` of 0 or less sends nothing. Always returns `len`. */
    method Write(file: int, ptr: seq<char>, len: int) returns (r: int)
      requires Valid() && len <= |ptr|
      modifies this`written, buf
      ensures r == len
      ensures written == old(written) + ChunksOf(if len <= 0 then [] else ptr[..len])
    {
      var i := 0;
      ghost var n := if len <= 0 then 0 else len;
      assert (if len <= 0 then [] else ptr[..len]) == ptr[..n];
      while i < len
        invariant 0 <= i <= n
        invariant old(written) + ChunksOf(ptr[..n]) == written + ChunksOf(ptr[i..n])
      {
        var chunkSize := FillChunk(ptr, i, len);
        ChunksStep(ptr[i..n], chunkSize);
        assert ptr[i..n][chunkSize..] == ptr[i + chunkSize..n];
        written := written + [buf[..chunkSize + 1]];
        i := i + chunkSize;
      }
      assert ptr[i..n] == [];
      return len;
    }

    /** The inner loop of `_write`: the next piece of at most 64 bytes from
        position `i`, copied into `buf` and terminated with NUL. */
    method FillChunk(ptr: seq<char>, i: nat, len: int) returns (chunkSize: nat)
      requires Valid() && i < len <= |ptr|
      modifies buf
      ensures chunkSize == Min(CHUNK, len - i)
      ensures buf[..chunkSize + 1] == ptr[i..len][..chunkSize] + ['\0']
    {
      chunkSize := 0;
      while chunkSize < CHUNK && i + chunkSize < len
        invariant 0 <= chunkSize <= CHUNK && i + chunkSize <= len
        invariant forall k :: 0 <= k < chunkSize ==> buf[k] == ptr[i + k]
      {
        buf[chunkSize] := ptr[i + chunkSize];
        chunkSize := chunkSize + 1;
      }
      buf[chunkSize] := '\0';
    }
  }

  /** The heap break of `_sbrk`; 0 stands for the null pointer it starts as. */
  class Heap {
    var heapEnd: int
    /** The address of the linker symbol `_end`. */
    const end: int

    constructor (end: int)
      ensures heapEnd == 0 && this.end == end
    {
      heapEnd, this.end := 0, end;
    }

    /** `_sbrk(incr)`: the first call (and any call made while the break is
        null) starts the break at `_end`; the old break is returned and the
        new one lies `incr` beyond it. */
    method Sbrk(incr: int) returns (prev: int)
      modifies this`heapEnd
      ensures prev == (if old(heapEnd) == 0 then end else old(heapEnd))
      ensures heapEnd == prev + incr
    {
      if heapEnd == 0 {
        heapEnd := end;
      }
      prev := heapEnd;
      heapEnd := heapEnd + incr;
    }
  }

  /** Two successive requests get adjacent blocks: the second starts where
      the first ends, unless the first left the break at the null address,
      in which case the second starts over at `_end`. */
  method AdjacentBlocks(h: Heap, a: int, b: int) returns (p: int, q: int)
    modifies h
    ensures q == (if p + a == 0 then h.end else p + a) && h.heapEnd == q + b
    ensures old(h.heapEnd) == 0 ==> p == h.end
  {
    p := h.Sbrk(a);
    q := h.Sbrk(b);
  }

  /** The stubbed system calls. */
  datatype Stub = Open | Close | Kill | Read | Lseek | Isatty | Getpid

  /** `S_IFCHR`, the mode `_fstat` reports. */
  const S_IFCHR: int := 0x2000

  /** The fixed result of each stub: the file calls that cannot succeed
      return -1, `_read` reports end of input, `_isatty` says every file is a
      terminal and `_getpid` is process 1. */
  function StubResult(call: Stub): (r: int)
    ensures r == -1 <==> call == Open || call == Close || call == Kill
    ensures r == 0 <==> call == Read || call == Lseek
    ensures r == 1 <==> call == Isatty || call == Getpid
  {
    match call
    case Open => -1
    case Close => -1
    case Kill => -1
    case Read => 0
    case Lseek => 0
    case Isatty => 1
    case Getpid => 1
  }

  /** `_fstat`: success, with every file a character device. */
  function Fstat(file: int): (r: (int, int))
    ensures r.0 == 0 && r.1 == S_IFCHR
  {
    (0, S_IFCHR)
  }
}
