/** The character macros of libio.h: a window of pointers into a buffer in front
    of a byte source, and one in front of a byte sink. */
module Streams {
  import opened Prelude

  const EOF: int := -1

  /** A `char`, here signed; what the macros must not confuse with EOF. */
  type Char = c: int | -128 <= c < 128

  /** The conversion to char. */
  function ToChar(b: int): (c: Char)
    ensures -128 <= b < 128 ==> c == b
    ensures (b - c) % 256 == 0
  {
    if b % 256 < 128 then b % 256 else b % 256 - 256
  }

  /** The cast to unsigned char. */
  function Unsigned(c: Char): (b: Byte)
    ensures b == if c >= 0 then c else c + 256
  {
    c % 256
  }

  function UnsignedAll(cs: seq<Char>): seq<Byte> {
    seq(|cs|, i requires 0 <= i < |cs| => Unsigned(cs[i]))
  }

  // ---------- Reading ----------

  class ReadStream {
    var readPtr: nat
    var readEnd: nat
    var buf: array<Char>
    var source: seq<Byte>

    ghost predicate Valid()
      reads this, buf
    {
      buf.Length > 0 && readPtr <= readEnd <= buf.Length
    }

    /** All bytes not yet consumed: those in the window, then those in the file. */
    ghost function Content(): seq<Byte>
      requires Valid()
      reads this, buf
    {
      UnsignedAll(buf[readPtr..readEnd]) + source
    }

    /** Contract of `__underflow`: refill an empty window with any number of
        bytes and return the first without consuming it. */
    method Underflow() returns (c: int)
      requires Valid() && readPtr >= readEnd
      modifies this, buf
      ensures Valid() && buf == old(buf) && Content() == old(Content())
      ensures if old(Content()) == [] then c == EOF
              else c == old(Content())[0] && readPtr < readEnd
    {
      if source == [] {
        return EOF;
      }
      var n :| 1 <= n <= |source| && n <= buf.Length;
      ghost var was := source;
      for i := 0 to n
        invariant source == was && buf == old(buf)
        invariant forall k | 0 <= k < i :: Unsigned(buf[k]) == was[k]
      {
        buf[i] := ToChar(source[i]);
      }
      source, readPtr, readEnd := source[n..], 0, n;
      assert UnsignedAll(buf[..n]) == was[..n];
      assert UnsignedAll(buf[readPtr..readEnd]) == was[..n];
      c := Unsigned(buf[0]);
    }

    /** Contract of `__uflow`: the same, and consume the byte returned. */
    method Uflow() returns (c: int)
      requires Valid() && readPtr >= readEnd
      modifies this, buf
      ensures Valid() && buf == old(buf)
      ensures if old(Content()) == [] then c == EOF && Content() == []
              else c == old(Content())[0] && Content() == old(Content())[1..]
    {
      c := Underflow();
      if c != EOF {
        Advance();
      }
    }

    method Advance()
      requires Valid() && readPtr < readEnd
      modifies `readPtr
      ensures Valid() && old(Content()) == [Unsigned(buf[old(readPtr)])] + Content()
    {
      ghost var was := buf[readPtr..readEnd];
      readPtr := readPtr + 1;
      assert buf[readPtr..readEnd] == was[1..];
      assert UnsignedAll(was) == [Unsigned(was[0])] + UnsignedAll(was[1..]);
    }

    method GetC() returns (c: int)
      requires Valid()
      modifies this, buf
      ensures Valid() && buf == old(buf)
      ensures if old(Content()) == [] then c == EOF && Content() == []
              else c == old(Content())[0] && Content() == old(Content())[1..]
    {
      if readPtr >= readEnd {
        c := Uflow();
      } else {
        c := Unsigned(buf[readPtr]);
        Advance();
      }
    }

    method PeekC() returns (c: int)
      requires Valid()
      modifies this, buf
      ensures Valid() && buf == old(buf) && Content() == old(Content())
      ensures c == if old(Content()) == [] then EOF else old(Content())[0]
    {
      if readPtr >= readEnd {
        var u := Underflow();
        if u == EOF {
          return EOF;
        }
      }
      c := Unsigned(buf[readPtr]);
    }
  }

  datatype ReadOp = Get | Peek

  /** The results of reads on a plain byte sequence. */
  function Results(content: seq<Byte>, ops: seq<ReadOp>): seq<int>
    decreases |ops|
  {
    if ops == [] then []
    else
      var c := if content == [] then EOF else content[0];
      [c] + Results(if ops[0] == Get && content != [] then content[1..] else content, ops[1..])
  }

  function GetCount(ops: seq<ReadOp>): nat
    decreases |ops|
  {
    if ops == [] then 0 else (if ops[0] == Get then 1 else 0) + GetCount(ops[1..])
  }

  method ReadOne(s: ReadStream, op: ReadOp) returns (c: int)
    requires s.Valid()
    modifies s, s.buf
    ensures s.Valid() && s.buf == old(s.buf)
    ensures c == if old(s.Content()) == [] then EOF else old(s.Content())[0]
    ensures s.Content() == if op == Get && old(s.Content()) != [] then old(s.Content())[1..] else old(s.Content())
  {
    if op == Get {
      c := s.GetC();
    } else {
      c := s.PeekC();
    }
  }

  /** However the refills split the file, reads see a plain byte sequence. */
  method Reads(s: ReadStream, ops: seq<ReadOp>) returns (results: seq<int>)
    requires s.Valid()
    modifies s, s.buf
    ensures s.Valid() && results == Results(old(s.Content()), ops)
  {
    results := [];
    ghost var content := s.Content();
    ghost var all := Results(content, ops);
    for i := 0 to |ops|
      invariant s.Valid() && s.buf == old(s.buf) && s.Content() == content
      invariant results + Results(content, ops[i..]) == all
    {
      hide Results, ReadStream.Content;
      ResultsNext(content, ops, i);
      var c := ReadOne(s, ops[i]);
      content := s.Content();
      Regroup(results, c, Results(content, ops[i + 1..]));
      results := results + [c];
    }
  }

  lemma Regroup(a: seq<int>, c: int, b: seq<int>)
    ensures a + ([c] + b) == (a + [c]) + b
  {
  }

  lemma ResultsNext(content: seq<Byte>, ops: seq<ReadOp>, i: nat)
    requires i < |ops|
    ensures Results(content, ops[i..])
         == [if content == [] then EOF else content[0]]
            + Results(if ops[i] == Get && content != [] then content[1..] else content, ops[i + 1..])
  {
    assert ops[i..][1..] == ops[i + 1..];
  }

  /** Result k depends only on the number of gets before it: it is that byte of
      the file, in 0..255, or EOF past the end. So peeks consume nothing, agree
      with the next get, and no byte is taken for EOF. */
  lemma {:induction false} ResultsAreContent(content: seq<Byte>, ops: seq<ReadOp>, k: nat)
    requires k < |ops|
    ensures |Results(content, ops)| == |ops|
    ensures var n := GetCount(ops[..k]);
            Results(content, ops)[k] == if n < |content| then content[n] else EOF
    ensures Results(content, ops)[k] == EOF <==> |content| <= GetCount(ops[..k])
    decreases |ops|
  {
    var rest := if ops[0] == Get && content != [] then content[1..] else content;
    if k > 0 {
      ResultsAreContent(rest, ops[1..], k - 1);
      assert ops[..k][1..] == ops[1..][..k - 1];
    } else {
      ResultsLength(rest, ops[1..]);
    }
  }

  lemma {:induction false} ResultsLength(content: seq<Byte>, ops: seq<ReadOp>)
    ensures |Results(content, ops)| == |ops|
    decreases |ops|
  {
    if ops != [] {
      ResultsLength(if ops[0] == Get && content != [] then content[1..] else content, ops[1..]);
    }
  }

  // ---------- Writing ----------

  class WriteStream {
    var writeBase: nat
    var writePtr: nat
    var writeEnd: nat
    var buf: array<Char>
    var sink: seq<Byte>

    ghost predicate Valid()
      reads this, buf
    {
      writeBase <= writePtr && writeEnd <= buf.Length && writePtr <= buf.Length
    }

    ghost function Pending(): seq<Byte>
      requires Valid()
      reads this, buf
    {
      UnsignedAll(buf[writeBase..writePtr])
    }

    /** Everything written: what the sink got, then what is still buffered. */
    ghost function Written(): seq<Byte>
      requires Valid()
      reads this, buf
    {
      sink + Pending()
    }

    /** Contract of `__overflow`: deliver what is buffered and take the byte,
        into the buffer or straight to the sink; or fail and take nothing. */
    method Overflow(ch: Byte) returns (r: int)
      requires Valid() && writePtr >= writeEnd
      modifies this, buf
      ensures Valid() && buf == old(buf) && (r == ch || r == EOF)
      ensures Written() == if r == EOF then old(Written()) else old(Written()) + [ch]
    {
      var fails, buffers: bool := *, *;
      if fails {
        return EOF;
      }
      sink := Delivered();
      writePtr := writeBase;
      assert Pending() == [];
      if writePtr < buf.Length && buffers {
        buf[writePtr] := ToChar(ch);
        writePtr := writePtr + 1;
        var end: nat :| end <= buf.Length;
        writeEnd := end;
        assert Pending() == [ch];
      } else {
        sink := sink + [ch];
      }
      r := ch;
    }

    method Delivered() returns (all: seq<Byte>)
      requires Valid()
      ensures all == Written()
    {
      all := sink;
      for i := writeBase to writePtr
        invariant all == sink + UnsignedAll(buf[writeBase..i])
      {
        assert UnsignedAll(buf[writeBase..i + 1]) == UnsignedAll(buf[writeBase..i]) + [Unsigned(buf[i])];
        all := all + [Unsigned(buf[i])];
      }
    }

    method PutC(ch: int) returns (r: int)
      requires Valid()
      modifies this, buf
      ensures Valid() && buf == old(buf) && (r == ToByte(ch) || r == EOF)
      ensures r == EOF ==> old(writePtr >= writeEnd)
      ensures Written() == if r == EOF then old(Written()) else old(Written()) + [ToByte(ch)]
    {
      if writePtr >= writeEnd {
        r := Overflow(ToByte(ch));
      } else {
        ghost var was := buf[writeBase..writePtr];
        buf[writePtr] := ToChar(ch);
        r := Unsigned(buf[writePtr]);
        writePtr := writePtr + 1;
        assert buf[writeBase..writePtr] == was + [ToChar(ch)];
        assert UnsignedAll(was + [ToChar(ch)]) == UnsignedAll(was) + [ToByte(ch)];
      }
    }

    method PendingOutputCount() returns (n: nat)
      requires Valid()
      ensures n == |Pending()|
    {
      n := writePtr - writeBase;
    }
  }

  /** The characters put without failure, reduced to unsigned char, in order. */
  function Accepted(chars: seq<int>, results: seq<int>): seq<Byte>
    requires |chars| == |results|
    decreases |chars|
  {
    if chars == [] then []
    else (if results[0] == EOF then [] else [ToByte(chars[0])]) + Accepted(chars[1..], results[1..])
  }

  lemma {:induction false} AcceptedNext(chars: seq<int>, results: seq<int>, c: int, r: int)
    requires |chars| == |results|
    ensures Accepted(chars + [c], results + [r])
         == Accepted(chars, results) + (if r == EOF then [] else [ToByte(c)])
    decreases |chars|
  {
    if chars != [] {
      assert (chars + [c])[1..] == chars[1..] + [c] && (results + [r])[1..] == results[1..] + [r];
      AcceptedNext(chars[1..], results[1..], c, r);
    }
  }

  function Successes(results: seq<int>): nat {
    if results == [] then 0 else (if results[0] == EOF then 0 else 1) + Successes(results[1..])
  }

  lemma {:induction false} AcceptedLength(chars: seq<int>, results: seq<int>)
    requires |chars| == |results|
    ensures |Accepted(chars, results)| == Successes(results)
    decreases |chars|
  {
    if chars != [] {
      AcceptedLength(chars[1..], results[1..]);
    }
  }

  /** A character put without failure has as many bytes before it as there were
      puts without failure before it; one that failed leaves no byte. */
  lemma {:induction false} AcceptedInOrder(chars: seq<int>, results: seq<int>, k: nat)
    requires |chars| == |results| && k < |chars|
    ensures |Accepted(chars, results)| == Successes(results)
    ensures results[k] != EOF ==>
              var n := Successes(results[..k]);
              n < Successes(results) && Accepted(chars, results)[n] == ToByte(chars[k])
    decreases |chars|
  {
    AcceptedLength(chars, results);
    if k > 0 {
      AcceptedInOrder(chars[1..], results[1..], k - 1);
      assert results[..k][1..] == results[1..][..k - 1];
    }
  }

  lemma {:induction false} NoneFailed(results: seq<int>)
    requires EOF !in results
    ensures Successes(results) == |results|
    decreases |results|
  {
    if results != [] {
      NoneFailed(results[1..]);
    }
  }

  /** When no overflow fails, exactly the characters put are written. */
  lemma AllAccepted(chars: seq<int>, results: seq<int>)
    requires |chars| == |results| && EOF !in results
    ensures |Accepted(chars, results)| == |chars|
    ensures forall i | 0 <= i < |chars| ::
              && (Accepted(chars, results)[i] - chars[i]) % 256 == 0
              && (0 <= chars[i] < 256 ==> Accepted(chars, results)[i] == chars[i])
  {
    hide Accepted, Successes, ToByte;
    NoneFailed(results);
    AcceptedLength(chars, results);
    forall i | 0 <= i < |chars|
      ensures Accepted(chars, results)[i] == ToByte(chars[i])
    {
      NoneFailed(results[..i]);
      AcceptedInOrder(chars, results, i);
    }
  }

  method PutOne(s: WriteStream, ch: int, ghost was: seq<Byte>, ghost taken: seq<Byte>) returns (r: int)
    requires s.Valid() && s.Written() == was + taken
    modifies s, s.buf
    ensures s.Valid() && s.buf == old(s.buf) && (r == ToByte(ch) || r == EOF)
    ensures s.Written() == was + (taken + if r == EOF then [] else [ToByte(ch)])
  {
    hide WriteStream.Written, ToByte;
    r := s.PutC(ch);
    assert (was + taken) + [ToByte(ch)] == was + (taken + [ToByte(ch)]);
    assert taken + [] == taken;
  }

  /** For any characters and any overflow points, what the sink got followed by
      what is pending is what was accepted, in order. */
  method Puts(s: WriteStream, chars: seq<int>) returns (results: seq<int>)
    requires s.Valid()
    modifies s, s.buf
    ensures s.Valid() && |results| == |chars|
    ensures forall i | 0 <= i < |chars| :: results[i] == ToByte(chars[i]) || results[i] == EOF
    ensures s.sink + s.Pending() == old(s.Written()) + Accepted(chars, results)
  {
    results := [];
    ghost var was, taken := s.Written(), [];
    assert was + [] == was;
    for i := 0 to |chars|
      invariant s.Valid() && s.buf == old(s.buf) && |results| == i
      invariant forall k | 0 <= k < i :: results[k] == ToByte(chars[k]) || results[k] == EOF
      invariant s.Written() == was + taken && taken == Accepted(chars[..i], results)
    {
      hide ToByte, Accepted, WriteStream.Written;
      var r := PutOne(s, chars[i], was, taken);
      AcceptedTake(chars, results, i, r);
      results := results + [r];
      taken := Accepted(chars[..i + 1], results);
    }
    assert chars[..|chars|] == chars;
  }

  lemma AcceptedTake(chars: seq<int>, results: seq<int>, i: nat, r: int)
    requires i < |chars| && |results| == i
    ensures Accepted(chars[..i + 1], results + [r])
         == Accepted(chars[..i], results) + (if r == EOF then [] else [ToByte(chars[i])])
  {
    AcceptedNext(chars[..i], results, chars[i], r);
    assert chars[..i + 1] == chars[..i] + [chars[i]];
  }
}
