/** How `compile` in regexp.h prepares its buffers and reads the pattern. */
module PatternReader {
  import opened Align
  import opened FlatMemory
  import opened Prelude

  // ---------- The expression buffer ----------

  /** Where the compiled pattern goes, or None for ERROR (50). */
  datatype Layout = Layout(exprPtr: int, buffer: int, space: int)

  function Prepare(expbuf: int, endbuf: int, req: nat, regexSize: nat): Option<Layout>
    requires req > 0
  {
    var p := expbuf + req;
    var q := p - p % req;
    if endbuf < q + regexSize then None
    else Some(Layout(q, q + regexSize, endbuf - (q + regexSize)))
  }

  /** q is the least aligned address strictly above expbuf. */
  ghost predicate IsPlaced(expbuf: int, req: nat, q: int)
    requires req > 0
  {
    IsLeastOnGrid(0, expbuf + 1, req, q)
  }

  /** The object is placed at the least aligned address strictly above expbuf,
      with what is left of the buffer behind it; the call fails exactly when the
      object does not fit at that address. */
  lemma PrepareLeastAbove(expbuf: int, endbuf: int, req: nat, regexSize: nat)
    requires req > 0
    ensures exists q :: IsPlaced(expbuf, req, q)
    ensures match Prepare(expbuf, endbuf, req, regexSize)
            case Some(l) =>
              && IsPlaced(expbuf, req, l.exprPtr)
              && l.buffer == l.exprPtr + regexSize && 0 <= l.space == endbuf - l.buffer
            case None => forall q :: IsPlaced(expbuf, req, q) ==> endbuf < q + regexSize
  {
    var p := expbuf + req;
    var r := p - p % req;
    RoundDown(p, req);
    forall q | expbuf + 1 <= q && OnGrid(0, q, req)
      ensures r <= q
    {
      if q < r {
        GridGap(0, q, r, req);
      }
    }
    assert IsPlaced(expbuf, req, r);
  }

  // ---------- Stack memory ----------

  predicate Untouched(mem: Memory, p: int, n: int) {
    forall a :: p <= a < p + n ==> a !in mem
  }

  lemma {:induction false} AddressAbove(keys: set<int>) returns (top: nat)
    ensures top > 0 && forall a | a in keys :: a < top
  {
    if k :| k in keys {
      top := AddressAbove(keys - {k});
      top := if k < top then top else k + 1;
      assert forall a | a in keys :: a == k || a in keys - {k};
    } else {
      top := 1;
    }
  }

  /** `alloca`: room anywhere that was not allocated, holding whatever bytes. */
  method Alloca(mem: Memory, size: nat) returns (room: int, mem': Memory)
    ensures room > 0 && Untouched(mem, room, size) && Covers(mem', room, room + size)
    ensures forall a :: a in mem ==> a in mem' && mem'[a] == mem[a]
  {
    ghost var top := AddressAbove(mem.Keys);
    assert Untouched(mem, top, size);
    room :| room > 0 && Untouched(mem, room, size);
    assert Untouched(mem, room, size);
    mem' := mem;
    for i := 0 to size
      invariant Covers(mem', room, room + i)
      invariant forall a :: a in mem ==> a in mem' && mem'[a] == mem[a]
    {
      var b: Byte := *;
      mem' := mem'[room + i := b];
    }
  }

  /** Allocated bytes and fresh room do not overlap. */
  lemma Apart(mem: Memory, p: int, n: nat, q: int, m: nat)
    requires Covers(mem, p, p + n) && Untouched(mem, q, m) && n > 0 && m > 0
    ensures p + n <= q || q + m <= p
  {
    assert Max(p, q) in mem || p + n <= q || q + m <= p;
  }

  /** `memcpy`: both areas allocated, and not overlapping. */
  function Memcpy(mem: Memory, to: int, from: int, n: nat): Memory
    requires Covers(mem, to, to + n) && Covers(mem, from, from + n)
    requires to + n <= from || from + n <= to
  {
    map a | a in mem ::
      if to <= a < to + n then (assert from <= a - to + from < from + n; mem[a - to + from]) else mem[a]
  }

  function Store(mem: Memory, p: int, b: Byte): Memory
    requires Covers(mem, p, p + 1)
  {
    mem[p := b]
  }

  // ---------- The reading loop ----------

  /** GETC, over an input that answers eof once it is used up. */
  function GetC(input: seq<int>, pos: nat, eof: int): int {
    if pos < |input| then input[pos] else eof
  }

  predicate Ends(c: int, eof: int) {
    c == eof || c == 0 || c == 10
  }

  /** The index of the character that ends the pattern. */
  function PatternEnd(input: seq<int>, eof: int, from: nat): (end: nat)
    requires from <= |input|
    ensures from <= end <= |input|
    ensures end < |input| ==> input[end] == eof || input[end] == 0 || input[end] == '\n' as int
    ensures forall i | from <= i < end :: input[i] != eof && input[i] != 0 && input[i] != '\n' as int
    decreases |input| - from
  {
    if Ends(GetC(input, from, eof), eof) then from else PatternEnd(input, eof, from + 1)
  }

  /** The first n characters as they are stored. */
  function Text(input: seq<int>, n: nat): (text: seq<Byte>)
    requires n <= |input|
  {
    seq(n, i requires 0 <= i < n => ToByte(input[i]))
  }

  /** A buffer holding the text holds the characters read, each as it is if it fits
      in a byte and else reduced modulo 256; and a NUL behind them. */
  lemma HoldsInput(mem: Memory, p: int, input: seq<int>, n: nat, i: nat)
    requires i < n <= |input| && Holds(mem, p, Text(input, n) + [0])
    ensures p + i in mem && (mem[p + i] - input[i]) % 256 == 0 && (0 <= input[i] < 256 ==> mem[p + i] == input[i])
    ensures p + n in mem && mem[p + n] == 0
  {
    var bytes := Text(input, n) + [0];
    assert bytes[p + i - p] == ToByte(input[i]) && bytes[p + n - p] == 0;
  }

  lemma StoreNext(mem: Memory, p: int, bytes: seq<Byte>, b: Byte, size: nat)
    requires Holds(mem, p, bytes) && Covers(mem, p, p + size) && |bytes| < size
    ensures Covers(mem, p + |bytes|, p + |bytes| + 1)
    ensures Holds(Store(mem, p + |bytes|, b), p, bytes + [b])
    ensures Covers(Store(mem, p + |bytes|, b), p, p + size)
  {
  }

  lemma TextNext(input: seq<int>, n: nat)
    requires n < |input|
    ensures Text(input, n + 1) == Text(input, n) + [ToByte(input[n])]
  {
  }

  /** More room for a buffer holding `text`: just below it, just above it, or
      apart from it; only in the last case is the old room given up. */
  method Enlarge(mem: Memory, buffer: int, size: nat, ghost text: seq<Byte>, count: nat)
    returns (mem': Memory, buffer': int, size': nat, taken: nat)
    requires Covers(mem, buffer, buffer + size) && Holds(mem, buffer, text)
    requires |text| == count <= size && (size == 0 ==> buffer == 0)
    ensures Covers(mem', buffer', buffer' + size') && Holds(mem', buffer', text)
    ensures size == 0 ==> size' == 128 == taken
    ensures size > 0 ==> taken == 2 * size && (size' == 2 * size || size' == 3 * size)
  {
    var newSize := if size != 0 then 2 * size else 128;
    var newRoom;
    newRoom, mem' := Alloca(mem, newSize);
    taken := newSize;
    if count > 0 {
      Apart(mem, buffer, count, newRoom, newSize);
    }
    if newRoom + newSize == buffer {
      size' := size + newSize;
      mem' := Memcpy(mem', newRoom, buffer, count);
      buffer' := newRoom;
    } else if buffer + size == newRoom {
      size' := size + newSize;
      buffer' := buffer;
    } else {
      size' := newSize;
      mem' := Memcpy(mem', newRoom, buffer, count);
      buffer' := newRoom;
    }
  }

  /** The buffer holds the text, with room for one byte more unless it is new. */
  ghost predicate BufferOK(mem: Memory, buffer: int, size: nat, text: seq<Byte>) {
    && Covers(mem, buffer, buffer + size)
    && Holds(mem, buffer, text)
    && if text == [] then size == buffer == 0 else |text| < size
  }

  /** One turn of the loop: make room when only the NUL's place is left, store. */
  method StoreChar(mem: Memory, buffer: int, size: nat, ghost text: seq<Byte>, count: nat, ch: int)
    returns (mem': Memory, buffer': int, size': nat, taken: nat)
    requires BufferOK(mem, buffer, size, text) && count == |text|
    ensures BufferOK(mem', buffer', size', text + [ToByte(ch)])
    ensures || (count + 1 < size && size' == size && taken == 0)
            || (size == 0 && size' == 128 == taken)
            || (size == count + 1 > 0 && taken == 2 * size && (size' == 2 * size || size' == 3 * size))
  {
    mem', buffer', size', taken := mem, buffer, size, 0;
    if count + 1 >= size {
      mem', buffer', size', taken := Enlarge(mem, buffer, size, text, count);
    }
    StoreNext(mem', buffer', text, ToByte(ch), size');
    mem' := Store(mem', buffer' + count, ToByte(ch));
  }

  /** The loop of `compile`: whatever rooms alloca returns, the buffer ends up
      holding exactly the characters before the end, and a NUL, in bounds; the
      buffer has at most max(128, 3n) bytes and alloca gave at most twice that.
      An ending NUL or newline is put back. A null result stands for "". */
  method ReadPattern(input: seq<int>, eof: int)
    returns (buffer: int, size: nat, count: nat, mem: Memory, total: nat, pos: nat)
    ensures var n := PatternEnd(input, eof, 0);
            && (n < |input| ==> input[n] == eof || input[n] == 0 || input[n] == '\n' as int)
            && (forall i | 0 <= i < n :: input[i] != eof && input[i] != 0 && input[i] != '\n' as int)
            && (n > 0 ==> count == n + 1 <= size && Covers(mem, buffer, buffer + size)
                          && Holds(mem, buffer, Text(input, n) + [0]))
            && (n == 0 ==> buffer == 0 && count == 0 && size == 0)
            && size <= Max(128, 3 * n) && total <= 2 * size
            && pos == if n < |input| && input[n] == eof then n + 1 else n
  {
    buffer, size, count, mem, total, pos := 0, 0, 0, map[], 0, 0;
    ghost var n := PatternEnd(input, eof, 0);
    var ch := GetC(input, pos, eof);
    if pos < |input| { pos := pos + 1; }
    while ch != eof
      invariant count <= n && ch == GetC(input, count, eof)
      invariant pos == if count < |input| then count + 1 else count
      invariant BufferOK(mem, buffer, size, Text(input, count))
      invariant size <= Max(128, 3 * count) && total <= 2 * size
      decreases |input| - count
    {
      if ch == 0 || ch == 10 {
        pos := pos - 1;
        break;
      }
      var taken;
      mem, buffer, size, taken := StoreChar(mem, buffer, size, Text(input, count), count, ch);
      TextNext(input, count);
      total := total + taken;
      count := count + 1;
      ch := GetC(input, pos, eof);
      if pos < |input| { pos := pos + 1; }
    }
    if count != 0 {
      StoreNext(mem, buffer, Text(input, count), 0, size);
      mem := Store(mem, buffer + count, 0);
      count := count + 1;
    } else {
      buffer := 0;
    }
  }

  // ---------- What regcomp sees ----------

  /** The length of the C string starting a byte sequence that holds a NUL. */
  function StringLength(bytes: seq<Byte>): (n: nat)
    requires 0 in bytes
    ensures n < |bytes| && bytes[n] == 0 && forall i | 0 <= i < n :: bytes[i] != 0
  {
    if bytes[0] == 0 then 0 else 1 + StringLength(bytes[1..])
  }

  /** The C string in the buffer is the whole pattern exactly when no character
      read is a nonzero multiple of 256, which would be stored as a NUL. */
  lemma {:induction false} WholePatternSeen(text: seq<int>)
    requires forall i | 0 <= i < |text| :: text[i] != 0
    ensures StringLength(Text(text, |text|) + [0]) == |text|
       <==> forall i | 0 <= i < |text| :: text[i] % 256 != 0
  {
    var bytes := Text(text, |text|) + [0];
    if text != [] {
      WholePatternSeen(text[1..]);
      assert bytes[1..] == Text(text[1..], |text| - 1) + [0];
      assert bytes[0] == text[0] % 256;
      assert forall i | 0 <= i < |text| - 1 :: text[1..][i] == text[i + 1];
      if StringLength(bytes) == |text| {
        forall i | 0 <= i < |text|
          ensures text[i] % 256 != 0
        {
          assert i > 0 ==> text[1..][i - 1] == text[i];
        }
      }
    }
  }

  /** A pattern of the single character 256 is seen as empty. */
  lemma PatternCutShort()
    ensures PatternEnd([256], -1, 0) == 1
    ensures Text([256], 1) + [0] == [0, 0] && StringLength(Text([256], 1) + [0]) == 0
  {
    var bytes := Text([256], 1) + [0];
    assert bytes[0] == 0;
  }
}
