// The chunked transfer coding (RFC 9112, section 7.1), as it is written without compression and
// read back.
module Chunked {
  import opened Wrappers
  import opened Hex

  const CR: Byte := 13
  const LF: Byte := 10
  const CRLF: seq<Byte> := [13, 10]
  const LAST_CHUNK: seq<Byte> := [48, 13, 10]

  const ULONG_MAX := 0xFFFF_FFFF_FFFF_FFFF
  const RECV_BUFSIZ := 16384
  const HEADER_MAX_LENGTH := 8192

  // ---------- lines ----------

  // The length of the first line, given the byte before it; the last line may lack its end.
  function LineLength(prev: Byte, data: seq<Byte>): (n: nat)
    ensures n <= |data| && (data != [] ==> n > 0)
    decreases |data|
  {
    if data == [] then 0
    else if prev == CR && data[0] == LF then 1
    else 1 + LineLength(data[0], data[1..])
  }

  function FirstLine(data: seq<Byte>): seq<Byte> {
    data[..LineLength(0, data)]
  }

  predicate EndsLine(data: seq<Byte>, k: nat)
    requires k <= |data|
  {
    k >= 2 && data[k - 2] == CR && data[k - 1] == LF
  }

  lemma {:induction false} LineLengthFrom(prev: Byte, data: seq<Byte>)
    ensures var n := LineLength(prev, data); var all := [prev] + data;
            && (forall k: nat | 2 <= k <= n :: !EndsLine(all, k))
            && (n < |data| ==> EndsLine(all, n + 1))
    decreases |data|
  {
    if data != [] && !(prev == CR && data[0] == LF) {
      var n := LineLength(prev, data);
      var all := [prev] + data;
      var tail := [data[0]] + data[1..];
      LineLengthFrom(data[0], data[1..]);
      assert tail == all[1..];
      forall k: nat | 2 <= k <= n ensures !EndsLine(all, k) {
        if k > 2 { assert !EndsLine(tail, k - 1); }
      }
    }
  }

  // The first line ends at the first CR LF, or is everything when there is none.
  lemma FirstLineEndsFirst(data: seq<Byte>)
    ensures var n := |FirstLine(data)|;
            && (forall k: nat | k < n :: !EndsLine(data, k))
            && (n < |data| ==> EndsLine(data, n))
  {
    LineLengthFrom(0, data);
    var n := LineLength(0, data);
    forall k: nat | k < n ensures !EndsLine(data, k) {
      if k >= 2 { assert !EndsLine([0] + data, k + 1); }
    }
    if n < |data| { assert EndsLine([0] + data, n + 1); }
  }

  // ---------- the stream and its lines ----------

  class Stream {
    var rest: seq<Byte>
    var calls: nat
    // How much more than one byte the k-th read is ready to return; below zero it fails.
    const ready: nat -> int

    constructor (data: seq<Byte>, ready: nat -> int)
      ensures rest == data && this.ready == ready
    {
      rest := data;
      calls := 0;
      this.ready := ready;
    }

    ghost predicate Healthy() {
      forall k :: ready(k) >= 0
    }

    method Read(size: nat) returns (n: int, bytes: seq<Byte>)
      requires size > 0
      modifies this
      ensures Healthy() ==> n >= 0
      ensures n < 0 ==> bytes == [] && rest == old(rest)
      ensures n >= 0 ==> n == |bytes| <= size && (n == 0 <==> old(rest) == [])
      ensures old(rest) == bytes + rest
    {
      var more := ready(calls);
      calls := calls + 1;
      if more < 0 {
        return -1, [];
      }
      n := if more + 1 < size then more + 1 else size;
      n := if |rest| < n then |rest| else n;
      bytes := rest[..n];
      rest := rest[n..];
    }
  }

  // A line is kept in the fixed buffer as long as it fits with its closing zero byte.
  class LineReader {
    const strm: Stream
    const fixed: array<Byte>
    var used: nat
    var growable: seq<Byte>

    ghost predicate Valid()
      reads this, fixed
    {
      && used < fixed.Length && 2 <= fixed.Length
      && (growable != [] ==> used == fixed.Length - 1)
      && (used > 0 ==> fixed[used] == 0)
    }

    function Line(): seq<Byte>
      requires used <= fixed.Length
      reads this, fixed
    {
      if growable == [] then fixed[..used] else growable
    }

    constructor (strm: Stream, fixed: array<Byte>)
      requires fixed.Length >= 2
      ensures Valid() && Line() == [] && this.strm == strm && this.fixed == fixed
    {
      this.strm := strm;
      this.fixed := fixed;
      used := 0;
      growable := [];
    }

    method Append(c: Byte)
      requires Valid()
      modifies this, fixed
      ensures Valid() && Line() == old(Line()) + [c]
    {
      if used < fixed.Length - 1 {
        fixed[used] := c;
        used := used + 1;
        fixed[used] := 0;
      } else {
        if growable == [] {
          assert fixed[used] == 0;
          growable := fixed[..used];
        }
        growable := growable + [c];
      }
    }

    // Reads byte by byte up to the first CR LF; false when there is nothing to read.
    method Getline() returns (ok: bool)
      requires Valid()
      modifies this, fixed, strm
      ensures Valid()
      ensures ok ==> Line() == FirstLine(old(strm.rest)) != [] && old(strm.rest) == Line() + strm.rest
      ensures strm.Healthy() ==> (ok <==> old(strm.rest) != [])
      ensures !ok && strm.Healthy() ==> strm.rest == []
    {
      used := 0;
      growable := [];
      var prevByte: Byte := 0;
      ghost var data := strm.rest;
      assert AtByte(data, [], 0, strm.rest);
      hide LineLength, FirstLine, AtByte;
      while true
        invariant Valid()
        invariant AtByte(data, Line(), prevByte, strm.rest)
        decreases |strm.rest|
      {
        ghost var line, rest := Line(), strm.rest;
        var n, bytes := strm.Read(1);
        if n < 0 {
          return false;
        } else if n == 0 {
          if Line() == [] {
            return false;
          }
          LineIsDone(data, line, prevByte);
          return true;
        }
        Append(bytes[0]);
        assert rest == [bytes[0]] + strm.rest;
        LineGoesOn(data, line, prevByte, bytes[0], strm.rest);
        if prevByte == CR && bytes[0] == LF {
          return true;
        }
        prevByte := bytes[0];
      }
    }
  }

  // Reading the first line of `data`: `line` was read, `prev` last, and `rest` is left.
  ghost predicate AtByte(data: seq<Byte>, line: seq<Byte>, prev: Byte, rest: seq<Byte>) {
    data == line + rest && LineLength(0, data) == |line| + LineLength(prev, rest)
  }

  lemma LineIsDone(data: seq<Byte>, line: seq<Byte>, prev: Byte)
    requires AtByte(data, line, prev, []) && line != []
    ensures FirstLine(data) == line != []
  {
    assert data == line;
  }

  lemma LineGoesOn(data: seq<Byte>, line: seq<Byte>, prev: Byte, c: Byte, rest: seq<Byte>)
    requires AtByte(data, line, prev, [c] + rest)
    ensures data == (line + [c]) + rest
    ensures if prev == CR && c == LF then FirstLine(data) == line + [c] else AtByte(data, line + [c], c, rest)
  {
    assert ([c] + rest)[1..] == rest;
    assert data == (line + [c]) + rest;
  }

  // ---------- numbers in front of a line: strtoul with base 16 ----------

  // A line as the C functions see it: up to the first zero byte.
  function CString(line: seq<Byte>): seq<Byte>
    decreases |line|
  {
    if line == [] || line[0] == 0 then [] else [line[0]] + CString(line[1..])
  }

  predicate IsSpace(c: Byte) {
    c == 32 || 9 <= c <= 13
  }

  function SpaceEnd(s: seq<Byte>, i: nat): (e: nat)
    requires i <= |s|
    ensures i <= e <= |s|
    decreases |s| - i
  {
    if i < |s| && IsSpace(s[i]) then SpaceEnd(s, i + 1) else i
  }

  function DigitEnd(s: seq<Byte>, i: nat): (e: nat)
    requires i <= |s|
    ensures i <= e <= |s| && forall j | i <= j < e :: DigitValue(s[j]).Some?
    decreases |s| - i
  {
    if i < |s| && DigitValue(s[i]).Some? then DigitEnd(s, i + 1) else i
  }

  // The value read and where reading stopped; a stop at 0 means that there was no number.
  datatype Number = Number(value: nat, end: nat)

  function StrToUL(s: seq<Byte>): (r: Number)
    ensures r.value <= ULONG_MAX
  {
    var i := SpaceEnd(s, 0);
    var signed := i < |s| && s[i] in {43, 45};
    var j := if signed then i + 1 else i;
    var prefixed := j + 2 < |s| && s[j] == 48 && s[j + 1] in {88, 120} && DigitValue(s[j + 2]).Some?;
    var k := if prefixed then j + 2 else j;
    var e := DigitEnd(s, k);
    match Value(s[k..e])
    case None => Number(0, 0)
    case Some(v) =>
      if e == k then Number(0, 0)
      else if v > ULONG_MAX then Number(ULONG_MAX, e)
      else if signed && s[i] == 45 && v > 0 then Number(ULONG_MAX + 1 - v, e)
      else Number(v, e)
  }

  // ---------- reading ----------

  datatype Outcome = Outcome(ok: bool, body: seq<Byte>, rest: seq<Byte>)

  function Prepend(body: seq<Byte>, o: Outcome): Outcome {
    o.(body := body + o.body)
  }

  // From the line after the last chunk on: trailer lines up to an empty line.
  function AfterLastChunk(data: seq<Byte>): Outcome {
    if data == [] then Outcome(true, [], [])
    else TrailersFrom(FirstLine(data), data[|FirstLine(data)|..])
  }

  function TrailersFrom(line: seq<Byte>, rest: seq<Byte>): Outcome
    decreases |rest|
  {
    if CString(line) == CRLF then Outcome(true, [], rest)
    else if |line| > HEADER_MAX_LENGTH then Outcome(false, [], rest)
    else if rest == [] then Outcome(false, [], [])
    else TrailersFrom(FirstLine(rest), rest[|FirstLine(rest)|..])
  }

  function ChunksFrom(line: seq<Byte>, rest: seq<Byte>): Outcome
    decreases |rest|
  {
    var size := StrToUL(CString(line));
    if size.end == 0 || size.value == ULONG_MAX then Outcome(false, [], rest)
    else if size.value == 0 then AfterLastChunk(rest)
    else if |rest| < size.value then Outcome(false, rest, [])
    else Prepend(rest[..size.value], AfterChunk(rest[size.value..]))
  }

  function AfterChunk(data: seq<Byte>): Outcome
    decreases |data|
  {
    if data == [] then Outcome(false, [], [])
    else
      var next := data[|FirstLine(data)|..];
      if CString(FirstLine(data)) != CRLF then Outcome(false, [], next)
      else Decoded(next)
  }

  function Decoded(data: seq<Byte>): Outcome
    decreases |data|
  {
    if data == [] then Outcome(false, [], [])
    else ChunksFrom(FirstLine(data), data[|FirstLine(data)|..])
  }

  method ReadContentWithLength(strm: Stream, len: nat) returns (ok: bool, got: seq<Byte>)
    modifies strm
    ensures old(strm.rest) == got + strm.rest
    ensures ok ==> |got| == len
    ensures strm.Healthy() ==> (ok <==> |old(strm.rest)| >= len)
    ensures strm.Healthy() && !ok ==> strm.rest == []
  {
    got := [];
    var r := 0;
    while r < len
      invariant r == |got| <= len && old(strm.rest) == got + strm.rest
    {
      var left := len - r;
      var n, buf := strm.Read(if left < RECV_BUFSIZ then left else RECV_BUFSIZ);
      if n <= 0 {
        return false, got;
      }
      got := got + buf;
      r := r + n;
    }
    return true, got;
  }

  // Reads on to the next size line: the chunk, its end, and the line.
  method ReadChunk(strm: Stream, lines: LineReader, size: nat) returns (ok: bool, got: seq<Byte>)
    requires lines.Valid() && lines.strm == strm && 0 < size < ULONG_MAX
    requires StrToUL(CString(lines.Line())).value == size && StrToUL(CString(lines.Line())).end > 0
    modifies strm, lines, lines.fixed
    ensures lines.Valid() && (ok ==> |strm.rest| < |old(strm.rest)|)
    ensures strm.Healthy() ==>
              ChunksFrom(old(lines.Line()), old(strm.rest)) ==
              Prepend(got, if ok then ChunksFrom(lines.Line(), strm.rest) else Outcome(false, [], strm.rest))
  {
    hide CString, StrToUL, FirstLine;
    ghost var data := strm.rest;
    var more;
    more, got := ReadContentWithLength(strm, size);
    assert got + [] == got;
    if !more {
      return false, got;
    }
    assert got == data[..size] && strm.rest == data[size..];
    ghost var end := strm.rest;
    more := lines.Getline();
    if !more {
      return false, got;
    }
    assert strm.rest == end[|FirstLine(end)|..];
    if CString(lines.Line()) != CRLF {
      return false, got;
    }
    ghost var next := strm.rest;
    assert AfterChunk(end) == Decoded(next);
    more := lines.Getline();
    if !more {
      return false, got;
    }
    assert strm.rest == next[|FirstLine(next)|..];
    return true, got;
  }

  // Trailer fields are passed over.
  method ReadTrailers(strm: Stream, lines: LineReader) returns (ok: bool)
    requires lines.Valid() && lines.strm == strm
    modifies strm, lines, lines.fixed
    ensures strm.Healthy() ==> Outcome(ok, [], strm.rest) == AfterLastChunk(old(strm.rest))
  {
    hide CString, FirstLine;
    ghost var data := strm.rest;
    var more := lines.Getline();
    if !more {
      return true;
    }
    assert strm.rest == data[|FirstLine(data)|..];
    while CString(lines.Line()) != CRLF
      invariant lines.Valid()
      invariant strm.Healthy() ==> AfterLastChunk(data) == TrailersFrom(lines.Line(), strm.rest)
      decreases |strm.rest|
    {
      if |lines.Line()| > HEADER_MAX_LENGTH {
        return false;
      }
      ghost var next := strm.rest;
      more := lines.Getline();
      if !more {
        return false;
      }
      assert strm.rest == next[|FirstLine(next)|..];
    }
    return true;
  }

  method ReadContentChunked(strm: Stream) returns (ok: bool, body: seq<Byte>)
    modifies strm
    ensures strm.Healthy() ==> Outcome(ok, body, strm.rest) == Decoded(old(strm.rest))
  {
    hide CString, StrToUL, FirstLine, AfterLastChunk, AfterChunk, Prepend;
    var buf := new Byte[16];
    var lines := new LineReader(strm, buf);
    ghost var data := strm.rest;
    body := [];
    ok := lines.Getline();
    if !ok {
      return false, [];
    }
    assert strm.rest == data[|FirstLine(data)|..];
    PrependToEmpty(ChunksFrom(lines.Line(), strm.rest));
    var size;
    while true
      invariant lines.Valid() && lines.strm == strm && lines.fixed == buf && fresh(lines) && fresh(buf)
      invariant strm.Healthy() ==> Decoded(data) == Prepend(body, ChunksFrom(lines.Line(), strm.rest))
      decreases |strm.rest|
    {
      size := StrToUL(CString(lines.Line()));
      if size.end == 0 || size.value == ULONG_MAX {
        PrependNothing(body, false, strm.rest);
        return false, body;
      }
      if size.value == 0 {
        break;
      }
      ghost var line, rest := lines.Line(), strm.rest;
      var got;
      ok, got := ReadChunk(strm, lines, size.value);
      PrependTwice(body, got, ChunksFrom(lines.Line(), strm.rest));
      PrependTwice(body, got, Outcome(false, [], strm.rest));
      body := body + got;
      if !ok {
        PrependNothing(body, false, strm.rest);
        return false, body;
      }
    }
    ok := ReadTrailers(strm, lines);
    PrependNothing(body, ok, strm.rest);
  }

  lemma PrependTwice(a: seq<Byte>, b: seq<Byte>, o: Outcome)
    ensures Prepend(a, Prepend(b, o)) == Prepend(a + b, o)
  {
    assert a + (b + o.body) == (a + b) + o.body;
  }

  lemma PrependToEmpty(o: Outcome)
    ensures Prepend([], o) == o
  {}

  lemma PrependNothing(a: seq<Byte>, ok: bool, rest: seq<Byte>)
    ensures Prepend(a, Outcome(ok, [], rest)) == Outcome(ok, a, rest)
  {
    assert a + [] == a;
  }

  // ---------- writing ----------

  // What the content provider does in one call: write, or say that it is done.
  datatype Call = Write(data: seq<Byte>) | Done

  function Chunk(data: seq<Byte>): seq<Byte> {
    if data == [] then [] else Numeral(|data|) + CRLF + data + CRLF
  }

  function Sent(c: Call): seq<Byte> {
    match c
    case Done => LAST_CHUNK + CRLF
    case Write(data) => Chunk(data)
  }

  // A write of nothing ends the transfer too, but sends nothing.
  predicate GoesOn(c: Call) {
    c.Write? && c.data != []
  }

  function Written(calls: seq<Call>): seq<Byte> {
    if calls == [] then []
    else Sent(calls[0]) + if GoesOn(calls[0]) then Written(calls[1..]) else []
  }

  function Payload(calls: seq<Call>): seq<Byte> {
    if calls == [] || !GoesOn(calls[0]) then [] else calls[0].data + Payload(calls[1..])
  }

  // Writes that are not empty, and then done.
  predicate EndsProperly(calls: seq<Call>) {
    calls != [] && (calls[0].Done? || (GoesOn(calls[0]) && EndsProperly(calls[1..])))
  }

  class ChunkSink {
    var sent: seq<Byte>
    var dataAvailable: bool
    var offset: nat

    constructor ()
      ensures sent == [] && dataAvailable && offset == 0
    {
      sent, dataAvailable, offset := [], true, 0;
    }

    method Send(d: seq<Byte>)
      modifies this
      ensures sent == old(sent) + Chunk(d) && dataAvailable == (d != []) && offset == old(offset) + |d|
    {
      dataAvailable := |d| > 0;
      offset := offset + |d|;
      var payload := d;
      if payload != [] {
        var size := FromIToHex(|payload|);
        sent := sent + (size + CRLF + payload + CRLF);
      }
    }

    method Finish()
      modifies this
      ensures sent == old(sent) + (LAST_CHUNK + CRLF) && !dataAvailable && offset == old(offset)
    {
      dataAvailable := false;
      sent := sent + LAST_CHUNK;
      sent := sent + CRLF;
    }

    method Call(c: Call)
      modifies this
      ensures sent == old(sent) + Sent(c) && dataAvailable == GoesOn(c)
    {
      match c
      case Write(d) => Send(d);
      case Done => Finish();
    }
  }

  lemma WrittenFrom(calls: seq<Call>, i: nat)
    requires i < |calls|
    ensures Written(calls[i..]) == Sent(calls[i]) + if GoesOn(calls[i]) then Written(calls[i + 1..]) else []
  {
    assert calls[i..][1..] == calls[i + 1..];
  }

  // Calls the provider until it is done; `calls` is what it does when called again and again.
  method WriteContentChunked(calls: seq<Call>) returns (sent: seq<Byte>)
    ensures sent == Written(calls)
  {
    var sink := new ChunkSink();
    var i := 0;
    ghost var left := Written(calls);
    assert calls[0..] == calls && [] + left == left;
    assert Written(calls[|calls|..]) == [];
    hide Written, Sent, GoesOn;
    while sink.dataAvailable && i < |calls|
      invariant i <= |calls| && fresh(sink)
      invariant left == if sink.dataAvailable then Written(calls[i..]) else []
      invariant Written(calls) == sink.sent + left
      decreases |calls| - i
    {
      WrittenFrom(calls, i);
      left := if GoesOn(calls[i]) then Written(calls[i + 1..]) else [];
      Reassociate(sink.sent, Sent(calls[i]), left);
      sink.Call(calls[i]);
      i := i + 1;
    }
    assert left == [] && sink.sent + [] == sink.sent;
    sent := sink.sent;
  }

  lemma Reassociate(a: seq<Byte>, b: seq<Byte>, c: seq<Byte>)
    ensures a + (b + c) == (a + b) + c
  {}

  // ---------- what is written is read back ----------

  lemma {:induction false} LineOf(prev: Byte, s: seq<Byte>, rest: seq<Byte>)
    requires forall c | c in s :: c != CR && c != LF
    requires prev != CR
    ensures LineLength(prev, s + CRLF + rest) == |s| + 2
    decreases |s|
  {
    var data := s + CRLF + rest;
    if s == [] {
      assert data[1..][0] == LF;
    } else {
      assert s[0] in s && forall c | c in s[1..] :: c in s;
      LineOf(s[0], s[1..], rest);
      assert data[1..] == s[1..] + CRLF + rest;
    }
  }

  lemma {:induction false} NumeralDigits(n: nat)
    ensures forall c | c in Numeral(n) :: DigitValue(c).Some?
  {
    NumeralStandsFor(n);
    DigitsHaveValue(Numeral(n));
  }

  lemma {:induction false} NoZeros(s: seq<Byte>)
    requires 0 !in s
    ensures CString(s) == s
  {
    if s != [] { NoZeros(s[1..]); }
  }

  lemma {:induction false} DigitsEnd(digits: seq<Byte>, rest: seq<Byte>, i: nat)
    requires i <= |digits| && forall c | c in digits :: DigitValue(c).Some?
    requires rest != [] && DigitValue(rest[0]).None?
    ensures DigitEnd(digits + rest, i) == |digits|
    decreases |digits| - i
  {
    if i < |digits| {
      assert digits[i] in digits;
      DigitsEnd(digits, rest, i + 1);
    }
  }

  lemma DigitsArePlain(c: Byte)
    ensures DigitValue(c).Some? ==> !IsSpace(c) && c !in {0, 43, 45, 88, 120, CR, LF}
  {}

  lemma NumberInFront(n: nat, tail: seq<Byte>)
    requires n <= ULONG_MAX && tail != [] && DigitValue(tail[0]).None? && tail[0] !in {88, 120}
    ensures StrToUL(Numeral(n) + tail) == Number(n, |Numeral(n)|)
  {
    var digits := Numeral(n);
    var line := digits + tail;
    NumeralDigits(n);
    NumeralStandsFor(n);
    DigitsEnd(digits, tail, 0);
    assert line[0] == digits[0] && digits[0] in digits;
    DigitsArePlain(line[0]);
    assert 1 < |digits| ==> line[1] == digits[1] && digits[1] in digits;
    assert 1 == |digits| ==> line[1] == tail[0];
    DigitsArePlain(line[1]);
    assert line[0..|digits|] == digits;
    hide Numeral, Value, DigitValue, DigitEnd;
    assert SpaceEnd(line, 0) == 0;
  }

  lemma NumeralIsPlain(n: nat)
    ensures forall c | c in Numeral(n) :: c !in {0, CR, LF}
  {
    NumeralDigits(n);
    hide Numeral, DigitValue;
    forall c | c in Numeral(n) ensures c !in {0, CR, LF} { DigitsArePlain(c); }
  }

  lemma SizeLineComesFirst(n: nat, rest: seq<Byte>)
    ensures FirstLine(Numeral(n) + CRLF + rest) == Numeral(n) + CRLF
  {
    NumeralIsPlain(n);
    hide Numeral, LineLength;
    LineOf(0, Numeral(n), rest);
    assert (Numeral(n) + CRLF + rest)[..|Numeral(n)| + 2] == Numeral(n) + CRLF;
  }

  // The size line of a chunk is read as the size.
  lemma SizeLine(n: nat, rest: seq<Byte>)
    requires n <= ULONG_MAX
    ensures FirstLine(Numeral(n) + CRLF + rest) == Numeral(n) + CRLF
    ensures StrToUL(CString(Numeral(n) + CRLF)) == Number(n, |Numeral(n)|)
  {
    NumeralIsPlain(n);
    hide Numeral, StrToUL, CString, FirstLine;
    SizeLineComesFirst(n, rest);
    DigitsArePlain(CR);
    NumberInFront(n, CRLF);
    NoZeros(Numeral(n) + CRLF);
  }

  lemma EmptyLine(rest: seq<Byte>)
    ensures FirstLine(CRLF + rest) == CRLF && CString(CRLF) == CRLF
  {
    LineOf(0, [], rest);
    assert [] + CRLF + rest == CRLF + rest;
    NoZeros(CRLF);
  }

  lemma ReadSizeLine(line: seq<Byte>, behind: seq<Byte>)
    requires FirstLine(line + behind) == line != []
    ensures Decoded(line + behind) == ChunksFrom(line, behind)
  {
    hide FirstLine, ChunksFrom;
    assert (line + behind)[|line|..] == behind;
  }

  lemma ReadData(line: seq<Byte>, data: seq<Byte>, tail: seq<Byte>)
    requires StrToUL(CString(line)).value == |data| && StrToUL(CString(line)).end > 0 && 0 < |data| < ULONG_MAX
    ensures ChunksFrom(line, data + tail) == Prepend(data, AfterChunk(tail))
  {
    hide StrToUL, CString, AfterChunk;
    assert (data + tail)[..|data|] == data && (data + tail)[|data|..] == tail;
  }

  lemma ReadChunkEnd(rest: seq<Byte>)
    ensures AfterChunk(CRLF + rest) == Decoded(rest)
  {
    EmptyLine(rest);
    hide FirstLine, CString, Decoded;
    assert (CRLF + rest)[|CRLF|..] == rest;
  }

  // Reading one written chunk gives its bytes and goes on behind it.
  lemma ReadOneChunk(data: seq<Byte>, rest: seq<Byte>)
    requires 0 < |data| < ULONG_MAX
    ensures Decoded(Chunk(data) + rest) == Prepend(data, Decoded(rest))
  {
    var line := Numeral(|data|) + CRLF;
    var tail := CRLF + rest;
    assert Chunk(data) + rest == line + (data + tail);
    assert line != [];
    hide *;
    SizeLine(|data|, data + tail);
    ReadSizeLine(line, data + tail);
    ReadData(line, data, tail);
    ReadChunkEnd(rest);
  }

  lemma ReadLastChunk(rest: seq<Byte>)
    ensures Decoded(LAST_CHUNK + CRLF + rest) == Outcome(true, [], rest)
  {
    NothingWritten();
    hide Decoded, Numeral, Pieces, Contents, Trailers;
    ReadsEveryBody([], [], [], rest);
    assert LAST_CHUNK + CRLF + rest == [] + (Numeral(0) + [] + CRLF + ([] + CRLF + rest));
  }

  lemma NothingWritten()
    ensures Pieces([]) == [] && Contents([]) == [] && Trailers([]) == [] && Numeral(0) == [48]
  {}

  // Whatever was written is read back as far as it was sent, and the reader stops exactly
  // behind it; it succeeds exactly when the provider wrote something each time and then was done.
  lemma {:induction false} ReadsWhatWasWritten(calls: seq<Call>)
    requires forall c | c in calls && c.Write? :: |c.data| < ULONG_MAX
    ensures Decoded(Written(calls)) == Outcome(EndsProperly(calls), Payload(calls), [])
    decreases |calls|
  {
    if calls == [] {
    } else if calls[0].Done? {
      ReadLastChunk([]);
      assert LAST_CHUNK + CRLF + [] == LAST_CHUNK + CRLF;
    } else if GoesOn(calls[0]) {
      assert calls[0] in calls;
      ReadsWhatWasWritten(calls[1..]);
      ReadOneChunk(calls[0].data, Written(calls[1..]));
    }
  }

  // A properly ended body is read back in front of any other bytes, which stay unread.
  lemma {:induction false} RoundTrip(calls: seq<Call>, rest: seq<Byte>)
    requires EndsProperly(calls) && forall c | c in calls && c.Write? :: |c.data| < ULONG_MAX
    ensures Decoded(Written(calls) + rest) == Outcome(true, Payload(calls), rest)
    decreases |calls|
  {
    if calls[0].Done? {
      assert Written(calls) == LAST_CHUNK + CRLF;
      ReadLastChunk(rest);
    } else {
      var data, after := calls[0].data, Written(calls[1..]);
      assert calls[0] in calls;
      assert Written(calls) == Chunk(data) + after;
      hide Decoded, Written, Chunk;
      RoundTrip(calls[1..], rest);
      Reassociate(Chunk(data), after, rest);
      ReadOneChunk(data, after + rest);
    }
  }

  // ---------- what others may write (RFC 9112, section 7.1) ----------

  const SEMICOLON: Byte := 59

  // What may follow a size: nothing, or a semicolon and more on the same line.
  predicate IsExtension(ext: seq<Byte>) {
    (ext != [] ==> ext[0] == SEMICOLON) && forall c | c in ext :: c !in {0, CR, LF}
  }

  datatype Piece = Piece(data: seq<Byte>, ext: seq<Byte>)

  predicate IsPiece(p: Piece) {
    0 < |p.data| < ULONG_MAX && IsExtension(p.ext)
  }

  function Pieces(ps: seq<Piece>): seq<Byte> {
    if ps == [] then []
    else Numeral(|ps[0].data|) + ps[0].ext + CRLF + ps[0].data + CRLF + Pieces(ps[1..])
  }

  function Contents(ps: seq<Piece>): seq<Byte> {
    if ps == [] then [] else ps[0].data + Contents(ps[1..])
  }

  predicate IsTrailer(line: seq<Byte>) {
    0 < |line| <= HEADER_MAX_LENGTH - 2 && forall c | c in line :: c != CR && c != LF
  }

  function Trailers(lines: seq<seq<Byte>>): seq<Byte> {
    if lines == [] then [] else lines[0] + CRLF + Trailers(lines[1..])
  }

  lemma SizeLineWithExtension(n: nat, ext: seq<Byte>, rest: seq<Byte>)
    requires n <= ULONG_MAX && IsExtension(ext)
    ensures FirstLine(Numeral(n) + ext + CRLF + rest) == Numeral(n) + ext + CRLF
    ensures StrToUL(CString(Numeral(n) + ext + CRLF)) == Number(n, |Numeral(n)|)
  {
    NumeralIsPlain(n);
    LineComesFirst(Numeral(n) + ext, rest);
    hide *;
    SizeIsRead(n, ext);
  }

  lemma LineComesFirst(s: seq<Byte>, rest: seq<Byte>)
    requires forall c | c in s :: c != CR && c != LF
    ensures FirstLine(s + CRLF + rest) == s + CRLF
  {
    LineOf(0, s, rest);
    assert (s + CRLF + rest)[..|s| + 2] == s + CRLF;
  }

  lemma NoZerosInLine(n: nat, ext: seq<Byte>)
    requires IsExtension(ext)
    ensures CString(Numeral(n) + ext + CRLF) == Numeral(n) + ext + CRLF
  {
    NumeralIsPlain(n);
    hide Numeral, CString;
    NoZeros(Numeral(n) + ext + CRLF);
  }

  lemma SizeIsRead(n: nat, ext: seq<Byte>)
    requires n <= ULONG_MAX && IsExtension(ext)
    ensures StrToUL(CString(Numeral(n) + ext + CRLF)) == Number(n, |Numeral(n)|)
  {
    var s := Numeral(n) + ext;
    DigitsArePlain(CR);
    assert DigitValue(SEMICOLON).None?;
    NoZerosInLine(n, ext);
    hide Numeral, StrToUL, DigitValue, CString;
    assert (ext + CRLF)[0] == if ext != [] then SEMICOLON else CR;
    NumberInFront(n, ext + CRLF);
    assert Numeral(n) + (ext + CRLF) == s + CRLF;
  }

  lemma ReadPiece(p: Piece, rest: seq<Byte>)
    requires IsPiece(p)
    ensures Decoded(Numeral(|p.data|) + p.ext + CRLF + p.data + CRLF + rest) == Prepend(p.data, Decoded(rest))
  {
    var line := Numeral(|p.data|) + p.ext + CRLF;
    var tail := CRLF + rest;
    assert line + p.data + CRLF + rest == line + (p.data + tail);
    assert line != [];
    hide *;
    SizeLineWithExtension(|p.data|, p.ext, p.data + tail);
    ReadSizeLine(line, p.data + tail);
    ReadData(line, p.data, tail);
    ReadChunkEnd(rest);
  }

  lemma {:induction false} TrailersAreSkipped(lines: seq<seq<Byte>>, rest: seq<Byte>)
    requires forall l | l in lines :: IsTrailer(l)
    ensures AfterLastChunk(Trailers(lines) + CRLF + rest) == Outcome(true, [], rest)
    decreases |lines|
  {
    if lines == [] {
      EmptyLine(rest);
      assert [] + CRLF + rest == CRLF + rest && (CRLF + rest)[|CRLF|..] == rest;
    } else {
      var line, behind := lines[0], Trailers(lines[1..]) + CRLF + rest;
      assert line in lines && behind != [];
      assert Trailers(lines) + CRLF + rest == line + CRLF + behind;
      TrailerLine(line, behind);
      TrailersAreSkipped(lines[1..], rest);
      hide FirstLine, CString, Trailers;
      assert (line + CRLF + behind)[|line + CRLF|..] == behind;
    }
  }

  lemma TrailerLine(line: seq<Byte>, behind: seq<Byte>)
    requires IsTrailer(line)
    ensures FirstLine(line + CRLF + behind) == line + CRLF && CString(line + CRLF) != CRLF
  {
    LineComesFirst(line, behind);
    var s := line + CRLF;
    assert line[0] in line && s[0] == line[0];
    assert CRLF[0] == CR && |CRLF| == 2;
    assert s[0] != 0 ==> CString(s)[0] == s[0];
  }

  // Every body of this form is read: chunks with any extensions, the last chunk, any trailer lines
  // and an empty line; the reader stops right behind it.
  lemma {:induction false} ReadsEveryBody(ps: seq<Piece>, ext: seq<Byte>, lines: seq<seq<Byte>>, rest: seq<Byte>)
    requires (forall p | p in ps :: IsPiece(p)) && IsExtension(ext) && forall l | l in lines :: IsTrailer(l)
    ensures Decoded(Pieces(ps) + (Numeral(0) + ext + CRLF + (Trailers(lines) + CRLF + rest))) ==
            Outcome(true, Contents(ps), rest)
    decreases |ps|
  {
    var behind := Trailers(lines) + CRLF + rest;
    var end := Numeral(0) + ext + CRLF + behind;
    if ps == [] {
      SizeLineWithExtension(0, ext, behind);
      TrailersAreSkipped(lines, rest);
      hide FirstLine, StrToUL, CString, Trailers, Numeral, AfterLastChunk;
      assert [] + end == (Numeral(0) + ext + CRLF) + behind;
      ReadSizeLine(Numeral(0) + ext + CRLF, behind);
    } else {
      var p, more := ps[0], Pieces(ps[1..]);
      assert p in ps;
      assert Pieces(ps) == Numeral(|p.data|) + p.ext + CRLF + p.data + CRLF + more;
      assert Contents(ps) == p.data + Contents(ps[1..]);
      ReadsEveryBody(ps[1..], ext, lines, rest);
      hide *;
      Reassociate(Numeral(|p.data|) + p.ext + CRLF + p.data + CRLF, more, end);
      ReadPiece(p, more + end);
    }
  }

  // Without CR LF behind its bytes a chunk is rejected, and nothing of what follows is read as one.
  lemma MissingEndIsRejected(data: seq<Byte>, tail: seq<Byte>)
    requires 0 < |data| < ULONG_MAX && !(CRLF <= tail)
    ensures !Decoded(Numeral(|data|) + CRLF + data + tail).ok
    ensures Decoded(Numeral(|data|) + CRLF + data + tail).body == data
  {
    var line := Numeral(|data|) + CRLF;
    assert line + data + tail == line + (data + tail) && line != [];
    SizeLine(|data|, data + tail);
    NoEndLine(tail);
    hide FirstLine, StrToUL, CString, Numeral, Decoded;
    ReadSizeLine(line, data + tail);
    ReadData(line, data, tail);
    assert data + [] == data;
  }

  lemma NoEndLine(tail: seq<Byte>)
    requires !(CRLF <= tail)
    ensures CString(FirstLine(tail)) != CRLF
  {
    StringIsPrefix(FirstLine(tail));
    assert FirstLine(tail) <= tail;
  }

  lemma {:induction false} StringIsPrefix(s: seq<Byte>)
    ensures CString(s) <= s
    decreases |s|
  {
    if s != [] { StringIsPrefix(s[1..]); }
  }
}
