/** Reading memory from a core dump and an executable file. */
module CoreFile {
  import opened Common

  /** A range of addresses and where its contents are in a file. */
  datatype Segment = Segment(start: nat, end: nat, offset: nat)

  predicate In(s: Segment, a: nat) { s.start <= a < s.end }

  /** `core` says that there is a core channel; a file that was not opened is None. */
  datatype Image = Image(core: bool, data: Segment, stack: Segment, execData: Segment, text: Segment,
                         coreFile: Option<seq<Byte>>, execFile: Option<seq<Byte>>)

  datatype Source = CoreDump | Executable

  /** Where the next bytes come from: `i` bytes of a file, or `i` bytes of nowhere. */
  datatype Piece = FromFile(source: Source, fileptr: int, i: int) | Gap(i: int) | BadCase

  /** Addresses are unsigned and 32 bits wide; lengths and file positions are ints. */
  const ADDRESSES: nat := 0x1_0000_0000
  const INT_MAX: nat := 0x7FFF_FFFF

  /** The difference of two addresses, which wraps around. */
  function Minus(x: nat, y: nat): (r: int) { if x >= y then x - y else x - y + ADDRESSES }

  /** The case analysis of xfer_core_file. */
  function Classify(m: Image, a: nat, len: nat): (p: Piece)
    ensures p.FromFile? ==> 0 <= p.fileptr && p.i <= len && (len > 0 ==> 0 < p.i)
    ensures p.Gap? ==> p.i <= len
  {
    if In(m.data, a) then FromFile(CoreDump, a - m.data.start + m.data.offset, Min(len, m.data.end - a))
    else if In(m.stack, a) then FromFile(CoreDump, a - m.stack.start + m.stack.offset, Min(len, m.stack.end - a))
    else if !m.core && In(m.execData, a) then
      FromFile(Executable, a - m.execData.start + m.execData.offset, Min(len, m.execData.end - a))
    else if In(m.text, a) then FromFile(Executable, a - m.text.start + m.text.offset, Min(len, m.text.end - a))
    else if a < m.text.start then Gap(Min(len, m.text.start - a))
    else if a >= m.text.end && a < (if m.core then m.data.start else m.execData.start)
      then Gap(Min(len, Minus(m.data.start, a)))
    else if m.core && a >= m.data.end && a < m.stack.start then Gap(Min(len, m.stack.start - a))
    else if !m.core && a >= m.execData.end then Gap(len)
    else if a >= m.stack.end && m.stack.end != 0 then Gap(len)
    else BadCase
  }

  function FileOf(m: Image, s: Source): (r: Option<seq<Byte>>) { if s == CoreDump then m.coreFile else m.execFile }

  /** What myread gives: less than asked for at the end of the file. */
  function MyRead(file: seq<Byte>, at: int, n: nat): (r: seq<Byte>)
    requires at >= 0
    ensures |r| <= n
  {
    if at >= |file| then [] else if at + n <= |file| then file[at..at + n] else file[at..]
  }

  datatype Outcome = Done(missing: bool) | NoFile | Fatal | Stuck

  datatype Transfer = Transfer(outcome: Outcome, bytes: seq<Byte>)

  function Zeros(n: nat): (r: seq<Byte>)
    ensures |r| == n
  {
    seq(n, i => 0)
  }

  /** A turn of the loop: the bytes it puts into the buffer, or the way it ends. */
  datatype Turn = Put(part: seq<Byte>, gap: bool) | Stop(o: Outcome)

  function Take(m: Image, a: nat, buf: seq<Byte>): (t: Turn)
    requires buf != []
    ensures t.Put? ==> 0 < |t.part| <= |buf|
  {
    match Classify(m, a, |buf|)
    case BadCase => Stop(Fatal)
    case Gap(i) => if 0 < i then Put(Zeros(i), true) else Stop(Stuck)
    case FromFile(s, at, i) =>
      match FileOf(m, s)
      case None => Stop(NoFile)
      case Some(file) =>
        var got := MyRead(file, at, i);
        Put(got + buf[|got|..i], false)
  }

  function Taking(m: Image): (r: (nat, seq<Byte>) -> Turn) {
    (a: nat, buf: seq<Byte>) => if buf == [] then Stop(Stuck) else Take(m, a, buf)
  }

  /** Turn by turn: the outcome and the buffer. The loop is stuck when a turn takes it no further. */
  function Loop(take: (nat, seq<Byte>) -> Turn, a: nat, buf: seq<Byte>): (r: Transfer)
    ensures |r.bytes| == |buf|
    decreases |buf|
  {
    if buf == [] then Transfer(Done(false), buf)
    else
      match take(a, buf)
      case Stop(o) => Transfer(o, buf)
      case Put(part, gap) =>
        if part == [] || |part| > |buf| then Transfer(Stuck, buf)
        else
          var rest := Loop(take, a + |part|, buf[|part|..]);
          Transfer(if gap && rest.outcome.Done? then Done(true) else rest.outcome, part + rest.bytes)
  }

  /** xfer_core_file. */
  function Xfer(m: Image, a: nat, buf: seq<Byte>): (r: Transfer)
    ensures |r.bytes| == |buf|
  {
    Loop(Taking(m), a, buf)
  }

  // ---------------------------------------------------------------------------
  // One byte at a time

  /** The segment an address is in. */
  function SegmentOf(m: Image, a: nat): (r: Option<(Source, Segment)>) {
    if m.core && In(m.data, a) then Some((CoreDump, m.data))
    else if m.core && In(m.stack, a) then Some((CoreDump, m.stack))
    else if !m.core && In(m.execData, a) then Some((Executable, m.execData))
    else if In(m.text, a) then Some((Executable, m.text))
    else None
  }

  predicate Backed(m: Image, source: Source, s: Segment) {
    && s.end < ADDRESSES
    && (s.start < s.end
        ==> FileOf(m, source).Some? && s.offset + (s.end - s.start) <= |FileOf(m, source).value| < INT_MAX)
  }

  /** Segments in order, each wholly in its file. Without a core file there is no stack segment; what there is of a data
      segment is left over from another file. */
  predicate Ordered(m: Image) {
    && m.text.start <= m.text.end && Backed(m, Executable, m.text)
    && (if m.core then
          && Backed(m, CoreDump, m.data) && Backed(m, CoreDump, m.stack)
          && m.text.end <= m.data.start <= m.data.end <= m.stack.start <= m.stack.end && m.stack.end != 0
        else
          && m.text.end <= m.execData.start <= m.execData.end && Backed(m, Executable, m.execData)
          && m.stack.start == m.stack.end && m.coreFile == None && m.data.start < ADDRESSES && m.data.end < ADDRESSES)
  }

  function ByteAt(m: Image, a: nat): (r: Byte)
    requires Ordered(m)
  {
    match SegmentOf(m, a)
    case None => 0
    case Some(found) => FileOf(m, found.0).value[a - found.1.start + found.1.offset]
  }

  function Bytes(m: Image, a: nat, n: nat): (r: seq<Byte>)
    requires Ordered(m)
    ensures |r| == n
  {
    seq<Byte>(n, k requires 0 <= k < n => ByteAt(m, a + k))
  }

  /** Is some of the `n` bytes at `a` in no segment? */
  predicate Missing(m: Image, a: nat, n: nat)
    decreases n
  {
    n > 0 && (SegmentOf(m, a) == None || Missing(m, a + 1, n - 1))
  }

  lemma {:induction false} MissingIff(m: Image, a: nat, n: nat)
    ensures Missing(m, a, n) <==> exists x :: a <= x < a + n && SegmentOf(m, x) == None
    decreases n
  {
    if n > 0 { MissingIff(m, a + 1, n - 1); }
  }

  lemma {:induction false} Split(m: Image, a: nat, i: nat, j: nat)
    requires Ordered(m)
    ensures Bytes(m, a, i + j) == Bytes(m, a, i) + Bytes(m, a + i, j)
    ensures Missing(m, a, i + j) == (Missing(m, a, i) || Missing(m, a + i, j))
  {
    MissingIff(m, a, i + j);
    MissingIff(m, a, i);
    MissingIff(m, a + i, j);
  }

  /** Each byte is that of its own segment, or zero, and the return value tells whether some byte is in none. */
  predicate Right(m: Image, a: nat, n: nat, r: Transfer)
    requires Ordered(m)
  {
    r == Transfer(Done(Missing(m, a, n)), Bytes(m, a, n))
  }

  /** What may be asked for: the address does not wrap around. */
  predicate Request(a: nat, n: nat) { a + n <= ADDRESSES && n <= INT_MAX }

  /** Is a byte of the executable's data passed over by a request that begins in the gap below it? The gap is measured
      up to data_start; if that is below the gap, so is everything there is. */
  predicate PassedOver(m: Image, x: nat) {
    In(m.execData, x) && (m.data.start < m.text.end || x < m.data.start)
  }

  /** With a gap below the data of the executable, measuring the gap up to data_start does no harm only if data_start is
      not in the gap and every byte that is passed over is zero. */
  ghost predicate GapRight(m: Image)
    requires Ordered(m)
  {
    m.text.end == m.execData.start
    || (!(m.text.end <= m.data.start < m.execData.start) && forall x :: PassedOver(m, x) ==> ByteAt(m, x) == 0)
  }

  /** Without a core file there must be nothing left of a data segment, and the gap must be harmless. */
  ghost predicate Harmless(m: Image)
    requires Ordered(m)
  {
    m.core || (m.data.end <= m.data.start && GapRight(m))
  }

  /** The addresses of a piece of a file are those of one segment. */
  lemma {:induction false} FilePiece(m: Image, a: nat, len: nat)
    requires Ordered(m) && Harmless(m) && len > 0 && Classify(m, a, len).FromFile?
    ensures var p := Classify(m, a, len);
            && 0 < p.i <= len && FileOf(m, p.source).Some? && p.fileptr >= 0
            && MyRead(FileOf(m, p.source).value, p.fileptr, p.i) == Bytes(m, a, p.i) && !Missing(m, a, p.i)
  {
    var p := Classify(m, a, len);
    var found := SegmentOf(m, a).value;
    MissingIff(m, a, p.i);
    forall x | a <= x < a + p.i ensures SegmentOf(m, x) == Some(found) {}
    forall k | 0 <= k < p.i ensures MyRead(FileOf(m, p.source).value, p.fileptr, p.i)[k] == ByteAt(m, a + k) {
      assert SegmentOf(m, a + k) == Some(found);
    }
  }

  lemma {:induction false} GapPiece(m: Image, a: nat, len: nat)
    requires Ordered(m) && Harmless(m) && len > 0 && Request(a, len) && !Classify(m, a, len).FromFile?
    ensures var p := Classify(m, a, len);
            p.Gap? && 0 < p.i <= len && Zeros(p.i) == Bytes(m, a, p.i) && Missing(m, a, p.i)
  {
    var p := Classify(m, a, len);
    forall x | a <= x < a + p.i ensures ByteAt(m, x) == 0 {
      if In(m.execData, x) && !m.core { assert PassedOver(m, x); }
    }
  }

  /** A turn that does what it should. */
  predicate TurnRight(m: Image, a: nat, buf: seq<Byte>, t: Turn)
    requires Ordered(m)
  {
    t.Put? && 0 < |t.part| <= |buf| && t.part == Bytes(m, a, |t.part|) && t.gap == Missing(m, a, |t.part|)
  }

  lemma {:induction false} TakeRight(m: Image, a: nat, buf: seq<Byte>)
    requires Ordered(m) && Harmless(m) && buf != [] && Request(a, |buf|)
    ensures TurnRight(m, a, buf, Take(m, a, buf))
  {
    if Classify(m, a, |buf|).FromFile? { FilePiece(m, a, |buf|); } else { GapPiece(m, a, |buf|); }
  }

  lemma {:induction false} LoopRight(m: Image, take: (nat, seq<Byte>) -> Turn, a: nat, buf: seq<Byte>)
    requires Ordered(m) && forall x: nat, b: seq<Byte> :: b != [] && Request(x, |b|) ==> TurnRight(m, x, b, take(x, b))
    requires Request(a, |buf|)
    ensures Right(m, a, |buf|, Loop(take, a, buf))
    decreases |buf|
  {
    if buf != [] {
      assert TurnRight(m, a, buf, take(a, buf));
      var i := |take(a, buf).part|;
      LoopRight(m, take, a + i, buf[i..]);
      Split(m, a, i, |buf| - i);
    }
  }

  /** For segments in order, and where the data segment is harmless, every request ends and is answered byte by byte. */
  lemma {:induction false} XferRight(m: Image, a: nat, buf: seq<Byte>)
    requires Ordered(m) && Harmless(m) && Request(a, |buf|)
    ensures Right(m, a, |buf|, Xfer(m, a, buf))
  {
    forall x: nat, b: seq<Byte> | b != [] && Request(x, |b|) ensures TurnRight(m, x, b, Taking(m)(x, b)) {
      TakeRight(m, x, b);
    }
    LoopRight(m, Taking(m), a, buf);
  }

  ghost predicate AlwaysRight(m: Image)
    requires Ordered(m)
  {
    forall a: nat, buf: seq<Byte> :: Request(a, |buf|) ==> Right(m, a, |buf|, Xfer(m, a, buf))
  }

  /** That is what it takes. */
  lemma {:induction false} XferRightIff(m: Image)
    requires Ordered(m)
    ensures AlwaysRight(m) <==> Harmless(m)
  {
    if Harmless(m) {
      forall a: nat, buf: seq<Byte> | Request(a, |buf|) ensures Right(m, a, |buf|, Xfer(m, a, buf)) {
        XferRight(m, a, buf);
      }
    } else if m.data.start < m.data.end {
      LeftOver(m);
    } else if m.text.end <= m.data.start < m.execData.start {
      var a := m.data.start;
      assert Classify(m, a, |[0]|) == Gap(0);
      assert Request(a, |[0]|) && !Right(m, a, |[0]|, Xfer(m, a, [0]));
    } else {
      var x: nat :| PassedOver(m, x) && ByteAt(m, x) != 0;
      ReadAsZero(m, m.execData.start - 1, x, Zeros(x - m.execData.start + 2));
    }
  }

  /** What is left of a data segment hides whatever is there. */
  lemma {:induction false} LeftOver(m: Image)
    requires Ordered(m) && !m.core && m.data.start < m.data.end
    ensures Request(m.data.start, 1) && !Right(m, m.data.start, 1, Xfer(m, m.data.start, [0]))
  {
    assert Classify(m, m.data.start, |[0]|).FromFile?;
    assert Xfer(m, m.data.start, [0]) == Transfer(NoFile, [0]);
  }

  /** A request that begins in the gap is answered with zeros as far as data_start, or for good if that is below. */
  lemma {:induction false} ReadAsZero(m: Image, a: nat, x: nat, buf: seq<Byte>)
    requires Ordered(m) && !m.core && m.data.end <= m.data.start
    requires m.text.end <= a < m.execData.start && a < x == a + |buf| - 1
    requires PassedOver(m, x) && ByteAt(m, x) != 0
    ensures !Right(m, a, |buf|, Xfer(m, a, buf))
  {
    assert Classify(m, a, |buf|) == Gap(|buf|);
    assert buf[|buf|..] == [];
    assert Xfer(m, a, buf).bytes == Zeros(|buf|);
    assert Bytes(m, a, |buf|)[|buf| - 1] == ByteAt(m, x);
  }

  /** When an executable is read, data_start is put where its data start. Then everything is right exactly if data_end
      is not above that. */
  lemma {:induction false} ExecFileRight(m: Image)
    requires Ordered(m) && !m.core && m.data.start == m.execData.start
    ensures AlwaysRight(m) <==> m.data.end <= m.data.start
  {
    XferRightIff(m);
  }

  /** data_end is moved along with the start of the executable's data. If it was put to 0 meanwhile, because a core file
      was given up, it is above them exactly if the data of the executable before, which began at `was`, began
      higher. */
  lemma {:induction false} ExecFileAgain(m: Image, was: nat)
    requires Ordered(m) && !m.core && m.data.start == m.execData.start && was < ADDRESSES
    requires m.data.end == Minus(m.execData.start, was)
    ensures AlwaysRight(m) <==> was <= m.execData.start
  {
    ExecFileRight(m);
  }

  /** When a core file is given up, data_start and data_end are put to 0, which is below any gap. Then everything is
      right exactly if the executable's data are all zero, or follow its text without a gap. */
  lemma {:induction false} NoCoreFile(m: Image)
    requires Ordered(m) && !m.core && m.data.start == m.data.end == 0 < m.text.end
    ensures AlwaysRight(m) <==>
            m.text.end == m.execData.start || forall x :: In(m.execData, x) ==> ByteAt(m, x) == 0
  {
    XferRightIff(m);
    assert forall x :: PassedOver(m, x) <==> In(m.execData, x);
  }

  // ---------------------------------------------------------------------------
  // xfer_core_file as it runs

  /** myread into the buffer from `pos` on. */
  method MyReadInto(file: seq<Byte>, at: nat, buf: array<Byte>, pos: nat, n: nat)
    requires pos + n <= buf.Length
    modifies buf
    ensures var got := MyRead(file, at, n);
            buf[..pos + n] == old(buf[..pos]) + got + old(buf[pos..])[|got|..n]
    ensures buf[pos + n..] == old(buf[pos + n..])
  {
    var k := 0;
    while k < n && at + k < |file|
      invariant k <= n && (at + k <= |file| || k == 0)
      invariant forall j :: 0 <= j < buf.Length ==>
                  buf[j] == if pos <= j < pos + k then file[at + j - pos] else old(buf[j])
    {
      buf[pos + k] := file[at + k];
      k := k + 1;
    }
    ghost var got := MyRead(file, at, n);
    assert got == if k == 0 then [] else file[at..at + k];
    Spliced(old(buf[..]), buf[..], pos, got, n);
  }

  /** A sequence in which some bytes from `pos` on were replaced. */
  lemma {:induction false} Spliced(b: seq<Byte>, b': seq<Byte>, pos: nat, got: seq<Byte>, n: nat)
    requires pos + n <= |b| == |b'| && |got| <= n
    requires forall j :: 0 <= j < |b| ==> b'[j] == if pos <= j < pos + |got| then got[j - pos] else b[j]
    ensures b'[..pos + n] == b[..pos] + got + b[pos..][|got|..n] && b'[pos + n..] == b[pos + n..]
  {
    assert b[pos..][|got|..n] == b[pos + |got|..pos + n];
    assert b'[pos + |got|..pos + n] == b[pos + |got|..pos + n];
    assert b'[..pos + n] == b'[..pos] + b'[pos..pos + |got|] + b'[pos + |got|..pos + n];
  }

  method BZero(buf: array<Byte>, pos: nat, n: nat)
    requires pos + n <= buf.Length
    modifies buf
    ensures buf[..pos + n] == old(buf[..pos]) + Zeros(n) && buf[pos + n..] == old(buf[pos + n..])
  {
    for k := 0 to n
      invariant forall j :: 0 <= j < buf.Length ==> buf[j] == if pos <= j < pos + k then 0 else old(buf[j])
    {
      buf[pos + k] := 0;
    }
  }

  /** `take` gives the turns of the loop over `m`. */
  ghost predicate Linked(m: Image, take: (nat, seq<Byte>) -> Turn) {
    forall a: nat, buf: seq<Byte> {:trigger Take(m, a, buf)} | buf != [] :: take(a, buf) == Take(m, a, buf)
  }

  /** What is still to be done after the bytes of `front`, some of them missing, completes `whole`. */
  predicate Continues(take: (nat, seq<Byte>) -> Turn, a: nat, whole: Transfer, front: seq<Byte>, missing: bool,
                      rest: seq<Byte>) {
    var r := Loop(take, a + |front|, rest);
    whole == Transfer(if missing && r.outcome.Done? then Done(true) else r.outcome, front + r.bytes)
  }

  lemma {:induction false} ContinuesAll(take: (nat, seq<Byte>) -> Turn, a: nat, buf: seq<Byte>)
    ensures Continues(take, a, Loop(take, a, buf), [], false, buf)
  {
    var r := Loop(take, a, buf);
    assert [] + r.bytes == r.bytes;
  }

  lemma {:induction false} ContinuesNone(take: (nat, seq<Byte>) -> Turn, a: nat, whole: Transfer, front: seq<Byte>,
                                         missing: bool)
    requires Continues(take, a, whole, front, missing, [])
    ensures whole == Transfer(Done(missing), front)
  {
    assert front + [] == front;
  }

  lemma {:induction false} ContinuesOn(take: (nat, seq<Byte>) -> Turn, a: nat, whole: Transfer, front: seq<Byte>,
                                       missing: bool,
                                       rest: seq<Byte>, t: Turn)
    requires Continues(take, a, whole, front, missing, rest) && rest != [] && t == take(a + |front|, rest)
    requires t.Put? && 0 < |t.part| <= |rest|
    ensures Continues(take, a, whole, front + t.part, missing || t.gap, rest[|t.part|..])
  {
    var i := |t.part|;
    var r := Loop(take, a + |front| + i, rest[i..]);
    assert a + |front| + i == a + |front + t.part|;
    assert front + (t.part + r.bytes) == front + t.part + r.bytes;
  }

  lemma {:induction false} ContinuesNot(take: (nat, seq<Byte>) -> Turn, a: nat, whole: Transfer, front: seq<Byte>,
                                        missing: bool,
                                        rest: seq<Byte>, o: Outcome)
    requires Continues(take, a, whole, front, missing, rest) && rest != [] && take(a + |front|, rest) == Stop(o)
             && !o.Done?
    ensures whole == Transfer(o, front + rest)
  {
  }

  /** The buffer is filled from `pos` on with the bytes of the turn, or the loop ends. */
  method DoTurn(m: Image, a: nat, buf: array<Byte>, pos: nat, ghost take: (nat, seq<Byte>) -> Turn) returns (t: Turn)
    requires pos < buf.Length && Linked(m, take)
    modifies buf
    ensures t == take(a, old(buf[pos..]))
    ensures if t.Put? then
              && 0 < |t.part| <= buf.Length - pos
              && buf[..pos + |t.part|] == old(buf[..pos]) + t.part
              && buf[pos + |t.part|..] == old(buf[pos..])[|t.part|..]
            else !t.o.Done? && buf[..] == old(buf[..])
  {
    var rest := buf[pos..];
    ghost var expected := Take(m, a, rest);
    match Classify(m, a, |rest|) {
      case BadCase => return Stop(Fatal);
      case Gap(i) =>
        if i <= 0 {
          return Stop(Stuck);
        }
        BZero(buf, pos, i);
        return Put(Zeros(i), true);
      case FromFile(s, at, i) =>
        var file := FileOf(m, s);
        if file == None {
          return Stop(NoFile);
        }
        var got := MyRead(file.value, at, i);
        MyReadInto(file.value, at, buf, pos, i);
        return Put(got + rest[|got|..i], false);
    }
  }

  /** xfer_core_file. */
  method XferCoreFile(m: Image, memaddr: nat, buf: array<Byte>) returns (o: Outcome)
    modifies buf
    ensures Xfer(m, memaddr, old(buf[..])) == Transfer(o, buf[..])
  {
    o := RunLoop(m, memaddr, buf, Taking(m));
  }

  /** A turn takes the loop on, or ends it. */
  method NextTurn(m: Image, memaddr: nat, buf: array<Byte>, pos: nat, ghost take: (nat, seq<Byte>) -> Turn,
                  ghost whole: Transfer, ghost missing: bool) returns (t: Turn)
    requires pos < buf.Length && Linked(m, take) && Continues(take, memaddr, whole, buf[..pos], missing, buf[pos..])
    modifies buf
    ensures if t.Put? then
              && 0 < |t.part| <= buf.Length - pos
              && Continues(take, memaddr, whole, buf[..pos + |t.part|], missing || t.gap, buf[pos + |t.part|..])
            else whole == Transfer(t.o, buf[..])
  {
    ghost var front, rest := buf[..pos], buf[pos..];
    assert front + rest == buf[..];
    t := DoTurn(m, memaddr + pos, buf, pos, take);
    if t.Stop? {
      ContinuesNot(take, memaddr, whole, front, missing, rest, t.o);
    } else {
      ContinuesOn(take, memaddr, whole, front, missing, rest, t);
      assert buf[..pos + |t.part|] == front + t.part && buf[pos + |t.part|..] == rest[|t.part|..];
    }
  }

  method RunLoop(m: Image, memaddr: nat, buf: array<Byte>, ghost take: (nat, seq<Byte>) -> Turn) returns (o: Outcome)
    requires Linked(m, take)
    modifies buf
    ensures Loop(take, memaddr, old(buf[..])) == Transfer(o, buf[..])
  {
    var pos: nat, missing := 0, false;
    ghost var whole := Loop(take, memaddr, buf[..]);
    assert buf[..0] == [] && buf[0..] == buf[..];
    ContinuesAll(take, memaddr, buf[..]);
    while pos < buf.Length
      invariant pos <= buf.Length
      invariant Continues(take, memaddr, whole, buf[..pos], missing, buf[pos..])
      decreases buf.Length - pos
    {
      var t := NextTurn(m, memaddr, buf, pos, take, whole, missing);
      if t.Stop? {
        return t.o;
      }
      missing := missing || t.gap;
      pos := pos + |t.part|;
    }
    assert buf[..pos] == buf[..] && buf[pos..] == [];
    ContinuesNone(take, memaddr, whole, buf[..], missing);
    return Done(missing);
  }
}
