/** The inferior's memory, which can be read and written a word at a time only. */
module InferiorMemory {
  import opened Common

  datatype Reply = Word(bytes: seq<Byte>) | Errno

  datatype Outcome = Good | Failed | Overflow

  /** The number of words that hold the `len` bytes at `memaddr`. */
  function WordCount(memaddr: nat, len: nat): (n: nat)
    ensures RoundDown(memaddr) + n * WORD >= memaddr + len
    ensures n > 0 ==> RoundDown(memaddr) + (n - 1) * WORD < memaddr + len
    ensures n == 0 <==> len == 0 && memaddr % WORD == 0
  {
    (memaddr + len - RoundDown(memaddr) + WORD - 1) / WORD
  }

  lemma {:induction false} SliceSplit(b: seq<Byte>, i: nat, j: nat, k: nat)
    requires i <= j <= k <= |b|
    ensures b[i..j] + b[j..k] == b[i..k]
  {
  }

  lemma {:induction false} SliceOf(b: seq<Byte>, from: nat, to: nat, off: nat, len: nat)
    requires from <= to <= |b| && from + off + len <= to
    ensures b[from..to][off..off + len] == b[from + off..from + off + len]
  {
    var c := b[from..to];
    var x, y := c[off..off + len], b[from + off..from + off + len];
    forall k | 0 <= k < len ensures x[k] == y[k] {
      assert c[off + k] == b[from + off + k];
    }
  }

  lemma {:induction false} PutRead(b: seq<Byte>, off: nat, x: seq<Byte>)
    requires off + |x| <= |b|
    ensures Put(b, off, x)[off..off + |x|] == x
    ensures forall k :: 0 <= k < |b| && !(off <= k < off + |x|) ==> Put(b, off, x)[k] == b[k]
  {
  }

  class Inferior {
    const mem: array<Byte>

    predicate Valid() { mem.Length % WORD == 0 }

    /** ptrace (1): read the word at an aligned address. */
    method Peek(addr: nat) returns (r: Reply)
      requires Valid() && addr % WORD == 0
      ensures r == if addr < mem.Length then Word(mem[addr..addr + WORD]) else Errno
      ensures r.Word? ==> |r.bytes| == WORD
    {
      if addr >= mem.Length {
        return Errno;
      }
      return Word(mem[addr..addr + WORD]);
    }

    /** ptrace (4): write the word at an aligned address. */
    method Poke(addr: nat, word: seq<Byte>) returns (ok: bool)
      requires Valid() && addr % WORD == 0 && |word| == WORD
      modifies mem
      ensures ok == (addr < mem.Length)
      ensures mem[..] == if ok then Put(old(mem[..]), addr, word) else old(mem[..])
    {
      if addr >= mem.Length {
        return false;
      }
      mem[addr], mem[addr + 1], mem[addr + 2], mem[addr + 3] := word[0], word[1], word[2], word[3];
      assert mem[..] == Put(old(mem[..]), addr, word);
      return true;
    }

    /** read_inferior_memory. It fails if some of the words that hold the range are not there. */
    method ReadInferiorMemory(memaddr: nat, len: nat) returns (ok: bool, data: seq<Byte>)
      requires Valid()
      ensures len > 0 ==> (ok <==> memaddr + len <= mem.Length) && (ok ==> data == mem[memaddr..memaddr + len])
      ensures len == 0 ==> (ok <==> memaddr % WORD == 0 || memaddr < mem.Length) && data == []
    {
      var addr := RoundDown(memaddr);
      var base := addr;
      var count := WordCount(memaddr, len);
      var buffer: seq<Byte> := [];
      data := [];
      for i := 0 to count
        invariant addr == base + i * WORD && |buffer| == i * WORD
        invariant i > 0 ==> addr <= mem.Length && buffer == mem[base..addr]
      {
        var word := Peek(addr);
        if word == Errno {
          Covered(memaddr, len);
          assert i * WORD <= (count - 1) * WORD;
          return false, [];
        }
        SliceSplit(mem[..], base, addr, addr + WORD);
        assert mem[base..addr] + word.bytes == mem[base..addr + WORD];
        buffer := buffer + word.bytes;
        addr := addr + WORD;
      }
      Covered(memaddr, len);
      if count > 0 {
        var off := memaddr - base;
        data := buffer[off..off + len];
        SliceOf(mem[..], base, addr, off, len);
        assert mem[..][base..addr] == mem[base..addr] && base + off == memaddr;
      }
      ok := true;
    }

    /** The word at `addr` goes into the buffer at `at`; an unsuccessful ptrace returns -1. */
    method FetchInto(addr: nat, buffer: array<Byte>, at: nat)
      requires Valid() && addr % WORD == 0 && at + WORD <= buffer.Length && buffer != mem
      modifies buffer
      ensures forall j :: 0 <= j < buffer.Length && !(at <= j < at + WORD) ==> buffer[j] == old(buffer[j])
      ensures addr < mem.Length ==> forall j :: at <= j < at + WORD ==> buffer[j] == mem[addr + (j - at)]
    {
      var r := Peek(addr);
      var word := if r.Word? then r.bytes else [255, 255, 255, 255];
      buffer[at], buffer[at + 1], buffer[at + 2], buffer[at + 3] := word[0], word[1], word[2], word[3];
    }

    /** The buffer holds what memory should hold from `base` on when `data` is at `memaddr`. */
    ghost predicate Prepared(base: nat, buffer: array<Byte>, memaddr: nat, data: seq<Byte>)
      reads mem, buffer
    {
      forall j :: 0 <= j < buffer.Length ==>
        if memaddr <= base + j < memaddr + |data| then buffer[j] == data[base + j - memaddr]
        else base + j < mem.Length ==> buffer[j] == mem[base + j]
    }

    /** Fill the ends of the buffer from memory and copy the data over the middle. */
    method Prepare(base: nat, count: nat, memaddr: nat, data: seq<Byte>) returns (buffer: array<Byte>)
      requires Valid() && base == RoundDown(memaddr) && count == WordCount(memaddr, |data|) > 0
      ensures fresh(buffer) && buffer.Length == count * WORD && Prepared(base, buffer, memaddr, data)
    {
      buffer := new Byte[count * WORD];
      FetchInto(base, buffer, 0);
      if count > 1 {
        FetchInto(base + (count - 1) * WORD, buffer, (count - 1) * WORD);
      }
      ghost var ends := buffer[..];
      Covered(memaddr, |data|);
      forall j | 0 <= j < buffer.Length && base + j < mem.Length && !(memaddr <= base + j < memaddr + |data|)
        ensures ends[j] == mem[base + j]
      {
        assert j < WORD || j >= (count - 1) * WORD;
      }
      var off := memaddr - base;
      for k := 0 to |data|
        invariant forall j :: 0 <= j < buffer.Length ==>
                    buffer[j] == if off <= j < off + k then data[j - off] else ends[j]
      {
        buffer[off + k] := data[k];
      }
    }

    /** Write the buffer a word at a time, as far as there is memory. */
    method Flush(base: nat, count: nat, buffer: array<Byte>) returns (ok: bool)
      requires Valid() && base % WORD == 0 && buffer.Length == count * WORD && buffer != mem
      modifies mem
      ensures ok <==> count == 0 || base + count * WORD <= mem.Length
      ensures forall a :: 0 <= a < mem.Length ==>
                mem[a] == if base <= a < base + count * WORD then buffer[a - base] else old(mem[a])
    {
      var k: nat := 0;
      for i := 0 to count
        invariant k == i * WORD && (i > 0 ==> base + k <= mem.Length)
        invariant forall a :: 0 <= a < mem.Length ==>
                    mem[a] == if base <= a < base + k then buffer[a - base] else old(mem[a])
      {
        ghost var before := mem[..];
        var word := buffer[k..k + WORD];
        var stored := Poke(base + k, word);
        if !stored {
          return false;
        }
        forall a | 0 <= a < mem.Length
          ensures mem[a] == if base <= a < base + k + WORD then buffer[a - base] else old(mem[a])
        {
          PutAt(before, base + k, word, a);
          assert mem[a] == mem[..][a] && before[a] == if base <= a < base + k then buffer[a - base] else old(mem[a]);
        }
        k := k + WORD;
      }
      ok := true;
    }

    /** write_inferior_memory. It changes exactly the bytes of the range, as far as there is memory; with no bytes at an
        aligned address it would overrun its empty buffer. */
    method WriteInferiorMemory(memaddr: nat, data: seq<Byte>) returns (o: Outcome)
      requires Valid()
      modifies mem
      ensures o == Overflow <==> data == [] && memaddr % WORD == 0
      ensures o != Overflow
              ==> (o == Good <==> if data == [] then memaddr < mem.Length else memaddr + |data| <= mem.Length)
      ensures mem[..] == if memaddr >= mem.Length then old(mem[..])
                         else Put(old(mem[..]), memaddr, data[..Min(|data|, mem.Length - memaddr)])
    {
      var addr := RoundDown(memaddr);
      var count := WordCount(memaddr, |data|);
      if count == 0 {
        return Overflow;
      }
      var buffer := Prepare(addr, count, memaddr, data);
      ghost var before := mem[..];
      var ok := Flush(addr, count, buffer);
      Covered(memaddr, |data|);
      ghost var after := if memaddr >= mem.Length then before
        else Put(before, memaddr, data[..Min(|data|, mem.Length - memaddr)]);
      forall a | 0 <= a < mem.Length ensures mem[a] == after[a] {
        if addr <= a < addr + count * WORD { assert buffer[a - addr] == after[a]; }
      }
      assert mem[..] == after;
      o := if ok then Good else Failed;
    }

    /** What was written is read back. */
    method WriteThenRead(memaddr: nat, data: seq<Byte>) returns (ok: bool, back: seq<Byte>)
      requires Valid() && data != []
      modifies mem
      ensures ok <==> memaddr + |data| <= mem.Length
      ensures ok ==> back == data
    {
      var o := WriteInferiorMemory(memaddr, data);
      ok, back := ReadInferiorMemory(memaddr, |data|);
      if ok { PutRead(old(mem[..]), memaddr, data); assert data[..|data|] == data; }
    }
  }

  /** The words hold the whole range, and memory ends on a word boundary. */
  lemma {:induction false} Covered(memaddr: nat, len: nat)
    ensures var base, end := RoundDown(memaddr), RoundDown(memaddr) + WordCount(memaddr, len) * WORD;
            && base <= memaddr && memaddr + len <= end && base % WORD == 0 && end % WORD == 0
            && forall limit: nat :: limit % WORD == 0 && WordCount(memaddr, len) > 0 ==>
                 (end <= limit <==> if len > 0 then memaddr + len <= limit else memaddr < limit)
  {
  }
}
