/** NetDFBcopy: copying into memory that can be written in whole aligned words only. */
module WordCopy {
  import opened Common

  const UNSIGNED_LIMIT: nat := 0x1_0000_0000

  /** Does a copy of `n` bytes to address `to` reach the next word boundary, if it starts off one? */
  predicate ReachesBoundary(to: nat, n: nat) { n == 0 || to % WORD == 0 || n >= WORD - to % WORD }

  lemma {:induction false} PutWord(b: seq<Byte>, w: nat, off: nat, x: seq<Byte>)
    requires w <= off && off + |x| <= w + WORD <= |b|
    ensures Put(b, w, Put(b[w..w + WORD], off - w, x)) == Put(b, off, x)
  {
  }

  /** The part of `src` of length `n` at `from` has been copied to `to`. */
  ghost predicate Copied(b: seq<Byte>, b': seq<Byte>, src: seq<Byte>, from: nat, to: nat, n: nat) {
    from + n <= |src| && to + n <= |b| && b' == Put(b, to, src[from..from + n])
  }

  lemma {:induction false} CopyMore(b: seq<Byte>, b': seq<Byte>, src: seq<Byte>, from: nat, to: nat, i: nat, j: nat)
    requires Copied(b, b', src, from, to, i) && from + i + j <= |src| && to + i + j <= |b|
    ensures Copied(b, Put(b', to + i, src[from + i..from + i + j]), src, from, to, i + j)
  {
  }

  /** Read the word at `w`, put `x` into its bytes from `off` on, and write it back. */
  method StoreInWord(dst: array<Byte>, w: nat, off: nat, x: seq<Byte>)
    requires w % WORD == 0 && w <= off && off + |x| <= w + WORD <= dst.Length
    modifies dst
    ensures dst[..] == Put(old(dst[..]), off, x)
  {
    var value := dst[w..w + WORD];
    value := Put(value, off - w, x);
    PutWord(dst[..], w, off, x);
    dst[w], dst[w + 1], dst[w + 2], dst[w + 3] := value[0], value[1], value[2], value[3];
    assert dst[..] == Put(old(dst[..]), w, value);
  }

  /** The words in the middle; `from` need not be aligned. */
  method CopyWords(src: seq<Byte>, from: nat, dst: array<Byte>, to: nat, aligned: nat)
    requires to % WORD == 0 && aligned % WORD == 0 && to + aligned <= dst.Length && from + aligned <= |src|
    modifies dst
    ensures dst[..] == Put(old(dst[..]), to, src[from..from + aligned])
  {
    var i := 0;
    while i < aligned
      invariant 0 <= i <= aligned && i % WORD == 0
      invariant Copied(old(dst[..]), dst[..], src, from, to, i)
    {
      WordFits(to, i, aligned);
      CopyOneWord(src, from, dst, to, i, old(dst[..]));
      i := i + WORD;
    }
  }

  lemma WordFits(to: nat, i: nat, aligned: nat)
    requires to % WORD == 0 && i % WORD == 0 && aligned % WORD == 0 && i < aligned
    ensures i + WORD <= aligned && (to + i) % WORD == 0 && (i + WORD) % WORD == 0
  {
  }

  method CopyOneWord(src: seq<Byte>, from: nat, dst: array<Byte>, to: nat, i: nat, ghost b: seq<Byte>)
    requires (to + i) % WORD == 0 && to + i + WORD <= dst.Length == |b| && from + i + WORD <= |src|
    requires Copied(b, dst[..], src, from, to, i)
    modifies dst
    ensures Copied(b, dst[..], src, from, to, i + WORD)
  {
    CopyMore(b, dst[..], src, from, to, i, WORD);
    StoreInWord(dst, to + i, to + i, src[from + i..from + i + WORD]);
  }

  /** The bytes up to the next word boundary, however many are asked for. */
  method CopyHead(src: seq<Byte>, from: nat, dst: array<Byte>, to: nat) returns (n: nat)
    requires to % WORD != 0 && to - to % WORD + WORD <= dst.Length && from + WORD <= |src|
    modifies dst
    ensures n == WORD - to % WORD && to + n <= dst.Length && (to + n) % WORD == 0
    ensures dst[..] == Put(old(dst[..]), to, src[from..from + n])
  {
    n := WORD - to % WORD;
    StoreInWord(dst, to - to % WORD, to, src[from..from + n]);
  }

  /** NetDFBcopy of `numBytes` bytes, from address `from` of the memory `src` to address `to`. The byte count is
      unsigned: if the head takes more than was asked for, what is left to copy runs over the end of any memory. */
  method NetDFBcopy(src: seq<Byte>, from: nat, dst: array<Byte>, to: nat, numBytes: nat) returns (ok: bool)
    requires dst.Length % WORD == 0 && dst.Length < UNSIGNED_LIMIT - WORD
    requires to + numBytes <= dst.Length && from + numBytes <= |src| && from + WORD <= |src|
    modifies dst
    ensures ok <==> ReachesBoundary(to, numBytes)
    ensures ok ==> dst[..] == Put(old(dst[..]), to, src[from..from + numBytes])
  {
    if numBytes == 0 {
      return true;
    }
    HeadLength(to, numBytes);
    var head := 0;
    var length := numBytes;
    if to % WORD != 0 {
      head := CopyHead(src, from, dst, to);
      length := if numBytes >= head then numBytes - head else UNSIGNED_LIMIT + numBytes - head;
    }
    assert Copied(old(dst[..]), dst[..], src, from, to, head);
    if to + head + length > dst.Length {
      return false;
    }
    assert head <= numBytes && head + length == numBytes;
    var aligned := RoundDown(length);
    CopyRest(src, from, dst, to, head, aligned, length - aligned, old(dst[..]));
    ok := true;
  }

  /** How long the head is. */
  lemma {:induction false} HeadLength(to: nat, n: nat)
    requires n > 0
    ensures var head := if to % WORD == 0 then 0 else WORD - to % WORD;
            (to + head) % WORD == 0 && (ReachesBoundary(to, n) <==> head <= n)
  {
  }

  /** After the head: whole words, then the bytes of a last word. */
  method CopyRest(src: seq<Byte>, from: nat, dst: array<Byte>, to: nat, head: nat, aligned: nat, mod: nat,
                  ghost b: seq<Byte>)
    requires (to + head) % WORD == 0 && dst.Length % WORD == 0 && aligned % WORD == 0 && mod < WORD
    requires to + head + aligned + mod <= dst.Length == |b| && from + head + aligned + mod <= |src|
    requires Copied(b, dst[..], src, from, to, head)
    modifies dst
    ensures Copied(b, dst[..], src, from, to, head + aligned + mod)
  {
    CopyMore(b, dst[..], src, from, to, head, aligned);
    CopyWords(src, from + head, dst, to + head, aligned);
    if mod != 0 {
      Aligned(to + head, aligned);
      CopyTail(src, from, dst, to, head + aligned, mod, b);
    }
  }

  /** The bytes of a last word. */
  method CopyTail(src: seq<Byte>, from: nat, dst: array<Byte>, to: nat, n: nat, mod: nat, ghost b: seq<Byte>)
    requires (to + n) % WORD == 0 && dst.Length % WORD == 0 && 0 < mod < WORD
    requires to + n + mod <= dst.Length == |b| && from + n + mod <= |src| && Copied(b, dst[..], src, from, to, n)
    modifies dst
    ensures Copied(b, dst[..], src, from, to, n + mod)
  {
    CopyMore(b, dst[..], src, from, to, n, mod);
    StoreInWord(dst, to + n, to + n, src[from + n..from + n + mod]);
  }

  lemma Aligned(a: nat, b: nat)
    requires a % WORD == 0 && b % WORD == 0
    ensures (a + b) % WORD == 0
  {
  }
}
