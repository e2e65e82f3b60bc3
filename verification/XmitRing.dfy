/** The transmit ring of the FDDI adapter: descriptors, the buffers behind them, and the packing of a packet into
    them. */
module XmitRing {
  import opened Common

  /** The bits of a descriptor word that the driver tests. */
  datatype Bit = Sop | Eop | OwnBit

  /** The words that mark the pages of a packet, and whether the ownership bit is set for the adapter. */
  datatype Marks = Marks(first: set<Bit>, middle: set<Bit>, last: set<Bit>, adapterHigh: bool)

  /** What the adapter's interface fixes. */
  datatype Config = Config(size: nat, ring: nat, max: nat, marks: Marks, prh: seq<Byte>, addr: seq<Byte>)

  /** sizeof (Net_FDDIHdr): request header, frame control, destination, source. */
  const HDR_SIZE := 3 + 1 + 6 + 6

  predicate Good(c: Config) {
    && HDR_SIZE <= c.size && 0 < c.ring && c.max <= Off(c, c.ring) && |c.prh| == 3 && |c.addr| == 6
    && Sop in c.marks.first && Sop !in c.marks.middle + c.marks.last
    && Eop in c.marks.last && Eop !in c.marks.first + c.marks.middle
  }

  datatype Page = Page(bits: set<Bit>, pbc: nat)

  /** `own[i]` says that the adapter owns descriptor `i`. */
  datatype Ring = Ring(own: seq<bool>, pages: seq<Page>, bufs: seq<seq<Byte>>, next: nat)

  predicate RingOk(c: Config, r: Ring) {
    && |r.own| == |r.pages| == |r.bufs| == c.ring && r.next < c.ring
    && forall i :: 0 <= i < c.ring ==> |r.bufs[i]| == c.size
  }

  // ---------------------------------------------------------------------------
  // Going round

  /** NEXT_RMC_SEND. */
  function Next(c: Config, p: nat): (r: nat)
    requires p < c.ring
    ensures r < c.ring
  {
    if p + 1 > c.ring - 1 then 0 else p + 1
  }

  /** PREV_RMC_SEND. */
  function Prev(c: Config, p: nat): (r: nat)
    requires p < c.ring
    ensures r < c.ring && Next(c, r) == p
  {
    if p == 0 then c.ring - 1 else p - 1
  }

  /** The descriptor `j` places after `p`. */
  function At(c: Config, p: nat, j: nat): (r: nat)
    requires p < c.ring && j <= c.ring
    ensures r < c.ring
  {
    if p + j >= c.ring then p + j - c.ring else p + j
  }

  /** How many places `i` is after `p`. */
  function Dist(c: Config, p: nat, i: nat): (j: nat)
    requires p < c.ring && i < c.ring
    ensures j < c.ring && At(c, p, j) == i
  {
    if i >= p then i - p else i - p + c.ring
  }

  lemma DistAt(c: Config, p: nat, j: nat)
    requires p < c.ring && j < c.ring
    ensures Dist(c, p, At(c, p, j)) == j && Next(c, At(c, p, j)) == At(c, p, j + 1)
  {
  }

  /** The index computed for the check of the last descriptor. */
  lemma {:induction false} CheckedIndex(c: Config, p: nat, n: nat)
    requires p < c.ring && n <= c.ring
    ensures (n + p) % c.ring == At(c, p, n)
  {
    if p + n < c.ring {
      Small(p + n, c.ring);
    } else if p + n < 2 * c.ring {
      Small(p + n - c.ring, c.ring);
      assert (p + n - c.ring + 1 * c.ring) % c.ring == (p + n - c.ring) % c.ring by { Wrap(p + n - c.ring, c.ring); }
    }
  }

  lemma Small(x: nat, m: nat)
    requires x < m
    ensures x % m == x
  {
  }

  lemma Wrap(x: nat, m: nat)
    requires x < m
    ensures (x + m) % m == x
  {
  }

  // ---------------------------------------------------------------------------
  // Cutting a packet into pages

  function Off(c: Config, j: nat): (r: nat) { j * c.size }

  lemma {:induction false} OffMonotone(c: Config, i: nat, j: nat)
    requires i < j
    ensures Off(c, i) + c.size <= Off(c, j)
    decreases j
  {
    OffNext(c, j - 1);
    if i < j - 1 {
      OffMonotone(c, i, j - 1);
    }
  }

  lemma OffNext(c: Config, j: nat)
    ensures Off(c, j + 1) == Off(c, j) + c.size
  {
  }

  /** How many descriptors a packet of `n` bytes takes: n / size rounded up. */
  function Count(c: Config, n: nat): (r: nat)
    requires c.size > 0
  {
    (n + c.size - 1) / c.size
  }

  lemma {:induction false} CountIs(c: Config, n: nat, k: nat)
    requires c.size > 0 && n > 0
    ensures Count(c, n) > 0 && Off(c, Count(c, n) - 1) < n <= Off(c, Count(c, n))
    ensures Off(c, k) < n <= Off(c, k + 1) ==> k + 1 == Count(c, n)
  {
    var m := Count(c, n);
    assert n + c.size - 1 == m * c.size + (n + c.size - 1) % c.size;
    assert m != 0;
    assert Off(c, m - 1) == m * c.size - c.size;
    OffNext(c, k);
    if Off(c, k) < n <= Off(c, k + 1) {
      if k + 1 < m { OffMonotone(c, k + 1, m); }
      if m < k + 1 { OffMonotone(c, m, k + 1); }
    }
  }

  lemma {:induction false} CountFits(c: Config, n: nat)
    requires Good(c) && 0 < n <= c.max
    ensures Count(c, n) <= c.ring && n / c.size <= Count(c, n)
  {
    CountIs(c, n, 0);
    if c.ring < Count(c, n) - 1 {
      OffMonotone(c, c.ring, Count(c, n) - 1);
    }
    Quotient(c, n, Count(c, n));
  }

  lemma {:induction false} Quotient(c: Config, n: nat, m: nat)
    requires c.size > 0 && n <= Off(c, m)
    ensures n / c.size <= m
  {
    var q := n / c.size;
    assert n == q * c.size + n % c.size;
    if m < q { OffMonotone(c, m, q); }
  }

  /** The part of `s` that goes into page `j`. */
  function Piece(c: Config, s: seq<Byte>, j: nat): (r: seq<Byte>)
    ensures |r| <= c.size
  {
    var from := Off(c, j);
    if from >= |s| then [] else if from + c.size <= |s| then s[from..from + c.size] else s[from..]
  }

  /** A buffer with its first bytes overwritten. */
  function Over(b: seq<Byte>, x: seq<Byte>): (r: seq<Byte>)
    requires |x| <= |b|
    ensures |r| == |b|
  {
    x + b[|x|..]
  }

  /** The buffers after the bytes `s` were put in from descriptor `p` on. */
  function Fill(c: Config, bufs: seq<seq<Byte>>, p: nat, s: seq<Byte>): (r: seq<seq<Byte>>)
    requires |bufs| == c.ring && p < c.ring && forall i :: 0 <= i < c.ring ==> |bufs[i]| == c.size
    ensures |r| == c.ring && forall i :: 0 <= i < c.ring ==> |r[i]| == c.size
  {
    seq(c.ring, i requires 0 <= i < c.ring => Over(bufs[i], Piece(c, s, Dist(c, p, i))))
  }

  /** The descriptor words of the first `m` pages, before the last is known. */
  function MarkPages(c: Config, pages: seq<Page>, p: nat, m: nat, total: nat): (r: seq<Page>)
    requires |pages| == c.ring && p < c.ring
    ensures |r| == c.ring
  {
    seq(c.ring, i requires 0 <= i < c.ring =>
      if Dist(c, p, i) >= m then pages[i]
      else if i == p then Page(c.marks.first, total) else Page(c.marks.middle, 0))
  }

  function MarkLast(c: Config, pages: seq<Page>, i: nat): (r: seq<Page>)
    requires i < |pages|
    ensures |r| == |pages|
  {
    pages[i := pages[i].(bits := pages[i].bits + c.marks.last)]
  }

  /** How many of the `n` descriptors from `p` on the host owns before the first one that it does not. */
  function Usable(c: Config, own: seq<bool>, p: nat, n: nat): (m: nat)
    requires |own| == c.ring && p < c.ring
    ensures m <= n
    decreases n
  {
    if n == 0 || own[p] then 0 else 1 + Usable(c, own, Next(c, p), n - 1)
  }

  lemma {:induction false} UsableIs(c: Config, own: seq<bool>, p: nat, n: nat, m: nat)
    requires |own| == c.ring && p < c.ring && m <= n <= c.ring
    requires forall j :: 0 <= j < m ==> !own[At(c, p, j)]
    requires m < n ==> own[At(c, p, m)]
    ensures Usable(c, own, p, n) == m
    decreases n
  {
    assert At(c, p, 0) == p;
    if n > 0 && m > 0 {
      assert !own[At(c, p, 0)];
      var q := Next(c, p);
      forall j | 0 <= j < m - 1 ensures !own[At(c, q, j)] {
        assert At(c, q, j) == At(c, p, j + 1);
      }
      assert m < n ==> At(c, q, m - 1) == At(c, p, m);
      UsableIs(c, own, q, n - 1, m - 1);
    }
  }

  datatype Packed = Packed(ring: Ring, ok: bool)

  /** The ring after a packet was put in; it stops at a descriptor that the adapter owns. */
  function Pack(c: Config, r: Ring, s: seq<Byte>): (k: Packed)
    requires Good(c) && RingOk(c, r) && 0 < |s| <= c.max
    ensures RingOk(c, k.ring) && k.ring.own == r.own && k.ring.next == r.next
  {
    var n := Count(c, |s|);
    var m := Usable(c, r.own, r.next, n);
    var pages := MarkPages(c, r.pages, r.next, m, |s|);
    var bufs := Fill(c, r.bufs, r.next, if m < n then s[..Min(Off(c, m), |s|)] else s);
    if m < n then Packed(r.(pages := pages, bufs := bufs), false)
    else
      CountIs(c, |s|, 0);
      CountFits(c, |s|);
      Packed(r.(pages := MarkLast(c, pages, At(c, r.next, n - 1)), bufs := bufs), true)
  }

  // ---------------------------------------------------------------------------
  // What packing achieves

  /** The bits of page `j` of `n`. */
  function PageBits(c: Config, j: nat, n: nat): (r: set<Bit>) {
    (if j == 0 then c.marks.first else c.marks.middle) + (if j + 1 == n then c.marks.last else {})
  }

  /** The packet `s` lies in the ring from `next` on. */
  ghost predicate Loaded(c: Config, r: Ring, s: seq<Byte>)
    requires Good(c) && RingOk(c, r) && Count(c, |s|) <= c.ring
  {
    var n := Count(c, |s|);
    forall j :: 0 <= j < n ==>
      && r.pages[At(c, r.next, j)] == Page(PageBits(c, j, n), if j == 0 then |s| else 0)
      && Piece(c, s, j) <= r.bufs[At(c, r.next, j)]
  }

  /** The contents of `n` buffers one after the other. */
  function Joined(c: Config, bufs: seq<seq<Byte>>, p: nat, n: nat): (r: seq<Byte>)
    requires |bufs| == c.ring && p < c.ring && n <= c.ring
  {
    if n == 0 then [] else Joined(c, bufs, p, n - 1) + bufs[At(c, p, n - 1)]
  }

  /** On a ring that the host owns a packet always fits, and is packed completely. */
  lemma {:induction false} PackLoads(c: Config, r: Ring, s: seq<Byte>)
    requires Good(c) && RingOk(c, r) && 0 < |s| <= c.max
    requires forall i :: 0 <= i < c.ring ==> !r.own[i]
    ensures Count(c, |s|) <= c.ring && Pack(c, r, s).ok && Loaded(c, Pack(c, r, s).ring, s)
  {
    var n := Count(c, |s|);
    CountIs(c, |s|, 0);
    CountFits(c, |s|);
    UsableIs(c, r.own, r.next, n, n);
    var r' := Pack(c, r, s).ring;
    forall j | 0 <= j < n
      ensures r'.pages[At(c, r.next, j)] == Page(PageBits(c, j, n), if j == 0 then |s| else 0)
      ensures Piece(c, s, j) <= r'.bufs[At(c, r.next, j)]
    {
      DistAt(c, r.next, j);
      DistAt(c, r.next, n - 1);
    }
  }

  /** One buffer more holds one page more. */
  lemma {:induction false} PieceFull(c: Config, s: seq<Byte>, j: nat)
    requires Off(c, j + 1) <= |s|
    ensures Off(c, j) <= |s| && s[..Off(c, j)] + Piece(c, s, j) == s[..Off(c, j + 1)]
    ensures |Piece(c, s, j)| == c.size
  {
    OffNext(c, j);
  }

  lemma {:induction false} JoinedFull(c: Config, r: Ring, s: seq<Byte>, k: nat)
    requires Good(c) && RingOk(c, r) && 0 < |s| && Count(c, |s|) <= c.ring && Loaded(c, r, s) && k < Count(c, |s|)
    ensures Off(c, k) <= |s| && Joined(c, r.bufs, r.next, k) == s[..Off(c, k)]
  {
    CountIs(c, |s|, 0);
    if k > 0 {
      JoinedFull(c, r, s, k - 1);
      if k < Count(c, |s|) - 1 { OffMonotone(c, k, Count(c, |s|) - 1); }
      PieceFull(c, s, k - 1);
      assert Piece(c, s, k - 1) <= r.bufs[At(c, r.next, k - 1)];
    }
  }

  /** The buffers, joined and cut to the byte count of the first descriptor, are the packet. */
  lemma {:induction false} JoinedIsPacket(c: Config, r: Ring, s: seq<Byte>)
    requires Good(c) && RingOk(c, r) && 0 < |s| && Count(c, |s|) <= c.ring && Loaded(c, r, s)
    ensures s <= Joined(c, r.bufs, r.next, Count(c, |s|)) && r.pages[r.next].pbc == |s|
  {
    var n := Count(c, |s|);
    CountIs(c, |s|, 0);
    assert At(c, r.next, 0) == r.next;
    JoinedFull(c, r, s, n - 1);
    LastPiece(c, s, r.bufs[At(c, r.next, n - 1)], n - 1);
  }

  /** The last buffer completes the packet. */
  lemma {:induction false} LastPiece(c: Config, s: seq<Byte>, b: seq<Byte>, k: nat)
    requires Off(c, k) < |s| <= Off(c, k + 1) && Piece(c, s, k) <= b
    ensures s <= s[..Off(c, k)] + b
  {
    OffNext(c, k);
    assert s[Off(c, k)..] <= b;
    assert s == s[..Off(c, k)] + s[Off(c, k)..];
  }

  // ---------------------------------------------------------------------------
  // The walk of NetDFXmitDone

  datatype Walked = Last(p: nat) | NoEnd | LooksOwned

  predicate SeemsOwned(c: Config, bits: set<Bit>) { (OwnBit in bits) == c.marks.adapterHigh }

  /** From descriptor `p` to the end of the packet that starts at `start`.  After a step it is the descriptor word, and
      not the ownership word, that is tested for the ownership bit. */
  function Walk(c: Config, pages: seq<Page>, start: nat, p: nat): (w: Walked)
    requires |pages| == c.ring && start < c.ring && p < c.ring
    ensures w.Last? ==> w.p < c.ring
    decreases c.ring - Dist(c, start, p)
  {
    if Eop in pages[p].bits then Last(p)
    else
      var q := Next(c, p);
      if q == start then NoEnd
      else if SeemsOwned(c, pages[q].bits) then LooksOwned
      else Walk(c, pages, start, q)
  }

  /** No page after the first has a word that the walk takes for one of the adapter's. */
  predicate WalkSafe(c: Config, n: nat) {
    n <= 1 || (!SeemsOwned(c, c.marks.middle + c.marks.last) && (n == 2 || !SeemsOwned(c, c.marks.middle)))
  }

  lemma {:induction false} WalkFrom(c: Config, r: Ring, s: seq<Byte>, k: nat)
    requires Good(c) && RingOk(c, r) && 0 < |s| && Count(c, |s|) <= c.ring && Loaded(c, r, s)
    requires k < Count(c, |s|) && WalkSafe(c, Count(c, |s|))
    ensures Walk(c, r.pages, r.next, At(c, r.next, k)) == Last(At(c, r.next, Count(c, |s|) - 1))
    decreases Count(c, |s|) - k
  {
    var n := Count(c, |s|);
    DistAt(c, r.next, k);
    assert r.pages[At(c, r.next, k)].bits == PageBits(c, k, n);
    if k + 1 < n {
      DistAt(c, r.next, k + 1);
      assert r.pages[At(c, r.next, k + 1)].bits == PageBits(c, k + 1, n);
      WalkFrom(c, r, s, k + 1);
    }
  }

  /** The walk over a packed packet stops on exactly its last descriptor, unless the marks of later pages look owned. */
  lemma {:induction false} WalkFindsLast(c: Config, r: Ring, s: seq<Byte>)
    requires Good(c) && RingOk(c, r) && 0 < |s| && Count(c, |s|) <= c.ring && Loaded(c, r, s)
    ensures var w := Walk(c, r.pages, r.next, r.next);
            if WalkSafe(c, Count(c, |s|)) then w == Last(At(c, r.next, Count(c, |s|) - 1)) else w == LooksOwned
  {
    var n := Count(c, |s|);
    CountIs(c, |s|, 0);
    assert At(c, r.next, 0) == r.next;
    if WalkSafe(c, n) {
      WalkFrom(c, r, s, 0);
    } else {
      assert r.pages[At(c, r.next, 0)].bits == PageBits(c, 0, n);
      DistAt(c, r.next, 0);
      DistAt(c, r.next, 1);
      assert r.pages[At(c, r.next, 1)].bits == PageBits(c, 1, n);
      if n > 2 && !SeemsOwned(c, c.marks.middle) {
        WalkStops(c, r, s, 1);
      }
    }
  }

  lemma {:induction false} WalkStops(c: Config, r: Ring, s: seq<Byte>, k: nat)
    requires Good(c) && RingOk(c, r) && 0 < |s| && Count(c, |s|) <= c.ring && Loaded(c, r, s)
    requires 1 <= k < Count(c, |s|) - 1
    requires SeemsOwned(c, c.marks.middle + c.marks.last) && !SeemsOwned(c, c.marks.middle)
    ensures Walk(c, r.pages, r.next, At(c, r.next, k)) == LooksOwned
    decreases Count(c, |s|) - k
  {
    var n := Count(c, |s|);
    DistAt(c, r.next, k);
    DistAt(c, r.next, k + 1);
    assert r.pages[At(c, r.next, k)].bits == PageBits(c, k, n);
    assert r.pages[At(c, r.next, k + 1)].bits == PageBits(c, k + 1, n);
    if k + 1 < n - 1 {
      WalkStops(c, r, s, k + 1);
    }
  }
}
