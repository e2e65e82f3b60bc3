/** The transmit routines of the FDDI driver as they run: descriptors, buffers and queues are changed in place.
    Each does what the function of the same name in `XmitModel` says, and hands the new packet over. */
module XmitDriver {
  import opened Common
  import opened XmitRing
  import M = XmitModel
  import opened XmitInvariant
  import opened WordCopy

  // ---------------------------------------------------------------------------
  // Copies into memory that is written in words

  /** A buffer is a number of words of the adapter's memory. */
  predicate WordSized(c: Config) { c.size % WORD == 0 && c.size < UNSIGNED_LIMIT - WORD }

  lemma {:induction false} OffAligned(c: Config, k: nat)
    requires c.size % WORD == 0
    ensures Off(c, k) % WORD == 0
  {
    if k == 0 {
      assert Off(c, 0) == 0;
    } else {
      var before := Off(c, k - 1);
      OffNext(c, k - 1);
      OffAligned(c, k - 1);
      assert before % WORD == 0;
      Aligned(before, c.size);
    }
  }

  lemma {:induction false} SameBoundary(size: nat, at: nat, remaining: nat, n: nat)
    requires size % WORD == 0 && (at + remaining) % WORD == 0 && remaining <= size
    ensures n >= remaining ==> ReachesBoundary(size - remaining, remaining) && ReachesBoundary(at, n)
    ensures ReachesBoundary(size - remaining, n) <==> ReachesBoundary(at, n)
  {
  }

  /** A copy up to the end of a buffer always reaches a boundary, and one that begins where byte `at` of the packet goes
      does as that byte does. */
  lemma {:induction false} CopyReaches(c: Config, k: nat, at: nat, remaining: nat, n: nat)
    requires WordSized(c) && remaining <= c.size && at + remaining == Off(c, k + 1)
    ensures n >= remaining ==> ReachesBoundary(c.size - remaining, remaining) && ReachesBoundary(at, n)
    ensures ReachesBoundary(c.size - remaining, n) <==> ReachesBoundary(at, n)
  {
    OffAligned(c, k + 1);
    SameBoundary(c.size, at, remaining, n);
  }

  // ---------------------------------------------------------------------------
  // Handing over

  /** The owners after CastOffPacket gave the adapter `n` descriptors. */
  function CastOwn(c: Config, own: seq<bool>, p: nat, n: nat): (r: seq<bool>)
    requires |own| == c.ring && p < c.ring
    ensures |r| == c.ring
  {
    seq(c.ring, i requires 0 <= i < c.ring => Dist(c, p, i) < n || own[i])
  }

  /** The state when CastOffPacket is through. */
  function Settle(c: Config, h: M.Host): (r: M.Host)
    requires M.HostOk(c, h)
    ensures M.HostOk(c, r)
  {
    h.(cast := 0, ring := h.ring.(own := CastOwn(c, h.ring.own, h.ring.next, h.cast)))
  }

  /** It is the state that the steps of the interleaved model lead to. */
  lemma {:induction false} CastAllSettles(c: Config, h: M.Host, a: M.Adapter)
    requires Good(c) && M.HostOk(c, h) && h.cast <= c.ring && a.at < c.ring
    ensures M.Run(c, M.System(h, a, false), seq(h.cast, i => M.Cast)) == M.System(Settle(c, h), a, false)
    decreases h.cast
  {
    var es := seq(h.cast, i => M.Cast);
    if h.cast == 0 {
      assert CastOwn(c, h.ring.own, h.ring.next, 0) == h.ring.own;
    } else {
      var h1 := M.CastOne(c, h);
      assert es[1..] == seq(h1.cast, i => M.Cast) && es[0] == M.Cast;
      CastAllSettles(c, h1, a);
      assert CastOwn(c, h1.ring.own, h.ring.next, h1.cast) == CastOwn(c, h.ring.own, h.ring.next, h.cast) by {
        DistAt(c, h.ring.next, h.cast - 1);
        forall i | 0 <= i < c.ring
          ensures (Dist(c, h.ring.next, i) < h1.cast || h1.ring.own[i])
                  == (Dist(c, h.ring.next, i) < h.cast || h.ring.own[i])
        {
          assert At(c, h.ring.next, Dist(c, h.ring.next, i)) == i;
        }
      }
      assert Settle(c, h1) == Settle(c, h);
    }
  }

  lemma {:induction false} SettleNothing(c: Config, h: M.Host)
    requires M.HostOk(c, h) && h.cast == 0
    ensures Settle(c, h) == h
  {
    assert CastOwn(c, h.ring.own, h.ring.next, 0) == h.ring.own;
  }

  // ---------------------------------------------------------------------------
  // Filling buffers bit by bit

  lemma {:induction false} FillNone(c: Config, bufs: seq<seq<Byte>>, p: nat)
    requires |bufs| == c.ring && p < c.ring && forall i :: 0 <= i < c.ring ==> |bufs[i]| == c.size
    ensures Fill(c, bufs, p, []) == bufs
  {
    forall i | 0 <= i < c.ring ensures Over(bufs[i], Piece(c, [], Dist(c, p, i))) == bufs[i] {}
  }

  lemma {:induction false} PieceMore(c: Config, done: seq<Byte>, x: seq<Byte>, k: nat, j: nat)
    requires Off(c, k) <= |done| && |done| + |x| <= Off(c, k + 1)
    ensures j < k ==> Piece(c, done + x, j) == Piece(c, done, j)
    ensures j == k ==> Piece(c, done + x, j) == Piece(c, done, j) + x && Piece(c, done, j) == done[Off(c, k)..]
    ensures j > k ==> Piece(c, done + x, j) == Piece(c, done, j) == []
  {
    OffNext(c, j);
    OffNext(c, k);
    if j < k {
      OffMonotone(c, j, k);
    } else if j == k + 1 {
    } else if j > k {
      OffMonotone(c, k + 1, j);
    }
  }

  /** Bytes that still fit into the current buffer go there, behind those that are in it. */
  lemma {:induction false} FillMore(c: Config, bufs: seq<seq<Byte>>, p: nat, done: seq<Byte>, x: seq<Byte>, k: nat)
    requires |bufs| == c.ring && p < c.ring && forall i :: 0 <= i < c.ring ==> |bufs[i]| == c.size
    requires k < c.ring && Off(c, k) <= |done| && |done| + |x| <= Off(c, k + 1)
    ensures |done| - Off(c, k) + |x| <= c.size
    ensures var f, d := Fill(c, bufs, p, done), At(c, p, k);
            Fill(c, bufs, p, done + x) == f[d := Put(f[d], |done| - Off(c, k), x)]
  {
    OffNext(c, k);
    var f, d := Fill(c, bufs, p, done), At(c, p, k);
    var g := Fill(c, bufs, p, done + x);
    DistAt(c, p, k);
    forall i | 0 <= i < c.ring ensures g[i] == f[d := Put(f[d], |done| - Off(c, k), x)][i] {
      PieceMore(c, done, x, k, Dist(c, p, i));
      assert At(c, p, Dist(c, p, i)) == i;
      if i == d { OverMore(bufs[d], done[Off(c, k)..], x); }
    }
  }

  lemma {:induction false} OverMore(b: seq<Byte>, y: seq<Byte>, x: seq<Byte>)
    requires |y| + |x| <= |b|
    ensures Over(b, y + x) == Put(Over(b, y), |y|, x)
  {
  }

  lemma {:induction false} MarkMore(c: Config, pages: seq<Page>, p: nat, m: nat, total: nat)
    requires |pages| == c.ring && p < c.ring && m < c.ring
    ensures MarkPages(c, pages, p, m + 1, total)
            == MarkPages(c, pages, p, m, total)[At(c, p, m) := if m == 0 then Page(c.marks.first, total)
                                                else Page(c.marks.middle, 0)]
  {
    DistAt(c, p, m);
    forall i | 0 <= i < c.ring && Dist(c, p, i) == m ensures i == At(c, p, m) {}
  }

  lemma {:induction false} ConcatPrefix(frags: seq<seq<Byte>>, i: nat)
    requires i < |frags|
    ensures M.Concat(frags[i..]) == frags[i] + M.Concat(frags[i + 1..])
  {
    assert frags[i..][1..] == frags[i + 1..];
  }

  /** How far packing got: to the end, to a descriptor of the adapter's, or to a copy that overruns. */
  datatype Progress = Complete | Owned | Overrun

  class Transmitter {
    const c: Config
    const own: array<bool>
    const pages: array<Page>
    const bufs: array<seq<Byte>>
    var next: nat
    var free: seq<nat>
    var queue: seq<M.Entry>
    var cur: Option<nat>
    var transmitting: bool
    var resetPending: bool
    var resets: nat
    var asked: seq<M.Request>
    var done: set<nat>
    ghost var accepted: seq<nat>
    ghost var sent: seq<nat>

    ghost function TheRing(): (r: Ring)
      reads this, own, pages, bufs
    {
      Ring(own[..], pages[..], bufs[..], next)
    }

    ghost function Now(): (r: M.Host)
      reads this, own, pages, bufs
    {
      M.Host(TheRing(), M.Driver(free, queue, cur, transmitting, resetPending, resets),
             M.Log(asked, accepted, sent, done), 0)
    }

    ghost predicate Valid()
      reads this, own, pages, bufs
    {
      Good(c) && WordSized(c) && M.HostOk(c, Now())
    }

    /** CastOffPacket: from the last descriptor back to the first. */
    method CastOffPacket(first: nat, last: nat, ghost n: nat)
      requires Good(c) && RingOk(c, TheRing()) && first < c.ring && 0 < n <= c.ring && last == At(c, first, n - 1)
      modifies own
      ensures own[..] == CastOwn(c, old(own[..]), first, n)
    {
      var desc := last;
      ghost var k := n - 1;
      while true
        invariant 0 <= k < n && desc == At(c, first, k)
        invariant forall i :: 0 <= i < c.ring ==> own[i] == (k < Dist(c, first, i) < n || old(own[i]))
        decreases k
      {
        DistAt(c, first, k);
        own[desc] := true;
        if desc == first {
          assert k == 0;
          break;
        }
        assert forall i :: 0 <= i < c.ring && Dist(c, first, i) == k ==> i == desc;
        desc := Prev(c, desc);
        k := k - 1;
      }
      forall i | 0 <= i < c.ring && Dist(c, first, i) == 0 ensures i == first {}
    }

    /** The length of a scatter/gather list. */
    method Total(frags: seq<seq<Byte>>) returns (total: nat)
      ensures total == HDR_SIZE + |M.Concat(frags)|
    {
      total := HDR_SIZE;
      assert frags[0..] == frags;
      for i := 0 to |frags|
        invariant total + |M.Concat(frags[i..])| == HDR_SIZE + |M.Concat(frags)|
      {
        ConcatPrefix(frags, i);
        total := total + |frags[i]|;
      }
    }

    /** `done` is in the buffers, the last of it in that of descriptor `desc`, number `k` of the packet, where there is
        room for `remaining` bytes. */
    ghost predicate Packing(r0: Ring, done: seq<Byte>, k: nat, desc: nat, remaining: nat, total: nat)
      reads this, own, pages, bufs
    {
      && Good(c) && RingOk(c, r0) && RingOk(c, TheRing()) && next == r0.next && k < c.ring && desc == At(c, next, k)
      && own[..] == r0.own && remaining <= c.size && |done| + remaining == Off(c, k + 1)
      && bufs[..] == Fill(c, r0.bufs, next, done) && pages[..] == MarkPages(c, r0.pages, next, k + 1, total)
      && forall j :: 0 <= j <= k ==> !own[At(c, next, j)]
    }

    /** NetDFBcopy of `x` into the current buffer, where it fits. The buffer is memory of the adapter's; what lies
        behind `x` in the host's memory is looked at only by a copy that overruns. */
    method CopyIn(x: seq<Byte>, desc: nat, remaining: nat, ghost r0: Ring, ghost done: seq<Byte>, ghost k: nat,
                  ghost total: nat)
      returns (ok: bool)
      requires WordSized(c) && Packing(r0, done, k, desc, remaining, total) && |x| <= remaining
      modifies bufs
      ensures ok <==> ReachesBoundary(c.size - remaining, |x|)
      ensures ok ==> Packing(r0, done + x, k, desc, remaining - |x|, total)
    {
      ghost var at := c.size - remaining;
      OffNext(c, k);
      FillMore(c, r0.bufs, next, done, x, k);
      var buffer := bufs[desc];
      var memory := new Byte[|buffer|](i requires 0 <= i < |buffer| => buffer[i]);
      assert memory[..] == buffer;
      var source := x + [0, 0, 0, 0];
      ok := NetDFBcopy(source, 0, memory, c.size - remaining, |x|);
      if ok {
        assert source[0..0 + |x|] == x;
        bufs[desc] := memory[..];
      }
    }

    /** The driver met a descriptor that the adapter owns: it has filled those before it. */
    ghost predicate Blocked(r0: Ring, s: seq<Byte>)
      reads this, own, pages, bufs
    {
      && Good(c) && RingOk(c, r0) && RingOk(c, TheRing()) && next == r0.next && own[..] == r0.own
      && var m := Usable(c, r0.own, next, Count(c, |s|));
         m < Count(c, |s|) && Off(c, m) <= |s| && bufs[..] == Fill(c, r0.bufs, next, s[..Off(c, m)])
         && pages[..] == MarkPages(c, r0.pages, next, m, |s|)
    }

    /** Obtain and initialize the next buffer. */
    method NextBuffer(desc0: nat, ghost r0: Ring, ghost s: seq<Byte>, ghost done: seq<Byte>, ghost k: nat)
      returns (ok: bool, desc: nat)
      requires Packing(r0, done, k, desc0, 0, |s|) && done <= s && |done| < |s| <= c.max
      modifies pages
      ensures if ok then k + 1 < Count(c, |s|) && Packing(r0, done, k + 1, desc, c.size, |s|) else Blocked(r0, s)
    {
      BufferNeeded(c, |s|, k);
      DistAt(c, next, k);
      desc := Next(c, desc0);
      if own[desc] {
        UsableIs(c, r0.own, next, Count(c, |s|), k + 1);
        assert done == s[..Off(c, k + 1)];
        return false, desc;
      }
      StartPage(desc0, desc, r0, done, k, |s|);
      return true, desc;
    }

    /** Mark the next descriptor; its buffer is empty. */
    method StartPage(desc0: nat, desc: nat, ghost r0: Ring, ghost done: seq<Byte>, ghost k: nat, ghost total: nat)
      requires Packing(r0, done, k, desc0, 0, total) && k + 1 < c.ring && desc == At(c, next, k + 1) && !own[desc]
      modifies pages
      ensures Packing(r0, done, k + 1, desc, c.size, total)
    {
      MarkMore(c, r0.pages, next, k + 1, total);
      pages[desc] := Page(c.marks.middle, 0);
      OffNext(c, k + 1);
      assert pages[..] == MarkPages(c, r0.pages, next, k + 2, total);
    }

    /** The while loop of OutputPacket and what follows it, for one element of the scatter/gather list. */
    method PutFragment(frag: seq<Byte>, desc0: nat, remaining0: nat, ghost r0: Ring, ghost s: seq<Byte>,
                       ghost done0: seq<Byte>, ghost k0: nat)
      returns (p: Progress, desc: nat, remaining: nat, ghost k: nat)
      requires WordSized(c)
      requires 0 < |s| <= c.max && done0 + frag <= s && Packing(r0, done0, k0, desc0, remaining0, |s|)
               && k0 < Count(c, |s|)
      modifies pages, bufs
      ensures match p
              case Complete =>
                Packing(r0, done0 + frag, k, desc, remaining, |s|) && k < Count(c, |s|)
                  && ReachesBoundary(|done0|, |frag|)
              case Owned => Blocked(r0, s)
              case Overrun => !ReachesBoundary(|done0|, |frag|)
    {
      CopyReaches(c, k0, |done0|, remaining0, |frag|);
      var rest := frag;
      desc, remaining, k := desc0, remaining0, k0;
      ghost var done := done0;
      while |rest| > remaining
        invariant Packing(r0, done, k, desc, remaining, |s|) && k < Count(c, |s|) && done + rest == done0 + frag
        invariant (remaining == remaining0 && rest == frag && done == done0 && k == k0)
                  || (remaining == c.size && |frag| >= remaining0)
        decreases |rest|, c.size - remaining
      {
        if remaining > 0 {
          CopyReaches(c, k, |done|, remaining, remaining);
          var copied := CopyIn(rest[..remaining], desc, remaining, r0, done, k, |s|);
          done := done + rest[..remaining];
          rest := rest[remaining..];
          assert done + rest == done0 + frag;
        }
        PrefixOf(done, rest, s);
        var ok;
        ok, desc := NextBuffer(desc, r0, s, done, k);
        if !ok {
          p := Owned;
          return;
        }
        remaining := c.size;
        k := k + 1;
      }
      CopyReaches(c, k, |done|, remaining, |rest|);
      var copied := CopyIn(rest, desc, remaining, r0, done, k, |s|);
      if !copied {
        p := Overrun;
        return;
      }
      remaining := remaining - |rest|;
      p := Complete;
    }

    /** The header goes into the first buffer. */
    method PutHeader(hdr: seq<Byte>, total: nat, ghost r0: Ring) returns (remaining: nat)
      requires Good(c) && WordSized(c) && RingOk(c, TheRing()) && r0 == TheRing() && |hdr| == HDR_SIZE && !own[next]
      modifies pages, bufs
      ensures Packing(r0, hdr, 0, next, remaining, total)
    {
      FillNone(c, r0.bufs, next);
      MarkMore(c, r0.pages, next, 0, total);
      assert MarkPages(c, r0.pages, next, 0, total) == r0.pages;
      assert At(c, next, 0) == next && Off(c, 1) == c.size;
      pages[next] := Page(c.marks.first, total);
      var copied := CopyIn(hdr, next, c.size, r0, [], 0, total);
      assert [] + hdr == hdr;
      remaining := c.size - HDR_SIZE;
    }

    /** The elements of the scatter/gather list follow. */
    method PutFragments(frags: seq<seq<Byte>>, remaining0: nat, ghost r0: Ring, ghost s: seq<Byte>,
                        ghost hdr: seq<Byte>)
      returns (p: Progress, desc: nat)
      requires WordSized(c) && 0 < |s| <= c.max && s == hdr + M.Concat(frags)
               && Packing(r0, hdr, 0, next, remaining0, |s|)
      modifies pages, bufs
      ensures match p
              case Complete => && 0 < Count(c, |s|) <= c.ring && desc == At(c, next, Count(c, |s|) - 1) && Filled(r0, s)
                             && M.FragmentsReach(|hdr|, frags)
              case Owned => Blocked(r0, s)
              case Overrun => !M.FragmentsReach(|hdr|, frags)
    {
      desc := next;
      var remaining := remaining0;
      ghost var done := hdr;
      ghost var k: nat := 0;
      CountIs(c, |s|, 0);
      CountFits(c, |s|);
      assert frags[0..] == frags;
      for i := 0 to |frags|
        invariant Packing(r0, done, k, desc, remaining, |s|) && k < Count(c, |s|) && done + M.Concat(frags[i..]) == s
        invariant M.FragmentsReach(|hdr|, frags) <==> M.FragmentsReach(|done|, frags[i..])
      {
        ConcatPrefix(frags, i);
        assert frags[i..][1..] == frags[i + 1..];
        Regroup(done, frags[i], M.Concat(frags[i + 1..]));
        if |frags[i]| == 0 {
          assert done + frags[i] == done;
          continue;
        }
        p, desc, remaining, k := PutFragment(frags[i], desc, remaining, r0, s, done, k);
        if p != Complete {
          return;
        }
        done := done + frags[i];
      }
      assert done == s;
      LastBuffer(c, |s|, k, remaining);
      UsableIs(c, r0.own, next, k + 1, k + 1);
      p := Complete;
    }

    /** All of `s` is in the ring; the last descriptor is not marked yet. */
    ghost predicate Filled(r0: Ring, s: seq<Byte>)
      reads this, own, pages, bufs
    {
      && Good(c) && RingOk(c, r0) && RingOk(c, TheRing()) && next == r0.next && own[..] == r0.own
      && Usable(c, r0.own, next, Count(c, |s|)) == Count(c, |s|)
      && bufs[..] == Fill(c, r0.bufs, next, s) && pages[..] == MarkPages(c, r0.pages, next, Count(c, |s|), |s|)
    }

    /** OutputPacket from the header on.  A copy overruns if and only if some element of the scatter/gather list that is
        copied does not reach the next word boundary; when all are copied the ring holds the packet. */
    method LoadRing(q: M.Request, total: nat, ghost s: seq<Byte>) returns (p: Progress)
      requires Good(c) && WordSized(c) && RingOk(c, TheRing()) && |q.dest| == 6 && !own[next]
      requires s == M.Frame(c, q) && |s| == total <= c.max
      modifies own, pages, bufs
      ensures Count(c, total) <= c.ring
      ensures p == Overrun ==> !M.FragmentsReach(HDR_SIZE, q.frags)
      ensures p == Complete ==> M.FragmentsReach(HDR_SIZE, q.frags)
      ensures p == Owned <==> p != Overrun && !Pack(c, old(TheRing()), s).ok
      ensures p != Overrun ==>
                var k := Pack(c, old(TheRing()), s);
                && RingOk(c, TheRing())
                && TheRing() == k.ring.(own := CastOwn(c, k.ring.own, next, if k.ok then Count(c, total) else 0))
    {
      ghost var r := TheRing();
      CountIs(c, |s|, 0);
      CountFits(c, |s|);
      var remaining := PutHeader(M.Header(c, q), total, r);
      var desc;
      p, desc := PutFragments(q.frags, remaining, r, s, M.Header(c, q));
      if p == Complete {
        HandOver(desc, r, s);
      } else if p == Owned {
        PackBlocked(c, r, s);
        assert CastOwn(c, r.own, next, 0) == r.own;
      }
    }

    /** Mark the last descriptor and give the packet to the adapter. */
    method HandOver(desc: nat, ghost r: Ring, ghost s: seq<Byte>)
      requires Filled(r, s) && 0 < |s| <= c.max && 0 < Count(c, |s|) <= c.ring && desc == At(c, next, Count(c, |s|) - 1)
      modifies own, pages
      ensures RingOk(c, TheRing()) && Pack(c, r, s).ok
      ensures TheRing() == Pack(c, r, s).ring.(own := CastOwn(c, r.own, next, Count(c, |s|)))
    {
      pages[desc] := pages[desc].(bits := pages[desc].bits + c.marks.last);
      assert pages[..] == MarkLast(c, MarkPages(c, r.pages, next, Count(c, |s|), |s|), desc);
      CastOffPacket(next, desc, Count(c, |s|));
    }

    /** OutputPacket. */
    method OutputPacket(serial: nat) returns (ok: bool)
      requires Valid() && serial < |asked|
      modifies this`transmitting, this`cur, this`sent, own, pages, bufs
      ensures Valid()
      ensures var t := M.OutputPacket(c, old(Now()), serial); ok == t.ok && Now() == Settle(c, t.h)
    {
      SettleNothing(c, Now());
      var desc := next;
      if own[desc] {
        return false;
      }
      transmitting := true;
      cur := Some(serial);
      ok := OutputChecked(serial);
    }

    /** Total up the packet, check the last descriptor, and send. */
    method OutputChecked(serial: nat) returns (ok: bool)
      requires Valid() && serial < |asked| && !own[next]
      modifies this`sent, own, pages, bufs
      ensures Valid()
      ensures var t := M.OutputChecked(c, old(Now()), serial); ok == t.ok && Now() == Settle(c, t.h)
    {
      ghost var h := Now();
      var q := asked[serial];
      var total := Total(q.frags);
      if total > c.max {
        SettleNothing(c, h);
        return false;
      }
      var i := total / c.size;
      var desc := (i + next) % c.ring;
      assert own[desc] == h.ring.own[(total / c.size + h.ring.next) % c.ring];
      if own[desc] {
        SettleNothing(c, h);
        return false;
      }
      ok := LoadAndSend(serial, q, total, M.Frame(c, q));
    }

    /** The packet is put in and handed over. */
    method LoadAndSend(serial: nat, q: M.Request, total: nat, ghost s: seq<Byte>) returns (ok: bool)
      requires Valid() && M.RequestOk(c, q) && !own[next] && s == M.Frame(c, q) && 0 < |s| == total <= c.max
      modifies this`sent, own, pages, bufs
      ensures Valid() && ok == Pack(c, old(TheRing()), s).ok
      ensures Now() == Settle(c, M.Loading(c, old(Now()), serial, s))
    {
      ghost var h := Now();
      var p := LoadRing(q, total, s);
      ok := p == Complete;
      if ok {
        sent := sent + [serial];
      } else {
        assert CastOwn(c, h.ring.own, h.ring.next, 0) == h.ring.own;
      }
    }

    /** OutputXmtElement for the first element of the queue. */
    method OutputXmtElement() returns (ok: bool)
      requires Valid() && queue != []
      modifies this`transmitting, this`cur, this`sent, this`free, this`queue, own, pages, bufs
      ensures Valid()
      ensures var t := M.OutputXmtElement(c, old(Now())); ok == t.ok && Now() == Settle(c, t.h)
    {
      var element := queue[0];
      ok := OutputPacket(element.serial);
      queue := queue[1..];
      free := free + [element.elem];
    }

    /** NetDFXmitDrop. */
    method XmitDrop()
      modifies this`cur, this`transmitting, this`done
      ensures Now() == M.XmitDrop(old(Now()))
    {
      if cur.Some? {
        done := done + {cur.value};
        cur := None;
      }
      transmitting := false;
      assert Now().log.done == M.XmitDrop(old(Now())).log.done;
    }

    /** NetDFReset, as far as the transmit ring is concerned. */
    method Reset()
      requires Valid()
      modifies this`resetPending, this`resets, this`next, own
      ensures Valid() && Now() == M.Reset(c, old(Now()))
    {
      if !resetPending && transmitting {
        resetPending := true;
        return;
      }
      resetPending := false;
      forall i | 0 <= i < own.Length { own[i] := false; }
      next := 0;
      resets := resets + 1;
      assert own[..] == seq(c.ring, i => false);
    }

    /** NetDFXmitFlushQ. */
    method XmitFlushQ()
      requires Valid()
      modifies this`queue, this`free, this`done
      ensures Valid() && Now() == M.XmitFlushQ(old(Now()))
    {
      while queue != []
        invariant Valid() && M.XmitFlushQ(Now()) == M.XmitFlushQ(old(Now()))
        decreases |queue|
      {
        FlushFirst(Now());
        var element := queue[0];
        done := done + {element.serial};
        queue := queue[1..];
        free := free + [element.elem];
      }
      FlushNone(Now());
    }

    /** NetDFXmitRestart. */
    method XmitRestart()
      requires Valid()
      modifies this, own, pages, bufs
      ensures Valid() && Now() == Settle(c, M.XmitRestart(c, old(Now())))
    {
      if queue != [] {
        var ok := OutputXmtElement();
        if !ok {
          XmitFlushQ();
        }
      } else {
        transmitting := false;
        cur := None;
        SettleNothing(c, Now());
      }
    }

    /** NetDFRestart. */
    method Restart()
      requires Valid()
      modifies this, own, pages, bufs
      ensures Valid() && Now() == Settle(c, M.Restart(c, old(Now())))
    {
      XmitDrop();
      Reset();
      XmitRestart();
    }

    /** NetDFOutput. */
    method Output(q: M.Request) returns (ok: bool)
      requires Valid() && M.RequestOk(c, q)
      modifies this, own, pages, bufs
      ensures Valid()
      ensures var t := M.Output(c, old(Now()), q); ok == t.ok && Now() == Settle(c, t.h)
    {
      var serial := |asked|;
      asked := asked + [q];
      if q.dest == c.addr {
        done := done + {serial};
        accepted := accepted + [serial];
        SettleNothing(c, Now());
        return true;
      }
      if !transmitting {
        ok := OutputNow(serial);
        return;
      }
      if free == [] {
        done := done + {serial};
        SettleNothing(c, Now());
        return false;
      }
      var element := free[0];
      free := free[1..];
      queue := queue + [M.Entry(element, serial)];
      accepted := accepted + [serial];
      SettleNothing(c, Now());
      return true;
    }

    /** The branch of NetDFOutput for an idle transmitter. */
    method OutputNow(serial: nat) returns (ok: bool)
      requires Valid() && serial < |asked|
      modifies this, own, pages, bufs
      ensures Valid()
      ensures var t := M.OutputPacket(c, old(Now()), serial);
              ok == t.ok && Now() == Settle(c, if ok then t.h.(log := t.h.log.(accepted := t.h.log.accepted + [serial]))
                                               else M.Restart(c, t.h))
    {
      ghost var h := Now();
      ok := OutputPacket(serial);
      if ok {
        accepted := accepted + [serial];
      } else {
        OutputFails(c, h, serial);
        Restart();
      }
    }

    /** The walk of NetDFXmitDone. */
    method FindEnd() returns (w: Walked)
      requires Valid()
      ensures w == Walk(c, pages[..], next, next)
    {
      var desc: nat := next;
      while true
        invariant desc < c.ring && Walk(c, pages[..], next, desc) == Walk(c, pages[..], next, next)
        decreases c.ring - Dist(c, next, desc)
      {
        if Eop in pages[desc].bits {
          return Last(desc);
        }
        desc := Next(c, desc);
        if desc == next {
          return NoEnd;
        }
        if SeemsOwned(c, pages[desc].bits) {
          return LooksOwned;
        }
      }
    }

    /** NetDFXmitDone. A panic leaves no state behind. */
    method XmitDone(dcc: bool) returns (panic: bool, ok: bool)
      requires Valid()
      modifies this, own, pages, bufs
      ensures Valid()
      ensures match M.XmitDone(c, old(Now()), dcc)
              case Panic => panic
              case Finished(h, good) => !panic && ok == good && Now() == Settle(c, h)
    {
      panic, ok := false, false;
      SettleNothing(c, Now());
      if cur == None || own[next] || Sop !in pages[next].bits {
        transmitting := false;
        SettleNothing(c, Now());
        return;
      }
      if !dcc {
        return;
      }
      var w := FindEnd();
      match w {
        case NoEnd => panic := true;
        case LooksOwned =>
          transmitting := false;
          SettleNothing(c, Now());
        case Last(last) =>
          next := Next(c, last);
          done := done + {cur.value};
          ok := SendNext();
      }
    }

    /** The end of NetDFXmitDone: the packet is done with, what comes next? */
    method SendNext() returns (ok: bool)
      requires Valid()
      modifies this, own, pages, bufs
      ensures Valid()
      ensures var r := Following(c, old(Now())); ok == r.ok && Now() == Settle(c, r.h)
    {
      if resetPending {
        transmitting := false;
        Restart();
        ok := true;
      } else if queue != [] {
        ok := OutputXmtElement();
        if !ok {
          transmitting := false;
        }
      } else {
        transmitting := false;
        cur := None;
        SettleNothing(c, Now());
        ok := true;
      }
    }
  }

  /** What NetDFXmitDone does after it has marked the packet done. */
  function Following(c: Config, h1: M.Host): (r: M.Tried)
    requires Good(c) && M.HostOk(c, h1)
  {
    if h1.drv.resetPending then M.Tried(M.Restart(c, h1.(drv := h1.drv.(transmitting := false))), true)
    else if h1.drv.queue != [] then
      var t := M.OutputXmtElement(c, h1);
      if t.ok then M.Tried(t.h, true) else M.Tried(t.h.(drv := t.h.drv.(transmitting := false)), false)
    else M.Tried(h1.(drv := h1.drv.(transmitting := false, cur := None)), true)
  }

  lemma {:induction false} FlushFirst(h: M.Host)
    requires h.drv.queue != []
    ensures var e := h.drv.queue[0];
            M.XmitFlushQ(h) == M.XmitFlushQ(h.(drv := h.drv.(queue := h.drv.queue[1..], free := h.drv.free + [e.elem]),
                                               log := h.log.(done := h.log.done + {e.serial})))
  {
    var q := h.drv.queue;
    assert M.Serials(q) == [q[0].serial] + M.Serials(q[1..]);
    assert M.Values(M.Serials(q)) == {q[0].serial} + M.Values(M.Serials(q[1..]));
    assert h.drv.free + M.Elems(q) == h.drv.free + [q[0].elem] + M.Elems(q[1..]);
  }

  lemma {:induction false} FlushNone(h: M.Host)
    requires h.drv.queue == []
    ensures M.XmitFlushQ(h) == h
  {
    assert M.Elems([]) == [] && M.Values(M.Serials([])) == {};
  }

  /** Nothing is handed over when output fails. */
  lemma {:induction false} OutputFails(c: Config, h: M.Host, serial: nat)
    requires Good(c) && M.HostOk(c, h) && serial < |h.log.asked| && h.cast == 0 && !M.OutputPacket(c, h, serial).ok
    ensures Settle(c, M.OutputPacket(c, h, serial).h) == M.OutputPacket(c, h, serial).h
  {
    SettleNothing(c, M.OutputPacket(c, h, serial).h);
  }

  /** What packing leaves behind when it meets a descriptor that the adapter owns. */
  lemma {:induction false} PackBlocked(c: Config, r: Ring, s: seq<Byte>)
    requires Good(c) && RingOk(c, r) && 0 < |s| <= c.max
    ensures var m := Usable(c, r.own, r.next, Count(c, |s|));
            m < Count(c, |s|) && Off(c, m) <= |s| ==>
              Pack(c, r, s)
                == Packed(r.(pages := MarkPages(c, r.pages, r.next, m, |s|),
                             bufs := Fill(c, r.bufs, r.next, s[..Off(c, m)])), false)
  {
    var m := Usable(c, r.own, r.next, Count(c, |s|));
    assert Min(Off(c, m), |s|) == Off(c, m) || |s| < Off(c, m);
  }

  lemma {:induction false} LastBuffer(c: Config, n: nat, k: nat, remaining: nat)
    requires Good(c) && 0 < n <= c.max && n + remaining == Off(c, k + 1) && remaining <= c.size && k < Count(c, n)
    ensures k + 1 == Count(c, n)
  {
    CountIs(c, n, 0);
    if k + 1 < Count(c, n) {
      OffMonotone(c, k, k + 1);
      if k + 1 < Count(c, n) - 1 { OffMonotone(c, k + 1, Count(c, n) - 1); }
    }
  }

  lemma {:induction false} Regroup(a: seq<Byte>, b: seq<Byte>, rest: seq<Byte>)
    ensures a + (b + rest) == a + b + rest && a + b <= a + (b + rest)
  {
  }

  lemma PrefixOf(a: seq<Byte>, b: seq<Byte>, s: seq<Byte>)
    requires a + b <= s
    ensures a <= s
  {
  }

  /** A packet with more bytes than k + 1 buffers hold takes another. */
  lemma {:induction false} BufferNeeded(c: Config, n: nat, k: nat)
    requires Good(c) && Off(c, k + 1) < n <= c.max
    ensures k + 1 < Count(c, n) <= c.ring
  {
    CountIs(c, n, 0);
    CountFits(c, n);
    if Count(c, n) < k + 1 { OffMonotone(c, Count(c, n), k + 1); }
  }
}
