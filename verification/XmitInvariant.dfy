/** What every step of the driver and the adapter keeps. */
module XmitInvariant {
  import opened Common
  import opened XmitRing
  import opened XmitModel
  import opened XmitBooks

  ghost predicate RingFree(c: Config, r: Ring) {
    RingOk(c, r) && forall i :: 0 <= i < c.ring ==> !r.own[i]
  }

  /** Is the current packet on the ring?  Not if it was refused there. */
  predicate OnRing(h: Host) {
    h.drv.cur.Some? && h.log.sent != [] && h.log.sent[|h.log.sent| - 1] == h.drv.cur.value
  }

  /** The driver believes that it is transmitting, but nothing is on the ring. */
  predicate Wedged(h: Host) { h.drv.transmitting && !OnRing(h) }

  /** How many of the packet's `n` descriptors the adapter has handed back. */
  function Back(c: Config, h: Host, a: Adapter, n: nat): (r: nat)
    requires RingOk(c, h.ring) && a.at < c.ring
  {
    if a.irq then n else Dist(c, h.ring.next, a.at)
  }

  function Low(c: Config, h: Host, a: Adapter, n: nat): (r: nat)
    requires RingOk(c, h.ring) && a.at < c.ring
  {
    if h.cast > 0 then h.cast else Back(c, h, a, n)
  }

  /** The adapter owns the descriptors of the packet from number `low` to the last, number n - 1, and no others. */
  ghost predicate OwnsFrom(c: Config, r: Ring, low: nat, n: nat)
    requires RingOk(c, r)
  {
    forall i :: 0 <= i < c.ring ==> (r.own[i] <==> low <= Dist(c, r.next, i) < n)
  }

  ghost predicate PacketInv(c: Config, h: Host, a: Adapter, s: seq<Byte>)
    requires Good(c) && RingOk(c, h.ring) && a.at < c.ring
  {
    var n := Count(c, |s|);
    && 0 < |s| <= c.max && n <= c.ring && Loaded(c, h.ring, s)
    && h.cast <= n && OwnsFrom(c, h.ring, Low(c, h, a, n), n)
    && (var b := Back(c, h, a, n);
        && b <= n && a.at == At(c, h.ring.next, b)
        && (h.cast > 0 ==> b == 0 && !a.irq)
        && (a.irq || b < n)
        && (0 < b < n ==> Off(c, b) <= |s| && a.partial == s[..Off(c, b)] && a.pbc == |s|))
  }

  ghost predicate RingInv(c: Config, h: Host, a: Adapter)
    requires Good(c) && RingOk(c, h.ring) && a.at < c.ring
  {
    if OnRing(h) then h.drv.cur.value < |h.log.asked| && PacketInv(c, h, a, Frame(c, h.log.asked[h.drv.cur.value]))
    else RingFree(c, h.ring) && h.cast == 0 && !a.irq && a.at == h.ring.next
  }

  /** The network saw the packets listed as completed, whole and unchanged. */
  ghost predicate WireInv(c: Config, log: Log, a: Adapter) {
    && |a.wire| == |a.completed| && Asc(a.completed) && Below(log.sent, |log.asked|)
    && (forall x :: x in a.completed ==> x in log.sent)
    && (forall i :: 0 <= i < |a.wire| ==>
          a.completed[i] < |log.asked| && a.wire[i] == Frame(c, log.asked[a.completed[i]]))
  }

  /** The current packet is completed exactly when the adapter says so. */
  ghost predicate DoneInv(h: Host, a: Adapter) {
    OnRing(h) ==> (h.drv.cur.value in a.completed <==> a.irq)
  }

  ghost predicate Inv(c: Config, all: multiset<nat>, s: System)
    requires Good(c)
  {
    && !s.panicked && SystemOk(c, s) && Lists(s.host.drv, all) && Flags(s.host.drv)
    && Books(Pending(s.host.drv), s.host.log)
    && RingInv(c, s.host, s.adapter) && WireInv(c, s.host.log, s.adapter) && DoneInv(s.host, s.adapter)
  }

  // ---------------------------------------------------------------------------
  // Putting a packet on a free ring

  lemma FrameSize(c: Config, q: Request)
    requires Good(c) && RequestOk(c, q)
    ensures |Frame(c, q)| >= HDR_SIZE
  {
  }

  /** On a ring that the host owns, output fails only for a packet that is too large. */
  lemma {:induction false} OutputFree(c: Config, h: Host, serial: nat)
    requires Good(c) && HostOk(c, h) && RingFree(c, h.ring) && serial < |h.log.asked|
    ensures var t := OutputPacket(c, h, serial);
            && t.ok == !Oversize(c, h, serial)
            && t.h.drv == h.drv.(transmitting := true, cur := Some(serial))
            && (if t.ok then
                  var s := Frame(c, h.log.asked[serial]);
                  && t.h.log == h.log.(sent := h.log.sent + [serial]) && t.h.cast == Count(c, |s|) <= c.ring
                  && 0 < |s| <= c.max && RingFree(c, t.h.ring) && t.h.ring.next == h.ring.next && Loaded(c, t.h.ring, s)
                else t.h == h.(drv := t.h.drv))
  {
    var s := Frame(c, h.log.asked[serial]);
    FrameSize(c, h.log.asked[serial]);
    if |s| <= c.max {
      CountFits(c, |s|);
      CheckedIndex(c, h.ring.next, |s| / c.size);
      PackLoads(c, h.ring, s);
    }
  }

  /** The driver after an entry that found the ring free: a new packet is on it, or it is still free. */
  ghost predicate Entry(c: Config, h: Host, a: Adapter)
    requires Good(c)
  {
    && HostOk(c, h) && RingFree(c, h.ring) && a.at == h.ring.next && !a.irq
    && (if OnRing(h) then
          && h.drv.cur.value < |h.log.asked| && h.drv.cur.value !in a.completed
          && var s := Frame(c, h.log.asked[h.drv.cur.value]);
             0 < |s| <= c.max && h.cast == Count(c, |s|) <= c.ring && Loaded(c, h.ring, s)
        else h.cast == 0)
  }

  lemma {:induction false} EntryInv(c: Config, h: Host, a: Adapter)
    requires Good(c) && Entry(c, h, a)
    ensures RingInv(c, h, a) && DoneInv(h, a)
  {
    if OnRing(h) {
      var s := Frame(c, h.log.asked[h.drv.cur.value]);
      CountIs(c, |s|, 0);
      assert At(c, h.ring.next, 0) == a.at;
      DistAt(c, h.ring.next, 0);
    }
  }

  /** The driver between two packets: the ring is free, no packet is current, the queue may hold some. */
  ghost predicate Between(c: Config, all: multiset<nat>, h: Host)
    requires Good(c)
  {
    && HostOk(c, h) && RingFree(c, h.ring) && h.cast == 0 && !h.drv.resetPending && Lists(h.drv, all)
    && Books(Serials(h.drv.queue), h.log) && SentFirst(Serials(h.drv.queue), h.log.sent, true)
  }

  /** What holds of the driver's books after an entry. */
  ghost predicate Kept(c: Config, all: multiset<nat>, h: Host)
    requires Good(c)
  {
    HostOk(c, h) && Lists(h.drv, all) && Flags(h.drv) && Books(Pending(h.drv), h.log)
  }

  lemma {:induction false} PromotePending(d: Driver, d': Driver)
    requires d.queue != [] && d'.cur == Some(d.queue[0].serial) && d'.queue == d.queue[1..]
    ensures Pending(d') == Serials(d.queue)
  {
    SerialsTail(d.queue);
  }

  /** The first element of the queue is output. */
  lemma {:induction false} Promote(c: Config, all: multiset<nat>, h: Host, a: Adapter)
    requires Good(c) && Between(c, all, h) && h.drv.queue != [] && a.at == h.ring.next && !a.irq
    requires WireInv(c, h.log, a)
    ensures var t := OutputXmtElement(c, h);
            && t.ok == !Oversize(c, h, h.drv.queue[0].serial)
            && Kept(c, all, t.h) && Entry(c, t.h, a) && WireInv(c, t.h.log, a)
            && t.h.drv.resets == h.drv.resets && t.h.ring.next == h.ring.next
            && t.h.drv.cur == Some(h.drv.queue[0].serial) && t.h.drv.queue == h.drv.queue[1..]
            && t.h.log == (if t.ok then h.log.(sent := h.log.sent + [h.drv.queue[0].serial]) else h.log)
            && OnRing(t.h) == t.ok
  {
    var serial := h.drv.queue[0].serial;
    var t := OutputXmtElement(c, h);
    OutputFree(c, h, serial);
    PromotePending(h.drv, t.h.drv);
    ListsPromote(h.drv, all);
    SerialsTail(h.drv.queue);
    BooksSend(Serials(h.drv.queue), h.log);
  }

  /** NetDFXmitRestart. */
  lemma {:induction false} XmitRestartKeeps(c: Config, all: multiset<nat>, h: Host, a: Adapter)
    requires Good(c) && Between(c, all, h) && a.at == h.ring.next && !a.irq && WireInv(c, h.log, a)
    ensures var r := XmitRestart(c, h);
            && Kept(c, all, r) && Entry(c, r, a) && WireInv(c, r.log, a) && r.drv.resets == h.drv.resets
            && r.log.asked == h.log.asked
  {
    if h.drv.queue != [] {
      Promote(c, all, h, a);
      var t := OutputXmtElement(c, h).h;
      ListsFlush(t.drv, all);
      BooksFlush(Pending(t.drv), 1, t.log);
      assert Pending(t.drv)[1..] == Serials(t.drv.queue);
      assert Pending(t.drv)[..1] == Pending(XmitFlushQ(t).drv);
    } else {
      assert Pending(XmitRestart(c, h).drv) == Serials(h.drv.queue);
    }
  }

  /** Dropping the current packet leaves the driver between two packets, once the ring is reset. */
  lemma {:induction false} DropKeeps(c: Config, all: multiset<nat>, h: Host)
    requires Good(c) && HostOk(c, h) && Lists(h.drv, all) && !h.drv.resetPending
    requires Books(Pending(h.drv), h.log) && (h.drv.cur == None ==> SentFirst(Pending(h.drv), h.log.sent, true))
    ensures Between(c, all, Reset(c, XmitDrop(h))) && Reset(c, XmitDrop(h)).drv.resets == h.drv.resets + 1
    ensures Reset(c, XmitDrop(h)).ring.next == 0 && Reset(c, XmitDrop(h)).drv.queue == h.drv.queue
  {
    var p := Pending(h.drv);
    if h.drv.cur.Some? {
      BooksDone(p, h.log);
      assert p[1..] == Serials(h.drv.queue);
    } else {
      assert p == Serials(h.drv.queue);
      assert h.log.done + {} == h.log.done;
    }
  }

  /** A restart, whatever state the ring is in, leaves everything in order. */
  lemma {:induction false} RestartKeeps(c: Config, all: multiset<nat>, h: Host, a: Adapter, a': Adapter)
    requires Good(c) && HostOk(c, h) && Lists(h.drv, all) && !h.drv.resetPending && WireInv(c, h.log, a)
    requires Books(Pending(h.drv), h.log) && (h.drv.cur == None ==> SentFirst(Pending(h.drv), h.log.sent, true))
    requires a'.at == 0 && !a'.irq && a'.wire == a.wire && a'.completed == a.completed
    ensures var r := Restart(c, h);
            Kept(c, all, r) && Entry(c, r, a') && WireInv(c, r.log, a') && r.drv.resets == h.drv.resets + 1
  {
    DropKeeps(c, all, h);
    XmitRestartKeeps(c, all, Reset(c, XmitDrop(h)), a');
  }

  // ---------------------------------------------------------------------------
  // The adapter and CastOffPacket

  /** The packet being handed over, or the one being sent, under a change of ownership only. */
  lemma {:induction false} CastKeeps(c: Config, all: multiset<nat>, s: System)
    requires Good(c) && Inv(c, all, s) && Enabled(c, s, Cast)
    ensures Inv(c, all, Step(c, s, Cast))
  {
    var h, a := s.host, s.adapter;
    var h' := CastOne(c, h);
    var p := Frame(c, h.log.asked[h.drv.cur.value]);
    var n := Count(c, |p|);
    DistAt(c, h.ring.next, h.cast - 1);
    assert OnRing(h');
    forall i | 0 <= i < c.ring ensures h'.ring.own[i] <==> Low(c, h', a, n) <= Dist(c, h.ring.next, i) < n {
      assert At(c, h.ring.next, Dist(c, h.ring.next, i)) == i;
    }
    LoadedOwn(c, h.ring, h'.ring, p);
  }

  lemma {:induction false} LoadedOwn(c: Config, r: Ring, r': Ring, s: seq<Byte>)
    requires Good(c) && RingOk(c, r) && RingOk(c, r') && r' == r.(own := r'.own)
    requires Count(c, |s|) <= c.ring && Loaded(c, r, s)
    ensures Loaded(c, r', s)
  {
  }

  /** A descriptor that the adapter can take is part of a packet that was handed over whole, and that it has read up to
      there. */
  lemma {:induction false} ReaderAt(c: Config, all: multiset<nat>, s: System)
    requires Good(c) && Inv(c, all, s) && Enabled(c, s, Read)
    ensures OnRing(s.host) && s.host.cast == 0 && !s.adapter.irq
    ensures var p := Frame(c, s.host.log.asked[s.host.drv.cur.value]);
            var b := Dist(c, s.host.ring.next, s.adapter.at);
            b < Count(c, |p|) && OwnsFrom(c, s.host.ring, b, Count(c, |p|))
  {
  }

  /** What the adapter has after reading page `b` of the packet. */
  lemma {:induction false} ReadPage(c: Config, s: System, p: seq<Byte>, b: nat)
    requires Good(c) && SystemOk(c, s) && Enabled(c, s, Read) && PacketInv(c, s.host, s.adapter, p)
    requires !s.adapter.irq && s.host.cast == 0 && b == Dist(c, s.host.ring.next, s.adapter.at) < Count(c, |p|)
    ensures var page := s.host.ring.pages[s.adapter.at];
            var partial := (if Sop in page.bits then [] else s.adapter.partial) + s.host.ring.bufs[s.adapter.at];
            && (Sop in page.bits <==> b == 0) && (b == 0 ==> page.pbc == |p|)
            && (Eop in page.bits <==> b + 1 == Count(c, |p|))
            && (if b + 1 == Count(c, |p|) then p <= partial else Off(c, b + 1) <= |p| && partial == p[..Off(c, b + 1)])
  {
    var n := Count(c, |p|);
    var r := s.host.ring;
    CountIs(c, |p|, 0);
    assert r.pages[At(c, r.next, b)] == Page(PageBits(c, b, n), if b == 0 then |p| else 0);
    assert Piece(c, p, b) <= r.bufs[At(c, r.next, b)];
    if b + 1 == n {
      LastPiece(c, p, r.bufs[s.adapter.at], b);
      if b == 0 { assert p[..Off(c, 0)] == []; }
    } else {
      if b + 1 < n - 1 { OffMonotone(c, b + 1, n - 1); }
      PieceFull(c, p, b);
      if b == 0 { assert p[..Off(c, 0)] == []; }
    }
  }

  /** Handing back descriptor `b` leaves the adapter those from b + 1 on. */
  lemma {:induction false} ReadOwns(c: Config, r: Ring, r': Ring, b: nat, n: nat)
    requires Good(c) && RingOk(c, r) && b < n <= c.ring && OwnsFrom(c, r, b, n)
    requires r' == r.(own := r.own[At(c, r.next, b) := false])
    ensures RingOk(c, r') && OwnsFrom(c, r', b + 1, n)
  {
    DistAt(c, r.next, b);
    forall i | 0 <= i < c.ring ensures r'.own[i] <==> b + 1 <= Dist(c, r.next, i) < n {
      assert At(c, r.next, Dist(c, r.next, i)) == i;
    }
  }

  /** The adapter's side of reading page `b`. */
  lemma {:induction false} ReadAdapter(c: Config, s: System, p: seq<Byte>, b: nat)
    requires Good(c) && SystemOk(c, s) && Enabled(c, s, Read) && PacketInv(c, s.host, s.adapter, p)
    requires !s.adapter.irq && s.host.cast == 0 && b == Dist(c, s.host.ring.next, s.adapter.at) < Count(c, |p|)
    requires s.host.drv.cur.Some?
    ensures var a, a', n := s.adapter, Transfer(c, s).adapter, Count(c, |p|);
            && (a'.irq <==> b + 1 == n) && a'.at == At(c, s.host.ring.next, b + 1)
            && (if a'.irq then a'.wire == a.wire + [p] && a'.completed == a.completed + [s.host.drv.cur.value]
                else Off(c, b + 1) <= |p| && a'.partial == p[..Off(c, b + 1)] && a'.pbc == |p|
                     && a'.wire == a.wire && a'.completed == a.completed)
  {
    ReadPage(c, s, p, b);
    DistAt(c, s.host.ring.next, b);
    var a, page := s.adapter, s.host.ring.pages[s.adapter.at];
    var partial := (if Sop in page.bits then [] else a.partial) + s.host.ring.bufs[a.at];
    assert (if Sop in page.bits then page.pbc else a.pbc) == |p|;
    if b + 1 == Count(c, |p|) {
      assert partial[..|p|] == p;
    }
  }

  lemma {:induction false} ReadKeepsPacket(c: Config, s: System, p: seq<Byte>, b: nat)
    requires Good(c) && SystemOk(c, s) && Enabled(c, s, Read) && PacketInv(c, s.host, s.adapter, p)
    requires !s.adapter.irq && s.host.cast == 0 && b == Dist(c, s.host.ring.next, s.adapter.at) < Count(c, |p|)
    requires s.host.drv.cur.Some?
    ensures PacketInv(c, Transfer(c, s).host, Transfer(c, s).adapter, p)
  {
    var n := Count(c, |p|);
    var h', a' := Transfer(c, s).host, Transfer(c, s).adapter;
    ReadAdapter(c, s, p, b);
    LoadedOwn(c, s.host.ring, h'.ring, p);
    ReadOwns(c, s.host.ring, h'.ring, b, n);
    BackNow(c, h', a', b + 1, n);
    PacketAgain(c, h', a', p, b + 1);
  }

  lemma {:induction false} BackNow(c: Config, h: Host, a: Adapter, b: nat, n: nat)
    requires RingOk(c, h.ring) && a.at < c.ring && b <= n <= c.ring && a.at == At(c, h.ring.next, b)
             && (a.irq <==> b == n)
    ensures Back(c, h, a, n) == b
  {
    if b < n { DistAt(c, h.ring.next, b); }
  }

  lemma {:induction false} PacketAgain(c: Config, h: Host, a: Adapter, p: seq<Byte>, b: nat)
    requires Good(c) && RingOk(c, h.ring) && a.at < c.ring && 0 < |p| <= c.max && Count(c, |p|) <= c.ring
             && Loaded(c, h.ring, p)
    requires h.cast == 0 && b <= Count(c, |p|) && Back(c, h, a, Count(c, |p|)) == b && a.at == At(c, h.ring.next, b)
    requires OwnsFrom(c, h.ring, b, Count(c, |p|)) && (a.irq <==> b == Count(c, |p|))
    requires 0 < b < Count(c, |p|) ==> Off(c, b) <= |p| && a.partial == p[..Off(c, b)] && a.pbc == |p|
    ensures PacketInv(c, h, a, p)
  {
  }

  /** The packet that is current was sent last, so it is newer than any that is completed. */
  lemma {:induction false} CompleteKeeps(c: Config, h: Host, a: Adapter, a': Adapter)
    requires WireInv(c, h.log, a) && OnRing(h) && h.drv.cur.value !in a.completed && Asc(h.log.sent)
    requires a'.completed == a.completed + [h.drv.cur.value]
    requires h.drv.cur.value < |h.log.asked| && a'.wire == a.wire + [Frame(c, h.log.asked[h.drv.cur.value])]
    ensures WireInv(c, h.log, a')
  {
    var x := h.drv.cur.value;
    if a.completed != [] {
      var y := a.completed[|a.completed| - 1];
      assert y in a.completed && y != x;
      var i :| 0 <= i < |h.log.sent| && h.log.sent[i] == y;
      assert i < |h.log.sent| - 1;
    }
    AscAppend(a.completed, x);
    assert forall z :: z in a'.completed <==> z in a.completed || z == x;
  }

  lemma {:induction false} ReadKeeps(c: Config, all: multiset<nat>, s: System)
    requires Good(c) && Inv(c, all, s) && Enabled(c, s, Read)
    ensures Inv(c, all, Step(c, s, Read))
  {
    ReaderAt(c, all, s);
    var p := Frame(c, s.host.log.asked[s.host.drv.cur.value]);
    ReadAdapter(c, s, p, Dist(c, s.host.ring.next, s.adapter.at));
    ReadKeepsPacket(c, s, p, Dist(c, s.host.ring.next, s.adapter.at));
    var s' := Transfer(c, s);
    if s'.adapter.irq {
      CompleteKeeps(c, s.host, s.adapter, s'.adapter);
    }
    ReadQuiet(c, s);
  }

  /** Reading touches none of the driver's books. */
  lemma {:induction false} ReadQuiet(c: Config, s: System)
    requires Good(c) && SystemOk(c, s) && Enabled(c, s, Read)
    ensures var s' := Transfer(c, s);
            SystemOk(c, s') && s'.host.drv == s.host.drv && s'.host.log == s.host.log && s'.panicked == s.panicked
            && OnRing(s'.host) == OnRing(s.host)
  {
  }

  // ---------------------------------------------------------------------------
  // The driver's entries

  /** The adapter after an entry that ended in `h`. */
  lemma {:induction false} EnteredInv(c: Config, all: multiset<nat>, s: System, h: Host)
    requires Good(c) && SystemOk(c, s) && !s.panicked && Kept(c, all, h)
    requires Entry(c, h, After(s.host, h, s.adapter)) && WireInv(c, h.log, s.adapter)
    ensures Inv(c, all, Entered(c, s, h))
  {
    EntryInv(c, h, After(s.host, h, s.adapter));
  }

  lemma {:induction false} HaltKeeps(c: Config, all: multiset<nat>, s: System)
    requires Good(c) && Inv(c, all, s) && Enabled(c, s, Halted)
    ensures Inv(c, all, Step(c, s, Halted))
  {
    var h := Restart(c, s.host);
    var a := s.adapter.(at := 0, partial := [], irq := false);
    RestartKeeps(c, all, s.host, s.adapter, a);
    EnteredInv(c, all, s, h);
  }

  /** An event that touches neither the ring nor the current packet. */
  lemma {:induction false} QuietKeeps(c: Config, all: multiset<nat>, s: System, h: Host)
    requires Good(c) && Inv(c, all, s) && Kept(c, all, h)
    requires h.ring == s.host.ring && h.cast == s.host.cast && h.drv.cur == s.host.drv.cur
             && h.drv.resets == s.host.drv.resets
    requires h.log.sent == s.host.log.sent && s.host.log.asked <= h.log.asked
    ensures Inv(c, all, Entered(c, s, h))
  {
    QuietRing(c, s.host, h, s.adapter);
    QuietWire(c, s.host.log, h.log, s.adapter);
    assert Entered(c, s, h) == s.(host := h);
  }

  lemma {:induction false} QuietRing(c: Config, h: Host, h': Host, a: Adapter)
    requires Good(c) && RingOk(c, h.ring) && a.at < c.ring && RingInv(c, h, a) && DoneInv(h, a)
    requires h'.ring == h.ring && h'.cast == h.cast && h'.drv.cur == h.drv.cur && h'.log.sent == h.log.sent
    requires h.log.asked <= h'.log.asked
    ensures RingInv(c, h', a) && DoneInv(h', a)
  {
    assert OnRing(h') == OnRing(h);
    if OnRing(h) {
      assert h'.log.asked[h.drv.cur.value] == h.log.asked[h.drv.cur.value];
      SamePacket(c, h, h', a, Frame(c, h.log.asked[h.drv.cur.value]));
    }
  }

  lemma {:induction false} SamePacket(c: Config, h: Host, h': Host, a: Adapter, p: seq<Byte>)
    requires Good(c) && RingOk(c, h.ring) && a.at < c.ring && PacketInv(c, h, a, p) && h'.ring == h.ring
             && h'.cast == h.cast
    ensures PacketInv(c, h', a, p)
  {
  }

  lemma {:induction false} QuietWire(c: Config, log: Log, log': Log, a: Adapter)
    requires WireInv(c, log, a) && log'.sent == log.sent && log.asked <= log'.asked
    ensures WireInv(c, log', a)
  {
  }

  lemma {:induction false} AskIdle(c: Config, all: multiset<nat>, s: System, q: Request)
    requires Good(c) && Inv(c, all, s) && Enabled(c, s, Ask(q)) && q.dest != c.addr && !s.host.drv.transmitting
    ensures Inv(c, all, Step(c, s, Ask(q))) && Output(c, s.host, q).ok == (|Frame(c, q)| <= c.max)
  {
    var n := |s.host.log.asked|;
    var h := s.host.(log := s.host.log.(asked := s.host.log.asked + [q]));
    assert !OnRing(s.host);
    OutputFree(c, h, n);
    var t := OutputPacket(c, h, n);
    OutputIdle(c, s.host, h, q, t);
    if t.ok {
      AskSent(c, all, s, q, t.h);
    } else {
      AskRefused(c, all, s, q, t.h);
    }
  }

  lemma {:induction false} OutputIdle(c: Config, h: Host, h': Host, q: Request, t: Tried)
    requires Good(c) && HostOk(c, h) && RequestOk(c, q) && q.dest != c.addr && !h.drv.transmitting
    requires h' == h.(log := h.log.(asked := h.log.asked + [q])) && t == OutputPacket(c, h', |h.log.asked|)
    ensures Output(c, h, q)
            == if t.ok then Tried(t.h.(log := t.h.log.(accepted := h.log.accepted + [|h.log.asked|])), true)
              else Tried(Restart(c, t.h), false)
  {
  }

  /** The packet goes out at once. */
  lemma {:induction false} AskSent(c: Config, all: multiset<nat>, s: System, q: Request, h: Host)
    requires Good(c) && Inv(c, all, s) && Enabled(c, s, Ask(q)) && !s.host.drv.transmitting && HostOk(c, h)
    requires var n, p := |s.host.log.asked|, Frame(c, q);
             && h.drv == s.host.drv.(transmitting := true, cur := Some(n))
             && h.log == s.host.log.(asked := s.host.log.asked + [q], sent := s.host.log.sent + [n])
             && h.cast == Count(c, |p|) <= c.ring && 0 < |p| <= c.max
             && RingFree(c, h.ring) && h.ring.next == s.host.ring.next && Loaded(c, h.ring, p)
    ensures Inv(c, all, Entered(c, s, h.(log := h.log.(accepted := h.log.accepted + [|s.host.log.asked|]))))
  {
    var n := |s.host.log.asked|;
    var r := h.(log := h.log.(accepted := h.log.accepted + [n]));
    assert !OnRing(s.host);
    SentBooks(c, all, s.host, q, r);
    SentWire(c, s.host.log, r.log, s.adapter);
    assert r.log.sent[|r.log.sent| - 1] == n;
    EnteredInv(c, all, s, r);
  }

  lemma {:induction false} SentBooks(c: Config, all: multiset<nat>, h0: Host, q: Request, r: Host)
    requires Good(c) && Lists(h0.drv, all) && Flags(h0.drv) && !h0.drv.transmitting && Books(Pending(h0.drv), h0.log)
             && HostOk(c, r)
    requires var n := |h0.log.asked|;
             && r.drv == h0.drv.(transmitting := true, cur := Some(n))
             && r.log == h0.log.(asked := h0.log.asked + [q], accepted := h0.log.accepted + [n],
                                 sent := h0.log.sent + [n])
    ensures Kept(c, all, r)
  {
    var n := |h0.log.asked|;
    assert Pending(h0.drv) == [] && Pending(r.drv) == [n];
    BooksAccept([], h0.log, q);
    BooksSend([n], h0.log.(asked := h0.log.asked + [q], accepted := h0.log.accepted + [n]));
  }

  /** A new packet on the ring is not among those completed. */
  lemma {:induction false} SentWire(c: Config, log: Log, log': Log, a: Adapter)
    requires WireInv(c, log, a) && log.asked <= log'.asked && |log.asked| < |log'.asked|
             && log'.sent == log.sent + [|log.asked|]
    ensures WireInv(c, log', a) && |log.asked| !in a.completed
  {
    assert forall x :: x in log'.sent <==> x in log.sent || x == |log.asked|;
  }

  /** A packet that is too large costs a restart, and is dropped by it. */
  lemma {:induction false} AskRefused(c: Config, all: multiset<nat>, s: System, q: Request, h: Host)
    requires Good(c) && Inv(c, all, s) && Enabled(c, s, Ask(q)) && !s.host.drv.transmitting
    requires h == s.host.(log := s.host.log.(asked := s.host.log.asked + [q]),
                          drv := s.host.drv.(transmitting := true, cur := Some(|s.host.log.asked|)))
    ensures Inv(c, all, Entered(c, s, Restart(c, h)))
  {
    assert Pending(s.host.drv) == [];
    BooksRefuse([], s.host.log, q);
    var d := Reset(c, XmitDrop(h));
    RefusedBetween(c, all, s.host, q, h);
    var a := s.adapter.(at := 0, partial := [], irq := false);
    QuietWire(c, s.host.log, d.log, s.adapter);
    XmitRestartKeeps(c, all, d, a);
    EnteredInv(c, all, s, Restart(c, h));
  }

  lemma {:induction false} RefusedBetween(c: Config, all: multiset<nat>, h0: Host, q: Request, h: Host)
    requires Good(c) && HostOk(c, h) && Lists(h0.drv, all) && Flags(h0.drv) && !h0.drv.transmitting
    requires h == h0.(log := h0.log.(asked := h0.log.asked + [q]),
                      drv := h0.drv.(transmitting := true, cur := Some(|h0.log.asked|)))
    requires Books([], h0.log.(asked := h0.log.asked + [q], done := h0.log.done + {|h0.log.asked|}))
    ensures var d := Reset(c, XmitDrop(h));
            && Between(c, all, d) && d.log == h.log.(done := h0.log.done + {|h0.log.asked|})
            && d.ring.next == 0 && d.drv.resets == h0.drv.resets + 1
  {
    assert Serials([]) == [];
  }

  lemma {:induction false} AskKeeps(c: Config, all: multiset<nat>, s: System, q: Request)
    requires Good(c) && Inv(c, all, s) && Enabled(c, s, Ask(q))
    ensures Inv(c, all, Step(c, s, Ask(q)))
  {
    var d, log := s.host.drv, s.host.log;
    var r := Output(c, s.host, q).h;
    if q.dest == c.addr {
      BooksDeliver(Pending(d), log, q);
      QuietKeeps(c, all, s, r);
    } else if !d.transmitting {
      AskIdle(c, all, s, q);
    } else if d.free == [] {
      BooksRefuse(Pending(d), log, q);
      QuietKeeps(c, all, s, r);
    } else {
      BooksAccept(Pending(d), log, q);
      ListsEnqueue(d, all, |log.asked|);
      assert Pending(r.drv) == Pending(d) + [|log.asked|];
      QuietKeeps(c, all, s, r);
    }
  }

  /** When the adapter raises "done" the host owns the ring again, and the packet is complete. */
  lemma {:induction false} AtCompletion(c: Config, all: multiset<nat>, s: System)
    requires Good(c) && Inv(c, all, s) && s.adapter.irq
    ensures OnRing(s.host) && s.host.cast == 0 && RingFree(c, s.host.ring)
    ensures s.host.drv.cur.value in s.adapter.completed
    ensures var p := Frame(c, s.host.log.asked[s.host.drv.cur.value]);
            var n := Count(c, |p|);
            && 0 < |p| && 0 < n <= c.ring && Loaded(c, s.host.ring, p)
            && s.adapter.at == At(c, s.host.ring.next, n) && Sop in s.host.ring.pages[s.host.ring.next].bits
  {
    var p := Frame(c, s.host.log.asked[s.host.drv.cur.value]);
    var n := Count(c, |p|);
    CountIs(c, |p|, 0);
    assert At(c, s.host.ring.next, 0) == s.host.ring.next;
    assert s.host.ring.pages[At(c, s.host.ring.next, 0)].bits == PageBits(c, 0, n);
  }

  /** The state in which NetDFXmitDone looks for the next packet. */
  function Advanced(c: Config, h: Host, last: nat): (r: Host)
    requires HostOk(c, h) && last < c.ring && h.drv.cur.Some?
  {
    h.(ring := h.ring.(next := Next(c, last)), log := h.log.(done := h.log.done + {h.drv.cur.value}))
  }

  lemma {:induction false} AdvancedBetween(c: Config, all: multiset<nat>, s: System, last: nat)
    requires Good(c) && Inv(c, all, s) && s.adapter.irq
    requires last == At(c, s.host.ring.next, Count(c, |Frame(c, s.host.log.asked[s.host.drv.cur.value])|) - 1)
    ensures var h := Advanced(c, s.host, last);
            && Between(c, all, h.(drv := h.drv.(cur := None))) && h.ring.next == s.adapter.at
            && WireInv(c, h.log, s.adapter)
  {
    AtCompletion(c, all, s);
    var n := Count(c, |Frame(c, s.host.log.asked[s.host.drv.cur.value])|);
    DistAt(c, s.host.ring.next, n - 1);
    var p := Pending(s.host.drv);
    BooksDone(p, s.host.log);
    assert p[1..] == Serials(s.host.drv.queue);
  }

  /** Whether another packet is current does not matter to output on a free ring. */
  lemma {:induction false} OutputForgets(c: Config, h: Host)
    requires Good(c) && HostOk(c, h) && h.drv.queue != [] && !h.ring.own[h.ring.next]
    ensures OutputXmtElement(c, h) == OutputXmtElement(c, h.(drv := h.drv.(cur := None)))
  {
  }

  /** NetDFXmitDone succeeds unless the completion code, the walk or the size of the next packet is bad. */
  lemma {:induction false} DoneSucceeds(c: Config, all: multiset<nat>, s: System, dcc: bool)
    requires Good(c) && Inv(c, all, s) && s.adapter.irq
    ensures var f := XmitDone(c, s.host, dcc);
            var n := Count(c, |Frame(c, s.host.log.asked[s.host.drv.cur.value])|);
            var q := s.host.drv.queue;
            && f.Finished?
            && f.ok == (dcc && WalkSafe(c, n) && (q == [] || !Oversize(c, s.host, q[0].serial)))
            && (f.ok ==> !Wedged(f.h) && Inv(c, all, Entered(c, s.(adapter := s.adapter.(irq := false)), f.h)))
            && (!f.ok ==> Failing(c, all, f.h, s.adapter) && f.h.drv.resets == s.host.drv.resets)
  {
    AtCompletion(c, all, s);
    var h, a := s.host, s.adapter.(irq := false);
    WalkFindsLast(c, h.ring, Frame(c, h.log.asked[h.drv.cur.value]));
    var n := Count(c, |Frame(c, s.host.log.asked[s.host.drv.cur.value])|);
    if dcc && WalkSafe(c, n) {
      DoneAdvances(c, all, s, At(c, h.ring.next, n - 1));
    } else {
      assert Pending(h.drv.(transmitting := false)) == Pending(h.drv);
    }
  }

  /** The weaker state in which a restart is asked for. */
  ghost predicate Failing(c: Config, all: multiset<nat>, h: Host, a: Adapter)
    requires Good(c)
  {
    HostOk(c, h) && Lists(h.drv, all) && !h.drv.resetPending && h.drv.cur.Some? && Books(Pending(h.drv), h.log)
      && WireInv(c, h.log, a)
  }

  lemma {:induction false} DoneAdvances(c: Config, all: multiset<nat>, s: System, last: nat)
    requires Good(c) && Inv(c, all, s) && s.adapter.irq
    requires last == At(c, s.host.ring.next, Count(c, |Frame(c, s.host.log.asked[s.host.drv.cur.value])|) - 1)
    requires Walk(c, s.host.ring.pages, s.host.ring.next, s.host.ring.next) == Last(last)
    ensures var f := XmitDone(c, s.host, true);
            var q := s.host.drv.queue;
            && f.Finished? && f.ok == (q == [] || !Oversize(c, s.host, q[0].serial))
            && (f.ok ==> !Wedged(f.h) && Inv(c, all, Entered(c, s.(adapter := s.adapter.(irq := false)), f.h)))
            && (!f.ok ==> Failing(c, all, f.h, s.adapter) && f.h.drv.resets == s.host.drv.resets)
  {
    AtCompletion(c, all, s);
    AdvancedBetween(c, all, s, last);
    var h, a := s.host, s.adapter.(irq := false);
    var f := XmitDone(c, h, true);
    var h1 := Advanced(c, h, last);
    var h2 := h1.(drv := h1.drv.(cur := None));
    if h.drv.queue != [] {
      OutputForgets(c, h1);
      Promote(c, all, h2, a);
      if f.ok {
        EnteredInv(c, all, s.(adapter := a), f.h);
      } else {
        assert Pending(f.h.drv) == Pending(OutputXmtElement(c, h2).h.drv);
      }
    } else {
      assert Pending(f.h.drv) == Serials(h.drv.queue);
      EnteredInv(c, all, s.(adapter := a), f.h);
    }
  }

  lemma {:induction false} DoneKeeps(c: Config, all: multiset<nat>, s: System, dcc: bool)
    requires Good(c) && Inv(c, all, s) && Enabled(c, s, PacketDone(dcc))
    ensures Inv(c, all, Step(c, s, PacketDone(dcc)))
  {
    DoneSucceeds(c, all, s, dcc);
    var f := XmitDone(c, s.host, dcc);
    StepDone(c, s, dcc, f);
    if !f.ok {
      RestartEntered(c, all, s.(adapter := s.adapter.(irq := false)), f.h);
    }
  }

  lemma {:induction false} StepDone(c: Config, s: System, dcc: bool, f: Finished)
    requires Good(c) && SystemOk(c, s) && Enabled(c, s, PacketDone(dcc)) && f == XmitDone(c, s.host, dcc) && f.Finished?
    ensures Step(c, s, PacketDone(dcc))
            == Entered(c, s.(adapter := s.adapter.(irq := false)), if f.ok then f.h else Restart(c, f.h))
  {
  }

  lemma {:induction false} RestartEntered(c: Config, all: multiset<nat>, s: System, h: Host)
    requires Good(c) && SystemOk(c, s) && !s.panicked && Failing(c, all, h, s.adapter)
             && h.drv.resets == s.host.drv.resets
    ensures Inv(c, all, Entered(c, s, Restart(c, h)))
  {
    RestartKeeps(c, all, h, s.adapter, s.adapter.(at := 0, partial := [], irq := false));
    EnteredInv(c, all, s, Restart(c, h));
  }
}
