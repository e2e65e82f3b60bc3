/** What holds over whole runs of the driver and the adapter. */
module XmitSafety {
  import opened Common
  import opened XmitRing
  import opened XmitModel
  import opened XmitBooks
  import opened XmitInvariant

  /** The flush ioctl drops the current packet without a reset.  It does no harm if that packet is not on the ring. */
  predicate Harmless(s: System, e: Event) { e.FlushIoctl? ==> !OnRing(s.host) }

  /** Without a current packet the ring has to be the host's, with the adapter at its next descriptor. */
  lemma {:induction false} FlushHarms(c: Config, all: multiset<nat>, s: System)
    requires Good(c) && Inv(c, all, s) && OnRing(s.host) && s.host.cast == 0
    ensures !(RingFree(c, s.host.ring) && !s.adapter.irq)
  {
    if !s.adapter.irq {
      assert At(c, s.host.ring.next, Dist(c, s.host.ring.next, s.adapter.at)) == s.adapter.at;
      assert s.host.ring.own[s.adapter.at];
    }
  }

  lemma {:induction false} FlushHarmless(c: Config, all: multiset<nat>, s: System)
    requires Good(c) && Inv(c, all, s) && Enabled(c, s, FlushIoctl) && !OnRing(s.host)
    ensures Inv(c, all, Step(c, s, FlushIoctl))
  {
    var h := s.host;
    var r := XmitFlushQ(XmitDrop(h));
    ListsFlush(h.drv, all);
    BooksFlush(Pending(h.drv), 0, h.log);
    assert Pending(r.drv) == Pending(h.drv)[..0];
    FlushedLog(h);
  }

  /** The flush ioctl leaves things in order exactly when no packet is on the ring. */
  lemma {:induction false} FlushKeepsIff(c: Config, all: multiset<nat>, s: System)
    requires Good(c) && Inv(c, all, s) && Enabled(c, s, FlushIoctl)
    ensures Inv(c, all, Step(c, s, FlushIoctl)) <==> !OnRing(s.host)
  {
    if OnRing(s.host) {
      FlushHarms(c, all, s);
      assert !OnRing(Step(c, s, FlushIoctl).host);
    } else {
      FlushHarmless(c, all, s);
    }
  }

  lemma {:induction false} FlushedLog(h: Host)
    ensures XmitFlushQ(XmitDrop(h)).log == h.log.(done := h.log.done + Values(Pending(h.drv)[0..]))
  {
    assert Pending(h.drv)[0..] == Pending(h.drv);
    assert Values(Pending(h.drv)) == (if h.drv.cur.Some? then {h.drv.cur.value} else {}) + Values(Serials(h.drv.queue));
  }

  lemma {:induction false} StepKeeps(c: Config, all: multiset<nat>, s: System, e: Event)
    requires Good(c) && Inv(c, all, s) && Enabled(c, s, e) && Harmless(s, e)
    ensures Inv(c, all, Step(c, s, e))
  {
    match e
    case Ask(q) => AskKeeps(c, all, s, q);
    case Cast => CastKeeps(c, all, s);
    case Read => ReadKeeps(c, all, s);
    case PacketDone(dcc) => DoneKeeps(c, all, s, dcc);
    case Halted => HaltKeeps(c, all, s);
    case FlushIoctl => FlushKeepsIff(c, all, s);
  }

  /** A run in which the flush ioctl comes only when no packet is on the ring. */
  predicate HarmlessRun(c: Config, s: System, es: seq<Event>)
    requires Good(c) && SystemOk(c, s) && RequestsOk(c, es)
    decreases |es|
  {
    es == [] || if Enabled(c, s, es[0]) then Harmless(s, es[0]) && HarmlessRun(c, Step(c, s, es[0]), es[1..])
                else HarmlessRun(c, s, es[1..])
  }

  lemma {:induction false} RunKeeps(c: Config, all: multiset<nat>, s: System, es: seq<Event>)
    requires Good(c) && RequestsOk(c, es) && Inv(c, all, s) && HarmlessRun(c, s, es)
    ensures Inv(c, all, Run(c, s, es))
    decreases |es|
  {
    if es != [] {
      if Enabled(c, s, es[0]) {
        StepKeeps(c, all, s, es[0]);
        RunKeeps(c, all, Step(c, s, es[0]), es[1..]);
      } else {
        RunKeeps(c, all, s, es[1..]);
      }
    }
  }

  lemma {:induction false} InitInv(c: Config, elems: seq<nat>)
    requires Good(c)
    ensures Inv(c, multiset(elems), Init(c, elems))
  {
    assert Elems([]) == [] && Serials([]) == [];
  }

  lemma {:induction false} Reached(c: Config, elems: seq<nat>, es: seq<Event>)
    requires Good(c) && RequestsOk(c, es) && HarmlessRun(c, Init(c, elems), es)
    ensures Inv(c, multiset(elems), Run(c, Init(c, elems), es))
  {
    InitInv(c, elems);
    RunKeeps(c, multiset(elems), Init(c, elems), es);
  }

  // ---------------------------------------------------------------------------
  // Elements and requests

  /** In every run each transmit element is on the free list or on the queue, once; an idle transmitter has an empty
      queue; no reset is ever deferred; the walk over a packet never finds the ring without an end of packet. */
  lemma {:induction false} QueueSafe(c: Config, elems: seq<nat>, es: seq<Event>)
    requires Good(c) && RequestsOk(c, es) && HarmlessRun(c, Init(c, elems), es)
    ensures var s := Run(c, Init(c, elems), es);
            var d := s.host.drv;
            && multiset(d.free) + multiset(Elems(d.queue)) == multiset(elems)
            && (!d.transmitting ==> d.queue == [] && d.cur == None) && !d.resetPending && !s.panicked
  {
    Reached(c, elems, es);
  }

  /** In every run a request that was accepted and is not marked done is the current packet or is queued, and
      conversely; a request that was refused is marked done. */
  lemma {:induction false} RequestsSafe(c: Config, elems: seq<nat>, es: seq<Event>, x: nat)
    requires Good(c) && RequestsOk(c, es) && HarmlessRun(c, Init(c, elems), es)
    requires x < |Run(c, Init(c, elems), es).host.log.asked|
    ensures var s := Run(c, Init(c, elems), es);
            && (x !in s.host.log.done <==> s.host.drv.cur == Some(x) || x in Serials(s.host.drv.queue))
            && (x !in s.host.log.accepted ==> x in s.host.log.done)
  {
    Reached(c, elems, es);
    var p := Pending(Run(c, Init(c, elems), es).host.drv);
    assert x in p <==> x !in Run(c, Init(c, elems), es).host.log.done;
  }

  /** In every run packets reach the ring, and the network, in the order in which they were handed in; the network sees
      each of them whole: header, then payload. */
  lemma {:induction false} WireSafe(c: Config, elems: seq<nat>, es: seq<Event>)
    requires Good(c) && RequestsOk(c, es) && HarmlessRun(c, Init(c, elems), es)
    ensures var s := Run(c, Init(c, elems), es);
            var a := s.adapter;
            && Asc(s.host.log.sent) && (forall x :: x in s.host.log.sent ==> x in s.host.log.accepted)
            && Asc(a.completed) && (forall x :: x in a.completed ==> x in s.host.log.sent)
            && |a.wire| == |a.completed|
            && forall i :: 0 <= i < |a.wire| ==>
                 a.completed[i] < |s.host.log.asked| && a.wire[i] == Frame(c, s.host.log.asked[a.completed[i]])
  {
    Reached(c, elems, es);
  }

  /** When "done" is raised it is for the current packet, which was just put on the network. */
  lemma {:induction false} DoneMeansSent(c: Config, elems: seq<nat>, es: seq<Event>)
    requires Good(c) && RequestsOk(c, es) && HarmlessRun(c, Init(c, elems), es)
             && Run(c, Init(c, elems), es).adapter.irq
    ensures var s := Run(c, Init(c, elems), es);
            && s.host.drv.cur.Some? && s.host.drv.cur.value < |s.host.log.asked|
            && s.adapter.wire != []
            && s.adapter.wire[|s.adapter.wire| - 1] == Frame(c, s.host.log.asked[s.host.drv.cur.value])
  {
    Reached(c, elems, es);
    var s := Run(c, Init(c, elems), es);
    var x := s.host.drv.cur.value;
    var i :| 0 <= i < |s.adapter.completed| && s.adapter.completed[i] == x;
    var k := |s.adapter.completed| - 1;
    assert s.adapter.completed[k] in s.adapter.completed;
    var j :| 0 <= j < |s.host.log.sent| && s.host.log.sent[j] == s.adapter.completed[k];
    assert s.adapter.completed[k] <= x;
    assert i == k;
  }

  // ---------------------------------------------------------------------------
  // Ownership

  /** In every run, also in the middle of CastOffPacket, the adapter owns the last descriptors of the current packet and
      nothing else. If it owns the one it is at, it owns all from there to the end of the packet. */
  lemma {:induction false} OwnershipSafe(c: Config, elems: seq<nat>, es: seq<Event>)
    requires Good(c) && RequestsOk(c, es) && HarmlessRun(c, Init(c, elems), es)
    ensures var s := Run(c, Init(c, elems), es);
            if OnRing(s.host) then
              s.host.drv.cur.value < |s.host.log.asked| &&
              var n := Count(c, |Frame(c, s.host.log.asked[s.host.drv.cur.value])|);
              var low := Low(c, s.host, s.adapter, n);
              && n <= c.ring && OwnsFrom(c, s.host.ring, low, n)
              && (s.host.ring.own[s.adapter.at] ==> s.host.cast == 0 && s.adapter.at == At(c, s.host.ring.next, low))
            else RingFree(c, s.host.ring)
  {
    Reached(c, elems, es);
    var s := Run(c, Init(c, elems), es);
    if OnRing(s.host) && s.host.ring.own[s.adapter.at] {
      ReaderAt(c, multiset(elems), s);
    }
  }

  /** A packet handed to an idle transmitter goes out unless it is too large: the ownership checks always succeed. */
  lemma {:induction false} IdleAccepts(c: Config, elems: seq<nat>, es: seq<Event>, q: Request)
    requires Good(c) && RequestsOk(c, es) && HarmlessRun(c, Init(c, elems), es) && RequestOk(c, q) && q.dest != c.addr
    requires !Run(c, Init(c, elems), es).host.drv.transmitting
    ensures Output(c, Run(c, Init(c, elems), es).host, q).ok <==> |Frame(c, q)| <= c.max
  {
    Reached(c, elems, es);
    AskIdle(c, multiset(elems), Run(c, Init(c, elems), es), q);
  }

  /** At completion the next packet goes out at once, unless the completion code, the marks of later pages or the size
      of the next packet are in the way. */
  lemma {:induction false} CompletionSucceeds(c: Config, elems: seq<nat>, es: seq<Event>, dcc: bool)
    requires Good(c) && RequestsOk(c, es) && HarmlessRun(c, Init(c, elems), es)
             && Run(c, Init(c, elems), es).adapter.irq
    ensures var h := Run(c, Init(c, elems), es).host;
            var f := XmitDone(c, h, dcc);
            && h.drv.cur.Some? && h.drv.cur.value < |h.log.asked| && f.Finished?
            && (f.ok <==> dcc && WalkSafe(c, Count(c, |Frame(c, h.log.asked[h.drv.cur.value])|))
                          && (h.drv.queue == [] || !Oversize(c, h, h.drv.queue[0].serial)))
  {
    Reached(c, elems, es);
    DoneSucceeds(c, multiset(elems), Run(c, Init(c, elems), es), dcc);
  }

  // ---------------------------------------------------------------------------
  // A restart that finds a packet that is too large

  predicate TooLargeFirst(c: Config, h: Host)
    requires HostOk(c, h)
  {
    h.drv.queue != [] && Oversize(c, h, h.drv.queue[0].serial)
  }

  /** A restart leaves the transmitter wedged exactly when the first packet on the queue is too large. */
  lemma {:induction false} RestartWedges(c: Config, all: multiset<nat>, h: Host, a: Adapter)
    requires Good(c) && HostOk(c, h) && Lists(h.drv, all) && !h.drv.resetPending && WireInv(c, h.log, a)
    requires Books(Pending(h.drv), h.log) && (h.drv.cur == None ==> SentFirst(Pending(h.drv), h.log.sent, true))
    ensures Wedged(Restart(c, h)) <==> TooLargeFirst(c, h)
  {
    DropKeeps(c, all, h);
    var d := Reset(c, XmitDrop(h));
    if d.drv.queue != [] {
      Promote(c, all, d, a.(at := 0, irq := false));
    }
  }

  /** A packet that is not output at once leaves the current one as it is. */
  lemma {:induction false} AskWaits(c: Config, h: Host, q: Request)
    requires Good(c) && HostOk(c, h) && RequestOk(c, q) && (q.dest == c.addr || h.drv.transmitting)
    ensures var r := Output(c, h, q).h;
            r.drv.transmitting == h.drv.transmitting && r.drv.cur == h.drv.cur && r.log.sent == h.log.sent
  {
  }

  /** A packet handed in wedges nothing, and frees nothing. */
  lemma {:induction false} AskWedges(c: Config, all: multiset<nat>, s: System, q: Request)
    requires Good(c) && Inv(c, all, s) && Enabled(c, s, Ask(q))
    ensures Wedged(Step(c, s, Ask(q)).host) <==> Wedged(s.host)
  {
    if q.dest == c.addr || s.host.drv.transmitting {
      AskWaits(c, s.host, q);
    } else {
      AskIdleWedges(c, all, s, q);
    }
  }

  lemma {:induction false} AskIdleWedges(c: Config, all: multiset<nat>, s: System, q: Request)
    requires Good(c) && Inv(c, all, s) && Enabled(c, s, Ask(q)) && q.dest != c.addr && !s.host.drv.transmitting
    ensures !Wedged(Output(c, s.host, q).h)
  {
    var h := s.host.(log := s.host.log.(asked := s.host.log.asked + [q]));
    OutputFree(c, h, |s.host.log.asked|);
  }

  /** What a failing completion leaves for the restart that follows it. */
  lemma {:induction false} DoneWedges(c: Config, all: multiset<nat>, s: System, dcc: bool)
    requires Good(c) && Inv(c, all, s) && Enabled(c, s, PacketDone(dcc))
    ensures var f := XmitDone(c, s.host, dcc);
            f.Finished? && (Wedged(Step(c, s, PacketDone(dcc)).host) <==> !f.ok && TooLargeFirst(c, f.h))
  {
    DoneSucceeds(c, all, s, dcc);
    var f := XmitDone(c, s.host, dcc);
    if !f.ok {
      RestartWedges(c, all, f.h, s.adapter);
    }
  }

  /** When an event leaves the transmitter wedged: a restart with a packet that is too large first on the queue, or
      anything but a reset or a flush if it is wedged already. */
  predicate Wedging(c: Config, s: System, e: Event)
    requires Good(c) && SystemOk(c, s)
  {
    match e
    case Halted => TooLargeFirst(c, s.host)
    case PacketDone(dcc) => var f := XmitDone(c, s.host, dcc); f.Finished? && !f.ok && TooLargeFirst(c, f.h)
    case FlushIoctl => false
    case _ => Wedged(s.host)
  }

  lemma {:induction false} WedgedIff(c: Config, all: multiset<nat>, s: System, e: Event)
    requires Good(c) && Inv(c, all, s) && Enabled(c, s, e)
    ensures Wedged(Step(c, s, e).host) <==> Wedging(c, s, e)
  {
    match e
    case Ask(q) => AskWedges(c, all, s, q);
    case PacketDone(dcc) => DoneWedges(c, all, s, dcc);
    case Halted => RestartWedges(c, all, s.host, s.adapter);
    case _ =>
  }

  /** What is left on the queue by a completion that fails. */
  lemma {:induction false} DoneQueue(c: Config, all: multiset<nat>, s: System, dcc: bool)
    requires Good(c) && Inv(c, all, s) && s.adapter.irq
    ensures var h, f := s.host, XmitDone(c, s.host, dcc);
            var good := dcc && WalkSafe(c, Count(c, |Frame(c, h.log.asked[h.drv.cur.value])|));
            var rest := if good && h.drv.queue != [] then h.drv.queue[1..] else h.drv.queue;
            f.Finished? && (!f.ok ==> f.h.log.asked == h.log.asked && f.h.drv.queue == rest)
  {
    AtCompletion(c, all, s);
    var h := s.host;
    WalkFindsLast(c, h.ring, Frame(c, h.log.asked[h.drv.cur.value]));
    if dcc && WalkSafe(c, Count(c, |Frame(c, h.log.asked[h.drv.cur.value])|)) && h.drv.queue != [] {
      var last := At(c, h.ring.next, Count(c, |Frame(c, h.log.asked[h.drv.cur.value])|) - 1);
      AdvancedBetween(c, all, s, last);
      var h1 := Advanced(c, h, last);
      OutputFree(c, h1, h.drv.queue[0].serial);
    }
  }

  /** After a completion: a packet that is too large and second on the queue if the first is too large as well and the
      packet done was good, or first on it if that was not. */
  lemma {:induction false} DoneFinds(c: Config, all: multiset<nat>, s: System, dcc: bool)
    requires Good(c) && Inv(c, all, s) && Enabled(c, s, PacketDone(dcc))
    ensures var h := s.host;
            var good := dcc && WalkSafe(c, Count(c, |Frame(c, h.log.asked[h.drv.cur.value])|));
            Wedging(c, s, PacketDone(dcc)) <==>
              TooLargeFirst(c, h) && (good ==> |h.drv.queue| > 1 && Oversize(c, h, h.drv.queue[1].serial))
  {
    DoneSucceeds(c, all, s, dcc);
    DoneQueue(c, all, s, dcc);
  }

  /** One packet that is too large, queued behind another before a restart, is enough. */
  lemma {:induction false} WedgeReached(c: Config, all: multiset<nat>, s: System, q: Request)
    requires Good(c) && Inv(c, all, s) && s.host.cast == 0 && OnRing(s.host) && s.host.drv.queue == []
             && s.host.drv.free != []
    requires RequestOk(c, q) && q.dest != c.addr && |Frame(c, q)| > c.max
    ensures var s1 := Step(c, s, Ask(q));
            Output(c, s.host, q).ok && Enabled(c, s1, Halted) && Wedged(Step(c, s1, Halted).host)
  {
    AskKeeps(c, all, s, q);
    WedgedIff(c, all, Step(c, s, Ask(q)), Halted);
  }

  /** A reset or a flush. */
  predicate WayOut(e: Event) { e.Halted? || e.FlushIoctl? }

  /** All that can happen then is that packets are handed in. */
  lemma {:induction false} WedgeEvents(c: Config, all: multiset<nat>, s: System, e: Event)
    requires Good(c) && Inv(c, all, s) && Wedged(s.host) && Enabled(c, s, e) && !WayOut(e)
    ensures e.Ask?
  {
  }

  lemma {:induction false} WedgeStep(c: Config, all: multiset<nat>, s: System, e: Event)
    requires Good(c) && Inv(c, all, s) && Wedged(s.host) && Enabled(c, s, e) && !WayOut(e)
    ensures var s' := Step(c, s, e);
            Inv(c, all, s') && Wedged(s'.host) && s'.host.drv.cur == s.host.drv.cur
            && s'.host.log.sent == s.host.log.sent && s'.adapter.wire == s.adapter.wire
  {
    WedgeEvents(c, all, s, e);
    AskKeeps(c, all, s, e.q);
  }

  /** Once wedged, and until a reset or a flush, nothing is sent any more and the packet in the way is never marked
      done. */
  lemma {:induction false} WedgedForever(c: Config, all: multiset<nat>, s: System, es: seq<Event>)
    requires Good(c) && Inv(c, all, s) && Wedged(s.host) && RequestsOk(c, es)
             && forall i :: 0 <= i < |es| ==> !WayOut(es[i])
    ensures var s' := Run(c, s, es);
            Wedged(s'.host) && s'.host.log.sent == s.host.log.sent && s'.adapter.wire == s.adapter.wire
            && s'.host.drv.cur == s.host.drv.cur && s.host.drv.cur.Some? && s.host.drv.cur.value !in s'.host.log.done
    decreases |es|
  {
    if es == [] {
      assert s.host.drv.cur.value in Pending(s.host.drv);
    } else if Enabled(c, s, es[0]) {
      WedgeStep(c, all, s, es[0]);
      WedgedForever(c, all, Step(c, s, es[0]), es[1..]);
    } else {
      WedgedForever(c, all, s, es[1..]);
    }
  }
}
