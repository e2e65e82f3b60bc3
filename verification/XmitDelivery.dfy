/** What becomes of a packet that was accepted: between two resets or flushes of the queue it is sent or waits, and it
    is done only when the network has seen it. */
module XmitDelivery {
  import opened Common
  import opened XmitRing
  import opened XmitModel
  import opened XmitBooks
  import opened XmitInvariant
  import opened XmitSafety

  // ---------------------------------------------------------------------------
  // What each entry does to the packets

  /** The host's packets: the current one, those waiting, those put on the ring, those accepted and those done. */
  datatype Packets = Packets(cur: Option<nat>, waiting: seq<nat>, sent: seq<nat>, accepted: seq<nat>, done: set<nat>)

  function PacketsOf(h: Host): (p: Packets) {
    Packets(h.drv.cur, Serials(h.drv.queue), h.log.sent, h.log.accepted, h.log.done)
  }

  /** A packet for this host is delivered at once. Another one goes out at once if the transmitter is idle and it is not
      too large, and waits behind all others if the transmitter is busy and an element is free. Otherwise it is refused
      and done. Nothing else changes. */
  lemma {:induction false} AskExact(c: Config, all: multiset<nat>, s: System, q: Request)
    requires Good(c) && Inv(c, all, s) && Enabled(c, s, Ask(q))
    ensures var h, n, p := s.host, |s.host.log.asked|, PacketsOf(s.host);
            var r := Output(c, h, q);
            var here, idle, fits := q.dest == c.addr, !h.drv.transmitting, |Frame(c, q)| <= c.max;
            && r.h.log.asked == h.log.asked + [q]
            && r.ok == (here || if idle then fits else h.drv.free != [])
            && PacketsOf(r.h) ==
               if here then p.(accepted := p.accepted + [n], done := p.done + {n})
               else if idle && fits then p.(cur := Some(n), sent := p.sent + [n], accepted := p.accepted + [n])
               else if !idle && h.drv.free != [] then
                 p.(waiting := p.waiting + [n], accepted := p.accepted + [n])
               else p.(done := p.done + {n})
  {
    var h, n := s.host, |s.host.log.asked|;
    if q.dest != c.addr && !h.drv.transmitting {
      var h' := h.(log := h.log.(asked := h.log.asked + [q]));
      assert !OnRing(h) && h.drv.queue == [];
      OutputFree(c, h', n);
      OutputIdle(c, h, h', q, OutputPacket(c, h', n));
    } else if q.dest != c.addr && h.drv.free != [] {
      ListsEnqueue(h.drv, all, n);
    }
  }

  /** The packets once the current one is done with and the first one waiting, if any, is taken from the queue and
      output. One that is too large becomes current without being sent, and takes the others with it. */
  function Advance(p: Packets, tooLarge: bool): (r: Packets) {
    var done := p.done + if p.cur.Some? then {p.cur.value} else {};
    if p.waiting == [] then p.(cur := None, done := done)
    else if !tooLarge then
      p.(cur := Some(p.waiting[0]), waiting := p.waiting[1..], sent := p.sent + [p.waiting[0]], done := done)
    else p.(cur := Some(p.waiting[0]), waiting := [], done := done + Values(p.waiting[1..]))
  }

  /** A restart drops the current packet and goes on with the first one waiting. */
  lemma {:induction false} RestartExact(c: Config, all: multiset<nat>, h: Host, a: Adapter)
    requires Good(c) && HostOk(c, h) && Lists(h.drv, all) && !h.drv.resetPending && WireInv(c, h.log, a)
    requires Books(Pending(h.drv), h.log) && (h.drv.cur == None ==> SentFirst(Pending(h.drv), h.log.sent, true))
    ensures PacketsOf(Restart(c, h)) == Advance(PacketsOf(h), TooLargeFirst(c, h))
    ensures Restart(c, h).log.asked == h.log.asked && Restart(c, h).drv.resets == h.drv.resets + 1
  {
    DropKeeps(c, all, h);
    var d := Reset(c, XmitDrop(h));
    if d.drv.queue != [] {
      Promote(c, all, d, a.(at := 0, irq := false));
      SerialsTail(d.drv.queue);
      assert Serials(d.drv.queue)[1..] == Serials(d.drv.queue[1..]);
    } else {
      assert Serials(d.drv.queue) == [];
    }
  }

  /** A completion that succeeds goes on with the first one waiting as well, and resets nothing. */
  lemma {:induction false} CompletionExact(c: Config, all: multiset<nat>, s: System, dcc: bool)
    requires Good(c) && Inv(c, all, s) && s.adapter.irq && XmitDone(c, s.host, dcc).Finished?
             && XmitDone(c, s.host, dcc).ok
    ensures var h, r := s.host, XmitDone(c, s.host, dcc).h;
            PacketsOf(r) == Advance(PacketsOf(h), false) && r.log.asked == h.log.asked
            && r.drv.resets == h.drv.resets
  {
    AtCompletion(c, all, s);
    DoneSucceeds(c, all, s, dcc);
    var h := s.host;
    WalkFindsLast(c, h.ring, Frame(c, h.log.asked[h.drv.cur.value]));
    var last := At(c, h.ring.next, Count(c, |Frame(c, h.log.asked[h.drv.cur.value])|) - 1);
    AdvancedBetween(c, all, s, last);
    if h.drv.queue != [] {
      var h1 := Advanced(c, h, last);
      OutputFree(c, h1, h.drv.queue[0].serial);
      SerialsTail(h.drv.queue);
      assert Serials(h.drv.queue)[1..] == Serials(h.drv.queue[1..]);
    } else {
      assert Serials(h.drv.queue) == [];
    }
  }

  // ---------------------------------------------------------------------------
  // Whole runs

  /** Packet `x`, if it was accepted for another host, is sent or waits; it is done only once the network has seen
      it. */
  predicate Delivers(c: Config, s: System, x: nat) {
    var log := s.host.log;
    x < |log.asked| && x in log.accepted && log.asked[x].dest != c.addr ==>
      && (x in log.sent || x in Serials(s.host.drv.queue))
      && (x in log.done ==> x in s.adapter.completed)
  }

  /** The event resets nothing and flushes nothing. */
  predicate Undisturbed(c: Config, s: System, e: Event)
    requires Good(c) && SystemOk(c, s)
  {
    Enabled(c, s, e) ==> !e.FlushIoctl? && Step(c, s, e).host.drv.resets == s.host.drv.resets
  }

  /** An entry that keeps the packets in their line. */
  lemma {:induction false} AskDelivers(c: Config, all: multiset<nat>, s: System, q: Request, x: nat)
    requires Good(c) && Inv(c, all, s) && Enabled(c, s, Ask(q)) && Undisturbed(c, s, Ask(q)) && Delivers(c, s, x)
    ensures Delivers(c, Step(c, s, Ask(q)), x)
  {
    AskExact(c, all, s, q);
    var h, n, r := s.host, |s.host.log.asked|, Output(c, s.host, q).h;
    assert Serials(r.drv.queue) == PacketsOf(r).waiting && r.log.sent == PacketsOf(r).sent;
    assert r.log.accepted == PacketsOf(r).accepted && r.log.done == PacketsOf(r).done;
    assert n !in h.log.accepted && n !in h.log.done;
    assert Step(c, s, Ask(q)).adapter.completed == s.adapter.completed;
  }

  /** The first packet waiting goes on the ring. */
  lemma {:induction false} AdvanceDelivers(c: Config, s: System, t: System, x: nat)
    requires Delivers(c, s, x) && s.host.drv.cur.Some? && s.host.drv.cur.value in s.adapter.completed
    requires PacketsOf(t.host) == Advance(PacketsOf(s.host), false) && t.host.log.asked == s.host.log.asked
    requires t.adapter.completed == s.adapter.completed
    ensures Delivers(c, t, x)
  {
    var p, r := PacketsOf(s.host), PacketsOf(t.host);
    assert Serials(s.host.drv.queue) == p.waiting && Serials(t.host.drv.queue) == r.waiting;
    assert t.host.log.sent == r.sent && t.host.log.done == r.done && t.host.log.accepted == r.accepted;
    if p.waiting != [] { assert p.waiting == [p.waiting[0]] + p.waiting[1..]; }
  }

  lemma {:induction false} DoneDelivers(c: Config, all: multiset<nat>, s: System, dcc: bool, x: nat)
    requires Good(c) && Inv(c, all, s) && Enabled(c, s, PacketDone(dcc)) && Undisturbed(c, s, PacketDone(dcc))
    requires Delivers(c, s, x)
    ensures Delivers(c, Step(c, s, PacketDone(dcc)), x)
  {
    AtCompletion(c, all, s);
    DoneSucceeds(c, all, s, dcc);
    var f := XmitDone(c, s.host, dcc);
    StepDone(c, s, dcc, f);
    if f.ok {
      CompletionExact(c, all, s, dcc);
      AdvanceDelivers(c, s, Step(c, s, PacketDone(dcc)), x);
    } else {
      RestartExact(c, all, f.h, s.adapter);
    }
  }

  lemma {:induction false} StepDelivers(c: Config, all: multiset<nat>, s: System, e: Event, x: nat)
    requires Good(c) && Inv(c, all, s) && Enabled(c, s, e) && Undisturbed(c, s, e) && Delivers(c, s, x)
    ensures Delivers(c, Step(c, s, e), x)
  {
    match e
    case Ask(q) => AskDelivers(c, all, s, q, x);
    case Cast =>
    case Read => ReadQuiet(c, s);
    case PacketDone(dcc) => DoneDelivers(c, all, s, dcc, x);
    case Halted => RestartExact(c, all, s.host, s.adapter);
  }

  /** Nothing is reset or flushed in the course of the events. */
  predicate Smooth(c: Config, s: System, es: seq<Event>)
    requires Good(c) && SystemOk(c, s) && RequestsOk(c, es)
    decreases |es|
  {
    es == [] || (Undisturbed(c, s, es[0])
                 && Smooth(c, if Enabled(c, s, es[0]) then Step(c, s, es[0]) else s, es[1..]))
  }

  lemma {:induction false} SmoothDelivers(c: Config, all: multiset<nat>, s: System, es: seq<Event>, x: nat)
    requires Good(c) && RequestsOk(c, es) && Inv(c, all, s) && Smooth(c, s, es) && Delivers(c, s, x)
    ensures Delivers(c, Run(c, s, es), x) && Inv(c, all, Run(c, s, es))
    decreases |es|
  {
    if es != [] {
      if Enabled(c, s, es[0]) {
        StepKeeps(c, all, s, es[0]);
        StepDelivers(c, all, s, es[0], x);
        SmoothDelivers(c, all, Step(c, s, es[0]), es[1..], x);
      } else {
        SmoothDelivers(c, all, s, es[1..], x);
      }
    }
  }

  /** The packets that are not given up when nothing more is reset or flushed: those on the ring, those waiting, and
      those not yet handed in. */
  predicate Open(s: System, x: nat) {
    || (OnRing(s.host) && s.host.drv.cur == Some(x))
    || x in Serials(s.host.drv.queue)
    || x >= |s.host.log.asked|
  }

  lemma {:induction false} OpenDelivers(c: Config, all: multiset<nat>, s: System, x: nat)
    requires Good(c) && Inv(c, all, s) && Open(s, x)
    ensures Delivers(c, s, x)
  {
    if x < |s.host.log.asked| { assert x in Pending(s.host.drv); }
  }

  /** From any state that a run can reach on, as long as nothing is reset or flushed: every packet for another host that
      is accepted, on the ring or waiting stays so until it is sent, and is not done before the network has seen it. */
  lemma {:induction false} AcceptedDelivered(c: Config, elems: seq<nat>, es: seq<Event>, fs: seq<Event>, x: nat)
    requires Good(c) && RequestsOk(c, es) && RequestsOk(c, fs) && HarmlessRun(c, Init(c, elems), es)
    requires var s := Run(c, Init(c, elems), es); Smooth(c, s, fs) && Open(s, x)
    ensures Delivers(c, Run(c, Run(c, Init(c, elems), es), fs), x)
  {
    Reached(c, elems, es);
    var s := Run(c, Init(c, elems), es);
    OpenDelivers(c, multiset(elems), s, x);
    SmoothDelivers(c, multiset(elems), s, fs, x);
  }

  // ---------------------------------------------------------------------------
  // What the other entries do to the packets

  /** A completion in all cases. If the packet done was good and the next one is too large, that becomes current and is
      dropped by the restart that follows; if it was not good, the restart drops it itself. */
  lemma {:induction false} DoneExact(c: Config, all: multiset<nat>, s: System, dcc: bool)
    requires Good(c) && Inv(c, all, s) && Enabled(c, s, PacketDone(dcc))
    ensures var h, q, p := s.host, s.host.drv.queue, PacketsOf(s.host);
            var r := Step(c, s, PacketDone(dcc)).host;
            var good := dcc && WalkSafe(c, Count(c, |Frame(c, h.log.asked[h.drv.cur.value])|));
            PacketsOf(r) ==
              if good && !TooLargeFirst(c, h) then Advance(p, false)
              else if !good then Advance(p, TooLargeFirst(c, h))
              else
                Advance(p.(cur := Some(p.waiting[0]), waiting := p.waiting[1..], done := p.done + {h.drv.cur.value}),
                        |q| > 1 && Oversize(c, h, q[1].serial))
  {
    AtCompletion(c, all, s);
    DoneSucceeds(c, all, s, dcc);
    DoneQueue(c, all, s, dcc);
    var f := XmitDone(c, s.host, dcc);
    StepDone(c, s, dcc, f);
    if f.ok {
      CompletionExact(c, all, s, dcc);
    } else {
      FailedPackets(c, all, s, dcc);
      RestartExact(c, all, f.h, s.adapter);
    }
  }

  /** What a completion that fails leaves for the restart. */
  lemma {:induction false} FailedPackets(c: Config, all: multiset<nat>, s: System, dcc: bool)
    requires Good(c) && Inv(c, all, s) && s.adapter.irq && XmitDone(c, s.host, dcc).Finished?
             && !XmitDone(c, s.host, dcc).ok
    ensures var h, p := s.host, PacketsOf(s.host);
            var good := dcc && WalkSafe(c, Count(c, |Frame(c, h.log.asked[h.drv.cur.value])|));
            PacketsOf(XmitDone(c, h, dcc).h) ==
              if good && p.waiting != [] then
                p.(cur := Some(p.waiting[0]), waiting := p.waiting[1..], done := p.done + {h.drv.cur.value})
              else p
  {
    AtCompletion(c, all, s);
    DoneSucceeds(c, all, s, dcc);
    var h := s.host;
    WalkFindsLast(c, h.ring, Frame(c, h.log.asked[h.drv.cur.value]));
    if dcc && WalkSafe(c, Count(c, |Frame(c, h.log.asked[h.drv.cur.value])|)) {
      var last := At(c, h.ring.next, Count(c, |Frame(c, h.log.asked[h.drv.cur.value])|) - 1);
      AdvancedBetween(c, all, s, last);
      var h1 := Advanced(c, h, last);
      OutputFree(c, h1, h.drv.queue[0].serial);
      SerialsTail(h.drv.queue);
      assert Serials(h.drv.queue)[1..] == Serials(h.drv.queue[1..]);
    }
  }

  /** The flush ioctl gives up the current packet and all that wait. */
  lemma {:induction false} FlushExact(c: Config, s: System)
    requires Good(c) && SystemOk(c, s) && Enabled(c, s, FlushIoctl)
    ensures var p := PacketsOf(s.host);
            PacketsOf(Step(c, s, FlushIoctl).host)
            == p.(cur := None, waiting := [],
                  done := p.done + (if p.cur.Some? then {p.cur.value} else {}) + Values(p.waiting))
  {
    assert Serials([]) == [];
  }

  // ---------------------------------------------------------------------------
  // The adapter's part

  /** How many descriptors of the packet on the ring the adapter has still to read. */
  function Unread(c: Config, s: System): (r: int)
    requires Good(c) && SystemOk(c, s) && s.host.drv.cur.Some? && s.host.drv.cur.value < |s.host.log.asked|
  {
    Count(c, |Frame(c, s.host.log.asked[s.host.drv.cur.value])|) - Dist(c, s.host.ring.next, s.adapter.at)
  }

  lemma {:induction false} OneRead(c: Config, all: multiset<nat>, s: System)
    requires Good(c) && Inv(c, all, s) && OnRing(s.host) && s.host.cast == 0 && !s.adapter.irq
    ensures Enabled(c, s, Read)
    ensures var t, x := Step(c, s, Read), s.host.drv.cur.value;
            && Inv(c, all, t) && OnRing(t.host) && t.host.cast == 0
            && t.host.drv == s.host.drv && t.host.log == s.host.log && (t.adapter.irq <==> Unread(c, s) == 1)
            && (if t.adapter.irq then
                  t.adapter.completed == s.adapter.completed + [x]
                  && t.adapter.wire == s.adapter.wire + [Frame(c, s.host.log.asked[x])]
                else
                  Unread(c, t) == Unread(c, s) - 1 && t.adapter.completed == s.adapter.completed
                  && t.adapter.wire == s.adapter.wire)
  {
    ReadKeeps(c, all, s);
    var p, b := Frame(c, s.host.log.asked[s.host.drv.cur.value]), Dist(c, s.host.ring.next, s.adapter.at);
    ReadAdapter(c, s, p, b);
    ReadQuiet(c, s);
    if b + 1 < Count(c, |p|) { DistAt(c, s.host.ring.next, b + 1); }
  }

  /** A packet that was handed over whole is on the network once the adapter has read each of its descriptors. */
  lemma {:induction false} HandedOverSent(c: Config, all: multiset<nat>, s: System, es: seq<Event>)
    requires Good(c) && Inv(c, all, s) && OnRing(s.host) && s.host.cast == 0 && !s.adapter.irq
    requires |es| == Unread(c, s) && forall i :: 0 <= i < |es| ==> es[i] == Read
    ensures var t, x := Run(c, s, es), s.host.drv.cur.value;
            && t.adapter.irq && t.host.drv == s.host.drv && t.host.log == s.host.log
            && t.adapter.completed == s.adapter.completed + [x]
            && t.adapter.wire == s.adapter.wire + [Frame(c, s.host.log.asked[x])]
    decreases |es|
  {
    OneRead(c, all, s);
    var t := Step(c, s, Read);
    if t.adapter.irq {
      assert es[1..] == [];
    } else {
      HandedOverSent(c, all, t, es[1..]);
    }
  }
}
