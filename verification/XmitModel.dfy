/** The transmit side of the FDDI driver, and the adapter it shares the ring with.

    The functions on `Host` are the driver's entry points.  They leave the ownership of a new packet's descriptors to
    `CastOne`, one descriptor at a time, because the adapter runs meanwhile.  A failing entry is followed by the restart
    that its caller asks for. */
module XmitModel {
  import opened Common
  import opened XmitRing
  import opened WordCopy

  /** What a sender hands in.  It is known afterwards by its serial number. */
  datatype Request = Request(fc: Byte, dest: seq<Byte>, frags: seq<seq<Byte>>)

  /** Each element of a scatter/gather list that starts at byte `at` of the packet reaches the next word boundary. */
  predicate FragmentsReach(at: nat, frags: seq<seq<Byte>>)
    decreases |frags|
  {
    frags == [] || (ReachesBoundary(at, |frags[0]|) && FragmentsReach(at + |frags[0]|, frags[1..]))
  }

  /** What is asked of a sender: a packet that is to be copied into the adapter's memory has elements that NetDFBcopy
      can copy. */
  predicate RequestOk(c: Config, q: Request) {
    |q.dest| == 6 && (|Frame(c, q)| <= c.max ==> FragmentsReach(HDR_SIZE, q.frags))
  }

  function Concat(frags: seq<seq<Byte>>): (r: seq<Byte>) {
    if frags == [] then [] else frags[0] + Concat(frags[1..])
  }

  function Header(c: Config, q: Request): (r: seq<Byte>) { c.prh + [q.fc] + q.dest + c.addr }

  /** The packet as it should appear on the network. */
  function Frame(c: Config, q: Request): (r: seq<Byte>) { Header(c, q) + Concat(q.frags) }

  /** A transmit element on the queue. */
  datatype Entry = Entry(elem: nat, serial: nat)

  datatype Driver = Driver(free: seq<nat>, queue: seq<Entry>, cur: Option<nat>, transmitting: bool, resetPending: bool,
                           resets: nat)

  /** What became of the requests: those accepted with SUCCESS, those put on the ring, those marked done. */
  datatype Log = Log(asked: seq<Request>, accepted: seq<nat>, sent: seq<nat>, done: set<nat>)

  /** `cast` is how many descriptors of the new packet are still to be given to the adapter. */
  datatype Host = Host(ring: Ring, drv: Driver, log: Log, cast: nat)

  predicate HostOk(c: Config, h: Host) {
    && RingOk(c, h.ring)
    && (forall i :: 0 <= i < |h.log.asked| ==> RequestOk(c, h.log.asked[i]))
    && (forall i :: 0 <= i < |h.drv.queue| ==> h.drv.queue[i].serial < |h.log.asked|)
  }

  function Oversize(c: Config, h: Host, serial: nat): (r: bool)
    requires serial < |h.log.asked|
  {
    |Frame(c, h.log.asked[serial])| > c.max
  }

  datatype Tried = Tried(h: Host, ok: bool)

  // ---------------------------------------------------------------------------
  // Transmission

  /** What OutputPacket does once the sizes and the owners have been checked. */
  function Loading(c: Config, h: Host, serial: nat, s: seq<Byte>): (r: Host)
    requires Good(c) && HostOk(c, h) && 0 < |s| <= c.max
    ensures HostOk(c, r)
  {
    var k := Pack(c, h.ring, s);
    if k.ok then h.(ring := k.ring, log := h.log.(sent := h.log.sent + [serial]), cast := Count(c, |s|))
    else h.(ring := k.ring)
  }

  /** OutputPacket after its first check. */
  function OutputChecked(c: Config, h: Host, serial: nat): (r: Tried)
    requires Good(c) && HostOk(c, h) && serial < |h.log.asked|
    ensures HostOk(c, r.h)
  {
    var s := Frame(c, h.log.asked[serial]);
    if |s| > c.max then Tried(h, false)
    else if h.ring.own[(|s| / c.size + h.ring.next) % c.ring] then Tried(h, false)
    else Tried(Loading(c, h, serial, s), Pack(c, h.ring, s).ok)
  }

  /** OutputPacket, up to the call of CastOffPacket. */
  function OutputPacket(c: Config, h: Host, serial: nat): (r: Tried)
    requires Good(c) && HostOk(c, h) && serial < |h.log.asked|
    ensures HostOk(c, r.h)
  {
    if h.ring.own[h.ring.next] then Tried(h, false)
    else OutputChecked(c, h.(drv := h.drv.(transmitting := true, cur := Some(serial))), serial)
  }

  /** OutputXmtElement, for the first element of the queue. */
  function OutputXmtElement(c: Config, h: Host): (r: Tried)
    requires Good(c) && HostOk(c, h) && h.drv.queue != []
    ensures HostOk(c, r.h)
  {
    var e := h.drv.queue[0];
    var t := OutputPacket(c, h, e.serial);
    Tried(t.h.(drv := t.h.drv.(queue := h.drv.queue[1..], free := h.drv.free + [e.elem])), t.ok)
  }

  /** NetDFXmitDrop. */
  function XmitDrop(h: Host): (r: Host) {
    h.(drv := h.drv.(cur := None, transmitting := false),
       log := h.log.(done := h.log.done + if h.drv.cur.Some? then {h.drv.cur.value} else {}))
  }

  /** NetDFReset: the ring goes back to the host, unless the reset is put off. */
  function Reset(c: Config, h: Host): (r: Host)
    requires Good(c) && HostOk(c, h)
    ensures HostOk(c, r)
  {
    if !h.drv.resetPending && h.drv.transmitting then h.(drv := h.drv.(resetPending := true))
    else
      h.(drv := h.drv.(resetPending := false, resets := h.drv.resets + 1), cast := 0,
         ring := h.ring.(next := 0, own := seq(c.ring, i => false)))
  }

  function Elems(q: seq<Entry>): (r: seq<nat>)
    ensures |r| == |q|
  {
    seq(|q|, i requires 0 <= i < |q| => q[i].elem)
  }

  function Serials(q: seq<Entry>): (r: seq<nat>)
    ensures |r| == |q|
  {
    seq(|q|, i requires 0 <= i < |q| => q[i].serial)
  }

  function Values(s: seq<nat>): (r: set<nat>) { set x | x in s }

  /** NetDFXmitFlushQ. */
  function XmitFlushQ(h: Host): (r: Host) {
    h.(drv := h.drv.(queue := [], free := h.drv.free + Elems(h.drv.queue)),
       log := h.log.(done := h.log.done + Values(Serials(h.drv.queue))))
  }

  /** NetDFXmitRestart.  The element is at the rear of the free list when it is moved there a second time. */
  function XmitRestart(c: Config, h: Host): (r: Host)
    requires Good(c) && HostOk(c, h)
    ensures HostOk(c, r)
  {
    if h.drv.queue != [] then
      var t := OutputXmtElement(c, h);
      if t.ok then t.h else XmitFlushQ(t.h)
    else h.(drv := h.drv.(transmitting := false, cur := None))
  }

  /** NetDFRestart. */
  function Restart(c: Config, h: Host): (r: Host)
    requires Good(c) && HostOk(c, h)
    ensures HostOk(c, r)
  {
    XmitRestart(c, Reset(c, XmitDrop(h)))
  }

  /** NetDFOutput, and the restart it ends with if the packet cannot be output. */
  function Output(c: Config, h0: Host, q: Request): (r: Tried)
    requires Good(c) && HostOk(c, h0) && RequestOk(c, q)
    ensures HostOk(c, r.h)
  {
    var serial := |h0.log.asked|;
    var h := h0.(log := h0.log.(asked := h0.log.asked + [q]));
    var accepted := h.log.accepted + [serial];
    if q.dest == c.addr then
      Tried(h.(log := h.log.(accepted := accepted, done := h.log.done + {serial})), true)
    else if !h.drv.transmitting then
      var t := OutputPacket(c, h, serial);
      if t.ok then Tried(t.h.(log := t.h.log.(accepted := accepted)), true) else Tried(Restart(c, t.h), false)
    else if h.drv.free == [] then
      Tried(h.(log := h.log.(done := h.log.done + {serial})), false)
    else
      Tried(h.(drv := h.drv.(free := h.drv.free[1..], queue := h.drv.queue + [Entry(h.drv.free[0], serial)]),
               log := h.log.(accepted := accepted)), true)
  }

  datatype Finished = Panic | Finished(h: Host, ok: bool)

  /** NetDFXmitDone. `dcc` says whether the adapter's completion code is that of success. */
  function XmitDone(c: Config, h: Host, dcc: bool): (r: Finished)
    requires Good(c) && HostOk(c, h)
    ensures r.Finished? ==> HostOk(c, r.h)
  {
    var idle := h.drv.(transmitting := false);
    var p := h.ring.next;
    if h.drv.cur == None || h.ring.own[p] || Sop !in h.ring.pages[p].bits then Finished(h.(drv := idle), false)
    else if !dcc then Finished(h, false)
    else
      match Walk(c, h.ring.pages, p, p)
      case NoEnd => Panic
      case LooksOwned => Finished(h.(drv := idle), false)
      case Last(last) =>
        var h1 := h.(ring := h.ring.(next := Next(c, last)), log := h.log.(done := h.log.done + {h.drv.cur.value}));
        if h.drv.resetPending then Finished(Restart(c, h1.(drv := idle)), true)
        else if h.drv.queue != [] then
          var t := OutputXmtElement(c, h1);
          if t.ok then Finished(t.h, true) else Finished(t.h.(drv := t.h.drv.(transmitting := false)), false)
        else Finished(h1.(drv := idle.(cur := None)), true)
  }

  /** The transmit part of NetDFIntr. */
  function Interrupt(c: Config, h: Host, dcc: bool): (r: Finished)
    requires Good(c) && HostOk(c, h)
    ensures r.Finished? ==> HostOk(c, r.h)
  {
    match XmitDone(c, h, dcc)
    case Panic => Panic
    case Finished(h1, ok) => if ok then Finished(h1, true) else Finished(Restart(c, h1), false)
  }

  // ---------------------------------------------------------------------------
  // The adapter

  /** The adapter is at descriptor `at`, has read `partial` of a packet of `pbc` bytes, and has put `wire` on the
      network.  `irq` is its "packet done" event.  `completed` lists the requests its packets belonged to. */
  datatype Adapter = Adapter(at: nat, pbc: nat, partial: seq<Byte>, wire: seq<seq<Byte>>, irq: bool,
                             completed: seq<nat>)

  datatype System = System(host: Host, adapter: Adapter, panicked: bool)

  predicate SystemOk(c: Config, s: System) { HostOk(c, s.host) && s.adapter.at < c.ring }

  /** Give the adapter the last descriptor it does not yet own: a turn of the loop in CastOffPacket. */
  function CastOne(c: Config, h: Host): (r: Host)
    requires HostOk(c, h) && 0 < h.cast <= c.ring
    ensures HostOk(c, r)
  {
    h.(cast := h.cast - 1, ring := h.ring.(own := h.ring.own[At(c, h.ring.next, h.cast - 1) := true]))
  }

  /** The adapter reads the page it is at and hands the descriptor back. */
  function Transfer(c: Config, s: System): (r: System)
    requires SystemOk(c, s) && s.host.ring.own[s.adapter.at]
    ensures SystemOk(c, r)
  {
    var a, ring := s.adapter, s.host.ring;
    var page := ring.pages[a.at];
    var pbc := if Sop in page.bits then page.pbc else a.pbc;
    var partial := (if Sop in page.bits then [] else a.partial) + ring.bufs[a.at];
    var h := s.host.(ring := ring.(own := ring.own[a.at := false]));
    var a1 := a.(at := Next(c, a.at), pbc := pbc, partial := partial);
    if Eop !in page.bits then s.(host := h, adapter := a1)
    else
      s.(host := h,
         adapter := a1.(irq := true, wire := a.wire + [partial[..Min(pbc, |partial|)]],
         completed := a.completed + if h.drv.cur.Some? then [h.drv.cur.value] else []))
  }

  /** An adapter that was reset starts over at the first descriptor. */
  function After(before: Host, h: Host, a: Adapter): (r: Adapter) {
    if h.drv.resets == before.drv.resets then a else a.(at := 0, partial := [], irq := false)
  }

  datatype Event = Ask(q: Request) | Cast | Read | PacketDone(dcc: bool) | Halted | FlushIoctl

  predicate Enabled(c: Config, s: System, e: Event)
    requires SystemOk(c, s)
  {
    && !s.panicked
    && match e
       case Ask(q) => s.host.cast == 0 && RequestOk(c, q)
       case Cast => 0 < s.host.cast <= c.ring
       case Read => s.host.ring.own[s.adapter.at]
       case PacketDone(_) => s.host.cast == 0 && s.adapter.irq
       case Halted => s.host.cast == 0
       case FlushIoctl => s.host.cast == 0
  }

  /** The driver's entries exclude each other; the adapter does not wait. */
  function Step(c: Config, s: System, e: Event): (r: System)
    requires Good(c) && SystemOk(c, s) && Enabled(c, s, e)
    ensures SystemOk(c, r)
  {
    match e
    case Ask(q) => Entered(c, s, Output(c, s.host, q).h)
    case Cast => s.(host := CastOne(c, s.host))
    case Read => Transfer(c, s)
    case PacketDone(dcc) =>
      (match Interrupt(c, s.host, dcc)
       case Panic => s.(panicked := true)
       case Finished(h, _) => Entered(c, s.(adapter := s.adapter.(irq := false)), h))
    case Halted => Entered(c, s, Restart(c, s.host))
    case FlushIoctl => s.(host := XmitFlushQ(XmitDrop(s.host)))
  }

  function Entered(c: Config, s: System, h: Host): (r: System)
    requires Good(c) && SystemOk(c, s) && HostOk(c, h)
    ensures SystemOk(c, r)
  {
    s.(host := h, adapter := After(s.host, h, s.adapter))
  }

  /** Every packet handed in can be copied. */
  predicate RequestsOk(c: Config, es: seq<Event>) { forall i :: 0 <= i < |es| && es[i].Ask? ==> RequestOk(c, es[i].q) }

  /** Events that cannot happen in a state are passed over. */
  function Run(c: Config, s: System, es: seq<Event>): (r: System)
    requires Good(c) && SystemOk(c, s) && RequestsOk(c, es)
    ensures SystemOk(c, r)
    decreases |es|
  {
    if es == [] then s
    else Run(c, if Enabled(c, s, es[0]) then Step(c, s, es[0]) else s, es[1..])
  }

  /** The state after initialization, with the given elements on the free list. */
  function Init(c: Config, elems: seq<nat>): (s: System)
    requires Good(c)
    ensures SystemOk(c, s)
  {
    System(Host(Ring(seq(c.ring, i => false), seq(c.ring, i => Page({}, 0)), seq(c.ring, i => seq(c.size, j => 0)), 0),
                Driver(elems, [], None, false, false, 0), Log([], [], [], {}), 0),
           Adapter(0, 0, [], [], false, []), false)
  }
}
