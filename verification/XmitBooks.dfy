/** Bookkeeping of the transmit queue: elements, requests, and the order in which packets reach the ring. */
module XmitBooks {
  import opened Common
  import opened XmitRing
  import opened XmitModel

  predicate Asc(s: seq<nat>) { forall i, j :: 0 <= i < j < |s| ==> s[i] < s[j] }

  predicate Below(s: seq<nat>, n: nat) { forall x :: x in s ==> x < n }

  /** The requests not yet marked done, oldest first: the current packet, then the queue. */
  function Pending(d: Driver): (r: seq<nat>) {
    (if d.cur.Some? then [d.cur.value] else []) + Serials(d.queue)
  }

  /** Every element is on the free list or on the queue, once. */
  predicate Lists(d: Driver, all: multiset<nat>) { multiset(d.free) + multiset(Elems(d.queue)) == all }

  /** An idle transmitter has nothing to send, and no reset is ever put off. */
  predicate Flags(d: Driver) {
    !d.resetPending && (d.transmitting <==> d.cur.Some?) && (d.cur == None ==> d.queue == [])
  }

  /** The newest packet on the ring was asked for before anything that is pending. */
  predicate SentFirst(p: seq<nat>, sent: seq<nat>, strictly: bool) {
    p != [] && sent != [] ==> if strictly then sent[|sent| - 1] < p[0] else sent[|sent| - 1] <= p[0]
  }

  /** The log when the requests `p` are pending: all others are done; packets went on the ring in the order asked
      for. */
  ghost predicate Books(p: seq<nat>, log: Log) {
    && Asc(p) && Below(p, |log.asked|)
    && (forall x :: x in log.done ==> x < |log.asked|)
    && (forall x :: 0 <= x < |log.asked| ==> (x in log.done <==> x !in p))
    && Asc(log.sent) && Asc(log.accepted) && Below(log.accepted, |log.asked|)
    && (forall x :: x in log.sent ==> x in log.accepted)
    && (forall x :: x in p ==> x in log.accepted)
    && SentFirst(p, log.sent, false)
  }

  /** A cut of an ascending sequence separates its values. */
  lemma {:induction false} AscCut(p: seq<nat>, k: nat)
    requires Asc(p) && k <= |p|
    ensures Asc(p[..k]) && Asc(p[k..])
    ensures forall x :: x in p <==> x in p[..k] || x in p[k..]
    ensures forall x :: x in p[..k] ==> x !in p[k..]
  {
    assert p == p[..k] + p[k..];
    forall x | x in p[..k] ensures x !in p[k..] {
      var i :| 0 <= i < k && p[i] == x;
      forall m | 0 <= m < |p[k..]| ensures p[k..][m] != x {
        assert p[k..][m] == p[k + m];
      }
    }
  }

  lemma {:induction false} AscAppend(p: seq<nat>, x: nat)
    requires Asc(p) && (p != [] ==> p[|p| - 1] < x)
    ensures Asc(p + [x]) && x !in p
  {
  }

  /** The oldest pending request is marked done. */
  lemma {:induction false} BooksDone(p: seq<nat>, log: Log)
    requires Books(p, log) && p != []
    ensures var log' := log.(done := log.done + {p[0]});
            Books(p[1..], log') && SentFirst(p[1..], log.sent, true)
  {
    AscCut(p, 1);
    assert p[..1] == [p[0]] && p[0] in p[..1];
    if |p| > 1 { assert p[1..][0] == p[1] > p[0]; }
  }

  /** All pending requests after the first `k` are marked done. */
  lemma {:induction false} BooksFlush(p: seq<nat>, k: nat, log: Log)
    requires Books(p, log) && k <= |p|
    ensures Books(p[..k], log.(done := log.done + Values(p[k..])))
  {
    AscCut(p, k);
  }

  /** The oldest pending request is put on the ring. */
  lemma {:induction false} BooksSend(p: seq<nat>, log: Log)
    requires Books(p, log) && p != [] && SentFirst(p, log.sent, true)
    ensures Books(p, log.(sent := log.sent + [p[0]])) && p[0] !in log.sent
  {
    AscAppend(log.sent, p[0]);
  }

  /** A new request is accepted and has to wait, or is sent at once. */
  lemma {:induction false} BooksAccept(p: seq<nat>, log: Log, q: Request)
    requires Books(p, log)
    ensures var n := |log.asked|;
            && Books(p + [n], log.(asked := log.asked + [q], accepted := log.accepted + [n]))
            && (p == [] ==> SentFirst([n], log.sent, true))
  {
    var n := |log.asked|;
    if p != [] { assert p[|p| - 1] in p; }
    if log.accepted != [] { assert log.accepted[|log.accepted| - 1] in log.accepted; }
    if log.sent != [] { assert log.sent[|log.sent| - 1] in log.sent; }
    AscAppend(p, n);
    AscAppend(log.accepted, n);
    assert forall x :: x in p + [n] <==> x in p || x == n;
  }

  /** A new request is refused, and marked done. */
  lemma {:induction false} BooksRefuse(p: seq<nat>, log: Log, q: Request)
    requires Books(p, log)
    ensures Books(p, log.(asked := log.asked + [q], done := log.done + {|log.asked|}))
  {
    if p != [] { assert p[0] in p; }
  }

  /** A new request is accepted, and done with at once. */
  lemma {:induction false} BooksDeliver(p: seq<nat>, log: Log, q: Request)
    requires Books(p, log)
    ensures var n := |log.asked|;
            Books(p, log.(asked := log.asked + [q], accepted := log.accepted + [n], done := log.done + {n}))
  {
    var n := |log.asked|;
    BooksRefuse(p, log, q);
    if log.accepted != [] { assert log.accepted[|log.accepted| - 1] in log.accepted; }
    AscAppend(log.accepted, n);
    assert forall x :: x in log.accepted + [n] <==> x in log.accepted || x == n;
  }

  lemma {:induction false} SerialsTail(q: seq<Entry>)
    requires q != []
    ensures Serials(q) == [q[0].serial] + Serials(q[1..]) && Elems(q) == [q[0].elem] + Elems(q[1..])
    ensures multiset(Elems(q)) == multiset{q[0].elem} + multiset(Elems(q[1..]))
  {
    assert Elems(q) == [q[0].elem] + Elems(q[1..]);
    assert multiset(Elems(q)) == multiset([q[0].elem]) + multiset(Elems(q[1..]));
  }

  lemma {:induction false} ListsPromote(d: Driver, all: multiset<nat>)
    requires Lists(d, all) && d.queue != []
    ensures Lists(d.(free := d.free + [d.queue[0].elem], queue := d.queue[1..]), all)
  {
    SerialsTail(d.queue);
    assert multiset(d.free + [d.queue[0].elem]) == multiset(d.free) + multiset{d.queue[0].elem};
  }

  lemma {:induction false} ListsFlush(d: Driver, all: multiset<nat>)
    requires Lists(d, all)
    ensures Lists(d.(free := d.free + Elems(d.queue), queue := []), all)
  {
    assert Elems([]) == [];
  }

  lemma {:induction false} ListsEnqueue(d: Driver, all: multiset<nat>, serial: nat)
    requires Lists(d, all) && d.free != []
    ensures var d' := d.(free := d.free[1..], queue := d.queue + [Entry(d.free[0], serial)]);
            Lists(d', all) && Serials(d'.queue) == Serials(d.queue) + [serial]
  {
    var d' := d.(free := d.free[1..], queue := d.queue + [Entry(d.free[0], serial)]);
    assert Elems(d'.queue) == Elems(d.queue) + [d.free[0]];
    assert d.free == [d.free[0]] + d.free[1..];
    assert multiset(d.free) == multiset{d.free[0]} + multiset(d.free[1..]);
  }
}
