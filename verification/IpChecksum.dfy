/** The IP header that Net_Output completes and Net_Input checks: format and checksum of section 3.1 of RFC 791,
    one's complement sum of section 1 of RFC 1071. */
module IpChecksum {
  import opened Common

  const HEADER: nat := 20
  const ONES: nat := 0xFFFF
  const MORE_FRAGMENTS: nat := 0x20
  const MAX_TOTAL: nat := 0xFFFF
  const SHORTS: nat := 0x1_0000
  const WORDS: nat := 0x1_0000_0000

  type Short = n: nat | n <= ONES
  type Word = n: nat | n < WORDS

  /** The machine's byte order, and the protocol number of Sprite's RPC. */
  datatype Host = Host(little: bool, protocol: Byte)

  /** The short that the machine sees in two bytes of memory. */
  function Native(h: Host, b0: Byte, b1: Byte): (r: Short) {
    if h.little then b0 + 256 * b1 else 256 * b0 + b1
  }

  /** The two bytes of memory in which the machine keeps a short. */
  function InMemory(h: Host, n: Short): (r: seq<Byte>)
    ensures |r| == 2 && Native(h, r[0], r[1]) == n
  {
    if h.little then [n % 256, n / 256] else [n / 256, n % 256]
  }

  /** Net_HostToNetShort: a function of a short on a little-endian machine, nothing at all on another, where what does
      not fit in a short stays. */
  function HostToNet(h: Host, n: Word): (r: Word)
    ensures if h.little then r <= ONES else r == n
  {
    if h.little then Native(h, n % SHORTS / 256, n % 256) else n
  }

  lemma MemoryBack(h: Host, b0: Byte, b1: Byte)
    ensures InMemory(h, Native(h, b0, b1)) == [b0, b1]
  {
  }

  /** Either way the short is in the order of the network. */
  lemma NetOrder(h: Host, n: Word)
    ensures InMemory(h, HostToNet(h, n) % SHORTS) == [n % SHORTS / 256, n % 256]
  {
    if h.little {
      MemoryBack(h, n % SHORTS / 256, n % 256);
    } else {
      LowByte(n);
      assert HostToNet(h, n) == n && InMemory(h, n % SHORTS) == [n % SHORTS / 256, n % SHORTS % 256];
    }
  }

  lemma LowByte(n: Word)
    ensures n % SHORTS % 256 == n % 256
  {
  }

  // ---------------------------------------------------------------------------
  // One's complement arithmetic

  /** Addition with end-around carry. */
  function Plus(a: Short, b: Short): (r: Short) { if a + b > ONES then a + b - ONES else a + b }

  /** The one's complement sum of the shorts in memory; an odd last byte is not met in a header. */
  function Sum(h: Host, s: seq<Byte>): (r: Short) {
    if |s| < 2 then 0 else Plus(Native(h, s[0], s[1]), Sum(h, s[2..]))
  }

  /** Net_InetChecksum: the complement of the sum. */
  function Checksum(h: Host, s: seq<Byte>): (r: Short) { ONES - Sum(h, s) }

  lemma {:induction false} SumConcat(h: Host, a: seq<Byte>, b: seq<Byte>)
    requires |a| % 2 == 0
    ensures Sum(h, a + b) == Plus(Sum(h, a), Sum(h, b))
    decreases |a|
  {
    if a == [] {
      assert a + b == b;
    } else {
      assert (a + b)[2..] == a[2..] + b;
      SumConcat(h, a[2..], b);
    }
  }

  lemma {:induction false} SumShort(h: Host, n: Short)
    ensures Sum(h, InMemory(h, n)) == n
  {
  }

  /** The sum with the short at `off` replaced by `n`, in terms of the sum with a zero there. */
  lemma {:induction false} SumPut(h: Host, s: seq<Byte>, off: nat, n: Short)
    requires off % 2 == 0 && off + 2 <= |s|
    ensures Sum(h, Put(s, off, InMemory(h, n))) == Plus(Sum(h, Put(s, off, [0, 0])), n)
  {
    var a, b := s[..off], s[off + 2..];
    SumConcat(h, a, InMemory(h, n) + b);
    SumConcat(h, InMemory(h, n), b);
    SumConcat(h, a, [0, 0] + b);
    SumConcat(h, [0, 0], b);
    SumShort(h, n);
    assert Sum(h, [0, 0]) == 0;
    assert Put(s, off, InMemory(h, n)) == a + (InMemory(h, n) + b);
    assert Put(s, off, [0, 0]) == a + ([0, 0] + b);
    Shuffle(Sum(h, a), n, Sum(h, b));
  }

  lemma Shuffle(a: Short, n: Short, b: Short)
    ensures Plus(a, Plus(n, b)) == Plus(Plus(a, Plus(0, b)), n)
  {
  }

  // ---------------------------------------------------------------------------
  // The header

  const TOTAL_LEN := 2
  const CHECKSUM := 10

  function NetShort(s: seq<Byte>, off: nat): (r: Short)
    requires off + 2 <= |s|
  {
    var high: int := s[off];
    256 * high + s[off + 1]
  }

  /** The template that a route keeps: total length zero, and in the checksum field the sum of the rest. */
  predicate Template(h: Host, t: seq<Byte>) {
    && |t| == HEADER && t[0] % 16 == 5 && NetShort(t, TOTAL_LEN) == 0
    && t[6] / MORE_FRAGMENTS % 2 == 0 && NetShort(t, 6) % 0x2000 == 0 && t[9] == h.protocol
    && Native(h, t[CHECKSUM], t[CHECKSUM + 1]) == Sum(h, Put(t, CHECKSUM, [0, 0]))
  }

  function Total(lengths: seq<nat>): (r: nat) { if lengths == [] then 0 else lengths[0] + Total(lengths[1..]) }

  /** The fold of a sum in an unsigned int, cut to 16 bits by the assignment. */
  function Fold(sum: Word): (r: Short) { (sum + sum / SHORTS) % SHORTS }

  /** One fold is enough for two shorts; of a longer length the high half is added once more. */
  lemma FoldIsPlus(a: Short, n: Word)
    ensures Fold((a + n) % WORDS) == (Plus(a, n % SHORTS) + n / SHORTS) % SHORTS
  {
    var high, low := n / SHORTS, n % SHORTS;
    var carry := if a + low > ONES then 1 else 0;
    FoldHalves(high + carry, a + low - carry * SHORTS);
  }

  lemma FoldHalves(high: nat, low: Short)
    requires high <= SHORTS
    ensures Fold((high * SHORTS + low) % WORDS) == (low + high) % SHORTS
  {
    var sum := (high * SHORTS + low) % WORDS;
    assert sum / SHORTS == (if high == SHORTS then 0 else high) && sum % SHORTS == low;
    assert sum == sum / SHORTS * SHORTS + low;
  }

  /** The length that Net_Output has in an unsigned int, in the order of the network. */
  function Length(h: Host, payload: nat): (r: Word) { HostToNet(h, (HEADER + payload) % WORDS) }

  /** The header that Net_Output makes for a packet with `payload` bytes behind it. */
  function Finish(h: Host, t: seq<Byte>, payload: nat): (r: seq<Byte>)
    requires |t| == HEADER
    ensures |r| == HEADER
  {
    var length := Length(h, payload);
    var sum := (Native(h, t[CHECKSUM], t[CHECKSUM + 1]) + length) % WORDS;
    Put(Put(t, TOTAL_LEN, InMemory(h, length % SHORTS)), CHECKSUM, InMemory(h, ONES - Fold(sum)))
  }

  lemma {:induction false} Swapped(s: seq<Byte>, i: nat, x: seq<Byte>, j: nat, y: seq<Byte>)
    requires i + |x| <= j && j + |y| <= |s|
    ensures Put(Put(s, i, x), j, y) == Put(Put(s, j, y), i, x)
  {
  }

  /** The sum of a header with `x` in its checksum field, in terms of the sum of the rest and its length. */
  lemma {:induction false} CompletedSum(h: Host, t: seq<Byte>, length: Short, c: Short, x: Short)
    requires |t| == HEADER && NetShort(t, TOTAL_LEN) == 0 && c == Sum(h, Put(t, CHECKSUM, [0, 0]))
    ensures Sum(h, Put(Put(t, TOTAL_LEN, InMemory(h, length)), CHECKSUM, InMemory(h, x))) == Plus(Plus(c, length), x)
  {
    var bytes := InMemory(h, length);
    var zeroed := Put(t, CHECKSUM, [0, 0]);
    SumPut(h, Put(t, TOTAL_LEN, bytes), CHECKSUM, x);
    Swapped(t, TOTAL_LEN, bytes, CHECKSUM, [0, 0]);
    SumPut(h, zeroed, TOTAL_LEN, length);
    assert Put(zeroed, TOTAL_LEN, [0, 0]) == zeroed;
  }

  /** The high half of the length is lost on the way to the checksum, or there is none, or adding it once makes no
      difference. */
  predicate HighHarmless(h: Host, t: seq<Byte>, payload: nat)
    requires |t| == HEADER
  {
    var length := (HEADER + payload) % WORDS;
    h.little || length <= MAX_TOTAL
    || (length / SHORTS == 1 && Plus(Native(h, t[CHECKSUM], t[CHECKSUM + 1]), length % SHORTS) == ONES)
  }

  /** The finished header sums to all ones on a little-endian machine, and on another exactly if its length has no high
      half that makes a difference. */
  lemma {:induction false} FinishedSum(h: Host, t: seq<Byte>, payload: nat)
    requires Template(h, t)
    ensures Sum(h, Finish(h, t, payload)) == ONES <==> HighHarmless(h, t, payload)
    ensures Checksum(h, Finish(h, t, payload)) == 0 <==> HighHarmless(h, t, payload)
  {
    var length := Length(h, payload);
    var c := Native(h, t[CHECKSUM], t[CHECKSUM + 1]);
    ChecksumTells(c, length);
    CompletedSum(h, t, length % SHORTS, c, ONES - Fold((c + length) % WORDS));
    assert h.little ==> length / SHORTS == 0;
  }

  /** When the complement of the fold completes the sum. */
  lemma ChecksumTells(c: Short, n: Word)
    ensures var low := Plus(c, n % SHORTS);
            Plus(low, ONES - Fold((c + n) % WORDS)) == ONES <==> n <= MAX_TOTAL || (n / SHORTS == 1 && low == ONES)
  {
    FoldIsPlus(c, n);
    Complement(Plus(c, n % SHORTS), n / SHORTS);
  }

  lemma Complement(low: Short, high: Short)
    ensures Plus(low, ONES - (low + high) % SHORTS) == ONES <==> high == 0 || (high == 1 && low == ONES)
  {
  }

  /** A template for version 4 and protocol 0x7F, with addresses of zeros. */
  function Blank(): (t: seq<Byte>)
    ensures |t| == HEADER && t[..CHECKSUM] == [0x45, 0, 0, 0, 0, 0, 0x40, 0, 0x40, 0x7F]
    ensures t[CHECKSUM..CHECKSUM + 2] == [0xC5, 0x7F] && t[CHECKSUM + 2..] == [0, 0, 0, 0, 0, 0, 0, 0]
  {
    [0x45, 0, 0, 0, 0, 0, 0x40, 0, 0x40, 0x7F, 0xC5, 0x7F, 0, 0, 0, 0, 0, 0, 0, 0]
  }

  lemma {:induction false} SumFour(h: Host, a: Byte, b: Byte, c: Byte, d: Byte)
    ensures Sum(h, [a, b, c, d]) == Plus(Native(h, a, b), Native(h, c, d))
  {
    assert [a, b, c, d] == [a, b] + [c, d];
    SumConcat(h, [a, b], [c, d]);
    assert Sum(h, [a, b]) == Native(h, a, b) && Sum(h, [c, d]) == Native(h, c, d);
  }

  lemma {:induction false} FrontSum()
    ensures Sum(Host(false, 0x7F), [0x45, 0, 0, 0, 0, 0, 0x40, 0, 0x40, 0x7F]) == 0xC57F
  {
    var h := Host(false, 0x7F);
    SumFour(h, 0x45, 0, 0, 0);
    SumFour(h, 0, 0, 0x40, 0);
    assert Sum(h, [0x40, 0x7F]) == 0x407F;
    SumConcat(h, [0, 0, 0x40, 0], [0x40, 0x7F]);
    SumConcat(h, [0x45, 0, 0, 0], [0, 0, 0x40, 0] + [0x40, 0x7F]);
    assert [0x45, 0, 0, 0] + ([0, 0, 0x40, 0] + [0x40, 0x7F]) == [0x45, 0, 0, 0, 0, 0, 0x40, 0, 0x40, 0x7F];
  }

  lemma {:induction false} BackSum(h: Host)
    ensures Sum(h, [0, 0] + [0, 0, 0, 0, 0, 0, 0, 0]) == 0
  {
    SumFour(h, 0, 0, 0, 0);
    SumConcat(h, [0, 0, 0, 0], [0, 0, 0, 0]);
    assert [0, 0, 0, 0] + [0, 0, 0, 0] == [0, 0, 0, 0, 0, 0, 0, 0];
    SumConcat(h, [0, 0], [0, 0, 0, 0, 0, 0, 0, 0]);
  }

  lemma {:induction false} BlankTemplate()
    ensures Template(Host(false, 0x7F), Blank())
  {
    var h, t := Host(false, 0x7F), Blank();
    FrontSum();
    BackSum(h);
    SumConcat(h, t[..CHECKSUM], [0, 0] + t[CHECKSUM + 2..]);
    assert Put(t, CHECKSUM, [0, 0]) == t[..CHECKSUM] + ([0, 0] + t[CHECKSUM + 2..]);
    assert t[CHECKSUM] == t[CHECKSUM..CHECKSUM + 2][0] && t[CHECKSUM + 1] == t[CHECKSUM..CHECKSUM + 2][1];
  }

  /** A packet with 65516 bytes behind its header, on a big-endian machine: the header does not sum to all ones. */
  lemma {:induction false} LongHeader()
    ensures var h := Host(false, 0x7F); Template(h, Blank()) && Sum(h, Finish(h, Blank(), 65516)) != ONES
  {
    BlankTemplate();
    FinishedSum(Host(false, 0x7F), Blank(), 65516);
  }

  /** Net_Input for an IP packet: the payload length it dispatches, if it accepts the packet. */
  function Accept(h: Host, ip: seq<Byte>): (r: Option<nat>) {
    if |ip| > HEADER && ip[9] == h.protocol then
      var headerLen := ip[0] % 16 * 4;
      var totalLen := NetShort(ip, TOTAL_LEN);
      if headerLen >= HEADER && totalLen > headerLen && totalLen <= |ip| && Checksum(h, ip[..headerLen]) == 0
         && ip[6] / MORE_FRAGMENTS % 2 == 0 && NetShort(ip, 6) % 0x2000 == 0
      then Some(totalLen - headerLen) else None
    else None
  }

  lemma CutTwice(n: nat)
    ensures n % WORDS % SHORTS == n % SHORTS
  {
    var q, x := n / WORDS * SHORTS, n % WORDS;
    assert n == q * SHORTS + x;
    assert n == (q + x / SHORTS) * SHORTS + x % SHORTS;
  }

  lemma AddCut(x: nat, y: nat)
    ensures (x % WORDS + y) % WORDS == (x + y) % WORDS
  {
    var z := x % WORDS + y;
    assert x + y == (x / WORDS + z / WORDS) * WORDS + z % WORDS;
  }

  lemma TwoBytes(n: nat)
    ensures 256 * (n % SHORTS / 256) + n % 256 == n % SHORTS
  {
  }

  /** The fields of the finished header that Net_Input looks at. */
  lemma {:induction false} FinishedFields(h: Host, t: seq<Byte>, payload: nat)
    requires Template(h, t)
    ensures var r := Finish(h, t, payload);
            r[0] % 16 == 5 && r[6] / MORE_FRAGMENTS % 2 == 0 && NetShort(r, 6) % 0x2000 == 0 && r[9] == h.protocol
            && NetShort(r, TOTAL_LEN) == (HEADER + payload) % SHORTS
  {
    var total := (HEADER + payload) % WORDS;
    var r := Finish(h, t, payload);
    var bytes := InMemory(h, HostToNet(h, total) % SHORTS);
    assert r[TOTAL_LEN..TOTAL_LEN + 2] == bytes;
    assert r[0] == t[0] && r[6] == t[6] && r[7] == t[7] && r[9] == t[9];
    assert r[TOTAL_LEN] == bytes[0] && r[TOTAL_LEN + 1] == bytes[1];
    NetOrder(h, total);
    TwoBytes(total);
    CutTwice(HEADER + payload);
  }

  /** What Net_Input makes of a header in order with `rest` behind it. */
  lemma {:induction false} AcceptHeader(h: Host, header: seq<Byte>, rest: seq<Byte>)
    requires |header| == HEADER && header[0] % 16 == 5
    requires header[6] / MORE_FRAGMENTS % 2 == 0 && NetShort(header, 6) % 0x2000 == 0 && header[9] == h.protocol
    ensures var total := NetShort(header, TOTAL_LEN);
            Accept(h, header + rest)
            == if HEADER < total <= HEADER + |rest| && Checksum(h, header) == 0 then Some(total - HEADER) else None
  {
    var ip := header + rest;
    assert ip[..HEADER] == header;
    assert ip[0] == header[0] && ip[6] == header[6] && ip[7] == header[7] && ip[9] == header[9];
    assert ip[TOTAL_LEN] == header[TOTAL_LEN] && ip[TOTAL_LEN + 1] == header[TOTAL_LEN + 1];
  }

  /** The same for a packet of `data` and padding, whose length field is that of the packet cut to 16 bits. */
  lemma {:induction false} AcceptPacket(h: Host, header: seq<Byte>, data: seq<Byte>, padding: seq<Byte>)
    requires |header| == HEADER && header[0] % 16 == 5 && (HEADER + |data| <= MAX_TOTAL ==> Checksum(h, header) == 0)
    requires header[6] / MORE_FRAGMENTS % 2 == 0 && NetShort(header, 6) % 0x2000 == 0 && header[9] == h.protocol
    requires NetShort(header, TOTAL_LEN) == (HEADER + |data|) % SHORTS
    ensures Accept(h, header + data + padding) == Some(|data|) <==> 0 < |data| && HEADER + |data| <= MAX_TOTAL
  {
    AcceptHeader(h, header, data + padding);
    assert header + data + padding == header + (data + padding);
  }

  /** A packet made by Net_Output passes the checks of Net_Input with its own payload length, whatever padding follows
      it, exactly if it is not empty and its length fits in the header. */
  lemma {:induction false} OutputAccepted(h: Host, t: seq<Byte>, data: seq<Byte>, padding: seq<Byte>)
    requires Template(h, t)
    ensures Accept(h, Finish(h, t, |data|) + data + padding) == Some(|data|)
            <==> 0 < |data| && HEADER + |data| <= MAX_TOTAL
  {
    var header := Finish(h, t, |data|);
    FinishedSum(h, t, |data|);
    assert HEADER + |data| <= MAX_TOTAL ==> Checksum(h, header) == 0;
    FinishedFields(h, t, |data|);
    AcceptPacket(h, header, data, padding);
  }

  /** The INET branch of Net_Output: complete the header in place; `lengths` are those of the rest of the gather
      array. */
  method CompleteHeader(h: Host, t: seq<Byte>, lengths: seq<nat>, header: array<Byte>)
    requires |t| == HEADER && header.Length == HEADER
    modifies header
    ensures header[..] == Finish(h, t, Total(lengths))
  {
    var length := GatherLength(lengths);
    for k := 0 to HEADER
      invariant header[..k] == t[..k]
    {
      header[k] := t[k];
    }
    assert header[..] == t;
    length := HostToNet(h, length);
    StoreShort(h, header, TOTAL_LEN, length % SHORTS);
    assert header[CHECKSUM] == t[CHECKSUM] && header[CHECKSUM + 1] == t[CHECKSUM + 1];
    length := (Native(h, header[CHECKSUM], header[CHECKSUM + 1]) + length) % WORDS;
    StoreShort(h, header, CHECKSUM, ONES - Fold(length));
  }

  /** The length of the gather vector, with the header in front. */
  method GatherLength(lengths: seq<nat>) returns (length: Word)
    ensures length == (HEADER + Total(lengths)) % WORDS
  {
    length := HEADER;
    assert lengths[0..] == lengths;
    for i := 0 to |lengths|
      invariant (length + Total(lengths[i..])) % WORDS == (HEADER + Total(lengths)) % WORDS
    {
      assert lengths[i..][1..] == lengths[i + 1..];
      AddCut(length + lengths[i], Total(lengths[i + 1..]));
      length := (length + lengths[i]) % WORDS;
    }
  }

  method StoreShort(h: Host, a: array<Byte>, off: nat, n: Short)
    requires off + 2 <= a.Length
    modifies a
    ensures a[..] == Put(old(a[..]), off, InMemory(h, n))
  {
    var bytes := InMemory(h, n);
    a[off], a[off + 1] := bytes[0], bytes[1];
  }
}
