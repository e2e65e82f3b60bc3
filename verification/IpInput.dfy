/** Which IP packets Net_Input takes for the kernel, in terms of their bytes. */
module IpInput {
  import opened Common
  import opened IpChecksum

  // ---------------------------------------------------------------------------
  // The sum, in either byte order

  /** The shorts of the network, added up without any carry. */
  function WordSum(s: seq<Byte>): (r: nat) { if |s| < 2 then 0 else 256 * s[0] + s[1] + WordSum(s[2..]) }

  /** The bytes with an even offset, added up. */
  function Firsts(s: seq<Byte>): (r: nat) { if |s| < 2 then 0 else s[0] + Firsts(s[2..]) }

  /** The shorts that the machine sees, added up without any carry. */
  function NativeSum(h: Host, s: seq<Byte>): (r: nat) {
    if |s| < 2 then 0 else Native(h, s[0], s[1]) + NativeSum(h, s[2..])
  }

  /** How often the one's complement sum carries around. */
  function Carries(h: Host, s: seq<Byte>): (r: nat) {
    if |s| < 2 then 0 else (if Native(h, s[0], s[1]) + Sum(h, s[2..]) > ONES then 1 else 0) + Carries(h, s[2..])
  }

  lemma {:induction false} SumCarries(h: Host, s: seq<Byte>)
    ensures NativeSum(h, s) == Sum(h, s) + ONES * Carries(h, s)
    ensures Sum(h, s) == 0 <==> NativeSum(h, s) == 0
    ensures NativeSum(h, s) == 0 <==> WordSum(s) == 0
  {
    if |s| >= 2 { SumCarries(h, s[2..]); }
  }

  /** In the other byte order every short is the 256-fold, but for a multiple of ONES. */
  lemma {:induction false} LittleSum(h: Host, s: seq<Byte>)
    ensures NativeSum(h, s) == if h.little then 256 * WordSum(s) - ONES * Firsts(s) else WordSum(s)
  {
    if |s| >= 2 { LittleSum(h, s[2..]); }
  }

  predicate Divides(d: nat, n: int)
    requires d > 0
  {
    n % d == 0
  }

  lemma Multiple(d: nat, k: int)
    requires d > 0
    ensures Divides(d, d * k)
  {
    var q := d * k / d;
    assert d * k == d * q + (d * k) % d;
    if q != k { NotBetween(d, k - q, (d * k) % d); }
  }

  lemma NotBetween(d: nat, m: int, r: nat)
    requires d > 0 && r < d && d * m == r
    ensures m == 0
  {
    assert m > 0 ==> d * m >= d;
    assert m < 0 ==> d * m < 0;
  }

  /** The sum is all ones exactly if the shorts of the network add up to a multiple of ONES, and not to nothing. */
  lemma {:induction false} SumOnes(h: Host, s: seq<Byte>)
    ensures Sum(h, s) == ONES <==> Divides(ONES, WordSum(s)) && WordSum(s) > 0
  {
    SumCarries(h, s);
    LittleSum(h, s);
    var n, w, k := NativeSum(h, s), WordSum(s), Carries(h, s);
    if Sum(h, s) == ONES {
      Multiple(ONES, if h.little then 256 * (k + 1 + Firsts(s)) - w else k + 1);
      assert h.little ==> w == ONES * (256 * (k + 1 + Firsts(s)) - w);
      assert !h.little ==> w == ONES * (k + 1);
    } else if Divides(ONES, w) && w > 0 {
      var m := w / ONES;
      assert w == ONES * m;
      NotBetween(ONES, (if h.little then 256 * m - Firsts(s) else m) - k, Sum(h, s));
      assert false;
    }
  }

  // ---------------------------------------------------------------------------
  // What is accepted

  /** The total length of a packet: the two bytes after the first two. */
  function TotalLength(ip: seq<Byte>): (r: nat)
    requires |ip| >= 4
  {
    var high: nat, low: nat := ip[2], ip[3];
    256 * high + low
  }

  /** The header is one that RFC 791 describes, with a good checksum, of a whole packet of the host's protocol that fits
      into `ip`: not a part of a larger one, neither the first nor a later one. Whether it may be cut into parts does
      not matter. */
  predicate WholePacket(h: Host, ip: seq<Byte>) {
    && |ip| > 20 && ip[9] == h.protocol
    && var len, total := 4 * (ip[0] % 0x10), TotalLength(ip);
       && 20 <= len < total <= |ip|
       && Divides(0xFFFF, WordSum(ip[..len]))
       && ip[6] % 0x40 == 0 && ip[7] == 0
  }

  /** What is accepted does not depend on the byte order of the machine: it is exactly the whole packets, with the bytes
      between the end of the header, options included, and the total length. */
  lemma {:induction false} AcceptExact(h: Host, ip: seq<Byte>)
    ensures Accept(h, ip)
            == if WholePacket(h, ip) then Some(TotalLength(ip) - 4 * (ip[0] % 0x10)) else None
  {
    if |ip| > 20 {
      var len := 4 * (ip[0] % 0x10);
      if 20 <= len <= |ip| {
        SumOnes(h, ip[..len]);
        FirstCounts(ip[..len]);
      }
      FragmentBits(ip[6], ip[7]);
    }
  }

  /** A header of at least 20 bytes has a length, so that it is not all zeros. */
  lemma {:induction false} FirstCounts(s: seq<Byte>)
    requires |s| >= 2 && s[0] > 0
    ensures WordSum(s) > 0
  {
  }

  lemma FragmentBits(b6: Byte, b7: Byte)
    ensures b6 / MORE_FRAGMENTS % 2 == 0 && (256 * b6 + b7) % 0x2000 == 0 <==> b6 % 0x40 == 0 && b7 == 0
  {
  }

  // ---------------------------------------------------------------------------
  // What is refused

  /** The weight of a byte in the sum. */
  function Weight(i: nat): (r: nat) { if i % 2 == 0 then 256 else 1 }

  lemma {:induction false} WordSumChanged(s: seq<Byte>, i: nat, b: Byte)
    requires i < |s| && |s| % 2 == 0
    ensures WordSum(s[i := b]) == WordSum(s) + (b - s[i]) * Weight(i)
  {
    if i < 2 {
      assert s[i := b][2..] == s[2..];
    } else {
      assert s[i := b][2..] == s[2..][i - 2 := b];
      WordSumChanged(s[2..], i - 2, b);
    }
  }

  /** A change of a single byte of the header of a packet that is accepted, but for the one with its length, is
      noticed. */
  lemma {:induction false} ChangeNoticed(h: Host, ip: seq<Byte>, i: nat, b: Byte)
    requires Accept(h, ip).Some? && 1 <= i < 4 * (ip[0] % 0x10) && b != ip[i]
    ensures Accept(h, ip[i := b]) == None
  {
    AcceptExact(h, ip);
    AcceptExact(h, ip[i := b]);
    var len := 4 * (ip[0] % 0x10);
    assert ip[i := b][..len] == ip[..len][i := b];
    WordSumChanged(ip[..len], i, b);
    var w, v := WordSum(ip[..len]), WordSum(ip[..len][i := b]);
    if Divides(ONES, v) {
      assert v - w == ONES * (v / ONES - w / ONES);
      SmallMultiple(v - w, v / ONES - w / ONES);
      assert false;
    }
  }

  lemma SmallMultiple(n: int, k: int)
    requires n == ONES * k && n < ONES && n + ONES > 0
    ensures n == 0
  {
    assert k >= 1 ==> n >= ONES;
    assert k <= -1 ==> n + ONES <= 0;
  }
}
