/** Address ranges and the list of trusted proxies
    (backend/src/middleware/cloudflare.rs:76-174, section 3.1 of RFC 4632). */
module Cidr {
  import opened Text

  function Pow2(k: nat): (p: nat)
    ensures p > 0
  {
    if k == 0 then 1 else 2 * Pow2(k - 1)
  }

  /** Bitwise and. */
  function And(x: nat, y: nat): nat
    decreases x
  {
    if x == 0 then 0 else x % 2 * (y % 2) + 2 * And(x / 2, y / 2)
  }

  /** A shift to the left in `width` bits: what leaves the word is lost, and the
      amount is taken modulo the width. */
  function Shl(x: nat, k: nat, width: nat): nat
    requires width > 0
  {
    Modulo(x * Pow2(k % width), Pow2(width))
  }

  function Modulo(x: nat, d: nat): nat
    requires d > 0
  {
    x % d
  }

  function Max(width: nat): nat { Pow2(width) - 1 }

  datatype Ip = V4(bits: nat) | V6(bits: nat)

  function Width(ip: Ip): nat { if ip.V4? then 32 else 128 }

  predicate Valid(ip: Ip) { ip.bits < Pow2(Width(ip)) }

  datatype Range = Range(network: Ip, prefix: nat)

  /** `cidr_contains_v4`. */
  function ContainsV4(ip: nat, network: nat, prefix: nat): bool {
    if prefix == 0 then true
    else
      var mask := if prefix >= 32 then Max(32) else Shl(Max(32), 32 - prefix, 32);
      And(ip, mask) == And(network, mask)
  }

  /** `cidr_contains_v6`, which does not treat a prefix of 0 apart. */
  function ContainsV6(ip: nat, network: nat, prefix: nat): bool {
    var mask := if prefix >= 128 then Max(128) else Shl(Max(128), 128 - prefix, 128);
    And(ip, mask) == And(network, mask)
  }

  /** `ip_in_cidr`. */
  function Contains(r: Range, ip: Ip): bool {
    match (ip, r.network)
    case (V4(a), V4(n)) => ContainsV4(a, n, r.prefix)
    case (V6(a), V6(n)) => ContainsV6(a, n, r.prefix)
    case _ => false
  }

  // ---- masks are divisions ----------------------------------------------------------------

  lemma {:induction false} Pow2Add(a: nat, b: nat)
    ensures Pow2(a + b) == Pow2(a) * Pow2(b)
  {
    if a > 0 {
      Pow2Add(a - 1, b);
      Associate(2, Pow2(a - 1), Pow2(b));
    }
  }

  lemma Associate(a: nat, b: nat, c: nat)
    ensures a * b * c == a * (b * c)
  {
  }

  /** Shifting one bit at a time. */
  function Down(x: nat, k: nat): nat { if k == 0 then x else Down(x / 2, k - 1) }

  function Up(x: nat, k: nat): nat { if k == 0 then x else 2 * Up(x, k - 1) }

  lemma {:induction false} UpIsProduct(x: nat, k: nat)
    ensures Up(x, k) == x * Pow2(k)
  {
    if k > 0 {
      UpIsProduct(x, k - 1);
      Swap(x, Pow2(k - 1));
    }
  }

  lemma Swap(x: nat, p: nat)
    ensures 2 * (x * p) == x * (2 * p)
  {
  }

  lemma {:induction false} DownIsQuotient(x: nat, k: nat)
    ensures Down(x, k) == x / Pow2(k)
  {
    if k > 0 {
      DownIsQuotient(x / 2, k - 1);
      DivideTwice(x, 2, Pow2(k - 1));
    }
  }

  lemma DivideTwice(x: nat, a: nat, b: nat)
    requires a > 0 && b > 0 && a * b > 0
    ensures x / a / b == x / (a * b)
  {
    var q, r := x / a, x % a;
    var p, s := q / b, q % b;
    Distribute(a, b, p, s);
    Bounded(a, b, s, r);
    QuotientIs(x, a * b, p, a * s + r);
  }

  lemma Distribute(a: nat, b: nat, p: nat, s: nat)
    ensures a * (b * p + s) == a * b * p + a * s
  {
  }

  lemma Bounded(a: nat, b: nat, s: nat, r: nat)
    requires s < b && r < a
    ensures a * s + r < a * b
  {
    assert a * s <= a * (b - 1);
  }

  lemma QuotientIs(x: nat, d: nat, q: nat, r: nat)
    requires d > 0 && x == d * q + r && r < d
    ensures x / d == q && x % d == r
  {
    var e := x / d;
    if e < q {
      Multiples(d, e + 1, q);
    } else {
      Multiples(d, q, e);
      if e > q {
        Multiples(d, q + 1, e);
      }
    }
  }

  lemma Multiples(d: nat, a: nat, b: nat)
    requires a <= b
    ensures d * a <= d * b && d * (a + 1) == d * a + d
  {
  }

  lemma {:induction false} AndMax(x: nat, m: nat)
    requires x < Pow2(m)
    ensures And(x, Max(m)) == x
  {
    if x > 0 {
      assert m > 0;
      AndMax(x / 2, m - 1);
      AndOdd(x, Max(m - 1));
    }
  }

  lemma AndOdd(x: nat, y: nat)
    requires x > 0
    ensures And(x, 2 * y + 1) == x % 2 + 2 * And(x / 2, y)
  {
    assert (2 * y + 1) % 2 == 1 && (2 * y + 1) / 2 == y;
  }

  /** A mask of zeros below removes the low bits. */
  lemma {:induction false} AndUp(x: nat, y: nat, k: nat)
    ensures And(x, Up(y, k)) == Up(And(Down(x, k), y), k)
  {
    if k > 0 {
      AndUp(x / 2, y, k - 1);
      AndEven(x, Up(y, k - 1));
    }
  }

  lemma AndEven(x: nat, y: nat)
    ensures And(x, 2 * y) == 2 * And(x / 2, y)
  {
    assert 2 * y % 2 == 0 && 2 * y / 2 == y;
    if x == 0 {
      assert And(0, y) == 0;
    }
  }

  lemma {:induction false} DownFits(x: nat, k: nat, width: nat)
    requires k <= width && x < Pow2(width)
    ensures Down(x, k) < Pow2(width - k)
  {
    if k > 0 {
      DownFits(x / 2, k - 1, width - 1);
    }
  }

  /** The shifted mask keeps the network part in place. */
  lemma MaskIsUp(k: nat, width: nat)
    requires k < width
    ensures Shl(Max(width), k, width) == Up(Max(width - k), k)
  {
    Pow2Add(width - k, k);
    UpIsProduct(Max(width - k), k);
    QuotientIs(k, width, 0, k);
    MaskArithmetic(Pow2(width - k), Pow2(k), Pow2(width));
  }

  lemma MaskArithmetic(p: nat, q: nat, d: nat)
    requires p > 0 && q > 0 && d == p * q
    ensures d > 0 && Modulo((d - 1) * q, d) == (p - 1) * q
  {
    assert d > 0 && (p - 1) * q == d - q;
    MaskProduct(d, q);
    QuotientIs((d - 1) * q, d, q - 1, d - q);
  }

  lemma MaskProduct(d: nat, q: nat)
    requires d >= 1 && q >= 1
    ensures (d - 1) * q == d * (q - 1) + (d - q)
  {
  }

  lemma {:induction false} UpIsInjective(a: nat, b: nat, k: nat)
    ensures Up(a, k) == Up(b, k) <==> a == b
  {
    if k > 0 {
      UpIsInjective(a, b, k - 1);
    }
  }

  predicate SameNetwork(x: nat, y: nat, host: nat) { x / Pow2(host) == y / Pow2(host) }

  lemma MasksAgree(x: nat, y: nat, k: nat, width: nat)
    requires k < width && x < Pow2(width) && y < Pow2(width)
    ensures And(x, Shl(Max(width), k, width)) == And(y, Shl(Max(width), k, width)) <==> SameNetwork(x, y, k)
  {
    MaskIsUp(k, width);
    MaskedIsUp(x, k, width);
    MaskedIsUp(y, k, width);
    UpIsInjective(Down(x, k), Down(y, k), k);
    DownIsQuotient(x, k);
    DownIsQuotient(y, k);
  }

  lemma MaskedIsUp(x: nat, k: nat, width: nat)
    requires k < width && x < Pow2(width)
    ensures And(x, Up(Max(width - k), k)) == Up(Down(x, k), k)
  {
    AndUp(x, Max(width - k), k);
    DownFits(x, k, width);
    AndMax(Down(x, k), width - k);
  }

  lemma FullMasksAgree(x: nat, y: nat, width: nat)
    requires x < Pow2(width) && y < Pow2(width)
    ensures And(x, Max(width)) == And(y, Max(width)) <==> x == y
  {
    AndMax(x, width);
    AndMax(y, width);
  }

  /** An address is in a range exactly when it is of the range's family and both have
      the same quotient by two to the number of host bits; but an IPv6 range with a
      prefix of 0 holds its own network address only. */
  lemma ContainsIsSameNetwork(r: Range, ip: Ip)
    requires Valid(ip) && Valid(r.network) && r.prefix <= Width(r.network)
    ensures Contains(r, ip) <==>
              && ip.V4? == r.network.V4?
              && (if ip.V6? && r.prefix == 0 then ip.bits == r.network.bits
                  else SameNetwork(ip.bits, r.network.bits, Width(ip) - r.prefix))
  {
    match (ip, r.network)
    case (V4(a), V4(n)) => V4IsSameNetwork(a, n, r.prefix);
    case (V6(a), V6(n)) => V6IsSameNetwork(a, n, r.prefix);
    case _ =>
  }

  lemma V4IsSameNetwork(a: nat, n: nat, prefix: nat)
    requires a < Pow2(32) && n < Pow2(32) && prefix <= 32
    ensures ContainsV4(a, n, prefix) <==> SameNetwork(a, n, 32 - prefix)
  {
    if prefix == 0 {
      Small(a, Pow2(32));
      Small(n, Pow2(32));
    } else if prefix == 32 {
      assert Pow2(0) == 1;
      FullMasksAgree(a, n, 32);
    } else {
      MasksAgree(a, n, 32 - prefix, 32);
    }
  }

  lemma Small(x: nat, p: nat)
    requires x < p
    ensures x / p == 0
  {
  }

  lemma V6IsSameNetwork(a: nat, n: nat, prefix: nat)
    requires a < Pow2(128) && n < Pow2(128) && prefix <= 128
    ensures ContainsV6(a, n, prefix) <==> if prefix == 0 then a == n else SameNetwork(a, n, 128 - prefix)
  {
    if prefix == 0 {
      WholeMask(128);
      FullMasksAgree(a, n, 128);
    } else if prefix == 128 {
      assert Pow2(0) == 1;
      FullMasksAgree(a, n, 128);
    } else {
      MasksAgree(a, n, 128 - prefix, 128);
    }
  }

  /** A shift by the whole width shifts by nothing. */
  lemma WholeMask(width: nat)
    requires width > 0
    ensures Shl(Max(width), width, width) == Max(width)
  {
    assert width % width == 0 && Pow2(0) == 1;
    assert Max(width) * 1 == Max(width);
    QuotientIs(Max(width), Pow2(width), 0, Max(width));
  }

  /** A longer prefix of the same network holds fewer addresses. */
  lemma LongerPrefixIsNarrower(network: Ip, short: nat, long: nat, ip: Ip)
    requires Valid(ip) && Valid(network) && short <= long <= Width(network)
    requires network.V4? || short > 0
    ensures Contains(Range(network, long), ip) ==> Contains(Range(network, short), ip)
  {
    ContainsIsSameNetwork(Range(network, long), ip);
    ContainsIsSameNetwork(Range(network, short), ip);
    if ip.V4? == network.V4? {
      var host, more: nat := Width(ip) - long, long - short;
      Pow2Add(host, more);
      DivideTwice(ip.bits, Pow2(host), Pow2(more));
      DivideTwice(network.bits, Pow2(host), Pow2(more));
      assert Width(ip) - short == host + more;
    }
  }
}
