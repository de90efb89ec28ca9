/**
 What prefixes and identities mean, in terms of the addresses they cover: a canonical prefix is the one key of
 its range, a host prefix covers one address, and a valid park leads nowhere but to this host.
 */
module Addressing {
  import opened Identity

  predicate WellSized(p: Prefix) {
    0 <= p.bits <= p.addr.Width()
  }

  /** The number of addresses that a prefix covers. */
  function Size(p: Prefix): (r: nat)
    requires WellSized(p)
    ensures r > 0
  {
    Pow2(p.addr.Width() - p.bits)
  }

  /** The address belongs to the range of the prefix. */
  predicate Contains(p: Prefix, a: Addr)
    requires WellSized(p)
  {
    && a.V4? == p.addr.V4? && a.value < Pow2(a.Width())
    && a.value / Size(p) == p.addr.value / Size(p)
  }

  function AddrLike(p: Prefix, value: nat): Addr {
    if p.addr.V4? then V4(value) else V6(value)
  }

  // ----- arithmetic -----

  lemma {:induction false} Pow2Sum(m: nat, n: nat)
    ensures Pow2(m + n) == Pow2(m) * Pow2(n)
  {
    if m > 0 {
      Pow2Sum(m - 1, n);
    }
  }

  /** x is the d-th number of the k-th block of size m. */
  predicate InBlock(x: nat, m: nat, k: nat, d: nat) {
    x == m * k + d && d < m
  }

  lemma DivMod(x: nat, m: nat)
    requires m > 0
    ensures InBlock(x, m, x / m, x % m)
  {
  }

  lemma Monotone(m: nat, k: nat, n: nat)
    requires k <= n
    ensures m * k <= m * n
  {
  }

  lemma Distribute(m: nat, k: nat)
    ensures m * (k + 1) == m * k + m
  {
  }

  /** The block of a number is unique. */
  lemma OneBlock(x: nat, m: nat, k: nat, d: nat, k': nat, d': nat)
    requires InBlock(x, m, k, d) && InBlock(x, m, k', d')
    ensures k == k' && d == d'
  {
    if k < k' {
      Distribute(m, k);
      Monotone(m, k + 1, k');
    } else if k' < k {
      Distribute(m, k');
      Monotone(m, k' + 1, k);
    }
  }

  lemma Quotient(x: nat, m: nat, k: nat, d: nat)
    requires InBlock(x, m, k, d)
    ensures x / m == k && x % m == d
  {
    DivMod(x, m);
    OneBlock(x, m, k, d, x / m, x % m);
  }

  /** A block that begins below a multiple of its size ends below it. */
  lemma BlockEnds(x: nat, m: nat, k: nat, d: nat, n: nat)
    requires InBlock(x, m, k, d) && x < m * n
    ensures m * k + m <= m * n
  {
    if n <= k {
      Monotone(m, n, k);
    } else {
      Distribute(m, k);
      Monotone(m, k + 1, n);
    }
  }

  // ----- prefixes -----

  /** The block of addresses of a prefix lies within the address space. */
  lemma Block(p: Prefix) returns (k: nat, d: nat)
    requires p.IsValid()
    ensures InBlock(p.addr.value, Size(p), k, d) && k == p.addr.value / Size(p) && d == p.addr.value % Size(p)
    ensures Size(p) * k + Size(p) <= Pow2(p.addr.Width())
  {
    DivMod(p.addr.value, Size(p));
    k, d := p.addr.value / Size(p), p.addr.value % Size(p);
    SpaceIsBlocks(p);
    BlockEnds(p.addr.value, Size(p), k, d, Pow2(p.bits));
  }

  lemma SpaceIsBlocks(p: Prefix)
    requires WellSized(p)
    ensures Pow2(p.addr.Width()) == Size(p) * Pow2(p.bits)
  {
    Pow2Sum(p.addr.Width() - p.bits, p.bits);
    assert p.addr.Width() - p.bits + p.bits == p.addr.Width();
  }

  /** Membership in terms of the block. */
  lemma Member(p: Prefix, k: nat, d: nat)
    requires p.IsValid() && k == p.addr.value / Size(p) && d < Size(p)
    requires Size(p) * k + Size(p) <= Pow2(p.addr.Width())
    ensures Contains(p, AddrLike(p, Size(p) * k + d))
  {
    Quotient(Size(p) * k + d, Size(p), k, d);
  }

  /** A valid prefix covers its own address. */
  lemma ContainsItself(p: Prefix)
    requires p.IsValid()
    ensures WellSized(p) && Contains(p, p.addr)
  {
  }

  lemma LowestOfBlock(p: Prefix, a: Addr)
    requires p.IsCanonical() && Contains(p, a)
    ensures p.addr.value <= a.value
  {
    DivMod(p.addr.value, Size(p));
    DivMod(a.value, Size(p));
  }

  /** A prefix is canonical exactly when its address is the lowest of its range. */
  lemma CanonicalIsLowest(p: Prefix)
    requires p.IsValid()
    ensures p.IsCanonical() <==> forall a :: Contains(p, a) ==> p.addr.value <= a.value
  {
    if p.IsCanonical() {
      forall a | Contains(p, a)
        ensures p.addr.value <= a.value
      {
        LowestOfBlock(p, a);
      }
    } else {
      var k, d := Block(p);
      Member(p, k, 0);
      assert AddrLike(p, Size(p) * k + 0).value < p.addr.value;
    }
  }

  /** A prefix is a host prefix exactly when it covers no other address. */
  lemma HostIsOneAddress(p: Prefix)
    ensures p.IsHost() <==> p.IsValid() && forall a :: Contains(p, a) ==> a == p.addr
  {
    if p.IsHost() {
      assert Size(p) == 1;
    } else if p.IsValid() {
      var other := Neighbour(p);
    }
  }

  lemma Neighbour(p: Prefix) returns (other: Addr)
    requires p.IsValid() && p.bits < p.addr.Width()
    ensures Contains(p, other) && other != p.addr
  {
    assert Size(p) == 2 * Pow2(p.addr.Width() - p.bits - 1);
    var k, d := Block(p);
    var d' := if d == 0 then 1 else 0;
    other := AddrLike(p, Size(p) * k + d');
    Member(p, k, d');
  }

  /** Canonical prefixes are keys: two that cover the same addresses are the same prefix. */
  lemma SameRangeSamePrefix(p: Prefix, q: Prefix)
    requires p.IsCanonical() && q.IsCanonical() && p.addr.V4? == q.addr.V4?
    requires forall a :: Contains(p, a) <==> Contains(q, a)
    ensures p == q
  {
    ContainsItself(p);
    ContainsItself(q);
    LowestOfBlock(p, q.addr);
    LowestOfBlock(q, p.addr);
    if p.bits < q.bits {
      Beyond(p, q);
    } else if q.bits < p.bits {
      Beyond(q, p);
    }
  }

  lemma LongerIsSmaller(p: Prefix, q: Prefix)
    requires WellSized(p) && WellSized(q) && p.addr == q.addr && p.bits < q.bits
    ensures Size(q) < Size(p)
  {
    Pow2Sum(q.bits - p.bits, p.addr.Width() - q.bits);
    assert Pow2(q.bits - p.bits) == 2 * Pow2(q.bits - p.bits - 1);
    Monotone(Size(q), 2, Pow2(q.bits - p.bits));
  }

  /** Of two canonical prefixes with the same address, the shorter one covers more. */
  lemma Beyond(p: Prefix, q: Prefix)
    requires p.IsCanonical() && q.IsCanonical() && p.addr == q.addr && p.bits < q.bits
    ensures exists a :: Contains(p, a) && !Contains(q, a)
  {
    LongerIsSmaller(p, q);
    var k, d := Block(p);
    var k', d' := Block(q);
    var a := AddrLike(p, Size(p) * k + Size(q));
    Member(p, k, Size(q));
    Distribute(Size(q), k');
    Quotient(a.value, Size(q), k' + 1, 0);
    assert Contains(p, a) && !Contains(q, a);
  }

  // ----- special ranges -----

  const LOOPBACK_V4 := Prefix(V4(0x7f00_0000), 8)
  const LOOPBACK_V6 := Prefix(V6(1), 128)
  const MAPPED := Prefix(V6(0xffff_0000_0000), 96)

  lemma Powers()
    ensures Pow2(24) == 0x100_0000 && Pow2(32) == 0x1_0000_0000 && Pow2(0) == 1
    ensures Pow2(128) >= 0x1_0000_0000_0000
  {
    assert Pow2(8) == 256;
    Pow2Sum(8, 8);
    Pow2Sum(16, 8);
    Pow2Sum(16, 16);
    Pow2Sum(32, 16);
    Pow2Sum(48, 80);
    Monotone(Pow2(48), 1, Pow2(80));
  }

  /** An address is a loopback address exactly if it lies in 127.0.0.0/8 or is ::1. */
  lemma LoopbackIsRange(a: Addr)
    ensures a.IsLoopback() <==> Contains(LOOPBACK_V4, a) || Contains(LOOPBACK_V6, a)
  {
    Powers();
  }

  /** An IPv4-mapped address lies in ::ffff:0:0/96. */
  lemma MappedIsRange(a: Addr)
    ensures a.IsMapped() <==> Contains(MAPPED, a)
  {
    Powers();
  }

  // ----- identities -----

  ghost predicate CommonFields(prefix: Prefix, table: int, protocol: int, scope: int) {
    && prefix.IsValid() && (forall a :: Contains(prefix, a) ==> prefix.addr.value <= a.value)
    && table == 254 && protocol > 0 && (scope == 0 || scope == 253)
  }

  /** A valid selected identity is a row of the main table on a real interface, on link or by way of the same family. */
  lemma RouteValidity(id: RouteId, prefix: Prefix)
    ensures id.Valid(prefix) <==>
            && CommonFields(prefix, id.table, id.protocol, id.scope) && id.ifIndex > 0
            && (id.nextHop == NoHop || (&& id.nextHop.Hop? && id.nextHop.addr.V4? == prefix.addr.V4?
                                        && !Contains(MAPPED, id.nextHop.addr)))
  {
    if prefix.IsValid() {
      CanonicalIsLowest(prefix);
    }
    if id.nextHop.Hop? {
      MappedIsRange(id.nextHop.addr);
    }
  }

  /** A valid park leads nowhere: it has no way out at all, or one to a loopback address of its own family. */
  lemma ParkValidity(id: ParkId, prefix: Prefix)
    ensures id.Valid(prefix) <==>
            && CommonFields(prefix, id.table, id.protocol, id.scope) && id.metric == 42760
            && if id.kind == Unreachable then id.ifIndex == 0 && id.nextHop == NoHop && id.luid == 0
               else && id.ifIndex > 0 && id.nextHop.Hop?
                    && Contains(if prefix.addr.V4? then LOOPBACK_V4 else LOOPBACK_V6, id.nextHop.addr)
  {
    if prefix.IsValid() {
      CanonicalIsLowest(prefix);
    }
    if id.nextHop.Hop? {
      LoopbackIsRange(id.nextHop.addr);
      MappedIsRange(id.nextHop.addr);
      Powers();
    }
  }
}
