/** The range of addresses that Peiros gives out, and the bitmap of those in use. Addresses are in host order. */
module PeirosNet {
  import opened Chars
  import opened Options

  type Word = x: int | 0 <= x < 0x1_0000_0000

  // ---------------------------------------------------------------- bits of words

  function Pow2(n: nat): (r: nat)
    ensures r > 0
  {
    if n == 0 then 1 else 2 * Pow2(n - 1)
  }

  lemma {:induction false} Pow2Add(m: nat, n: nat)
    ensures Pow2(m + n) == Pow2(m) * Pow2(n)
  {
    if m > 0 {
      Pow2Add(m - 1, n);
      assert Pow2(m + n) == 2 * (Pow2(m - 1) * Pow2(n)) == (2 * Pow2(m - 1)) * Pow2(n);
    }
  }

  lemma Pow2Values()
    ensures Pow2(4) == 16 && Pow2(16) == 0x1_0000 && Pow2(32) == 0x1_0000_0000
  {
    assert Pow2(8) == 256;
    Pow2Add(8, 8);
    Pow2Add(16, 16);
  }

  lemma MulMono(a: nat, b: nat, m: nat)
    requires a <= b
    ensures 0 <= a * m <= b * m
  {
  }

  lemma Distribute(a: int, b: int, m: int)
    ensures (a + b) * m == a * m + b * m && (a - b) * m == a * m - b * m
  {
  }

  /** Quotient and remainder are unique. */
  lemma DivMod(n: nat, q: nat, m: nat, r: nat)
    requires n == q * m + r && r < m
    ensures n / m == q && n % m == r
  {
    var q', r' := n / m, n % m;
    assert n == q' * m + r';
    Distribute(q, q', m);
    Distribute(q', q, m);
    if q' < q {
      MulMono(1, q - q', m);
    } else if q' > q {
      MulMono(1, q' - q, m);
    }
  }

  /** n without the bits below those of m. */
  function RoundDown(n: nat, m: nat): (r: nat)
    requires m > 0
    ensures r <= n < r + m && r % m == 0 && r / m == n / m
  {
    RoundDownMultiple(n, m);
    n - n % m
  }

  lemma RoundDownMultiple(n: nat, m: nat)
    requires m > 0
    ensures n % m <= n && (n - n % m) % m == 0 && (n - n % m) / m == n / m
  {
    var q := n / m;
    assert n == q * m + n % m;
    MulMono(0, q, m);
    DivMod(q * m, q, m, 0);
  }

  /** n & ~(1 << i) */
  function ClearBit(n: nat, i: nat): nat {
    if n / Pow2(i) % 2 == 1 then Below(n, Pow2(i)) else n
  }

  /** n | (1 << i) */
  function SetBit(n: nat, i: nat): nat {
    if n / Pow2(i) % 2 == 1 then n else n + Pow2(i)
  }

  /** n - d, where the bit of d is set in n. */
  function Below(n: nat, d: nat): nat {
    if d <= n then n - d else 0
  }

  /** Bitwise and. */
  function And(a: nat, b: nat): nat
    decreases a
  {
    if a == 0 then 0 else 2 * And(a / 2, b / 2) + if b % 2 == 1 then a % 2 else 0
  }

  lemma HalfOf(q: nat, m: nat)
    ensures q / 2 * (2 * m) + (if q % 2 == 1 then m else 0) == q * m
  {
    var h := q / 2;
    assert q == 2 * h + q % 2;
    Distribute(2 * h, q % 2, m);
    assert 2 * h * m == h * (2 * m);
  }

  /** Clearing one more of the low bits. */
  lemma ClearNext(n: nat, i: nat)
    ensures ClearBit(RoundDown(n, Pow2(i)), i) == RoundDown(n, Pow2(i + 1))
  {
    var m := Pow2(i);
    var q, r := n / m, n % m;
    assert n == q * m + r;
    var h, d := q / 2, 2 * m;
    HalfOf(q, m);
    MulMono(0, h, d);
    var low := (if q % 2 == 1 then m else 0) + r;
    assert n == h * d + low;
    DivMod(n, h, d, low);
    assert Pow2(i + 1) == d && RoundDown(n, d) == h * d && RoundDown(n, m) == q * m;
  }

  /** Setting one more of the high bits. */
  lemma SetNext(i: nat)
    requires i < 32
    ensures 2 * Pow2(i) <= 0x1_0000_0000
    ensures SetBit(0x1_0000_0000 - 2 * Pow2(i), i) == 0x1_0000_0000 - Pow2(i)
  {
    Pow2Values();
    var m, high := Pow2(i), Pow2(32 - i);
    Pow2Add(32 - i, i);
    assert high * m == 0x1_0000_0000 && high == 2 * Pow2(31 - i);
    MulMono(2, high, m);
    Distribute(high, 2, m);
    DivMod(0x1_0000_0000 - 2 * m, high - 2, m, 0);
  }

  lemma {:induction false} AndOnes(x: nat, n: nat, ones: nat)
    requires x < Pow2(n) && ones + 1 == Pow2(n)
    ensures And(x, ones) == x
    decreases n
  {
    if n > 0 && x > 0 {
      var half := Pow2(n - 1) - 1;
      AndOnes(x / 2, n - 1, half);
      assert ones / 2 == half && ones % 2 == 1;
    }
  }

  lemma {:induction false} Pow2Mono(k: nat, n: nat)
    requires k <= n
    ensures Pow2(k) <= Pow2(n)
  {
    if k < n {
      Pow2Mono(k, n - 1);
    }
  }

  lemma AndEven(a: nat, b: nat)
    ensures And(a, 2 * b) == 2 * And(a / 2, b)
  {
    var c := 2 * b;
    assert c / 2 == b && c % 2 == 0;
  }

  /** A mask of high bits clears the low ones. */
  lemma {:induction false} AndMask(x: nat, n: nat, k: nat, mask: nat)
    requires k <= n && x < Pow2(n) && mask + Pow2(k) == Pow2(n)
    ensures And(x, mask) == RoundDown(x, Pow2(k))
    decreases k
  {
    if k == 0 {
      AndOnes(x, n, mask);
      assert x % 1 == 0;
    } else {
      var m := Pow2(k - 1);
      var half, d := Pow2(n - 1) - m, 2 * m;
      Pow2Mono(k - 1, n - 1);
      AndMask(x / 2, n - 1, k - 1, half);
      AndEven(x, half);
      RoundTwice(x, m);
      assert mask == 2 * half && Pow2(k) == d;
    }
  }

  lemma RoundTwice(x: nat, m: nat)
    requires m > 0
    ensures 2 * RoundDown(x / 2, m) == RoundDown(x, 2 * m)
  {
    var q, r := x / 2 / m, x / 2 % m;
    assert x / 2 == q * m + r;
    assert q * (2 * m) == 2 * (q * m);
    DivMod(x, q, 2 * m, 2 * r + x % 2);
  }

  // ---------------------------------------------------------------- the bitmap

  function Bit(j: nat): bv8
    requires j < 8
  {
    if j == 0 then 0x01 else if j == 1 then 0x02 else if j == 2 then 0x04 else if j == 3 then 0x08
    else if j == 4 then 0x10 else if j == 5 then 0x20 else if j == 6 then 0x40 else 0x80
  }

  predicate HasBit(b: bv8, j: nat)
    requires j < 8
  {
    b & Bit(j) != 0
  }

  function WithBit(b: bv8, j: nat): bv8
    requires j < 8
  {
    b | Bit(j)
  }

  function WithoutBit(b: bv8, j: nat): bv8
    requires j < 8
  {
    b & !Bit(j)
  }

  lemma BitLaws(b: bv8, i: nat, j: nat)
    requires i < 8 && j < 8
    ensures HasBit(WithBit(b, j), i) <==> i == j || HasBit(b, i)
    ensures HasBit(WithoutBit(b, j), i) <==> i != j && HasBit(b, i)
    ensures !HasBit(0, i)
  {
  }

  predicate IsUsed(bits: seq<bv8>, k: nat)
    requires k < 8 * |bits|
  {
    HasBit(bits[k / 8], k % 8)
  }

  /** The offsets that the bitmap marks. */
  function UsedSet(bits: seq<bv8>): set<nat> {
    set k: nat | k < 8 * |bits| && IsUsed(bits, k)
  }

  function Marked(bits: seq<bv8>, k: nat): seq<bv8>
    requires k < 8 * |bits|
  {
    bits[k / 8 := WithBit(bits[k / 8], k % 8)]
  }

  function Unmarked(bits: seq<bv8>, k: nat): seq<bv8>
    requires k < 8 * |bits|
  {
    bits[k / 8 := WithoutBit(bits[k / 8], k % 8)]
  }

  lemma OneMarked(bits: seq<bv8>, k: nat, i: nat)
    requires k < 8 * |bits| && i < 8 * |bits|
    ensures IsUsed(Marked(bits, k), i) <==> i == k || IsUsed(bits, i)
    ensures IsUsed(Unmarked(bits, k), i) <==> i != k && IsUsed(bits, i)
  {
    BitLaws(bits[k / 8], i % 8, k % 8);
  }

  /** The bitmap is a set: marking adds one offset and unmarking removes one. */
  lemma BitmapIsSet(bits: seq<bv8>, k: nat)
    requires k < 8 * |bits|
    ensures UsedSet(Marked(bits, k)) == UsedSet(bits) + {k}
    ensures UsedSet(Unmarked(bits, k)) == UsedSet(bits) - {k}
  {
    forall i: nat | i < 8 * |bits|
      ensures IsUsed(Marked(bits, k), i) <==> i == k || IsUsed(bits, i)
      ensures IsUsed(Unmarked(bits, k), i) <==> i != k && IsUsed(bits, i)
    {
      OneMarked(bits, k, i);
    }
  }

  lemma NoneMarked(bits: seq<bv8>)
    requires forall i :: 0 <= i < |bits| ==> bits[i] == 0
    ensures UsedSet(bits) == {}
  {
    forall k: nat | k < 8 * |bits| ensures !IsUsed(bits, k) {
      BitLaws(0, k % 8, k % 8);
    }
  }

  // ---------------------------------------------------------------- the search

  /** Neither a network's nor a broadcast address, in networks of 256. */
  predicate Usable(k: nat) {
    k % 0x100 != 0 && k % 0x100 != 0xff
  }

  /** The least usable offset that is free, or num. */
  function FirstFree(used: set<nat>, num: nat, from: nat): (r: nat)
    requires from <= num
    ensures from <= r <= num
    ensures r < num ==> Usable(r) && r !in used
    ensures forall k :: from <= k < r ==> !Usable(k) || k in used
    decreases num - from
  {
    if from == num then num
    else if Usable(from) && from !in used then from
    else FirstFree(used, num, from + 1)
  }

  /** A power of two from 16 to 65536: the sizes of ranges. */
  predicate IsSize(num: nat) {
    num in {0x10, 0x20, 0x40, 0x80, 0x100, 0x200, 0x400, 0x800, 0x1000, 0x2000, 0x4000, 0x8000, 0x1_0000}
  }

  /**
   * No usable offset gives an address that ends in 0. One that ends in 255 is given exactly as the last address of a
   * range smaller than 256 that ends there.
   */
  lemma LastOctet(prefix: nat, base: nat, num: nat, k: nat)
    requires 16 <= prefix <= 28 && num == Pow2(32 - prefix) && base % num == 0 && k < num && Usable(k)
    ensures (base + k) % 0x100 != 0
    ensures (base + k) % 0x100 == 0xff <==> num < 0x100 && k == num - 1 && (base + num) % 0x100 == 0
  {
    var octet := base % 0x100;
    SizeOfRange(32 - prefix);
    if num >= 0x100 {
      WholeOctets(base, num);
      SumOfOctets(base, k);
    } else {
      PartOfOctet(base, num, octet);
      SmallSum(base, octet, k);
      if octet + num < 0x100 {
        SmallSum(base, octet, num);
      }
    }
  }

  lemma SizeOfRange(bits: nat)
    requires 4 <= bits <= 16
    ensures IsSize(Pow2(bits))
  {
    assert Pow2(4) == 0x10 && Pow2(5) == 0x20 && Pow2(6) == 0x40 && Pow2(7) == 0x80 && Pow2(8) == 0x100;
    assert Pow2(9) == 0x200 && Pow2(10) == 0x400 && Pow2(11) == 0x800 && Pow2(12) == 0x1000;
    assert Pow2(13) == 0x2000 && Pow2(14) == 0x4000 && Pow2(15) == 0x8000 && Pow2(16) == 0x1_0000;
  }

  lemma WholeOctets(base: nat, num: nat)
    requires IsSize(num) && num >= 0x100 && base % num == 0
    ensures base % 0x100 == 0
  {
    var q, m := num / 0x100, base / num;
    assert num == 0x100 * q;
    Distribute(0x100, q, m);
    DivMod(base, q * m, 0x100, 0);
  }

  lemma SumOfOctets(base: nat, k: nat)
    requires base % 0x100 == 0
    ensures (base + k) % 0x100 == k % 0x100
  {
  }

  lemma SmallSum(base: nat, octet: nat, k: nat)
    requires octet == base % 0x100 && octet + k < 0x100
    ensures (base + k) % 0x100 == octet + k
  {
  }

  lemma PartOfOctet(base: nat, num: nat, octet: nat)
    requires IsSize(num) && num < 0x100 && base % num == 0 && octet == base % 0x100
    ensures octet + num <= 0x100 && (octet + num == 0x100 ==> (base + num) % 0x100 == 0)
  {
    var q, m, r := base / 0x100, base / num, 0x100 / num;
    assert base == 0x100 * q + octet && base == m * num && 0x100 == r * num;
    Multiples(octet, q, m, r, num);
    if octet + num == 0x100 {
      assert base + num == 0x100 * (q + 1);
    }
  }

  lemma Multiples(octet: nat, q: nat, m: nat, r: nat, num: nat)
    requires num > 0 && 0x100 == r * num && m * num == 0x100 * q + octet && octet < 0x100
    ensures octet + num <= 0x100
  {
    var z := m - r * q;
    assert (r * q) * num == q * (r * num);
    Distribute(m, r * q, num);
    assert z * num == octet;
    if z < r {
      if z >= 0 {
        var next := z + 1;
        MulMono(next, r, num);
        Distribute(z, 1, num);
      }
    } else {
      MulMono(r, z, num);
    }
  }

  // ---------------------------------------------------------------- the configured range

  function ParsePrefix(s: string, prefixLength: Word): Option<Word> {
    if s == "" then Some(prefixLength)
    else if !IsDigit(s[0]) then None
    else ParsePrefix(s[1..], (prefixLength * 10 + (s[0] as int - '0' as int)) % 0x1_0000_0000)
  }

  /** What stands before the first slash, and the number behind it. */
  function ParseRange(s: string): Option<(string, Word)> {
    if s == "" then Some(("", 0))
    else if s[0] == '/' then
      match ParsePrefix(s[1..], 0)
      case None => None
      case Some(p) => Some(("", p))
    else
      match ParseRange(s[1..])
      case None => None
      case Some((base, p)) => Some(([s[0]] + base, p))
  }

  lemma WrapDigit(acc: nat, d: nat)
    ensures (acc % 0x1_0000_0000 * 10 + d) % 0x1_0000_0000 == (10 * acc + d) % 0x1_0000_0000
  {
    var q := acc / 0x1_0000_0000;
    var low := acc % 0x1_0000_0000 * 10 + d;
    assert 10 * acc + d == 0x1_0000_0000 * (10 * q) + low;
  }

  lemma {:induction false} PrefixWraps(s: string, acc: nat)
    requires forall i :: 0 <= i < |s| ==> IsDigit(s[i])
    ensures ParsePrefix(s, acc % 0x1_0000_0000) == Some(AtoiDigits(s, acc) % 0x1_0000_0000)
    decreases |s|
  {
    if s != "" {
      var d := s[0] as int - '0' as int;
      WrapDigit(acc, d);
      PrefixWraps(s[1..], 10 * acc + d);
    }
  }

  /** A base address and a decimal prefix length are read back, the latter in 32 bits. */
  lemma {:induction false} RangeReads(base: string, n: nat)
    requires '/' !in base
    ensures ParseRange(base + "/" + Decimal(n)) == Some((base, n % 0x1_0000_0000))
  {
    var tail := "/" + Decimal(n);
    if base == "" {
      assert base + "/" + Decimal(n) == tail && tail[1..] == Decimal(n);
      DecimalDigits(n);
      PrefixWraps(Decimal(n), 0);
      AtoiDigitsDecimal(n);
    } else {
      RangeReads(base[1..], n);
      var s := base + "/" + Decimal(n);
      assert s[0] == base[0] && s[1..] == base[1..] + "/" + Decimal(n) && [base[0]] + base[1..] == base;
    }
  }

  lemma {:induction false} PrefixRefused(s: string, acc: Word)
    ensures ParsePrefix(s, acc) == None <==> exists i :: 0 <= i < |s| && !IsDigit(s[i])
    decreases |s|
  {
    if s != "" && IsDigit(s[0]) {
      PrefixRefused(s[1..], (acc * 10 + (s[0] as int - '0' as int)) % 0x1_0000_0000);
      assert forall i :: 0 <= i < |s| - 1 ==> s[1..][i] == s[i + 1];
      if exists i :: 0 <= i < |s| && !IsDigit(s[i]) {
        var i :| 0 <= i < |s| && !IsDigit(s[i]);
        assert !IsDigit(s[1..][i - 1]);
      }
    }
  }

  /** Whatever stands behind the first slash is refused if and only if it holds something that is not a digit. */
  lemma {:induction false} RangeRefused(base: string, behind: string)
    requires '/' !in base
    ensures ParseRange(base + "/" + behind) == None <==> exists i :: 0 <= i < |behind| && !IsDigit(behind[i])
  {
    var s := base + "/" + behind;
    if base == "" {
      assert s == "/" + behind && s[1..] == behind;
      PrefixRefused(behind, 0);
    } else {
      assert s[0] == base[0] && s[1..] == base[1..] + "/" + behind;
      RangeRefused(base[1..], behind);
    }
  }

  /** Without a slash, all of it is the base and the length is 0. */
  lemma {:induction false} RangeWithoutSlash(base: string)
    requires '/' !in base
    ensures ParseRange(base) == Some((base, 0))
  {
    if base != "" {
      RangeWithoutSlash(base[1..]);
      assert [base[0]] + base[1..] == base;
    }
  }

  // ---------------------------------------------------------------- the allocator

  class Peiros {
    var usageMap: array<bv8>
    var baseAddress: nat
    var numAddresses: nat
    var prefixLength: nat

    constructor ()
      ensures fresh(usageMap)
    {
      usageMap := new bv8[0];
      baseAddress, numAddresses, prefixLength := 0, 0, 0;
    }

    ghost predicate Valid()
      reads this
    {
      && 16 <= prefixLength <= 28 && numAddresses == Pow2(32 - prefixLength)
      && usageMap.Length * 8 == numAddresses
      && baseAddress < 0x1_0000_0000 && baseAddress % numAddresses == 0
    }

    ghost function Used(): set<nat>
      reads this, usageMap
    {
      UsedSet(usageMap[..])
    }

    /** aton: what the C library makes of a dotted address. */
    method InitializeNetrange(description: string, aton: string -> Option<Word>) returns (ok: bool)
      modifies this
      ensures var p := ParseRange(description);
              ok <==> p.Some? && 16 <= p.value.1 <= 28 && aton(p.value.0).Some?
      ensures ok ==>
        && Valid() && fresh(usageMap) && Used() == {}
        && prefixLength == ParseRange(description).value.1
        && var given := aton(ParseRange(description).value.0).value; baseAddress == RoundDown(given, numAddresses)
      ensures !ok ==> unchanged(this)
    {
      var base, prefix: Word, i, state := "", 0, 0, false;
      ghost var parsed := ParseRange(description);
      assert description[0..] == description;
      NoBase(parsed);
      while i < |description|
        invariant 0 <= i <= |description|
        invariant !state ==> prefix == 0 && parsed == WithBase(base, ParseRange(description[i..]))
        invariant state ==> parsed == WithPrefix(base, ParsePrefix(description[i..], prefix))
        invariant unchanged(this)
      {
        Advance(description, i);
        var c := description[i];
        if !state {
          if c == '/' {
            state := true;
            Appended(base, "");
          } else {
            BaseGrows(base, c, ParseRange(description[i+1..]));
            base := base + [c];
          }
        } else if !IsDigit(c) {
          return false;
        } else {
          prefix := (prefix * 10 + (c as int - '0' as int)) % 0x1_0000_0000;
        }
        i := i + 1;
      }
      Appended(base, "");
      assert parsed == Some((base, prefix));
      if prefix > 28 || prefix < 16 || aton(base) == None {
        return false;
      }
      var given := aton(base).value;
      baseAddress := given;
      i := 0;
      while i < 32 - prefix
        invariant 0 <= i <= 32 - prefix
        invariant baseAddress == RoundDown(given, Pow2(i))
        modifies this`baseAddress
      {
        ClearNext(given, i);
        baseAddress := ClearBit(baseAddress, i);
        i := i + 1;
      }
      numAddresses := Pow2(32 - prefix);
      prefixLength := prefix;
      SizeInBytes(prefix);
      usageMap := new bv8[numAddresses / 8](_ => 0);
      NoneMarked(usageMap[..]);
      return true;
    }

    /** The netmask that the interface is given. */
    method Netmask() returns (netmask: nat)
      requires Valid()
      ensures netmask == 0x1_0000_0000 - numAddresses
      ensures forall k: nat :: k < numAddresses ==> MasksBack(baseAddress, k, netmask)
    {
      netmask := 0;
      Pow2Values();
      Pow2Mono(32 - prefixLength, 32);
      var a := 0;
      while a < prefixLength
        invariant 0 <= a <= prefixLength
        invariant netmask == 0x1_0000_0000 - Pow2(32 - a)
      {
        SetNext(31 - a);
        netmask := SetBit(netmask, 31 - a);
        a := a + 1;
      }
      forall k: nat | k < numAddresses ensures MasksBack(baseAddress, k, netmask) {
        RangeAddress(prefixLength, baseAddress, k, netmask);
      }
    }

    /** The caller sees to it that there is a usable address left. */
    method AllocateAddress() returns (result: nat)
      requires Valid() && FirstFree(Used(), numAddresses, 0) < numAddresses
      modifies usageMap
      ensures Used() == old(Used()) + {FirstFree(old(Used()), numAddresses, 0)}
      ensures result == baseAddress + FirstFree(old(Used()), numAddresses, 0)
    {
      var address := 0;
      while address < numAddresses
        invariant 0 <= address <= numAddresses
        invariant FirstFree(Used(), numAddresses, 0) == FirstFree(Used(), numAddresses, address)
      {
        if address % 0x100 != 0 && address % 0x100 != 0xff {
          if !HasBit(usageMap[address / 8], address % 8) {
            break;
          }
        }
        address := address + 1;
      }
      BitmapIsSet(usageMap[..], address);
      usageMap[address / 8] := WithBit(usageMap[address / 8], address % 8);
      assert usageMap[..] == Marked(old(usageMap[..]), address);
      return baseAddress + address;
    }

    /** Offsets are differences of 32-bit words. The one just behind the range would be written outside of the map. */
    method FreeAddress(given: Word)
      requires Valid() && (given - baseAddress) % 0x1_0000_0000 != numAddresses
      modifies usageMap
      ensures Used() == old(Used()) - {(given - baseAddress) % 0x1_0000_0000}
    {
      var address := (given - baseAddress) % 0x1_0000_0000;
      if address > numAddresses {
        return;
      }
      BitmapIsSet(usageMap[..], address);
      usageMap[address / 8] := WithoutBit(usageMap[address / 8], address % 8);
      assert usageMap[..] == Unmarked(old(usageMap[..]), address);
    }
  }

  function WithBase(base: string, p: Option<(string, Word)>): Option<(string, Word)> {
    match p
    case None => None
    case Some((more, prefix)) => Some((base + more, prefix))
  }

  function WithPrefix(base: string, p: Option<Word>): Option<(string, Word)> {
    match p
    case None => None
    case Some(prefix) => Some((base, prefix))
  }

  lemma NoBase(p: Option<(string, Word)>)
    ensures WithBase("", p) == p
  {
    if p.Some? {
      assert "" + p.value.0 == p.value.0;
    }
  }

  lemma Appended(a: string, b: string)
    ensures b == "" ==> a + b == a
  {
  }

  lemma BaseGrows(base: string, c: char, p: Option<(string, Word)>)
    ensures p.Some? ==> base + ([c] + p.value.0) == base + [c] + p.value.0
  {
  }

  lemma SizeInBytes(prefix: nat)
    requires 16 <= prefix <= 28
    ensures 16 <= Pow2(32 - prefix) <= 0x1_0000 && Pow2(32 - prefix) % 8 == 0
  {
    var m := 32 - prefix;
    Pow2Values();
    Pow2Mono(4, m);
    Pow2Mono(m, 16);
    Pow2Bytes(m);
  }

  lemma Pow2Bytes(m: nat)
    requires m >= 3
    ensures Pow2(m) % 8 == 0
  {
    var x := Pow2(m - 3);
    assert Pow2(m - 2) == 2 * x && Pow2(m - 1) == 4 * x && Pow2(m) == 8 * x;
  }

  predicate MasksBack(base: nat, k: nat, netmask: nat) {
    base + k < 0x1_0000_0000 && And(base + k, netmask) == base
  }

  /** For every prefix length the addresses of the range do not overflow, and the mask takes them back to the base. */
  lemma RangeAddress(prefix: nat, base: nat, k: nat, netmask: nat)
    requires 16 <= prefix <= 28 && base < 0x1_0000_0000 && base % Pow2(32 - prefix) == 0 && k < Pow2(32 - prefix)
    requires netmask + Pow2(32 - prefix) == 0x1_0000_0000
    ensures MasksBack(base, k, netmask)
  {
    var num, high, address := Pow2(32 - prefix), Pow2(prefix), base + k;
    Pow2Values();
    Pow2Add(prefix, 32 - prefix);
    var q := base / num;
    InRange(base, q, num, high, k);
    DivMod(address, q, num, k);
    AndMask(address, 32, 32 - prefix, netmask);
  }

  lemma InRange(base: nat, q: nat, num: nat, high: nat, k: nat)
    requires num > 0 && base / num == q && base % num == 0 && base < 0x1_0000_0000
    requires high * num == 0x1_0000_0000 && k < num
    ensures base == q * num && base + k < 0x1_0000_0000
  {
    assert base == q * num;
    Distribute(q, 1, num);
    if q >= high {
      MulMono(high, q, num);
    } else {
      MulMono(q + 1, high, num);
    }
  }
}
