/** decodeSecret: unpadded base32 (section 6 of RFC 4648) through a 32-bit buffer that is never masked. */
module Base32 {
  import A = Arithmetic

  predicate Symbol(ch: char) {
    'A' <= ch <= 'Z' || '2' <= ch <= '7'
  }

  /** The 5-bit value of a symbol. */
  function SymbolValue(ch: char): (v: nat)
    requires Symbol(ch)
    ensures v < 32
  {
    if 'A' <= ch <= 'Z' then ch as int - 'A' as int else 26 + ch as int - '2' as int
  }

  function SymbolFor(v: nat): (ch: char)
    requires v < 32
    ensures Symbol(ch) && SymbolValue(ch) == v
  {
    if v < 26 then ('A' as int + v) as char else ('2' as int + v - 26) as char
  }

  // ---------- bit strings, most significant bit first ----------

  function Pow2(n: nat): (p: nat)
    ensures p > 0
  {
    if n == 0 then 1 else 2 * Pow2(n - 1)
  }

  /** The last w bits of v. */
  function Bits(v: nat, w: nat): (b: seq<bool>)
    ensures |b| == w
  {
    if w == 0 then [] else Bits(v / 2, w - 1) + [v % 2 == 1]
  }

  function Number(b: seq<bool>): nat {
    if b == [] then 0 else 2 * Number(b[..|b| - 1]) + if b[|b| - 1] then 1 else 0
  }

  lemma NumberBits(v: nat, w: nat)
    requires v < Pow2(w)
    ensures Number(Bits(v, w)) == v
  {
    if w > 0 {
      NumberBits(v / 2, w - 1);
      assert Bits(v, w)[..w - 1] == Bits(v / 2, w - 1);
    }
  }

  lemma NumberBound(b: seq<bool>)
    ensures Number(b) < Pow2(|b|)
  {
    if b != [] {
      NumberBound(b[..|b| - 1]);
    }
  }

  lemma NumberConcat(a: seq<bool>, b: seq<bool>)
    ensures Number(a + b) == Number(a) * Pow2(|b|) + Number(b)
  {
    if b == [] {
      assert a + b == a;
    } else {
      assert (a + b)[..|a + b| - 1] == a + b[..|b| - 1];
      NumberConcat(a, b[..|b| - 1]);
      Double(Number(a), Pow2(|b| - 1));
    }
  }

  lemma Double(x: nat, y: nat)
    ensures 2 * (x * y) == x * (2 * y)
  {
  }

  lemma NumberInjective(a: seq<bool>, b: seq<bool>)
    requires |a| == |b| && Number(a) == Number(b)
    ensures a == b
  {
    if a != [] {
      NumberInjective(a[..|a| - 1], b[..|b| - 1]);
      assert a == a[..|a| - 1] + [a[|a| - 1]] && b == b[..|b| - 1] + [b[|b| - 1]];
    }
  }

  /** The front of a bit string is its number divided. */
  lemma NumberFront(b: seq<bool>, k: nat)
    requires k <= |b|
    ensures Number(b[..|b| - k]) == Number(b) / Pow2(k)
  {
    var front, back := b[..|b| - k], b[|b| - k..];
    assert front + back == b;
    NumberConcat(front, back);
    NumberBound(back);
    DivideBack(Number(front), Pow2(k), Number(back));
  }

  lemma DivideBack(q: nat, d: nat, r: nat)
    requires r < d
    ensures (q * d + r) / d == q
  {
    A.QuotientIs(q * d + r, d, q);
  }

  /** The digits written out, w bits each. */
  function BitString(digits: seq<nat>, w: nat): (b: seq<bool>)
    ensures |b| == |digits| * w
  {
    if digits == [] then []
    else
      Width(|digits|, w);
      BitString(digits[..|digits| - 1], w) + Bits(digits[|digits| - 1], w)
  }

  lemma Width(n: nat, w: nat)
    requires n > 0
    ensures (n - 1) * w + w == n * w
  {
  }

  lemma BitStringSnoc(digits: seq<nat>, d: nat, w: nat)
    ensures BitString(digits + [d], w) == BitString(digits, w) + Bits(d, w)
  {
    assert (digits + [d])[..|digits|] == digits;
  }

  lemma NumberSnoc(digits: seq<nat>, d: nat, w: nat)
    requires d < Pow2(w)
    ensures Number(BitString(digits + [d], w)) == Number(BitString(digits, w)) * Pow2(w) + d
  {
    BitStringSnoc(digits, d, w);
    NumberConcat(BitString(digits, w), Bits(d, w));
    NumberBits(d, w);
  }

  // ---------- decoding ----------

  predicate Valid(secret: string) {
    forall k :: 0 <= k < |secret| ==> Symbol(secret[k])
  }

  function Values(secret: string): (v: seq<nat>)
    requires Valid(secret)
    ensures |v| == |secret| && forall k :: 0 <= k < |v| ==> v[k] < 32 && v[k] == SymbolValue(secret[k])
  {
    if secret == [] then [] else Values(secret[..|secret| - 1]) + [SymbolValue(secret[|secret| - 1])]
  }

  const TWO_TO_32 := 0x1_0000_0000

  lemma ByteOut1(X: nat)
    ensures X / 1 == (X / 256) * 256 + (X % TWO_TO_32) / 1 % 256
  {
    var k, r := X / TWO_TO_32, X % TWO_TO_32;
    assert X / 1 == 4294967296 * k + r / 1;
    assert X / 256 == 16777216 * k + r / 256;
    assert r / 1 == 256 * (r / 256) + r / 1 % 256;
  }

  lemma ByteOut2(X: nat)
    ensures X / 2 == (X / 512) * 256 + (X % TWO_TO_32) / 2 % 256
  {
    var k, r := X / TWO_TO_32, X % TWO_TO_32;
    assert X / 2 == 2147483648 * k + r / 2;
    assert X / 512 == 8388608 * k + r / 512;
    assert r / 2 == 256 * (r / 512) + r / 2 % 256;
  }

  lemma ByteOut4(X: nat)
    ensures X / 4 == (X / 1024) * 256 + (X % TWO_TO_32) / 4 % 256
  {
    var k, r := X / TWO_TO_32, X % TWO_TO_32;
    assert X / 4 == 1073741824 * k + r / 4;
    assert X / 1024 == 4194304 * k + r / 1024;
    assert r / 4 == 256 * (r / 1024) + r / 4 % 256;
  }

  lemma ByteOut8(X: nat)
    ensures X / 8 == (X / 2048) * 256 + (X % TWO_TO_32) / 8 % 256
  {
    var k, r := X / TWO_TO_32, X % TWO_TO_32;
    assert X / 8 == 536870912 * k + r / 8;
    assert X / 2048 == 2097152 * k + r / 2048;
    assert r / 8 == 256 * (r / 2048) + r / 8 % 256;
  }

  lemma ByteOut16(X: nat)
    ensures X / 16 == (X / 4096) * 256 + (X % TWO_TO_32) / 16 % 256
  {
    var k, r := X / TWO_TO_32, X % TWO_TO_32;
    assert X / 16 == 268435456 * k + r / 16;
    assert X / 4096 == 1048576 * k + r / 4096;
    assert r / 16 == 256 * (r / 4096) + r / 16 % 256;
  }

  lemma FiveBits(V: nat, left: nat, d: nat)
    requires left < 8 && d < 32
    ensures (V * 32 + d) / (32 * Pow2(left)) == V / Pow2(left)
  {
    var p := Pow2(left);
    A.Quotient(V, p);
    A.QuotientIs(V * 32 + d, 32 * p, V / p) by {
      var q := V / p;
      assert p * q <= V < p * q + p;
      assert (32 * p) * q == 32 * (p * q);
    }
  }

  lemma BufferKeeps(V: nat, d: nat)
    requires d < 32
    ensures ((V % TWO_TO_32) * 32 % TWO_TO_32) + d == (V * 32 + d) % TWO_TO_32
  {
    var k, r := V / TWO_TO_32, V % TWO_TO_32;
    var a, u := r / 0x800_0000, r % 0x800_0000;
    assert r * 32 == a * TWO_TO_32 + 32 * u && 32 * u + d < TWO_TO_32;
    Remainder(r * 32, a, 32 * u);
    Remainder(V * 32 + d, 32 * k + a, 32 * u + d);
  }

  lemma Remainder(x: nat, q: nat, r: nat)
    requires x == q * TWO_TO_32 + r && r < TWO_TO_32
    ensures x % TWO_TO_32 == r
  {
  }

  /** What lies above the bits left over. */
  function Front(V: nat, left: nat): int {
    V / Pow2(left)
  }

  /** static_cast<char>(buffer >> left). */
  function LowByte(buffer: nat, left: nat): (byte: nat)
    ensures byte < 256
  {
    buffer / Pow2(left) % 256
  }

  /** One symbol: five bits more, and a byte whenever there are eight left over. V is the number of all
      bits so far, of which the buffer keeps the last 32. */
  lemma OneSymbol(V: nat, left: nat, d: nat)
    requires left < 8 && d < 32
    ensures ((V % TWO_TO_32) * 32 % TWO_TO_32) + d == (V * 32 + d) % TWO_TO_32
    ensures left < 3 ==> Front(V * 32 + d, left + 5) == Front(V, left)
    ensures left >= 3 ==>
              Front(V * 32 + d, left - 3) == Front(V, left) * 256 + LowByte((V * 32 + d) % TWO_TO_32, left - 3)
  {
    BufferKeeps(V, d);
    FiveBits(V, left, d);
    SmallPowers();
    var X := V * 32 + d;
    if left == 3 { ByteOut1(X); }
    else if left == 4 { ByteOut2(X); }
    else if left == 5 { ByteOut4(X); }
    else if left == 6 { ByteOut8(X); }
    else if left == 7 { ByteOut16(X); }
  }

  lemma SmallPowers()
    ensures Pow2(0) == 1 && Pow2(1) == 2 && Pow2(2) == 4 && Pow2(3) == 8 && Pow2(4) == 16
    ensures Pow2(5) == 32 && Pow2(6) == 64 && Pow2(7) == 128 && Pow2(8) == 256
  {
    assert Pow2(2) == 4;
    assert Pow2(4) == 16;
    assert Pow2(6) == 64;
  }

  predicate ByteString(bytes: seq<nat>) {
    forall k :: 0 <= k < |bytes| ==> bytes[k] < 256
  }

  /** The key is the first floor(5n / 8) bytes of the bits of the n symbols. */
  ghost predicate DecodesTo(secret: string, key: seq<nat>)
    requires Valid(secret)
  {
    |key| == 5 * |secret| / 8 && ByteString(key)
    && BitString(key, 8) == BitString(Values(secret), 5)[..8 * (5 * |secret| / 8)]
  }

  /** decodeSecret. A broken key gives nothing. */
  method DecodeSecret(secret: string) returns (key: seq<nat>)
    ensures !Valid(secret) ==> key == []
    ensures Valid(secret) ==> DecodesTo(secret, key)
  {
    hide BitString, Number, Values, Front, LowByte, Pow2, DecodesTo;
    key := [];
    var buffer, left := 0, 0;
    var i := 0;
    Nothing();
    while i < |secret|
      invariant 0 <= i <= |secret| && Valid(secret[..i])
      invariant left == 5 * i % 8 && |key| == 5 * i / 8
      invariant ByteString(key)
      invariant buffer == Number(BitString(Values(secret[..i]), 5)) % TWO_TO_32
      invariant Number(BitString(key, 8)) == Front(Number(BitString(Values(secret[..i]), 5)), left)
    {
      var ch := secret[i];
      ghost var V, left0 := Number(BitString(Values(secret[..i]), 5)), left;
      buffer := buffer * 32 % TWO_TO_32;
      if 'A' <= ch <= 'Z' {
        buffer := buffer + (ch as int % 32 - 1);
      } else if '2' <= ch <= '7' {
        buffer := buffer + (ch as int - 24);
      } else {
        return [];
      }
      ghost var d := SymbolValue(ch);
      OneSymbol(V, left0, d);
      NextValue(secret, i);
      left := left + 5;
      if left >= 8 {
        left := left - 8;
        NextByte(key, LowByte(buffer, left));
        key := key + [LowByte(buffer, left)];
      }
      i := i + 1;
    }
    assert secret[..i] == secret;
    Finish(secret, key);
  }

  lemma Nothing()
    ensures Number(BitString([], 8)) == 0 && Number(BitString([], 5)) == 0 && Values([]) == [] && Front(0, 0) == 0
  {
  }

  lemma NextValue(secret: string, i: nat)
    requires i < |secret| && Valid(secret[..i]) && Symbol(secret[i])
    ensures Valid(secret[..i + 1])
    ensures Number(BitString(Values(secret[..i + 1]), 5)) == Number(BitString(Values(secret[..i]), 5)) * 32 + SymbolValue(secret[i])
  {
    assert secret[..i + 1] == secret[..i] + [secret[i]];
    assert secret[..i + 1][..i] == secret[..i];
    SmallPowers();
    NumberSnoc(Values(secret[..i]), SymbolValue(secret[i]), 5);
  }

  lemma NextByte(key: seq<nat>, byte: nat)
    requires byte < 256
    ensures Number(BitString(key + [byte], 8)) == Number(BitString(key, 8)) * 256 + byte
  {
    SmallPowers();
    NumberSnoc(key, byte, 8);
  }

  lemma Finish(secret: string, key: seq<nat>)
    requires Valid(secret) && |key| == 5 * |secret| / 8 && ByteString(key)
    requires Number(BitString(key, 8)) == Front(Number(BitString(Values(secret), 5)), 5 * |secret| % 8)
    ensures DecodesTo(secret, key)
  {
    hide BitString, Number, Pow2, Values;
    var b := BitString(Values(secret), 5);
    var k := 5 * |secret| % 8;
    assert |b| == 5 * |secret| && |b| - k == 8 * (5 * |secret| / 8);
    NumberFront(b, k);
    NumberInjective(BitString(key, 8), b[..|b| - k]);
  }

  // ---------- encoding (RFC 4648, section 6, without padding characters) ----------

  function Zeros(n: nat): (z: seq<bool>)
    ensures |z| == n
  {
    if n == 0 then [] else Zeros(n - 1) + [false]
  }

  /** The number of zeros that fill up the last group of five. */
  function Fill(n: nat): nat {
    (5 - n % 5) % 5
  }

  /** The symbols of the groups of five bits, the last filled up with zeros. */
  function Groups(b: seq<bool>): (s: string)
    decreases |b|
  {
    if b == [] then []
    else if |b| < 5 then [SymbolOf(b + Zeros(5 - |b|))]
    else [SymbolOf(b[..5])] + Groups(b[5..])
  }

  function SymbolOf(group: seq<bool>): (ch: char)
    requires |group| == 5
  {
    NumberBound(group);
    SmallPowers();
    SymbolFor(Number(group))
  }

  function Encode(bytes: seq<nat>): string {
    Groups(BitString(bytes, 8))
  }

  lemma BitStringCons(d: nat, digits: seq<nat>, w: nat)
    ensures BitString([d] + digits, w) == Bits(d, w) + BitString(digits, w)
  {
    hide Bits;
    if digits == [] {
      assert [d] + digits == [] + [d];
      BitStringSnoc([], d, w);
    } else {
      var front, last := digits[..|digits| - 1], digits[|digits| - 1];
      assert ([d] + digits) == ([d] + front) + [last] && digits == front + [last];
      BitStringCons(d, front, w);
      BitStringSnoc([d] + front, last, w);
      BitStringSnoc(front, last, w);
    }
  }

  lemma GroupBits(group: seq<bool>)
    requires |group| == 5
    ensures Symbol(SymbolOf(group)) && Bits(SymbolValue(SymbolOf(group)), 5) == group
  {
    NumberBound(group);
    NumberBits(Number(group), 5);
    NumberInjective(Bits(Number(group), 5), group);
  }

  lemma LastGroup(b: seq<bool>)
    requires 0 < |b| < 5
    ensures Valid(Groups(b)) && 5 * |Groups(b)| == |b| + Fill(|b|)
    ensures BitString(Values(Groups(b)), 5) == b + Zeros(Fill(|b|))
  {
    hide SymbolOf, Bits, Values;
    var ch := SymbolOf(b + Zeros(5 - |b|));
    GroupBits(b + Zeros(5 - |b|));
    OneGroup(ch, []);
    NoSymbols();
    assert Groups(b) == [ch] + [];
    assert Bits(SymbolValue(ch), 5) + [] == Bits(SymbolValue(ch), 5);
  }

  lemma NoSymbols()
    ensures Values([]) == [] && BitString([], 5) == []
  {
  }

  lemma {:induction false} GroupsBits(b: seq<bool>)
    ensures Valid(Groups(b)) && 5 * |Groups(b)| == |b| + Fill(|b|)
    ensures BitString(Values(Groups(b)), 5) == b + Zeros(Fill(|b|))
    decreases |b|
  {
    hide SymbolOf, Bits, Values, BitString, Groups;
    if b == [] {
      NoGroups();
    } else if |b| < 5 {
      LastGroup(b);
    } else {
      GroupsBits(b[5..]);
      FirstGroup(b);
    }
  }

  lemma NoGroups()
    ensures Groups([]) == [] && Values([]) == [] && BitString([], 5) == []
  {
  }

  lemma FirstGroup(b: seq<bool>)
    requires |b| >= 5
    requires Valid(Groups(b[5..])) && 5 * |Groups(b[5..])| == |b| - 5 + Fill(|b| - 5)
    requires BitString(Values(Groups(b[5..])), 5) == b[5..] + Zeros(Fill(|b| - 5))
    ensures Valid(Groups(b)) && 5 * |Groups(b)| == |b| + Fill(|b|)
    ensures BitString(Values(Groups(b)), 5) == b + Zeros(Fill(|b|))
  {
    hide SymbolOf, Bits, Values, BitString, Zeros, Groups, Fill;
    GroupBits(b[..5]);
    Unfold(b);
    OneGroup(SymbolOf(b[..5]), Groups(b[5..]));
    Rejoin(b, Zeros(Fill(|b|)));
  }

  lemma Unfold(b: seq<bool>)
    requires |b| >= 5
    ensures Groups(b) == [SymbolOf(b[..5])] + Groups(b[5..]) && Fill(|b|) == Fill(|b| - 5)
  {
    hide SymbolOf, Zeros, Number, Bits, Fill;
    FillAgain(|b|);
  }

  lemma FillAgain(n: nat)
    requires n >= 5
    ensures Fill(n) == Fill(n - 5)
  {
  }

  lemma Rejoin(b: seq<bool>, z: seq<bool>)
    requires |b| >= 5
    ensures b[..5] + (b[5..] + z) == b + z
  {
  }

  lemma OneGroup(ch: char, rest: string)
    requires Symbol(ch) && Valid(rest)
    ensures Valid([ch] + rest)
    ensures BitString(Values([ch] + rest), 5) == Bits(SymbolValue(ch), 5) + BitString(Values(rest), 5)
  {
    hide BitString, Bits;
    assert Values([ch] + rest) == [SymbolValue(ch)] + Values(rest);
    BitStringCons(SymbolValue(ch), Values(rest), 5);
  }

  lemma BytesInjective(a: seq<nat>, b: seq<nat>)
    requires |a| == |b| && BitString(a, 8) == BitString(b, 8) && ByteString(a) && ByteString(b)
    ensures a == b
  {
    hide Bits, BitString, Number, Pow2;
    if a != [] {
      var n := |a| - 1;
      assert a == a[..n] + [a[n]] && b == b[..n] + [b[n]];
      BitStringSnoc(a[..n], a[n], 8);
      BitStringSnoc(b[..n], b[n], 8);
      SplitEqual(BitString(a[..n], 8), Bits(a[n], 8), BitString(b[..n], 8), Bits(b[n], 8));
      SmallPowers();
      NumberBits(a[n], 8);
      NumberBits(b[n], 8);
      BytesInjective(a[..n], b[..n]);
    }
  }

  lemma SplitEqual(p: seq<bool>, x: seq<bool>, q: seq<bool>, y: seq<bool>)
    requires |p| == |q| && p + x == q + y
    ensures p == q && x == y
  {
    assert p == (p + x)[..|p|] && q == (q + y)[..|q|];
    assert x == (p + x)[|p|..] && y == (q + y)[|q|..];
  }

  /** A key is determined by what it decodes. */
  lemma OnlyOneKey(secret: string, key: seq<nat>, other: seq<nat>)
    requires Valid(secret) && DecodesTo(secret, key) && DecodesTo(secret, other)
    ensures key == other
  {
    BytesInjective(key, other);
  }

  // ---------- in numbers ----------

  /** The number written with these digits, most significant first. */
  function Positional(digits: seq<nat>, base: nat): nat {
    if digits == [] then 0 else Positional(digits[..|digits| - 1], base) * base + digits[|digits| - 1]
  }

  lemma {:induction false} BitsArePositional(digits: seq<nat>, w: nat)
    requires forall k :: 0 <= k < |digits| ==> digits[k] < Pow2(w)
    ensures Number(BitString(digits, w)) == Positional(digits, Pow2(w))
  {
    hide Bits, Number, Pow2;
    if digits == [] {
      assert Number([]) == 0 by { Nothing(); }
    } else {
      var front, last := digits[..|digits| - 1], digits[|digits| - 1];
      BitsArePositional(front, w);
      assert digits == front + [last];
      hide BitString;
      NumberSnoc(front, last, w);
    }
  }

  /** The value of a symbol by its character code. */
  function Digits(secret: string): (v: seq<nat>)
    requires Valid(secret)
    ensures |v| == |secret|
  {
    seq(|secret|, i requires 0 <= i < |secret| => if secret[i] as int >= 65 then secret[i] as int - 65 else secret[i] as int - 24)
  }

  /** Symbols are digits to base 32, A to Z for 0 to 25 and 2 to 7 for 26 to 31. The key is the number they
      write, to base 256, once the bits that do not fill a byte are cut off. */
  lemma KeyInNumbers(secret: string, key: seq<nat>)
    requires Valid(secret) && DecodesTo(secret, key)
    ensures var over := [1, 32, 4, 128, 16, 2, 64, 8][|secret| % 8];
            Positional(key, 256) == Positional(Digits(secret), 32) / over
  {
    hide Positional, BitString, Number, Pow2, Digits, Values;
    var b, n := BitString(Values(secret), 5), 5 * |secret| / 8;
    assert Digits(secret) == Values(secret) by { hide *; DigitsAreValues(secret); }
    SmallPowers();
    BitsArePositional(key, 8);
    BitsArePositional(Values(secret), 5);
    Left(|secret|);
    NumberFront(b, 5 * |secret| % 8);
  }

  lemma Left(n: nat)
    ensures 8 * (5 * n / 8) == 5 * n - 5 * n % 8
    ensures Pow2(5 * n % 8) == [1, 32, 4, 128, 16, 2, 64, 8][n % 8]
  {
    SmallPowers();
    hide Pow2;
    LeftOfGroup(n);
  }

  lemma LeftOfGroup(n: nat)
    ensures 5 * n % 8 == [0, 5, 2, 7, 4, 1, 6, 3][n % 8]
  {
    var q, r := n / 8, n % 8;
    GroupOf(5 * q, 5 * r);
    GroupOf(5 * q + 5 * r / 8, 5 * r % 8);
    assert 5 * n == 8 * (5 * q) + 5 * r;
  }

  lemma GroupOf(q: nat, x: nat)
    ensures (8 * q + x) % 8 == x % 8
  {
  }

  lemma DigitsAreValues(secret: string)
    requires Valid(secret)
    ensures Digits(secret) == Values(secret)
  {
  }

  /** Decoding inverts encoding on all byte strings. */
  lemma RoundTrip(bytes: seq<nat>, key: seq<nat>)
    requires ByteString(bytes)
    ensures Valid(Encode(bytes))
    ensures DecodesTo(Encode(bytes), key) <==> key == bytes
  {
    hide BitString, Groups, Values;
    var b := BitString(bytes, 8);
    GroupsBits(b);
    assert 8 * (5 * |Encode(bytes)| / 8) == |b| && 5 * |Encode(bytes)| / 8 == |bytes|;
    assert (b + Zeros(Fill(|b|)))[..|b|] == b;
    assert DecodesTo(Encode(bytes), bytes);
    if DecodesTo(Encode(bytes), key) {
      OnlyOneKey(Encode(bytes), key, bytes);
    }
  }

  /** In one call. */
  method DecodeEncoded(bytes: seq<nat>) returns (key: seq<nat>)
    requires ByteString(bytes)
    ensures key == bytes
  {
    RoundTrip(bytes, bytes);
    key := DecodeSecret(Encode(bytes));
    RoundTrip(bytes, key);
  }
}
