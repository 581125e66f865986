/** The order-preserving base64 variant. */
module Base64 {
  type Byte = b: nat | b < 256
  type Digit = d: nat | d < 64

  // ------------------------------------------------------------------------------------------
  // Lexicographic order, as by memcmp().
  // ------------------------------------------------------------------------------------------

  predicate LexLess(s: seq<int>, t: seq<int>)
    requires |s| == |t|
  {
    s != [] && (s[0] < t[0] || (s[0] == t[0] && LexLess(s[1..], t[1..])))
  }

  lemma {:induction false} LexLessConcat(a: seq<int>, b: seq<int>, c: seq<int>, d: seq<int>)
    requires |a| == |c| && |b| == |d|
    ensures LexLess(a + b, c + d) <==> LexLess(a, c) || (a == c && LexLess(b, d))
  {
    if a == [] {
      assert a + b == b && c + d == d;
    } else {
      assert (a + b)[1..] == a[1..] + b && (c + d)[1..] == c[1..] + d;
      LexLessConcat(a[1..], b, c[1..], d);
      assert a == [a[0]] + a[1..] && c == [c[0]] + c[1..];
    }
  }

  lemma {:induction false} LexLessIsTotal(s: seq<int>, t: seq<int>)
    requires |s| == |t|
    ensures s == t || LexLess(s, t) || LexLess(t, s)
    ensures s == t ==> !LexLess(s, t)
  {
    if s != [] {
      LexLessIsTotal(s[1..], t[1..]);
      assert s == [s[0]] + s[1..] && t == [t[0]] + t[1..];
    }
  }

  // ------------------------------------------------------------------------------------------
  // The encoding: groups of six bits, then one character for each.
  // ------------------------------------------------------------------------------------------

  /** The character for six bits: '+', the digits, the capitals, '^', the small letters, in ASCII order. */
  function EncodeMap(d: Digit): (c: nat)
    ensures 43 <= c < 123
  {
    if d == 0 then '+' as nat
    else if d <= 10 then '0' as nat + (d - 1)
    else if d <= 36 then 'A' as nat + (d - 11)
    else if d == 37 then '^' as nat
    else 'a' as nat + (d - 38)
  }

  function Spelled(x: seq<Digit>): (r: seq<nat>)
    ensures |r| == |x|
  {
    if x == [] then [] else [EncodeMap(x[0])] + Spelled(x[1..])
  }

  /** Three bytes are four groups, a rest of two bytes three, a rest of one byte two. */
  function Groups(s: seq<Byte>): (r: seq<Digit>)
    ensures |r| == |s| + (|s| + 2) / 3
  {
    if |s| == 0 then []
    else if |s| == 1 then Groups1(s[0])
    else if |s| == 2 then Groups2(Val2(s[0], s[1]))
    else Groups3(Val3(s[0], s[1], s[2])) + Groups(s[3..])
  }

  function Val3(a: Byte, b: Byte, c: Byte): (v: nat)
    ensures v < 0x1000000
  {
    a * 0x10000 + b * 0x100 + c
  }

  function Val2(a: Byte, b: Byte): (v: nat)
    ensures v < 0x10000
  {
    a * 0x100 + b
  }

  function Groups3(v: nat): (r: seq<Digit>)
    requires v < 0x1000000
    ensures |r| == 4
  {
    [v / 0x40000, v / 0x1000 % 64, v / 64 % 64, v % 64]
  }

  function Groups2(v: nat): (r: seq<Digit>)
    requires v < 0x10000
    ensures |r| == 3
  {
    [v / 0x400 % 64, v / 16 % 64, v * 4 % 64]
  }

  function Groups1(v: nat): (r: seq<Digit>)
    requires v < 0x100
    ensures |r| == 2
  {
    [v / 4, v * 16 % 64]
  }

  function Encoded(s: seq<Byte>): (r: seq<nat>)
    ensures |r| == |s| + (|s| + 2) / 3
  {
    Spelled(Groups(s))
  }

  lemma {:induction false} SpelledConcat(x: seq<Digit>, y: seq<Digit>)
    ensures Spelled(x + y) == Spelled(x) + Spelled(y)
  {
    if x == [] {
      assert x + y == y;
    } else {
      assert (x + y)[1..] == x[1..] + y;
      SpelledConcat(x[1..], y);
    }
  }

  // ------------------------------------------------------------------------------------------
  // The code, which writes block by block.
  // ------------------------------------------------------------------------------------------

  /** Each block is encoded behind what is already there. */
  method Encode3ByteBlock(input: seq<Byte>, at: nat, out: array<nat>, to: nat)
    requires at + 3 <= |input| && to + 4 <= out.Length
    modifies out
    ensures out[..to + 4] == old(out[..to]) + Spelled(Groups3(Val3(input[at], input[at + 1], input[at + 2])))
  {
    var val := Val3(input[at], input[at + 1], input[at + 2]);
    out[to] := EncodeMap(val / 0x40000);
    out[to + 1] := EncodeMap(val / 0x1000 % 64);
    out[to + 2] := EncodeMap(val / 64 % 64);
    out[to + 3] := EncodeMap(val % 64);
    SpelledShort(Groups3(val));
  }

  method Encode2ByteBlock(input: seq<Byte>, at: nat, out: array<nat>, to: nat)
    requires at + 2 <= |input| && to + 3 <= out.Length
    modifies out
    ensures out[..to + 3] == old(out[..to]) + Spelled(Groups2(Val2(input[at], input[at + 1])))
  {
    var val := Val2(input[at], input[at + 1]);
    out[to] := EncodeMap(val / 0x400 % 64);
    out[to + 1] := EncodeMap(val / 16 % 64);
    out[to + 2] := EncodeMap(val * 4 % 64);
    SpelledShort(Groups2(val));
  }

  method Encode1ByteBlock(input: seq<Byte>, at: nat, out: array<nat>, to: nat)
    requires at + 1 <= |input| && to + 2 <= out.Length
    modifies out
    ensures out[..to + 2] == old(out[..to]) + Spelled(Groups1(input[at]))
  {
    var val: nat := input[at];
    out[to] := EncodeMap(val / 4);
    out[to + 1] := EncodeMap(val * 16 % 64);
    SpelledShort(Groups1(val));
  }

  lemma {:induction false} SpelledShort(x: seq<Digit>)
    ensures forall i :: 0 <= i < |x| ==> Spelled(x)[i] == EncodeMap(x[i])
  {
    if x != [] { SpelledShort(x[1..]); }
  }

  /** What is written so far, and what remains. */
  ghost predicate Written(input: seq<Byte>, at: nat, out: seq<nat>) {
    at <= |input| && Encoded(input) == out + Encoded(input[at..])
  }

  lemma BlockWritten(input: seq<Byte>, at: nat, before: seq<nat>, out: seq<nat>)
    requires at + 3 <= |input| && Written(input, at, before)
    requires out == before + Spelled(Groups3(Val3(input[at], input[at + 1], input[at + 2])))
    ensures Written(input, at + 3, out)
  {
    assert input[at..][3..] == input[at + 3..];
    SpelledConcat(Groups3(Val3(input[at], input[at + 1], input[at + 2])), Groups(input[at + 3..]));
  }

  method NextBlock(input: seq<Byte>, at: nat, out: array<nat>, to: nat)
    requires at + 3 <= |input| && to + 4 <= out.Length && Written(input, at, out[..to])
    modifies out
    ensures Written(input, at + 3, out[..to + 4])
  {
    ghost var before := out[..to];
    Encode3ByteBlock(input, at, out, to);
    BlockWritten(input, at, before, out[..to + 4]);
  }

  /** Writes the encoding and a terminator; the source aborts on lengths other than 16 and 8. */
  method Encode(input: seq<Byte>, out: array<nat>)
    requires |input| == 16 || |input| == 8
    requires out.Length == if |input| == 16 then 23 else 12
    modifies out
    ensures out[..] == Encoded(input) + [0]
  {
    assert input[0..] == input && out[..0] == [];
    NextBlock(input, 0, out, 0);
    NextBlock(input, 3, out, 4);
    if |input| == 16 {
      NextBlock(input, 6, out, 8);
      NextBlock(input, 9, out, 12);
      NextBlock(input, 12, out, 16);
      Encode1ByteBlock(input, 15, out, 20);
      assert input[15..] == [input[15]];
      out[22] := 0;
    } else {
      Encode2ByteBlock(input, 6, out, 8);
      assert input[6..] == [input[6], input[7]];
      out[11] := 0;
    }
  }

  // ------------------------------------------------------------------------------------------
  // Order and injectivity.
  // ------------------------------------------------------------------------------------------

  lemma EncodeMapIsIncreasing(d: Digit, e: Digit)
    ensures EncodeMap(d) < EncodeMap(e) <==> d < e
    ensures EncodeMap(d) == EncodeMap(e) <==> d == e
  {
  }

  lemma {:induction false} SpelledOrder(x: seq<Digit>, y: seq<Digit>)
    requires |x| == |y|
    ensures LexLess(Spelled(x), Spelled(y)) <==> LexLess(x, y)
  {
    if x != [] {
      SpelledOrder(x[1..], y[1..]);
      EncodeMapIsIncreasing(x[0], y[0]);
    }
  }

  /** A number is the value of its digits, most significant first. */
  function Value(base: nat, s: seq<int>): int {
    if s == [] then 0 else Value(base, s[..|s| - 1]) * base + s[|s| - 1]
  }

  predicate InBase(base: nat, s: seq<int>) {
    forall i :: 0 <= i < |s| ==> 0 <= s[i] < base
  }

  lemma Gap(base: nat, a: int, b: int)
    requires a < b
    ensures a * base + base <= b * base
  {
    var k := b - a - 1;
    assert k * base >= 0;
    assert b * base == (a + 1 + k) * base == a * base + base + k * base;
  }

  lemma Scaled(base: nat, a: int, b: int, x: int, y: int)
    requires 0 <= x < base && 0 <= y < base
    ensures a * base + x < b * base + y <==> a < b || (a == b && x < y)
  {
    if a < b {
      Gap(base, a, b);
    } else if a > b {
      Gap(base, b, a);
    }
  }

  /** Lexicographic order of digits is numeric order. */
  lemma {:induction false} LexIsNumeric(base: nat, s: seq<int>, t: seq<int>)
    requires |s| == |t| && InBase(base, s) && InBase(base, t)
    ensures LexLess(s, t) <==> Value(base, s) < Value(base, t)
    ensures s == t <==> Value(base, s) == Value(base, t)
  {
    if s != [] {
      var n := |s| - 1;
      LexIsNumeric(base, s[..n], t[..n]);
      assert s == s[..n] + [s[n]] && t == t[..n] + [t[n]];
      LexLessConcat(s[..n], [s[n]], t[..n], [t[n]]);
      Scaled(base, Value(base, s[..n]), Value(base, t[..n]), s[n], t[n]);
      Scaled(base, Value(base, t[..n]), Value(base, s[..n]), t[n], s[n]);
    }
  }

  /** Four groups of six bits spell the number of 24 bits. */
  lemma Groups3Value(v: nat)
    requires v < 0x1000000
    ensures Value(64, Groups3(v)) == v
  {
    var g := Groups3(v);
    assert g[..3][..2] == g[..2] && g[..2][..1] == g[..1];
    assert Value(64, g[..1]) == v / 0x40000;
    assert Value(64, g[..2]) == v / 0x40000 * 64 + v / 0x1000 % 64 == v / 0x1000;
    assert Value(64, g[..3]) == v / 0x1000 * 64 + v / 64 % 64 == v / 64;
  }

  lemma Groups2Value(v: nat)
    requires v < 0x10000
    ensures Value(64, Groups2(v)) == v * 4
  {
    var g := Groups2(v);
    assert g[..2][..1] == g[..1];
    assert Value(64, g[..1]) == v / 0x400;
    assert Value(64, g[..2]) == v / 0x400 * 64 + v / 16 % 64 == v / 16;
  }

  lemma Groups1Value(v: nat)
    requires v < 0x100
    ensures Value(64, Groups1(v)) == v * 16
  {
    var g := Groups1(v);
    assert Value(64, g[..1]) == v / 4;
  }

  lemma Val3Value(a: Byte, b: Byte, c: Byte)
    ensures Value(256, [a, b, c]) == Val3(a, b, c)
  {
    var s: seq<int> := [a, b, c];
    assert s[..2] == [a, b] && s[..2][..1] == [a];
    assert Value(256, [a]) == a;
    assert Value(256, s[..2]) == a * 256 + b;
  }

  lemma Val2Value(a: Byte, b: Byte)
    ensures Value(256, [a, b]) == Val2(a, b)
  {
    var s: seq<int> := [a, b];
    assert s[..1] == [a] && Value(256, [a]) == a;
  }

  /** The groups of six bits are ordered like the bytes. */
  lemma {:induction false} GroupsOrder(s: seq<Byte>, t: seq<Byte>)
    requires |s| == |t|
    ensures LexLess(Groups(s), Groups(t)) <==> LexLess(s, t)
    ensures Groups(s) == Groups(t) <==> s == t
  {
    if |s| == 1 {
      Groups1Value(s[0]);
      Groups1Value(t[0]);
      LexIsNumeric(64, Groups1(s[0]), Groups1(t[0]));
    } else if |s| == 2 {
      Groups2Value(Val2(s[0], s[1]));
      Groups2Value(Val2(t[0], t[1]));
      LexIsNumeric(64, Groups(s), Groups(t));
      Val2Value(s[0], s[1]);
      Val2Value(t[0], t[1]);
      assert s == [s[0], s[1]] && t == [t[0], t[1]];
      LexIsNumeric(256, s, t);
    } else if |s| > 2 {
      FirstGroupsOrder(s, t);
      GroupsOrder(s[3..], t[3..]);
      var g, h := Groups3(Val3(s[0], s[1], s[2])), Groups3(Val3(t[0], t[1], t[2]));
      LexLessConcat(g, Groups(s[3..]), h, Groups(t[3..]));
      LexLessConcat(s[..3], s[3..], t[..3], t[3..]);
      assert s == s[..3] + s[3..] && t == t[..3] + t[3..];
      assert Groups(s)[..4] == g && Groups(t)[..4] == h;
      assert Groups(s)[4..] == Groups(s[3..]) && Groups(t)[4..] == Groups(t[3..]);
    }
  }

  lemma FirstGroupsOrder(s: seq<Byte>, t: seq<Byte>)
    requires |s| == |t| >= 3
    ensures
      var g, h := Groups3(Val3(s[0], s[1], s[2])), Groups3(Val3(t[0], t[1], t[2]));
      (LexLess(g, h) <==> LexLess(s[..3], t[..3])) && (g == h <==> s[..3] == t[..3])
  {
    var v, w := Val3(s[0], s[1], s[2]), Val3(t[0], t[1], t[2]);
    Groups3Value(v);
    Groups3Value(w);
    LexIsNumeric(64, Groups3(v), Groups3(w));
    Val3Value(s[0], s[1], s[2]);
    Val3Value(t[0], t[1], t[2]);
    assert s[..3] == [s[0], s[1], s[2]] && t[..3] == [t[0], t[1], t[2]];
    LexIsNumeric(256, s[..3], t[..3]);
  }

  /** Encoding preserves and reflects lexicographic order, and is injective, for every length. */
  lemma EncodingPreservesOrder(s: seq<Byte>, t: seq<Byte>)
    requires |s| == |t|
    ensures LexLess(Encoded(s), Encoded(t)) <==> LexLess(s, t)
    ensures Encoded(s) == Encoded(t) <==> s == t
  {
    GroupsOrder(s, t);
    GroupsOrder(t, s);
    SpelledOrder(Groups(s), Groups(t));
    SpelledOrder(Groups(t), Groups(s));
    LexLessIsTotal(s, t);
    LexLessIsTotal(Encoded(s), Encoded(t));
  }

  /** valid_ascii() accepts every encoding. */
  lemma {:induction false} SpelledIsValidAscii(x: seq<Digit>)
    ensures forall c :: c in Spelled(x) ==> ValidAscii(c)
  {
    if x != [] { SpelledIsValidAscii(x[1..]); }
  }

  predicate ValidAscii(c: nat) {
    65 <= c <= 90 || 97 <= c <= 122 || 48 <= c <= 57 || c == 43 || c == 94
  }
}

/** The keys of the entries below one object key. */
module Subkeys {
  import opened Base64

  const TWO_TO_34 := 0x4_0000_0000
  const TWO_TO_64 := 0x1_0000_0000_0000_0000

  /** htobe64(): the bytes of a key, most significant first. */
  function BigEndian(key: nat, n: nat): (s: seq<Byte>)
    ensures |s| == n
  {
    if n == 0 then [] else BigEndian(key / 256, n - 1) + [key % 256]
  }

  function Limit(n: nat): nat {
    if n == 0 then 1 else Limit(n - 1) * 256
  }

  lemma {:induction false} BigEndianValue(key: nat, n: nat)
    requires key < Limit(n)
    ensures Value(256, BigEndian(key, n)) == key
  {
    if n > 0 {
      BigEndianValue(key / 256, n - 1);
      assert BigEndian(key, n)[..n - 1] == BigEndian(key / 256, n - 1);
    }
  }

  /** Subkey(uint64_t) */
  function Subkey(key: nat): (s: seq<nat>)
    ensures |s| == 11
  {
    Encoded(BigEndian(key, 8))
  }

  /** Comparing subkeys compares the keys. */
  lemma SubkeyOrder(k: nat, l: nat)
    requires k < TWO_TO_64 && l < TWO_TO_64
    ensures LexLess(Subkey(k), Subkey(l)) <==> k < l
    ensures Subkey(k) == Subkey(l) <==> k == l
  {
    assert Limit(8) == TWO_TO_64 by {
      assert Limit(4) == 0x1_0000_0000 && Limit(6) == 0x1_0000_0000_0000;
    }
    BigEndianValue(k, 8);
    BigEndianValue(l, 8);
    LexIsNumeric(256, BigEndian(k, 8), BigEndian(l, 8));
    EncodingPreservesOrder(BigEndian(k, 8), BigEndian(l, 8));
  }

  /** clock_gettime() */
  datatype Time = Time(sec: nat, nsec: nat)

  predicate Later(t: Time, u: Time) {
    t.sec > u.sec || (t.sec == u.sec && t.nsec > u.nsec)
  }

  /** The key of an object stored at a time, in 64 bits. */
  function KeyOf(t: Time): (k: nat)
    ensures k < TWO_TO_64
  {
    (t.sec * 0x4000_0000 + t.nsec) % TWO_TO_64
  }

  predicate ValidTime(t: Time) {
    t.nsec < 1_000_000_000 && t.sec < TWO_TO_34
  }

  lemma KeysOfTimes(t: Time, u: Time)
    requires ValidTime(t) && ValidTime(u)
    ensures KeyOf(t) == t.sec * 0x4000_0000 + t.nsec && KeyOf(u) == u.sec * 0x4000_0000 + u.nsec
    ensures KeyOf(u) < KeyOf(t) <==> Later(t, u)
    ensures KeyOf(u) == KeyOf(t) <==> t == u
  {
  }

  /** Before the year 2514 subkeys are ordered by time. */
  lemma SubkeyOrderIsTimeOrder(t: Time, u: Time)
    requires ValidTime(t) && ValidTime(u)
    ensures LexLess(Subkey(KeyOf(u)), Subkey(KeyOf(t))) <==> Later(t, u)
    ensures Subkey(KeyOf(t)) == Subkey(KeyOf(u)) <==> t == u
  {
    var k, l := KeyOf(u), KeyOf(t);
    SubkeyOrder(k, l);
    KeysOfTimes(t, u);
  }

  /** Listing subkeys in descending order lists the newest first. */
  lemma DescendingIsNewestFirst(times: seq<Time>)
    requires forall i :: 0 <= i < |times| ==> ValidTime(times[i])
    requires forall i, j :: 0 <= i < j < |times| ==> !LexLess(Subkey(KeyOf(times[i])), Subkey(KeyOf(times[j])))
    ensures forall i, j :: 0 <= i < j < |times| ==> !Later(times[j], times[i])
  {
    forall i, j | 0 <= i < j < |times| ensures !Later(times[j], times[i]) {
      SubkeyOrderIsTimeOrder(times[j], times[i]);
    }
  }

  /** From 2^34 seconds on the key wraps around: every later entry then sorts behind some earlier one. */
  lemma WrappedTimeSortsAsOld(t: Time) returns (u: Time)
    requires t.nsec < 1_000_000_000 && t.sec >= TWO_TO_34
    ensures ValidTime(u) && Later(t, u) && !LexLess(Subkey(KeyOf(u)), Subkey(KeyOf(t)))
  {
    u := Time(TWO_TO_34 - 1, 999_999_999);
    WrappedKey(t);
    KeysOfTimes(u, u);
    SubkeyOrder(KeyOf(u), KeyOf(t));
  }

  lemma WrappedKey(t: Time)
    requires t.nsec < 1_000_000_000
    ensures KeyOf(t) == t.sec % TWO_TO_34 * 0x4000_0000 + t.nsec
  {
    var q, r := t.sec / TWO_TO_34, t.sec % TWO_TO_34;
    assert t.sec * 0x4000_0000 + t.nsec == q * TWO_TO_64 + (r * 0x4000_0000 + t.nsec);
  }
}
