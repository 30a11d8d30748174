/** validBitcoinBech32 (api/src/domain/addresses.ts): the checksum of BIP 173 and BIP 350 tells apart all
    strings of one length and witness version that differ within a short stretch. */
module Bech32 {
  import opened Text
  import opened Wrappers

  // ---- characters ----

  // bech32Alphabet.indexOf, as a five-bit word.
  function Code(c: char): Option<bv32> {
    match c
    case 'q' => Some(0) case 'p' => Some(1) case 'z' => Some(2) case 'r' => Some(3)
    case 'y' => Some(4) case '9' => Some(5) case 'x' => Some(6) case '8' => Some(7)
    case 'g' => Some(8) case 'f' => Some(9) case '2' => Some(10) case 't' => Some(11)
    case 'v' => Some(12) case 'd' => Some(13) case 'w' => Some(14) case '0' => Some(15)
    case 's' => Some(16) case '3' => Some(17) case 'j' => Some(18) case 'n' => Some(19)
    case '5' => Some(20) case '4' => Some(21) case 'k' => Some(22) case 'h' => Some(23)
    case 'c' => Some(24) case 'e' => Some(25) case '6' => Some(26) case 'm' => Some(27)
    case 'u' => Some(28) case 'a' => Some(29) case '7' => Some(30) case 'l' => Some(31)
    case _ => None
  }

  function Symbol(v: bv32): char {
    if v == 0 then 'q' else if v == 1 then 'p' else if v == 2 then 'z' else if v == 3 then 'r'
    else if v == 4 then 'y' else if v == 5 then '9' else if v == 6 then 'x' else if v == 7 then '8'
    else if v == 8 then 'g' else if v == 9 then 'f' else if v == 10 then '2' else if v == 11 then 't'
    else if v == 12 then 'v' else if v == 13 then 'd' else if v == 14 then 'w' else if v == 15 then '0'
    else if v == 16 then 's' else if v == 17 then '3' else if v == 18 then 'j' else if v == 19 then 'n'
    else if v == 20 then '5' else if v == 21 then '4' else if v == 22 then 'k' else if v == 23 then 'h'
    else if v == 24 then 'c' else if v == 25 then 'e' else if v == 26 then '6' else if v == 27 then 'm'
    else if v == 28 then 'u' else if v == 29 then 'a' else if v == 30 then '7' else 'l'
  }

  lemma CodeBack(c: char)
    requires Code(c).Some?
    ensures Symbol(Code(c).value) == c && Code(c).value < 32
  {
  }

  /** The 32 characters of the alphabet and their words, in their order. */
  lemma AlphabetIs0()
    ensures Code('q') == Some(0) && Code('p') == Some(1) && Code('z') == Some(2) && Code('r') == Some(3)
    ensures Code('y') == Some(4) && Code('9') == Some(5) && Code('x') == Some(6) && Code('8') == Some(7)
  {
  }

  lemma AlphabetIs1()
    ensures Code('g') == Some(8) && Code('f') == Some(9) && Code('2') == Some(10) && Code('t') == Some(11)
    ensures Code('v') == Some(12) && Code('d') == Some(13) && Code('w') == Some(14) && Code('0') == Some(15)
  {
  }

  lemma AlphabetIs2()
    ensures Code('s') == Some(16) && Code('3') == Some(17) && Code('j') == Some(18) && Code('n') == Some(19)
    ensures Code('5') == Some(20) && Code('4') == Some(21) && Code('k') == Some(22) && Code('h') == Some(23)
  {
  }

  lemma AlphabetIs3()
    ensures Code('c') == Some(24) && Code('e') == Some(25) && Code('6') == Some(26) && Code('m') == Some(27)
    ensures Code('u') == Some(28) && Code('a') == Some(29) && Code('7') == Some(30) && Code('l') == Some(31)
  {
  }

  // ---- the checksum ----

  function Xor(a: bv32, b: bv32): bv32 {
    a ^ b
  }

  function Generator(i: int): bv32 {
    if i == 0 then 0x3b6a57b2 else if i == 1 then 0x26508e6d else if i == 2 then 0x1ea119fa
    else if i == 3 then 0x3d4233dd else 0x2a1462b3
  }

  // Whether (top >>> i) & 1 is set.
  predicate TopBit(checksum: bv32, i: int) {
    var top := checksum >> 25;
    if i == 0 then top & 1 != 0 else if i == 1 then (top >> 1) & 1 != 0 else if i == 2 then (top >> 2) & 1 != 0
    else if i == 3 then (top >> 3) & 1 != 0 else (top >> 4) & 1 != 0
  }

  function Shifted(checksum: bv32, value: bv32): bv32 {
    Xor((checksum & 0x1ffffff) << 5, value)
  }

  // What the first n of the five generators make of x.
  function Mixed(x: bv32, checksum: bv32, n: int): bv32
    requires 0 <= n <= 5
  {
    if n == 0 then x
    else if TopBit(checksum, n - 1) then Xor(Mixed(x, checksum, n - 1), Generator(n - 1))
    else Mixed(x, checksum, n - 1)
  }

  // One round of bech32Polymod.
  function Step(checksum: bv32, value: bv32): bv32 {
    Mixed(Shifted(checksum, value), checksum, 5)
  }

  function Polymod(checksum: bv32, values: seq<bv32>): bv32 {
    if values == [] then checksum else Step(Polymod(checksum, values[..|values| - 1]), values[|values| - 1])
  }

  method Bech32Polymod(values: seq<bv32>) returns (checksum: bv32)
    ensures checksum == Polymod(1, values)
  {
    hide Shifted, Xor, Generator, TopBit;
    checksum := 1;
    for i := 0 to |values|
      invariant checksum == Polymod(1, values[..i])
    {
      assert values[..i + 1][..i] == values[..i];
      var next := Shifted(checksum, values[i]);
      for index := 0 to 5
        invariant next == Mixed(Shifted(checksum, values[i]), checksum, index)
      {
        if TopBit(checksum, index) {
          next := Xor(next, Generator(index));
        }
      }
      checksum := next;
    }
    assert values[..|values|] == values;
  }

  // ---- a round is linear and loses nothing ----

  lemma TopBitLinear(a: bv32, b: bv32, i: int)
    ensures TopBit(Xor(a, b), i) <==> TopBit(a, i) != TopBit(b, i)
  {
  }

  lemma ShiftBits(a: bv32, b: bv32, x: bv32, y: bv32, ab: bv32, xy: bv32, sa: bv32, sb: bv32)
    requires ab == a ^ b && xy == x ^ y
    requires sa == ((a & 0x1ffffff) << 5) ^ x && sb == ((b & 0x1ffffff) << 5) ^ y
    ensures ((ab & 0x1ffffff) << 5) ^ xy == sa ^ sb
  {
  }

  lemma XorIs(a: bv32, b: bv32)
    ensures Xor(a, b) == a ^ b
  {
  }

  lemma ShiftedLinear(a: bv32, b: bv32, x: bv32, y: bv32)
    ensures Shifted(Xor(a, b), Xor(x, y)) == Xor(Shifted(a, x), Shifted(b, y))
  {
    hide Xor, Shifted;
    XorIs(a, b);
    XorIs(x, y);
    ShiftedIs(a, x);
    ShiftedIs(b, y);
    ShiftedIs(Xor(a, b), Xor(x, y));
    XorIs(Shifted(a, x), Shifted(b, y));
    ShiftBits(a, b, x, y, Xor(a, b), Xor(x, y), Shifted(a, x), Shifted(b, y));
  }

  lemma ShiftedIs(c: bv32, v: bv32)
    ensures Shifted(c, v) == ((c & 0x1ffffff) << 5) ^ v
  {
  }

  lemma CancelBits(a: bv32, b: bv32, g: bv32, ag: bv32, bg: bv32)
    requires ag == a ^ g && bg == b ^ g
    ensures ag ^ bg == a ^ b
  {
  }

  lemma XorCancels(a: bv32, b: bv32, g: bv32)
    ensures Xor(Xor(a, g), Xor(b, g)) == Xor(a, b)
  {
    hide Xor;
    XorIs(a, g);
    XorIs(b, g);
    XorIs(Xor(a, g), Xor(b, g));
    XorIs(a, b);
    CancelBits(a, b, g, Xor(a, g), Xor(b, g));
  }

  lemma MoveBits(a: bv32, b: bv32, g: bv32, ag: bv32, ab: bv32)
    requires ag == a ^ g && ab == a ^ b
    ensures ag ^ b == ab ^ g
  {
  }

  lemma XorMoves(a: bv32, b: bv32, g: bv32)
    ensures Xor(Xor(a, g), b) == Xor(Xor(a, b), g)
  {
    hide Xor;
    XorIs(a, g);
    XorIs(Xor(a, g), b);
    XorIs(a, b);
    XorIs(Xor(a, b), g);
    MoveBits(a, b, g, Xor(a, g), Xor(a, b));
  }

  lemma XorCommutes(a: bv32, b: bv32)
    ensures Xor(a, b) == Xor(b, a)
  {
    XorIs(a, b);
    XorIs(b, a);
  }

  lemma {:induction false} MixedLinear(x: bv32, y: bv32, a: bv32, b: bv32, n: int)
    requires 0 <= n <= 5
    ensures Mixed(Xor(x, y), Xor(a, b), n) == Xor(Mixed(x, a, n), Mixed(y, b, n))
  {
    hide Xor, TopBit, Generator;
    if n > 0 {
      MixedLinear(x, y, a, b, n - 1);
      TopBitLinear(a, b, n - 1);
      var mx, my, g := Mixed(x, a, n - 1), Mixed(y, b, n - 1), Generator(n - 1);
      XorCancels(mx, my, g);
      XorMoves(mx, my, g);
      XorMoves(my, mx, g);
      XorCommutes(mx, my);
      XorCommutes(mx, Xor(my, g));
    }
  }

  lemma StepLinear(a: bv32, b: bv32, x: bv32, y: bv32)
    ensures Step(Xor(a, b), Xor(x, y)) == Xor(Step(a, x), Step(b, y))
  {
    hide Xor, Shifted, Mixed;
    ShiftedLinear(a, b, x, y);
    MixedLinear(Shifted(a, x), Shifted(b, y), a, b, 5);
  }

  lemma {:induction false} MixedNext(x: bv32, checksum: bv32, n: int)
    requires 0 <= n < 5
    ensures Mixed(x, checksum, n + 1)
            == if TopBit(checksum, n) then Xor(Mixed(x, checksum, n), Generator(n)) else Mixed(x, checksum, n)
  {
    hide TopBit, Generator, Xor;
  }

  // The six values that one round goes through.
  predicate Rounds(c: bv32, v: bv32, m0: bv32, m1: bv32, m2: bv32, m3: bv32, m4: bv32, m5: bv32) {
    && m0 == Shifted(c, v)
    && m1 == (if TopBit(c, 0) then Xor(m0, Generator(0)) else m0)
    && m2 == (if TopBit(c, 1) then Xor(m1, Generator(1)) else m1)
    && m3 == (if TopBit(c, 2) then Xor(m2, Generator(2)) else m2)
    && m4 == (if TopBit(c, 3) then Xor(m3, Generator(3)) else m3)
    && m5 == (if TopBit(c, 4) then Xor(m4, Generator(4)) else m4)
  }

  lemma StepRounds(c: bv32, v: bv32) returns (m0: bv32, m1: bv32, m2: bv32, m3: bv32, m4: bv32)
    ensures Rounds(c, v, m0, m1, m2, m3, m4, Step(c, v))
  {
    hide Mixed, Xor, TopBit, Generator, Shifted;
    m0 := Shifted(c, v);
    MixedStart(m0, c);
    m1, m2, m3, m4 := Mixed(m0, c, 1), Mixed(m0, c, 2), Mixed(m0, c, 3), Mixed(m0, c, 4);
    MixedNext(m0, c, 0);
    MixedNext(m0, c, 1);
    MixedNext(m0, c, 2);
    MixedNext(m0, c, 3);
    MixedNext(m0, c, 4);
  }

  lemma MixedStart(x: bv32, checksum: bv32)
    ensures Mixed(x, checksum, 0) == x
  {
  }

  lemma StepInjective(c: bv32)
    requires c < 0x40000000 && Step(c, 0) == 0
    ensures c == 0
  {
    hide Step;
    var m0, m1, m2, m3, m4 := StepRounds(c, 0);
    RoundsInjective(c, m0, m1, m2, m3, m4);
  }

  lemma RoundsInjective(c: bv32, m0: bv32, m1: bv32, m2: bv32, m3: bv32, m4: bv32)
    requires c < 0x40000000 && Rounds(c, 0, m0, m1, m2, m3, m4, 0)
    ensures c == 0
  {
  }

  lemma StepBounded(c: bv32, v: bv32)
    requires c < 0x40000000 && v < 32
    ensures Step(c, v) < 0x40000000
  {
    hide Step;
    var m0, m1, m2, m3, m4 := StepRounds(c, v);
    RoundsBounded(c, v, m0, m1, m2, m3, m4, Step(c, v));
  }

  lemma RoundsBounded(c: bv32, v: bv32, m0: bv32, m1: bv32, m2: bv32, m3: bv32, m4: bv32, m5: bv32)
    requires c < 0x40000000 && v < 32 && Rounds(c, v, m0, m1, m2, m3, m4, m5)
    ensures m5 < 0x40000000
  {
  }

  // As long as it is short, the checksum is just the values one after the other.
  function Bound(k: int): bv32 {
    if k <= 1 then 0x20 else if k == 2 then 0x400 else if k == 3 then 0x8000
    else if k == 4 then 0x100000 else if k == 5 then 0x2000000 else 0x40000000
  }

  lemma StepShort(c: bv32, v: bv32, k: int)
    requires 1 <= k <= 5 && 0 < c < Bound(k) && v < 32
    ensures 0 < Step(c, v) < Bound(k + 1)
  {
    hide Step;
    var m0, m1, m2, m3, m4 := StepRounds(c, v);
    ShortRound(c, v, Bound(k), Bound(k + 1), m0, m1, m2, m3, m4, Step(c, v));
  }

  lemma ShortRound(c: bv32, v: bv32, b: bv32, b': bv32,
                   m0: bv32, m1: bv32, m2: bv32, m3: bv32, m4: bv32, m5: bv32)
    requires Rounds(c, v, m0, m1, m2, m3, m4, m5)
    requires 0 < c < b && v < 32
    requires (b == 0x20 && b' == 0x400) || (b == 0x400 && b' == 0x8000) || (b == 0x8000 && b' == 0x100000)
             || (b == 0x100000 && b' == 0x2000000) || (b == 0x2000000 && b' == 0x40000000)
    ensures 0 < m5 < b'
  {
  }

  // ---- sequences of rounds ----

  function Diff(xs: seq<bv32>, ys: seq<bv32>): (ds: seq<bv32>)
    requires |xs| == |ys|
    ensures |ds| == |xs|
  {
    seq(|xs|, i requires 0 <= i < |xs| => Xor(xs[i], ys[i]))
  }

  /** The checksum of a difference is the difference of the checksums. */
  lemma {:induction false} PolymodLinear(a: bv32, b: bv32, xs: seq<bv32>, ys: seq<bv32>)
    requires |xs| == |ys|
    ensures Polymod(Xor(a, b), Diff(xs, ys)) == Xor(Polymod(a, xs), Polymod(b, ys))
    decreases |xs|
  {
    hide Xor, Step;
    if xs != [] {
      var last := |xs| - 1;
      PolymodLinear(a, b, xs[..last], ys[..last]);
      assert Diff(xs, ys)[..last] == Diff(xs[..last], ys[..last]);
      StepLinear(Polymod(a, xs[..last]), Polymod(b, ys[..last]), xs[last], ys[last]);
    }
  }

  lemma StepOfZero(v: bv32)
    ensures v < 32 ==> Step(0, v) == v
  {
    hide Step;
    var m0, m1, m2, m3, m4 := StepRounds(0, v);
    RoundsOfZero(v, m0, m1, m2, m3, m4, Step(0, v));
  }

  lemma RoundsOfZero(v: bv32, m0: bv32, m1: bv32, m2: bv32, m3: bv32, m4: bv32, m5: bv32)
    requires Rounds(0, v, m0, m1, m2, m3, m4, m5)
    ensures v < 32 ==> m5 == v
  {
  }

  predicate Words(ds: seq<bv32>) {
    forall k :: 0 <= k < |ds| ==> ds[k] < 32
  }

  lemma {:induction false} ZeroPolymod(ds: seq<bv32>)
    requires forall k :: 0 <= k < |ds| ==> ds[k] == 0
    ensures Polymod(0, ds) == 0
    decreases |ds|
  {
    hide Step;
    if ds != [] {
      ZeroPolymod(ds[..|ds| - 1]);
      StepOfZero(0);
    }
  }

  /** A difference that begins at j and ends within the next six places never cancels out. */
  lemma {:induction false} BurstRemains(ds: seq<bv32>, j: int, n: int)
    requires Words(ds) && 0 <= j < n <= |ds| && ds[j] != 0
    requires forall k :: 0 <= k < |ds| && (k < j || k >= j + 6) ==> ds[k] == 0
    ensures 0 < Polymod(0, ds[..n]) < 0x40000000
    ensures n - j <= 6 ==> Polymod(0, ds[..n]) < Bound(n - j)
    decreases n
  {
    hide Step;
    assert ds[..n][..n - 1] == ds[..n - 1];
    var c := Polymod(0, ds[..n - 1]);
    if n == j + 1 {
      ZeroPolymod(ds[..j]);
      StepOfZero(ds[j]);
    } else {
      BurstRemains(ds, j, n - 1);
      if n - 1 - j <= 5 {
        StepShort(c, ds[n - 1], n - 1 - j);
        StepBounded(c, ds[n - 1]);
      } else {
        StepBounded(c, 0);
        if Step(c, 0) == 0 {
          StepInjective(c);
        }
      }
    }
  }

  // ---- validBitcoinBech32 ----

  // String.lastIndexOf.
  function LastIndexOf(s: string, c: char): (i: int)
    ensures -1 <= i < |s|
  {
    if s == [] then -1 else if s[|s| - 1] == c then |s| - 1 else LastIndexOf(s[..|s| - 1], c)
  }

  // bech32PrefixExpand.
  function PrefixExpand(prefix: string): (values: seq<bv32>)
    ensures |values| == 2 * |prefix| + 1
  {
    seq(|prefix|, i requires 0 <= i < |prefix| => (prefix[i] as int / 32) as bv32) + [0]
    + seq(|prefix|, i requires 0 <= i < |prefix| => (prefix[i] as int % 32) as bv32)
  }

  predicate InAlphabet(s: string) {
    forall i :: 0 <= i < |s| ==> Code(s[i]).Some?
  }

  function Codes(s: string): (values: seq<bv32>)
    requires InAlphabet(s)
    ensures |values| == |s|
  {
    seq(|s|, i requires 0 <= i < |s| => Code(s[i]).value)
  }

  const SEGWIT: bv32 := 1
  const TAPROOT: bv32 := 0x2bc830a3

  predicate ValidBitcoinBech32(value: string) {
    && (value == Lower(value) || value == Upper(value))
    && var normalized := Lower(value);
       var separator := LastIndexOf(normalized, '1');
       separator >= 1 && |normalized| - separator >= 7 && |normalized| <= 90
       && normalized[..separator] == "bc"
       && var data := normalized[separator + 1..];
          InAlphabet(data)
          && Polymod(1, PrefixExpand("bc") + Codes(data)) == if Codes(data)[0] == 0 then SEGWIT else TAPROOT
  }

  // What the checksum sees of a valid string: everything after `bc1`.
  function Data(value: string): string
    requires |value| >= 3
  {
    Lower(value)[3..]
  }

  lemma ValidData(value: string)
    requires ValidBitcoinBech32(value)
    ensures |value| >= 9 && Lower(value)[..2] == "bc" && Lower(value)[2] == '1' && InAlphabet(Data(value))
    ensures Polymod(1, PrefixExpand("bc") + Codes(Data(value)))
            == if Codes(Data(value))[0] == 0 then SEGWIT else TAPROOT
  {
    hide Polymod, PrefixExpand, Codes, InAlphabet, Lower, Upper;
    var separator := LastIndexOf(Lower(value), '1');
    assert |Lower(value)[..separator]| == separator;
    LastIndexIs(Lower(value), '1');
  }

  lemma {:induction false} LastIndexIs(s: string, c: char)
    ensures LastIndexOf(s, c) >= 0 ==> s[LastIndexOf(s, c)] == c
    decreases |s|
  {
    if s != [] {
      LastIndexIs(s[..|s| - 1], c);
    }
  }

  lemma {:induction false} LastIndexAt(s: string, c: char, k: int)
    requires 0 <= k < |s| && s[k] == c && forall i :: k < i < |s| ==> s[i] != c
    ensures LastIndexOf(s, c) == k
    decreases |s|
  {
    if k < |s| - 1 {
      LastIndexAt(s[..|s| - 1], c, k);
    }
  }

  lemma NoSeparator(s: string)
    requires InAlphabet(s)
    ensures forall i :: 0 <= i < |s| ==> s[i] != '1'
  {
    OneIsNoCode();
    hide Code;
  }

  lemma OneIsNoCode()
    ensures Code('1') == None
  {
  }

  /** A string is accepted exactly if it mixes no cases, has 9 to 90 characters, and is `bc1` and at least six
      characters of the alphabet, whose checksum is 1 if the first of them is `q`, and otherwise the constant of
      BIP 350. */
  lemma ValidIff(value: string)
    ensures ValidBitcoinBech32(value)
            <==> && ((forall i :: 0 <= i < |value| ==> !('A' <= value[i] <= 'Z'))
                     || (forall i :: 0 <= i < |value| ==> !('a' <= value[i] <= 'z')))
                 && 9 <= |value| <= 90 && Lower(value)[..3] == "bc1" && InAlphabet(Lower(value)[3..])
                 && Polymod(1, [3, 3, 0, 2, 3] + Codes(Lower(value)[3..]))
                    == if Lower(value)[3] == 'q' then 1 else 0x2bc830a3
  {
    hide Polymod, Code, PrefixExpand, InAlphabet, Lower, Upper, LastIndexOf;
    OneCase(value);
    ExpandPrefix();
    var n := Lower(value);
    if ValidBitcoinBech32(value) {
      ValidData(value);
      assert n[..3] == n[..2] + [n[2]];
      FirstCode(Data(value));
    }
    if 9 <= |n| && n[..3] == "bc1" && InAlphabet(n[3..]) {
      SeparatorIs(n);
      assert n[2 + 1..] == n[3..] && n[..2] == n[..3][..2];
      FirstCode(n[3..]);
    }
  }

  lemma SeparatorIs(n: string)
    requires |n| > 3 && n[..3] == "bc1" && InAlphabet(n[3..])
    ensures LastIndexOf(n, '1') == 2
  {
    hide InAlphabet;
    NoSeparator(n[3..]);
    assert n[2] == n[..3][2];
    forall i | 2 < i < |n|
      ensures n[i] != '1'
    {
      assert n[i] == n[3..][i - 3];
    }
    LastIndexAt(n, '1', 2);
  }

  lemma FirstCode(s: string)
    requires s != [] && InAlphabet(s)
    ensures Codes(s)[0] == 0 <==> s[0] == 'q'
  {
    assert Code(s[0]).Some?;
    hide Code;
    ZeroIsQ(s[0]);
  }

  lemma ZeroBits(x: bv32, y: bv32, xy: bv32)
    requires xy == x ^ y
    ensures xy == 0 <==> x == y
  {
  }

  lemma XorZero(x: bv32, y: bv32)
    ensures Xor(x, y) == 0 <==> x == y
  {
    hide Xor;
    XorIs(x, y);
    ZeroBits(x, y, Xor(x, y));
  }

  lemma XorWords(x: bv32, y: bv32)
    requires x < 32 && y < 32
    ensures Xor(x, y) < 32
  {
  }

  lemma SameCode(c: char, d: char)
    requires Code(c).Some? && Code(c) == Code(d)
    ensures c == d
  {
    hide Code, Symbol;
    CodeBack(c);
    CodeBack(d);
  }

  // Two sequences of words whose difference is short have different checksums.
  lemma ShortDifference(xs: seq<bv32>, ys: seq<bv32>, j: int)
    requires |xs| == |ys| && Words(xs) && Words(ys) && 0 <= j < |xs| && xs[j] != ys[j]
    requires forall k :: 0 <= k < |xs| && (k < j || k >= j + 6) ==> xs[k] == ys[k]
    ensures Polymod(1, xs) != Polymod(1, ys)
  {
    hide Xor, Polymod, Step;
    var ds := Diff(xs, ys);
    forall k | 0 <= k < |ds|
      ensures ds[k] < 32 && (ds[k] == 0 <==> xs[k] == ys[k])
    {
      XorZero(xs[k], ys[k]);
      XorWords(xs[k], ys[k]);
    }
    BurstRemains(ds, j, |ds|);
    assert ds[..|ds|] == ds;
    PolymodLinear(1, 1, xs, ys);
    XorZero(1, 1);
    XorZero(Polymod(1, xs), Polymod(1, ys));
  }

  // The first place where two strings differ.
  function FirstDifference(a: string, b: string): (j: int)
    requires |a| == |b| && a != b
    ensures 0 <= j < |a| && a[j] != b[j] && a[..j] == b[..j]
  {
    if a[0] != b[0] then 0
    else
      assert a == [a[0]] + a[1..] && b == [b[0]] + b[1..];
      1 + FirstDifference(a[1..], b[1..])
  }

  // ---- the words that the checksum sees ----

  function Symbols(value: string): (xs: seq<bv32>)
    requires |value| >= 3 && InAlphabet(Data(value))
    ensures |xs| == |value| + 2
  {
    PrefixExpand("bc") + Codes(Data(value))
  }

  lemma ExpandPrefix()
    ensures PrefixExpand("bc") == [3, 3, 0, 2, 3]
  {
    var prefix := "bc";
    assert prefix[0] == 'b' && prefix[1] == 'c';
  }

  lemma SymbolsAreWords(value: string)
    requires |value| >= 3 && InAlphabet(Data(value))
    ensures Words(Symbols(value))
  {
    hide Code, Lower, InAlphabet;
    ExpandPrefix();
    forall k | 0 <= k < |Symbols(value)|
      ensures Symbols(value)[k] < 32
    {
      if k < 5 {
        assert Symbols(value)[k] == [3, 3, 0, 2, 3][k];
      } else {
        CodeAt(Data(value), k - 5);
      }
    }
  }

  lemma CodeAt(s: string, k: int)
    requires InAlphabet(s) && 0 <= k < |s|
    ensures Code(s[k]).Some? && Codes(s)[k] == Code(s[k]).value < 32 && Symbol(Codes(s)[k]) == s[k]
  {
    assert Code(s[k]).Some?;
    hide Code, Symbol;
    CodeBack(s[k]);
  }

  // Strings of one length with the same prefix differ where their words do.
  lemma SymbolsDiffer(a: string, b: string, k: int)
    requires |a| == |b| >= 3 && InAlphabet(Data(a)) && InAlphabet(Data(b)) && 3 <= k < |a|
    ensures Symbols(a)[k + 2] == Symbols(b)[k + 2] <==> Lower(a)[k] == Lower(b)[k]
  {
    hide Code, Symbol, Lower, InAlphabet;
    CodeAt(Data(a), k - 3);
    CodeAt(Data(b), k - 3);
  }

  lemma SamePrefix(a: string, b: string, k: int)
    requires |a| == |b| >= 3 && InAlphabet(Data(a)) && InAlphabet(Data(b)) && 0 <= k < 5
    ensures Symbols(a)[k] == Symbols(b)[k]
  {
  }

  /** Both have witness version 0, or neither has: their checksums must be the same. */
  predicate SameConstant(a: string, b: string) {
    |a| > 3 && |b| > 3 && (Lower(a)[3] == 'q' <==> Lower(b)[3] == 'q')
  }

  lemma ZeroIsQ(c: char)
    requires Code(c).Some?
    ensures Code(c).value == 0 <==> c == 'q'
  {
    hide Code;
    CodeBack(c);
    CodeOfQ();
    if Code(c).value == 0 {
      SameCode(c, 'q');
    }
  }

  lemma CodeOfQ()
    ensures Code('q') == Some(0)
  {
  }

  lemma SameChecksum(a: string, b: string)
    requires ValidBitcoinBech32(a) && ValidBitcoinBech32(b) && SameConstant(a, b)
    ensures |a| <= 90 && InAlphabet(Data(a)) && InAlphabet(Data(b))
    ensures Lower(a)[..3] == Lower(b)[..3]
    ensures Polymod(1, Symbols(a)) == Polymod(1, Symbols(b))
  {
    assert |a| <= 90;
    hide Polymod, PrefixExpand, Code, Lower, Upper, ValidBitcoinBech32;
    ValidData(a);
    ValidData(b);
    var x, y := Lower(a), Lower(b);
    assert x[..3] == x[..2] + [x[2]] && y[..3] == y[..2] + [y[2]];
    assert Data(a)[0] == x[3] && Data(b)[0] == y[3];
    ZeroIsQ(x[3]);
    ZeroIsQ(y[3]);
  }

  /** No two valid strings of one length, whose checksums must be the same, differ only within six consecutive
      places: in particular not in a single character. */
  lemma NoShortErrors(a: string, b: string, i: int)
    requires ValidBitcoinBech32(a) && ValidBitcoinBech32(b) && |a| == |b| && SameConstant(a, b)
    requires forall k :: 0 <= k < |a| && (k < i || k >= i + 6) ==> Lower(a)[k] == Lower(b)[k]
    ensures Lower(a) == Lower(b)
  {
    hide Polymod, Code, Lower, Upper, PrefixExpand, ValidBitcoinBech32, InAlphabet, Symbols, SameConstant;
    SameChecksum(a, b);
    var x, y := Lower(a), Lower(b);
    if x != y {
      var j := FirstDifference(x, y);
      assert j >= 3 by {
        assert forall k :: 0 <= k < 3 ==> x[k] == x[..3][k] && y[k] == y[..3][k];
      }
      SymbolsAreWords(a);
      SymbolsAreWords(b);
      SymbolsDiffer(a, b, j);
      forall k | 0 <= k < |Symbols(a)| && (k < j + 2 || k >= j + 8)
        ensures Symbols(a)[k] == Symbols(b)[k]
      {
        if k < 5 {
          SamePrefix(a, b, k);
        } else {
          SymbolsDiffer(a, b, k - 2);
          assert k - 2 < j ==> x[..j][k - 2] == y[..j][k - 2];
        }
      }
      ShortDifference(Symbols(a), Symbols(b), j + 2);
    }
  }
}
