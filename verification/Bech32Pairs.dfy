/** Two wrong characters, wherever they are, are detected. The checksum is linear over the field of 32 elements, so it
    is enough to follow a difference of 1 through as many rounds as a string can have. */
module Bech32Pairs {
  import opened Text
  import opened Bech32

  // ---- a round with the value 0 ----

  function Chosen(b: bool, g: bv32): bv32 {
    if b then g else 0
  }

  function Mix(x: bv32, b0: bool, b1: bool, b2: bool, b3: bool, b4: bool): bv32 {
    Xor(Xor(Xor(Xor(Xor(x, Chosen(b0, Generator(0))), Chosen(b1, Generator(1))), Chosen(b2, Generator(2))),
            Chosen(b3, Generator(3))), Chosen(b4, Generator(4)))
  }

  function Zero(c: bv32): bv32 {
    Mix(Shifted(c, 0), TopBit(c, 0), TopBit(c, 1), TopBit(c, 2), TopBit(c, 3), TopBit(c, 4))
  }

  lemma XorNothing(x: bv32)
    ensures Xor(x, 0) == x && Xor(0, x) == x
  {
  }

  lemma OneRound(b: bool, m: bv32, g: bv32)
    ensures (if b then Xor(m, g) else m) == Xor(m, Chosen(b, g))
  {
    hide Xor;
    XorNothing(m);
  }

  lemma StepIsZero(c: bv32)
    ensures Step(c, 0) == Zero(c)
  {
    hide Step, Chosen, Shifted, TopBit, Xor, Generator;
    var m0, m1, m2, m3, m4 := StepRounds(c, 0);
    OneRound(TopBit(c, 0), m0, Generator(0));
    OneRound(TopBit(c, 1), m1, Generator(1));
    OneRound(TopBit(c, 2), m2, Generator(2));
    OneRound(TopBit(c, 3), m3, Generator(3));
    OneRound(TopBit(c, 4), m4, Generator(4));
  }

  // ---- multiplication by the generating element of the field, in each of the six words ----

  // The words without their highest bits.
  function Low(c: bv32): bv32 {
    (c & 0x1ef7bdef) << 1
  }

  // The highest bits, each at the start of its word.
  function High(c: bv32): bv32 {
    (c >> 4) & 0x2108421
  }

  function Fourth(h: bv32): bv32 {
    h << 3
  }

  function Times(c: bv32): bv32 {
    Xor(Xor(Low(c), High(c)), Fourth(High(c)))
  }

  lemma TimesBounded(c: bv32)
    requires c < 0x40000000
    ensures Times(c) < 0x40000000 && (Times(c) < 0x20 <==> c < 0x20)
  {
  }

  lemma TimesShifted(c: bv32)
    requires c < 0x40000000
    ensures Shifted(Times(c), 0) == Times(Shifted(c, 0))
  {
  }

  lemma TimesTop(c: bv32)
    requires c < 0x40000000
    ensures TopBit(Times(c), 0) == TopBit(c, 4) && TopBit(Times(c), 1) == TopBit(c, 0)
    ensures TopBit(Times(c), 2) == TopBit(c, 1) && TopBit(Times(c), 3) == (TopBit(c, 2) != TopBit(c, 4))
    ensures TopBit(Times(c), 4) == TopBit(c, 3)
  {
  }

  lemma AssociateBits(a: bv32, b: bv32, c: bv32, ab: bv32, bc: bv32)
    requires ab == a ^ b && bc == b ^ c
    ensures ab ^ c == a ^ bc
  {
  }

  lemma XorAssociates(a: bv32, b: bv32, c: bv32)
    ensures Xor(Xor(a, b), c) == Xor(a, Xor(b, c))
  {
    hide Xor;
    XorIs(a, b);
    XorIs(b, c);
    XorIs(Xor(a, b), c);
    XorIs(a, Xor(b, c));
    AssociateBits(a, b, c, Xor(a, b), Xor(b, c));
  }

  lemma LowXor(x: bv32, y: bv32)
    ensures Low(Xor(x, y)) == Xor(Low(x), Low(y))
  {
  }

  lemma HighXor(x: bv32, y: bv32)
    ensures High(Xor(x, y)) == Xor(High(x), High(y))
  {
  }

  lemma FourthXor(x: bv32, y: bv32)
    ensures Fourth(Xor(x, y)) == Xor(Fourth(x), Fourth(y))
  {
  }

  lemma XorSwaps(a: bv32, a': bv32, b: bv32, b': bv32)
    ensures Xor(Xor(a, a'), Xor(b, b')) == Xor(Xor(a, b), Xor(a', b'))
  {
    hide Xor;
    XorAssociates(Xor(a, a'), b, b');
    XorAssociates(Xor(a, b), a', b');
    XorMoves(a, b, a');
  }

  lemma TimesXor(x: bv32, y: bv32)
    ensures Times(Xor(x, y)) == Xor(Times(x), Times(y))
  {
    hide Xor, Low, High, Fourth;
    LowXor(x, y);
    HighXor(x, y);
    FourthXor(High(x), High(y));
    XorSwaps(Low(x), Low(y), High(x), High(y));
    XorSwaps(Xor(Low(x), High(x)), Xor(Low(y), High(y)), Fourth(High(x)), Fourth(High(y)));
  }

  lemma TimesGenerators()
    ensures Times(Generator(0)) == Generator(1) && Times(Generator(1)) == Generator(2)
    ensures Times(Generator(2)) == Generator(3) && Times(Generator(3)) == Generator(4)
    ensures Times(Generator(4)) == Xor(Generator(0), Generator(3)) && Times(0) == 0
  {
  }

  lemma TimesChosen(b: bool, g: bv32)
    ensures Times(Chosen(b, g)) == Chosen(b, Times(g))
  {
  }

  // Times is taken into the sum.
  lemma TimesInside(x: bv32, b0: bool, b1: bool, b2: bool, b3: bool, b4: bool)
    ensures Times(Mix(x, b0, b1, b2, b3, b4))
            == Xor(Xor(Xor(Xor(Xor(Times(x), Chosen(b0, Generator(1))), Chosen(b1, Generator(2))),
                           Chosen(b2, Generator(3))), Chosen(b3, Generator(4))),
                   Chosen(b4, Xor(Generator(0), Generator(3))))
  {
    hide Times, Xor, Chosen, Generator;
    TimesGenerators();
    var g0, g1, g2, g3 := Chosen(b0, Generator(0)), Chosen(b1, Generator(1)), Chosen(b2, Generator(2)),
                          Chosen(b3, Generator(3));
    TimesXor(x, g0);
    TimesXor(Xor(x, g0), g1);
    TimesXor(Xor(Xor(x, g0), g1), g2);
    TimesXor(Xor(Xor(Xor(x, g0), g1), g2), g3);
    TimesXor(Xor(Xor(Xor(Xor(x, g0), g1), g2), g3), Chosen(b4, Generator(4)));
    TimesChosen(b0, Generator(0));
    TimesChosen(b1, Generator(1));
    TimesChosen(b2, Generator(2));
    TimesChosen(b3, Generator(3));
    TimesChosen(b4, Generator(4));
  }

  lemma XorTwice(a: bv32, g: bv32)
    ensures Xor(Xor(a, g), g) == a
  {
    hide Xor;
    XorAssociates(a, g, g);
    XorZero(g, g);
    XorNothing(a);
  }

  // The third generator is chosen once more if the fifth bit is set.
  lemma ChosenTwice(w: bv32, b: bool, g: bv32)
    ensures Xor(Xor(w, Chosen(b, g)), g) == Xor(w, Chosen(!b, g))
  {
    hide Xor;
    XorTwice(w, g);
    XorNothing(w);
  }

  lemma TimesMix(x: bv32, b0: bool, b1: bool, b2: bool, b3: bool, b4: bool)
    ensures Times(Mix(x, b0, b1, b2, b3, b4)) == Mix(Times(x), b4, b0, b1, b2 != b4, b3)
  {
    TimesInside(x, b0, b1, b2, b3, b4);
    var y, h0, h1, h2, h3 := Times(x), Chosen(b0, Generator(1)), Chosen(b1, Generator(2)),
                             Chosen(b2 != b4, Generator(3)), Chosen(b3, Generator(4));
    var g0, g3 := Generator(0), Generator(3);
    hide Times, Xor, Generator;
    if b4 {
      var w := Xor(Xor(y, h0), h1);
      var v := Xor(w, Chosen(b2, g3));
      XorCommutes(g0, g3);
      XorAssociates(Xor(v, h3), g3, g0);
      XorMoves(v, h3, g3);
      XorMoves(v, g3, h3);
      ChosenTwice(w, b2, g3);
      XorMoves(y, h0, g0);
      XorMoves(Xor(y, h0), h1, g0);
      XorMoves(w, h2, g0);
      XorMoves(Xor(w, h2), h3, g0);
    } else {
      XorNothing(y);
      XorNothing(Xor(Xor(Xor(Xor(y, h0), h1), h2), h3));
    }
  }

  lemma TimesStep(c: bv32)
    requires c < 0x40000000
    ensures Step(Times(c), 0) == Times(Step(c, 0))
  {
    hide Times, Mix, TopBit, Shifted, Step;
    StepIsZero(c);
    StepIsZero(Times(c));
    TimesShifted(c);
    TimesTop(c);
    TimesMix(Shifted(c, 0), TopBit(c, 0), TopBit(c, 1), TopBit(c, 2), TopBit(c, 3), TopBit(c, 4));
  }

  // ---- many rounds ----

  function Zeros(c: bv32, k: nat): bv32 {
    if k == 0 then c else Step(Zeros(c, k - 1), 0)
  }

  lemma {:induction false} ZerosAdd(c: bv32, j: nat, k: nat)
    ensures Zeros(Zeros(c, j), k) == Zeros(c, j + k)
    decreases k
  {
    hide Step;
    if k > 0 {
      ZerosAdd(c, j, k - 1);
    }
  }

  lemma {:induction false} ZerosBounded(c: bv32, k: nat)
    requires c < 0x40000000
    ensures Zeros(c, k) < 0x40000000
  {
    hide Step;
    if k > 0 {
      ZerosBounded(c, k - 1);
      StepBounded(Zeros(c, k - 1), 0);
    }
  }

  lemma {:induction false} TimesZeros(c: bv32, k: nat)
    requires c < 0x40000000
    ensures Zeros(Times(c), k) == Times(Zeros(c, k))
  {
    hide Step, Times;
    if k > 0 {
      TimesZeros(c, k - 1);
      ZerosBounded(c, k - 1);
      TimesStep(Zeros(c, k - 1));
    }
  }

  /** After one to n rounds c is not a single word again. */
  predicate Far(c: bv32, n: nat) {
    forall k :: 1 <= k <= n ==> 0x20 <= Zeros(c, k)
  }

  lemma TimesFar(c: bv32, n: nat)
    requires c < 0x40000000 && Far(c, n)
    ensures Times(c) < 0x40000000 && Far(Times(c), n)
  {
    hide Times, Zeros;
    TimesBounded(c);
    forall k | 1 <= k <= n
      ensures 0x20 <= Zeros(Times(c), k)
    {
      TimesZeros(c, k);
      ZerosBounded(c, k);
      TimesBounded(Zeros(c, k));
    }
  }

  // ---- the first 88 rounds from 1 ----

  predicate Goes(c: bv32, d: bv32) {
    Zero(c) == d && 0x20 <= d
  }

  predicate Eight(c: bv32, d: bv32) {
    var c1 := Zero(c);
    var c2 := Zero(c1);
    var c3 := Zero(c2);
    var c4 := Zero(c3);
    var c5 := Zero(c4);
    var c6 := Zero(c5);
    var c7 := Zero(c6);
    && 0x20 <= c1 && 0x20 <= c2 && 0x20 <= c3 && 0x20 <= c4 && 0x20 <= c5 && 0x20 <= c6 && 0x20 <= c7
    && Zero(c7) == d && 0x20 <= d
  }

  lemma EightOf(c0: bv32, c1: bv32, c2: bv32, c3: bv32, c4: bv32, c5: bv32, c6: bv32, c7: bv32, c8: bv32)
    requires Goes(c0, c1) && Goes(c1, c2) && Goes(c2, c3) && Goes(c3, c4)
    requires Goes(c4, c5) && Goes(c5, c6) && Goes(c6, c7) && Goes(c7, c8)
    ensures Eight(c0, c8)
  {
    hide Zero;
  }

  lemma ZerosNext(c: bv32, k: nat)
    ensures Zeros(c, k + 1) == Zero(Zeros(c, k))
  {
    hide Step, Zero;
    StepIsZero(Zeros(c, k));
  }

  lemma EightSteps(c: bv32, d: bv32)
    requires Eight(c, d)
    ensures Zeros(c, 8) == d && Far(c, 8)
  {
    hide Zero, Step;
    ZerosNext(c, 0);
    ZerosNext(c, 1);
    ZerosNext(c, 2);
    ZerosNext(c, 3);
    ZerosNext(c, 4);
    ZerosNext(c, 5);
    ZerosNext(c, 6);
    ZerosNext(c, 7);
    assert Zeros(c, 0) == c;
    hide Zeros;
    forall k | 1 <= k <= 8
      ensures 0x20 <= Zeros(c, k)
    {
      assert k == 1 || k == 2 || k == 3 || k == 4 || k == 5 || k == 6 || k == 7 || k == 8;
    }
  }

  lemma FarFurther(m: nat, c: bv32, d: bv32)
    requires Zeros(1, m) == c && Far(1, m) && Eight(c, d)
    ensures Zeros(1, m + 8) == d && Far(1, m + 8)
  {
    hide Eight, Zeros;
    EightSteps(c, d);
    ZerosAdd(1, m, 8);
    forall k | 1 <= k <= m + 8
      ensures 0x20 <= Zeros(1, k)
    {
      if k > m {
        ZerosAdd(1, m, k - m);
      }
    }
  }

  lemma Eight0()
    ensures Eight(0x1, 0x424df38)
  {
    hide Eight;
    EightOf(0x1, 0x20, 0x400, 0x8000, 0x100000,
            0x2000000, 0x3b6a57b2, 0x1fd7e966, 0x424df38);
  }

  lemma Eight1()
    ensures Eight(0x424df38, 0x714461b)
  {
    hide Eight;
    EightOf(0x424df38, 0x22cb696d, 0x81318a1, 0x1cc20dda, 0x1df21f0a,
            0x3bf0450a, 0xc95be66, 0x2a465b57, 0x714461b);
  }

  lemma Eight2()
    ensures Eight(0x714461b, 0x3c1fc3a8)
  {
    hide Eight;
    EightOf(0x714461b, 0x3fb21abf, 0x228ec6ab, 0xa6e061, 0x14dc0c20,
            0x9339b0, 0x12673600, 0xacea46f, 0x3c1fc3a8);
  }

  lemma Eight3()
    ensures Eight(0x3c1fc3a8, 0x1a5588bf)
  {
    hide Eight;
    EightOf(0x3c1fc3a8, 0x2c5fb3f9, 0x19138a04, 0x1926aa7, 0x324d54e0,
            0x25969adc, 0x3e97b75e, 0x63b7a8b, 0x1a5588bf);
  }

  lemma Eight4()
    ensures Eight(0x1a5588bf, 0x2418480a)
  {
    hide Eight;
    EightOf(0x1a5588bf, 0x12386a75, 0x1252acf, 0x24a559e0, 0x18efd0de,
            0x3e1931e7, 0x17ebadab, 0x1d0d5f62, 0x2418480a);
  }

  lemma Eight5()
    ensures Eight(0x2418480a, 0x20d4cef0)
  {
    hide Eight;
    EightOf(0x2418480a, 0xf4ded9e, 0x2a2673e5, 0xb11505b, 0x7e14528,
            0x21127cdf, 0x85bf953, 0x15de339a, 0x20d4cef0);
  }

  lemma Eight6()
    ensures Eight(0x20d4cef0, 0x2b524659)
  {
    hide Eight;
    EightOf(0x20d4cef0, 0x308dbcb3, 0x6e1c70e, 0x102381f, 0x204703e0,
            0x22f41eb3, 0xffde361, 0x3c27ac05, 0x2b524659);
  }

  lemma Eight7()
    ensures Eight(0x2b524659, 0x2740d4a7)
  {
    hide Eight;
    EightOf(0x2b524659, 0x2597e7db, 0x3eb817be, 0x3cf668b, 0x28686d2,
            0x2bba8df2, 0x388e92bb, 0x18251ff4, 0x2740d4a7);
  }

  lemma Eight8()
    ensures Eight(0x2740d4a7, 0x3ad4dafa)
  {
    hide Eight;
    EightOf(0x2740d4a7, 0x1f342f8c, 0x185c0278, 0x28636527, 0x38d9dfa9,
            0x12ccbdb4, 0x1fbfd2ef, 0x923ae18, 0x3ad4dafa);
  }

  lemma Eight9()
    ensures Eight(0x3ad4dafa, 0x33295b93)
  {
    hide Eight;
    EightOf(0x3ad4dafa, 0x28064066, 0x347d7789, 0x3ea82e23, 0x1c8552b,
            0x390aa560, 0x28a3e494, 0x20c9e9c9, 0x33295b93);
  }

  lemma Eight10()
    ensures Eight(0x33295b93, 0x145b223e)
  {
    hide Eight;
    EightOf(0x33295b93, 0x91774bc, 0x3c4f8e7a, 0x265609b9, 0x3def8c4c,
            0x12564f79, 0xce18b4f, 0x24c0fe77, 0x145b223e);
  }

  lemma FarAtFirst()
    ensures Zeros(1, 0) == 1 && Far(1, 0)
  {
    hide Step;
  }

  lemma FarThird()
    ensures Zeros(1, 32) == 0x1a5588bf && Far(1, 32)
  {
    hide Zeros, Far, Eight;
    FarAtFirst();
    Eight0();
    FarFurther(0, 0x1, 0x424df38);
    Eight1();
    FarFurther(8, 0x424df38, 0x714461b);
    Eight2();
    FarFurther(16, 0x714461b, 0x3c1fc3a8);
    Eight3();
    FarFurther(24, 0x3c1fc3a8, 0x1a5588bf);
  }

  lemma FarTwoThirds()
    ensures Zeros(1, 64) == 0x2740d4a7 && Far(1, 64)
  {
    hide Zeros, Far, Eight;
    FarThird();
    Eight4();
    FarFurther(32, 0x1a5588bf, 0x2418480a);
    Eight5();
    FarFurther(40, 0x2418480a, 0x20d4cef0);
    Eight6();
    FarFurther(48, 0x20d4cef0, 0x2b524659);
    Eight7();
    FarFurther(56, 0x2b524659, 0x2740d4a7);
  }

  lemma OneIsFar()
    ensures Far(1, 88)
  {
    hide Zeros, Far, Eight;
    FarTwoThirds();
    Eight8();
    FarFurther(64, 0x2740d4a7, 0x3ad4dafa);
    Eight9();
    FarFurther(72, 0x3ad4dafa, 0x33295b93);
    Eight10();
    FarFurther(80, 0x33295b93, 0x145b223e);
  }

  lemma FarNext(c: bv32, d: bv32)
    requires c < 0x40000000 && Far(c, 88) && Times(c) == d
    ensures d < 0x40000000 && Far(d, 88)
  {
    hide Times, Far;
    TimesFar(c, 88);
  }

  /** Every word but 0 is a power of the generating element, and none becomes a single word again. */
  lemma WordsAreFar(e: bv32)
    requires 0 < e < 0x20
    ensures Far(e, 88)
  {
    hide Far;
    OneIsFar();
    FarNext(1, 2); FarNext(2, 4); FarNext(4, 8); FarNext(8, 16); FarNext(16, 9);
    FarNext(9, 18); FarNext(18, 13); FarNext(13, 26); FarNext(26, 29); FarNext(29, 19);
    FarNext(19, 15); FarNext(15, 30); FarNext(30, 21); FarNext(21, 3); FarNext(3, 6);
    FarNext(6, 12); FarNext(12, 24); FarNext(24, 25); FarNext(25, 27); FarNext(27, 31);
    FarNext(31, 23); FarNext(23, 7); FarNext(7, 14); FarNext(14, 28); FarNext(28, 17);
    FarNext(17, 11); FarNext(11, 22); FarNext(22, 5); FarNext(5, 10); FarNext(10, 20);
  }

  // ---- a difference in two places ----

  lemma StepValue(c: bv32, v: bv32)
    requires v < 32
    ensures Step(c, v) == Xor(Step(c, 0), v)
  {
    hide Step, Xor;
    XorNothing(c);
    XorNothing(v);
    StepLinear(c, 0, 0, v);
    StepOfZero(v);
  }

  // Up to the second place.
  lemma {:induction false} OneRemains(ds: seq<bv32>, i: int, n: int)
    requires Words(ds) && 0 <= i < n <= |ds|
    requires forall k :: 0 <= k < n && k != i ==> ds[k] == 0
    ensures Polymod(0, ds[..n]) == Zeros(ds[i], n - 1 - i)
    decreases n
  {
    hide Step;
    assert ds[..n][..n - 1] == ds[..n - 1];
    if n == i + 1 {
      ZeroPolymod(ds[..i]);
      StepOfZero(ds[i]);
    } else {
      OneRemains(ds, i, n - 1);
    }
  }

  /** A difference in two places at most 88 apart never cancels out. */
  lemma {:induction false} PairRemains(ds: seq<bv32>, i: int, j: int, n: int)
    requires Words(ds) && 0 <= i < j < n <= |ds| && j - i <= 88 && ds[i] != 0
    requires forall k :: 0 <= k < |ds| && k != i && k != j ==> ds[k] == 0
    ensures 0 < Polymod(0, ds[..n]) < 0x40000000
    decreases n
  {
    hide Step, Xor, Zeros;
    assert ds[..n][..n - 1] == ds[..n - 1];
    var c := Polymod(0, ds[..n - 1]);
    if n == j + 1 {
      OneRemains(ds, i, j);
      ZerosBounded(ds[i], j - 1 - i);
      StepBounded(c, ds[j]);
      StepValue(c, ds[j]);
      WordsAreFar(ds[i]);
      SecondIsFar(ds[i], j - i);
      XorZero(Step(c, 0), ds[j]);
    } else {
      PairRemains(ds, i, j, n - 1);
      StepBounded(c, 0);
      if Step(c, 0) == 0 {
        StepInjective(c);
      }
    }
  }

  lemma SecondIsFar(e: bv32, k: nat)
    requires Far(e, 88) && 1 <= k <= 88
    ensures 0x20 <= Step(Zeros(e, k - 1), 0)
  {
    hide Step;
    assert Zeros(e, k) == Step(Zeros(e, k - 1), 0);
  }

  // Two sequences of words that differ in two places have different checksums.
  lemma PairDifference(xs: seq<bv32>, ys: seq<bv32>, i: int, j: int)
    requires |xs| == |ys| && Words(xs) && Words(ys) && 0 <= i < j < |xs| && j - i <= 88 && xs[i] != ys[i]
    requires forall k :: 0 <= k < |xs| && k != i && k != j ==> xs[k] == ys[k]
    ensures Polymod(1, xs) != Polymod(1, ys)
  {
    hide Xor, Polymod, Step;
    var ds := Diff(xs, ys);
    forall k | 0 <= k < |ds|
      ensures ds[k] < 32 && (ds[k] == 0 <==> xs[k] == ys[k])
    {
      XorZero(xs[k], ys[k]);
      XorWords(xs[k], ys[k]);
    }
    PairRemains(ds, i, j, |ds|);
    assert ds[..|ds|] == ds;
    PolymodLinear(1, 1, xs, ys);
    XorZero(1, 1);
    XorZero(Polymod(1, xs), Polymod(1, ys));
  }

  lemma SamePlaces(a: string, b: string)
    requires SameConstant(a, b) && Lower(a)[..3] == Lower(b)[..3]
    ensures forall k :: 0 <= k < 3 ==> Lower(a)[k] == Lower(b)[k]
  {
    var x, y := Lower(a), Lower(b);
    assert forall k :: 0 <= k < 3 ==> x[k] == x[..3][k] && y[k] == y[..3][k];
  }

  /** No two valid strings of one length, whose checksums must be the same, differ in at most two places. */
  lemma NoTwoErrors(a: string, b: string, i: int, j: int)
    requires ValidBitcoinBech32(a) && ValidBitcoinBech32(b) && |a| == |b| && SameConstant(a, b) && i < j
    requires forall k :: 0 <= k < |a| && k != i && k != j ==> Lower(a)[k] == Lower(b)[k]
    ensures Lower(a) == Lower(b)
  {
    hide Polymod, Code, Lower, Upper, PrefixExpand, ValidBitcoinBech32, InAlphabet, Symbols, SameConstant;
    SameChecksum(a, b);
    SamePlaces(a, b);
    var x, y := Lower(a), Lower(b);
    if 0 <= i && j < |a| && x[i] != y[i] && x[j] != y[j] {
      SymbolsAreWords(a);
      SymbolsAreWords(b);
      SymbolsDiffer(a, b, i);
      forall k | 0 <= k < |Symbols(a)| && k != i + 2 && k != j + 2
        ensures Symbols(a)[k] == Symbols(b)[k]
      {
        if k < 5 {
          SamePrefix(a, b, k);
        } else {
          SymbolsDiffer(a, b, k - 2);
        }
      }
      PairDifference(Symbols(a), Symbols(b), i + 2, j + 2);
    } else {
      var place := if 0 <= i < |a| && x[i] != y[i] then i else j;
      NoShortErrors(a, b, place);
    }
  }
}
