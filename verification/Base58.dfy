/** decodeBase58 (api/src/domain/addresses.ts) is a bijection: it changes the base of a number and keeps
    count of the leading zeros. */
module Base58 {
  import opened Arithmetic
  import opened Wrappers

  // The position of a character in the alphabet: digits without 0, capitals without I and O, small letters
  // without l; or -1.
  function IndexOf(c: char): (i: int)
    ensures -1 <= i < 58
  {
    if '1' <= c <= '9' then c as int - '1' as int
    else if 'A' <= c <= 'H' then c as int - 'A' as int + 9
    else if 'J' <= c <= 'N' then c as int - 'J' as int + 17
    else if 'P' <= c <= 'Z' then c as int - 'P' as int + 22
    else if 'a' <= c <= 'k' then c as int - 'a' as int + 33
    else if 'm' <= c <= 'z' then c as int - 'm' as int + 44
    else -1
  }

  function CharAt(i: int): (c: char)
    requires 0 <= i < 58
    ensures IndexOf(c) == i
  {
    if i < 9 then (i + '1' as int) as char
    else if i < 17 then (i - 9 + 'A' as int) as char
    else if i < 22 then (i - 17 + 'J' as int) as char
    else if i < 33 then (i - 22 + 'P' as int) as char
    else if i < 44 then (i - 33 + 'a' as int) as char
    else (i - 44 + 'm' as int) as char
  }

  // ---- numbers and digits, most significant first ----

  predicate Digits(ds: seq<int>, base: int) {
    forall k :: 0 <= k < |ds| ==> 0 <= ds[k] < base
  }

  function Value(ds: seq<int>, base: int): int {
    if ds == [] then 0 else Value(ds[..|ds| - 1], base) * base + ds[|ds| - 1]
  }

  // The digits of a number, without leading zeros.
  function DigitsOf(n: int, base: int): (ds: seq<int>)
    requires base >= 2
    ensures Digits(ds, base)
    decreases n
  {
    if n <= 0 then [] else DigitsOf(n / base, base) + [n % base]
  }

  function LeadingZeros(ds: seq<int>): (k: int)
    ensures 0 <= k <= |ds|
  {
    if ds == [] || ds[0] != 0 then 0 else 1 + LeadingZeros(ds[1..])
  }

  function Zeros(k: int): seq<int>
    requires 0 <= k
  {
    seq(k, _ => 0)
  }

  predicate Minimal(ds: seq<int>) {
    ds != [] ==> ds[0] != 0
  }

  function ChangeBase(ds: seq<int>, from: int, to: int): (r: seq<int>)
    requires to >= 2
    ensures Digits(r, to)
  {
    Zeros(LeadingZeros(ds)) + DigitsOf(Value(ds, from), to)
  }

  lemma {:induction false} ValueNonNegative(ds: seq<int>, base: int)
    requires base >= 2 && Digits(ds, base)
    ensures Value(ds, base) >= 0
    ensures Minimal(ds) && ds != [] ==> Value(ds, base) > 0
  {
    if ds != [] {
      ValueNonNegative(ds[..|ds| - 1], base);
    }
  }

  lemma Euclid(n: int, base: int)
    requires n > 0 && base >= 2
    ensures n == n / base * base + n % base && 0 <= n / base < n
  {
  }

  lemma ValueSnoc(ds: seq<int>, d: int, base: int)
    ensures Value(ds + [d], base) == Value(ds, base) * base + d
  {
    assert (ds + [d])[..|ds|] == ds;
  }

  lemma {:induction false} DigitsOfValue(ds: seq<int>, base: int)
    requires base >= 2 && Digits(ds, base) && Minimal(ds)
    ensures DigitsOf(Value(ds, base), base) == ds
  {
    if ds != [] {
      var front, last := ds[..|ds| - 1], ds[|ds| - 1];
      DigitsOfValue(front, base);
      ValueNonNegative(ds, base);
      DivMod(Value(front, base), last, base);
    }
  }

  lemma {:induction false} ValueOfDigits(n: int, base: int)
    requires base >= 2 && n >= 0
    ensures Value(DigitsOf(n, base), base) == n && Minimal(DigitsOf(n, base))
    decreases n
  {
    if n > 0 {
      Euclid(n, base);
      ValueOfDigits(n / base, base);
      ValueSnoc(DigitsOf(n / base, base), n % base, base);
    }
  }

  // ---- leading zeros ----

  lemma {:induction false} ZerosInFront(k: int, ds: seq<int>)
    requires 0 <= k && Minimal(ds)
    ensures LeadingZeros(Zeros(k) + ds) == k
    decreases k
  {
    if k > 0 {
      ZerosInFront(k - 1, ds);
      assert (Zeros(k) + ds)[1..] == Zeros(k - 1) + ds;
    } else {
      assert Zeros(k) + ds == ds;
    }
  }

  lemma {:induction false} ValueOfZerosInFront(k: int, ds: seq<int>, base: int)
    requires 0 <= k
    ensures Value(Zeros(k) + ds, base) == Value(ds, base)
    decreases k + |ds|
  {
    var all := Zeros(k) + ds;
    if ds != [] {
      assert all[..|all| - 1] == Zeros(k) + ds[..|ds| - 1];
      ValueOfZerosInFront(k, ds[..|ds| - 1], base);
    } else if k > 0 {
      assert all[..|all| - 1] == Zeros(k - 1) + [];
      ValueOfZerosInFront(k - 1, [], base);
    }
  }

  // Every sequence is its leading zeros and a minimal rest.
  lemma {:induction false} SplitZeros(ds: seq<int>)
    ensures ds == Zeros(LeadingZeros(ds)) + ds[LeadingZeros(ds)..] && Minimal(ds[LeadingZeros(ds)..])
    decreases |ds|
  {
    if ds != [] && ds[0] == 0 {
      SplitZeros(ds[1..]);
      var k := LeadingZeros(ds[1..]);
      assert Zeros(k + 1) == [0] + Zeros(k);
      assert ds == [0] + ds[1..];
    }
  }

  lemma Rebased(k: int, rest: seq<int>, from: int, to: int)
    requires from >= 2 && to >= 2 && 0 <= k && Digits(rest, from) && Minimal(rest)
    ensures ChangeBase(Zeros(k) + rest, from, to) == Zeros(k) + DigitsOf(Value(rest, from), to)
  {
    ZerosInFront(k, rest);
    ValueOfZerosInFront(k, rest, from);
  }

  /** Changing the base loses nothing: changing it back gives the same digits, leading zeros included. */
  lemma ChangeBaseBack(ds: seq<int>, from: int, to: int)
    requires from >= 2 && to >= 2 && Digits(ds, from)
    ensures ChangeBase(ChangeBase(ds, from, to), to, from) == ds
  {
    SplitZeros(ds);
    var k, rest := LeadingZeros(ds), ds[LeadingZeros(ds)..];
    Rebased(k, rest, from, to);
    ValueNonNegative(rest, from);
    ValueOfDigits(Value(rest, from), to);
    Rebased(k, DigitsOf(Value(rest, from), to), to, from);
    DigitsOfValue(rest, from);
  }

  // ---- decodeBase58 ----

  predicate InAlphabet(value: string) {
    forall k :: 0 <= k < |value| ==> IndexOf(value[k]) != -1
  }

  function Indices(value: string): (ds: seq<int>)
    ensures |ds| == |value|
    ensures InAlphabet(value) ==> Digits(ds, 58)
  {
    seq(|value|, k requires 0 <= k < |value| => IndexOf(value[k]))
  }

  /** decodeBase58, in one piece. */
  function Decoded(value: string): Option<seq<int>> {
    if InAlphabet(value) then Some(ChangeBase(Indices(value), 58, 256)) else None
  }

  lemma FirstDigit(c: char)
    ensures IndexOf(c) == 0 <==> c == '1'
  {
  }

  lemma IndicesPrefix(value: string, i: int)
    requires 0 <= i < |value|
    ensures Indices(value[..i + 1]) == Indices(value[..i]) + [IndexOf(value[i])]
  {
    hide IndexOf;
  }

  lemma {:induction false} ZerosFrom(ds: seq<int>, i: int)
    requires 0 <= i <= |ds| && forall k :: 0 <= k < i ==> ds[k] == 0
    requires i == |ds| || ds[i] != 0
    ensures LeadingZeros(ds) == i
    decreases i
  {
    if i > 0 {
      ZerosFrom(ds[1..], i - 1);
    }
  }

  // The three loops of decodeBase58.
  method Accumulate(value: string) returns (number: Option<int>)
    ensures number == if InAlphabet(value) then Some(Value(Indices(value), 58)) else None
    ensures number.Some? ==> number.value >= 0
  {
    hide IndexOf;
    var n := 0;
    for i := 0 to |value|
      invariant InAlphabet(value[..i]) && n == Value(Indices(value[..i]), 58) >= 0
    {
      var index := IndexOf(value[i]);
      if index == -1 {
        return None;
      }
      IndicesPrefix(value, i);
      ValueSnoc(Indices(value[..i]), index, 58);
      n := n * 58 + index;
    }
    assert value[..|value|] == value;
    number := Some(n);
  }

  lemma DigitsStep(n: int, bytes: seq<int>)
    requires n > 0
    ensures DigitsOf(n / 256, 256) + ([n % 256] + bytes) == DigitsOf(n, 256) + bytes
  {
  }

  method ToBytes(n: int) returns (bytes: seq<int>)
    requires n >= 0
    ensures bytes == DigitsOf(n, 256)
  {
    hide DigitsOf;
    var number := n;
    bytes := [];
    while number > 0
      invariant number >= 0
      invariant DigitsOf(number, 256) + bytes == DigitsOf(n, 256)
    {
      DigitsStep(number, bytes);
      bytes := [number % 256] + bytes;
      number := number / 256;
    }
    NoDigits();
  }

  lemma NoDigits()
    ensures DigitsOf(0, 256) == []
  {
  }

  method DecodeBase58(value: string) returns (r: Option<seq<int>>)
    ensures r == Decoded(value)
  {
    hide IndexOf, DigitsOf, Value, LeadingZeros;
    var number := Accumulate(value);
    if number.None? {
      return None;
    }
    var bytes := ToBytes(number.value);
    ghost var rest := bytes;
    var ones := 0;
    while ones < |value| && value[ones] == '1'
      invariant 0 <= ones <= |value|
      invariant forall k :: 0 <= k < ones ==> value[k] == '1'
      invariant bytes == Zeros(ones) + rest
    {
      bytes := [0] + bytes;
      assert Zeros(ones + 1) == [0] + Zeros(ones);
      ones := ones + 1;
    }
    forall k | 0 <= k < |value|
      ensures Indices(value)[k] == 0 <==> value[k] == '1'
    {
      FirstDigit(value[k]);
    }
    ZerosFrom(Indices(value), ones);
    r := Some(bytes);
  }

  lemma SameIndices(a: string, b: string)
    requires InAlphabet(a) && InAlphabet(b) && Indices(a) == Indices(b)
    ensures a == b
  {
    assert |a| == |b|;
    forall k | 0 <= k < |a|
      ensures a[k] == b[k]
    {
      assert Indices(a)[k] == IndexOf(a[k]) && Indices(b)[k] == IndexOf(b[k]);
    }
  }

  /** No two strings decode to the same bytes. */
  lemma DecodingIsInjective(a: string, b: string)
    requires Decoded(a).Some? && Decoded(a) == Decoded(b)
    ensures a == b
  {
    ChangeBaseBack(Indices(a), 58, 256);
    ChangeBaseBack(Indices(b), 58, 256);
    SameIndices(a, b);
  }

  function Encoded(bytes: seq<int>): string
    requires Digits(bytes, 256)
  {
    var ds := ChangeBase(bytes, 256, 58);
    seq(|ds|, k requires 0 <= k < |ds| => CharAt(ds[k]))
  }

  /** And every sequence of bytes is decoded from some string. */
  lemma DecodingIsOnto(bytes: seq<int>)
    requires Digits(bytes, 256)
    ensures Decoded(Encoded(bytes)) == Some(bytes)
  {
    var ds := ChangeBase(bytes, 256, 58);
    var s := Encoded(bytes);
    assert Indices(s) == ds;
    ChangeBaseBack(bytes, 256, 58);
  }
}
