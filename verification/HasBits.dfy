// Bit strings as the receiver handles them: strings of '0' and '1', most significant bit first.
module HasBits {
  import opened Arithmetic

  type Byte = b: int | 0 <= b < 256

  ghost predicate IsBits(s: string) {
    forall i :: 0 <= i < |s| ==> s[i] == '0' || s[i] == '1'
  }

  function Bit(c: char): (b: nat) {
    if c == '1' then 1 else 0
  }

  // The number a bit string denotes.
  function Unsigned(s: string): (v: nat) {
    if s == "" then 0 else 2 * Unsigned(s[..|s| - 1]) + Bit(s[|s| - 1])
  }

  // The low `width` bits of v, as std::bitset<width>(v).to_string() prints them.
  function Write(v: nat, width: nat): (s: string)
    ensures |s| == width
    ensures IsBits(s)
  {
    if width == 0 then "" else Write(v / 2, width - 1) + [if v % 2 == 1 then '1' else '0']
  }

  function WriteSigned(v: int, width: nat): (s: string)
    ensures |s| == width
  {
    Write(v % Pow2(width), width)
  }

  // Conversion of an int to int16_t: the representative modulo 2^16 in [-2^15, 2^15).
  function ToInt16(x: int): (v: int)
    ensures -0x8000 <= v < 0x8000
    ensures (v - x) % 0x1_0000 == 0
  {
    (x + 0x8000) % 0x1_0000 - 0x8000
  }

  // Two's complement reading of a bit string, sign-extended.
  function Signed(s: string): (v: int) {
    Unsigned(s) - (if s != "" && s[0] == '1' then Pow2(|s|) else 0)
  }

  function CountOnes(s: string): (n: nat)
    ensures n <= |s|
  {
    if s == "" then 0 else CountOnes(s[..|s| - 1]) + Bit(s[|s| - 1])
  }

  function PopCount(v: nat): (n: nat) {
    if v == 0 then 0 else PopCount(v / 2) + v % 2
  }

  // ---- the readers -------------------------------------------------------------------------

  // read_has_message_body_uint8/16/64: the same loop over a register of 8, 16 or 64 bits.
  method ReadUint(bits: string, register: nat) returns (value: nat)
    requires register > 0
    ensures value == Unsigned(bits) % Pow2(register)
  {
    hide Pow2;
    value := 0;
    var j := 0;
    DivModUnique(0, Pow2(register), 0, 0);
    while j < |bits|
      invariant 0 <= j <= |bits|
      invariant value == Unsigned(bits[..j]) % Pow2(register)
    {
      value := 2 * value % Pow2(register);
      assert bits[..j + 1][..j] == bits[..j];
      ShiftIn(Unsigned(bits[..j]), Bit(bits[j]), register);
      if bits[j] == '1' {
        value := value + 1;
      }
      j := j + 1;
    }
    assert bits[..j] == bits;
  }

  lemma {:induction false} ShiftIn(v: nat, b: nat, register: nat)
    requires b < 2 && register > 0
    ensures (2 * v + b) % Pow2(register) == 2 * (v % Pow2(register)) % Pow2(register) + b
  {
    var m := Pow2(register);
    var h := Pow2(register - 1);
    assert m == 2 * h;
    var q, r := v / h, v % h;
    DivModUnique(2 * v + b, m, q, 2 * r + b);
    var q', r' := v / m, v % m;
    var t := 2 * r';
    if t < m {
      DivModUnique(t, m, 0, t);
      assert v == q' * m + r' == (2 * q') * h + r';
      DivModUnique(v, h, 2 * q', r');
    } else {
      DivModUnique(t, m, 1, t - m);
      assert v == q' * m + r' == (2 * q' + 1) * h + (r' - h);
      DivModUnique(v, h, 2 * q' + 1, r' - h);
    }
  }

  // read_has_message_body_int16
  method ReadInt16(bits: string) returns (value: int)
    ensures value == ToInt16(Signed(bits))
    ensures 1 <= |bits| <= 16 ==> value == Signed(bits)
  {
    hide ToInt16, Signed, SignedPrefix;
    value := 0;
    if bits != "" && bits[0] == '1' {
      value := ToInt16(0xFFFF);  // 0 ^ 0xFFFF
    }
    SignedPrefixStart(bits);
    var j := 0;
    while j < |bits|
      invariant 0 <= j <= |bits|
      invariant value == ToInt16(SignedPrefix(bits, j))
    {
      var doubled := ToInt16(value * 2);
      value := ToInt16(doubled % 0x1_0000 - doubled % 2);  // doubled & 0xFFFE
      Int16Shift(SignedPrefix(bits, j), Bit(bits[j]));
      SignedPrefixStep(bits, j);
      if bits[j] == '1' {
        value := value + 1;
      }
      j := j + 1;
    }
    if 1 <= |bits| <= 16 {
      SignedFits(bits);
    }
  }

  // What the reader has made of the first j bits: the sign counts as infinitely many bits before.
  ghost function SignedPrefix(bits: string, j: nat): int
    requires j <= |bits|
  {
    Unsigned(bits[..j]) - (if bits != "" && bits[0] == '1' then Pow2(j) else 0)
  }

  lemma {:induction false} SignedPrefixStart(bits: string)
    ensures ToInt16(SignedPrefix(bits, 0)) == if bits != "" && bits[0] == '1' then ToInt16(0xFFFF) else 0
    ensures SignedPrefix(bits, |bits|) == Signed(bits)
  {
    assert bits[..|bits|] == bits;
  }

  lemma {:induction false} SignedPrefixStep(bits: string, j: nat)
    requires j < |bits|
    ensures SignedPrefix(bits, j + 1) == 2 * SignedPrefix(bits, j) + Bit(bits[j])
  {
    assert bits[..j + 1][..j] == bits[..j];
  }

  lemma {:induction false} SignedFits(bits: string)
    requires 1 <= |bits| <= 16
    ensures ToInt16(Signed(bits)) == Signed(bits)
  {
    hide ToInt16, Signed;
    SignedRange(bits);
    Pow2Monotone(|bits| - 1, 15);
    assert Pow2(15) == 0x8000;
    Int16Unique(Signed(bits), Signed(bits), 0);
  }

  lemma {:induction false} Int16Shift(x: int, b: nat)
    requires b < 2
    ensures var doubled := ToInt16(ToInt16(x) * 2);
            ToInt16(doubled % 0x1_0000 - doubled % 2) + b == ToInt16(2 * x + b)
  {
    hide ToInt16, Wraps;
    var k := Wraps(x);
    Int16Periodic(2 * x, -2 * k);
    assert ToInt16(x) * 2 == 2 * x + 0x1_0000 * (-2 * k);
    var l := Wraps(2 * x);
    var doubled := 2 * x - 0x1_0000 * l;
    assert ToInt16(ToInt16(x) * 2) == doubled && doubled == 2 * (x - 0x8000 * l);
    EvenMod(x - 0x8000 * l);
    Int16Periodic(doubled, if doubled < 0 then 1 else 0);
    Int16Unique(2 * x + b, doubled + b, l);
  }

  // How often x wraps around 16 bits.
  function Wraps(x: int): (k: int)
    ensures ToInt16(x) == x - 0x1_0000 * k
  {
    (x + 0x8000) / 0x1_0000
  }

  lemma {:induction false} EvenMod(h: int)
    ensures (2 * h) % 2 == 0
  {
  }

  lemma {:induction false} Int16Unique(x: int, v: int, k: int)
    requires v == x - 0x1_0000 * k && -0x8000 <= v < 0x8000
    ensures ToInt16(x) == v
  {
    DivModUnique(x + 0x8000, 0x1_0000, k, v + 0x8000);
  }

  lemma {:induction false} Int16Periodic(x: int, k: int)
    ensures ToInt16(x + 0x1_0000 * k) == ToInt16(x)
  {
    Int16Unique(x + 0x1_0000 * k, ToInt16(x), Wraps(x) + k);
  }

  lemma {:induction false} Pow2Add(a: nat, b: nat)
    ensures Pow2(a + b) == Pow2(a) * Pow2(b)
  {
    if a > 0 {
      Pow2Add(a - 1, b);
    }
  }

  lemma {:induction false} UnsignedBound(s: string)
    ensures Unsigned(s) < Pow2(|s|)
  {
    if s != "" {
      UnsignedBound(s[..|s| - 1]);
    }
  }

  lemma {:induction false} SignedRange(s: string)
    requires s != ""
    ensures -Pow2(|s| - 1) <= Signed(s) < Pow2(|s| - 1)
    ensures s[0] == '1' ==> Unsigned(s) >= Pow2(|s| - 1)
  {
    if |s| == 1 {
      assert s[..0] == "";
    } else {
      SignedRange(s[..|s| - 1]);
    }
  }

  // ---- writing and reading are inverse -----------------------------------------------------

  lemma {:induction false} UnsignedOfWrite(v: nat, width: nat)
    ensures Unsigned(Write(v, width)) == v % Pow2(width)
  {
    if width > 0 {
      UnsignedOfWrite(v / 2, width - 1);
      assert Write(v, width)[..width - 1] == Write(v / 2, width - 1);
      HalvedMod(v, Pow2(width - 1));
    }
  }

  lemma {:induction false} HalvedMod(v: nat, h: int)
    requires h > 0
    ensures v % (2 * h) == 2 * (v / 2 % h) + v % 2
  {
    var q, r := v / 2 / h, v / 2 % h;
    assert v == 2 * (q * h + r) + v % 2 == q * (2 * h) + (2 * r + v % 2);
    DivModUnique(v, 2 * h, q, 2 * r + v % 2);
  }

  lemma {:induction false} WriteOfUnsigned(s: string)
    requires IsBits(s)
    ensures Write(Unsigned(s), |s|) == s
  {
    if s != "" {
      WriteOfUnsigned(s[..|s| - 1]);
    }
  }

  // The first bit weighs most.
  lemma {:induction false} FirstBit(c: char, s: string)
    ensures Unsigned([c] + s) == (if c == '1' then Pow2(|s|) else 0) + Unsigned(s)
  {
    if s == "" {
      assert [c] + s == [c] && [c][..0] == "";
    } else {
      var n := |s| - 1;
      assert ([c] + s)[..|s|] == [c] + s[..n];
      FirstBit(c, s[..n]);
    }
  }

  // A field of `width` bits gives back every value that fits it.
  lemma {:induction false} FieldRoundTrip(v: nat, width: nat)
    requires v < Pow2(width)
    ensures Unsigned(Write(v, width)) == v
  {
    UnsignedOfWrite(v, width);
    DivModUnique(v, Pow2(width), 0, v);
  }

  // A two's complement field of 1 to 16 bits gives back every value in its range.
  lemma {:induction false} SignedFieldRoundTrip(v: int, width: nat)
    requires width >= 1
    requires -Pow2(width - 1) <= v < Pow2(width - 1)
    ensures Signed(WriteSigned(v, width)) == v
  {
    var m := Pow2(width);
    var u := v % m;
    DivModUnique(v, m, if v < 0 then -1 else 0, if v < 0 then v + m else v);
    FieldRoundTrip(u, width);
    SignedRange(Write(u, width));
  }

  // ---- counting satellites: the three ways the receiver does it ------------------------------

  lemma {:induction false} PopCountOfUnsigned(s: string)
    ensures PopCount(Unsigned(s)) == CountOnes(s)
  {
    if s != "" {
      PopCountOfUnsigned(s[..|s| - 1]);
    }
  }

  lemma {:induction false} PopCountOfWrite(v: nat, width: nat)
    requires v < Pow2(width)
    ensures CountOnes(Write(v, width)) == PopCount(v)
  {
    FieldRoundTrip(v, width);
    PopCountOfUnsigned(Write(v, width));
  }

  // The `while (n)` loops of the bias blocks.
  method CountBits(v: nat) returns (n: nat)
    ensures n == PopCount(v)
  {
    n := 0;
    var rest := v;
    while rest != 0
      invariant n + PopCount(rest) == PopCount(v)
    {
      n := n + rest % 2;
      rest := rest / 2;
    }
  }

  // std::count(msg.begin(), msg.end(), '1')
  method CountOnesIn(bits: string) returns (n: nat)
    ensures n == CountOnes(bits)
  {
    n := 0;
    for j := 0 to |bits|
      invariant n == CountOnes(bits[..j])
    {
      assert bits[..j + 1][..j] == bits[..j];
      if bits[j] == '1' {
        n := n + 1;
      }
    }
    assert bits[..|bits|] == bits;
  }
}
