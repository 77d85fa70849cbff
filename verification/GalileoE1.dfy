// The CBOC replica of Galileo E1 (Galileo OS SIS ICD, section 2.3.3), over exact reals: two square
// sub-carriers on one code, weighted and summed, with as many samples a chip as fit the destination.
module GalileoE1 {
  import opened Arithmetic

  const CHIPS := 4092

  // ---- the sub-carriers --------------------------------------------------------------------------------

  // Sample j of a chip: SinBOC(1,1) turns once, at the middle; SinBOC(6,1) turns at every sample.
  function Half(period: nat, j: nat): int {
    if j < period / 2 then 1 else -1
  }

  function Alternate(j: nat): int {
    if j % 2 == 0 then 1 else -1
  }

  // Sample k of the sub-carrier on the code; 0 past the last chip.
  function SinBoc11(code: seq<int>, period: nat, k: nat): int
    requires |code| >= CHIPS
  {
    if k < CHIPS * period then (DivBound(k, period); Half(period, k % period) * code[k / period]) else 0
  }

  function SinBoc61(code: seq<int>, period: nat, k: nat): int
    requires |code| >= CHIPS
  {
    if k < CHIPS * period then (DivBound(k, period); Alternate(k % period) * code[k / period]) else 0
  }

  // Where sample j of chip i is stored.
  function Place(i: int, period: int, j: int): int {
    i * period + j
  }

  lemma {:induction false} PlaceSteps(i: nat, period: nat, j: int)
    ensures Place(0, period, 0) == 0 && Place(CHIPS, period, 0) == CHIPS * period
    ensures Place(i, period, j) == Place(i, period, 0) + j
    ensures Place(i + 1, period, 0) == Place(i, period, period)
    ensures 0 <= Place(i, period, 0)
    ensures i <= CHIPS ==> Place(i, period, 0) <= CHIPS * period
    ensures i < CHIPS ==> Place(i, period, period) <= CHIPS * period
  {
    if period > 0 {
      MulSpread(CHIPS - i, period);
    }
  }

  lemma {:induction false} DivBound(k: nat, period: nat)
    requires k < CHIPS * period
    ensures period > 0 && k / period < CHIPS
  {
    MulSpread(k / period - CHIPS, period);
  }

  lemma {:induction false} Sample(i: nat, j: nat, period: nat)
    requires i < CHIPS && j < period
    ensures i * period + j < CHIPS * period
    ensures (i * period + j) / period == i && (i * period + j) % period == j
  {
    MulSpread(CHIPS - i, period);
    var k := i * period + j;
    var e := k / period - i;
    assert e * period == (k / period) * period - i * period == j - k % period;
    MulSpread(e, period);
  }

  lemma {:induction false} SubCarrierSamples(code: seq<int>, period: nat, i: nat, j: nat)
    requires |code| >= CHIPS && i < CHIPS && j < period
    ensures 0 <= Place(i, period, j)
    ensures SinBoc11(code, period, Place(i, period, j)) == Half(period, j) * code[i]
    ensures SinBoc61(code, period, Place(i, period, j)) == Alternate(j) * code[i]
    ensures SinBoc11(code, period, Place(i, period, j)) == if 2 * j + 1 < period then code[i] else -code[i]
    ensures SinBoc61(code, period, Place(i, period, j)) == if j % 2 == 0 then code[i] else -code[i]
  {
    Sample(i, j, period);
    PlaceSteps(i, period, j);
  }

  method GalileoE1SinBoc11GenInt(dest: array<int>, prn: array<int>)
    requires prn.Length >= CHIPS && dest != prn
    modifies dest
    ensures forall k :: 0 <= k < CHIPS * (dest.Length / CHIPS) ==>
              dest[k] == SinBoc11(prn[..], dest.Length / CHIPS, k)
    ensures forall k :: CHIPS * (dest.Length / CHIPS) <= k < dest.Length ==> dest[k] == old(dest[k])
  {
    hide SinBoc11, SinBoc61, Place;
    var period := dest.Length / CHIPS;
    ghost var code := prn[..];
    PlaceSteps(0, period, 0);
    PlaceSteps(CHIPS, period, 0);
    for i := 0 to CHIPS
      invariant 0 <= Place(i, period, 0) <= CHIPS * period
      invariant forall k :: 0 <= k < Place(i, period, 0) ==> dest[k] == SinBoc11(code, period, k)
      invariant forall k :: Place(i, period, 0) <= k < dest.Length ==> dest[k] == old(dest[k])
    {
      PlaceSteps(i, period, period);
      PlaceSteps(i + 1, period, 0);
      ghost var base := Place(i, period, 0);
      for j := 0 to period / 2
        invariant forall k :: 0 <= k < base + j ==> dest[k] == SinBoc11(code, period, k)
        invariant forall k :: base + j <= k < dest.Length ==> dest[k] == old(dest[k])
      {
        PlaceSteps(i, period, j);
        SubCarrierSamples(code, period, i, j);
        dest[Place(i, period, j)] := prn[i];
      }
      for j := period / 2 to period
        invariant forall k :: 0 <= k < base + j ==> dest[k] == SinBoc11(code, period, k)
        invariant forall k :: base + j <= k < dest.Length ==> dest[k] == old(dest[k])
      {
        PlaceSteps(i, period, j);
        SubCarrierSamples(code, period, i, j);
        dest[Place(i, period, j)] := -prn[i];
      }
    }
  }

  method GalileoE1SinBoc61GenInt(dest: array<int>, prn: array<int>)
    requires prn.Length >= CHIPS && dest != prn
    modifies dest
    ensures forall k :: 0 <= k < CHIPS * (dest.Length / CHIPS) ==>
              dest[k] == SinBoc61(prn[..], dest.Length / CHIPS, k)
    ensures forall k :: CHIPS * (dest.Length / CHIPS) <= k < dest.Length ==> dest[k] == old(dest[k])
  {
    hide SinBoc11, SinBoc61, Place, Alternate;
    var period := dest.Length / CHIPS;
    ghost var code := prn[..];
    PlaceSteps(0, period, 0);
    PlaceSteps(CHIPS, period, 0);
    for i := 0 to CHIPS
      invariant 0 <= Place(i, period, 0) <= CHIPS * period
      invariant forall k :: 0 <= k < Place(i, period, 0) ==> dest[k] == SinBoc61(code, period, k)
      invariant forall k :: Place(i, period, 0) <= k < dest.Length ==> dest[k] == old(dest[k])
    {
      PlaceSteps(i, period, period);
      PlaceSteps(i + 1, period, 0);
      ghost var base := Place(i, period, 0);
      AlternateOneChip(dest, Place(i, period, 0), period, prn[i]);
      forall k | base <= k < base + period
        ensures dest[k] == SinBoc61(code, period, k)
      {
        PlaceSteps(i, period, k - base);
        SubCarrierSamples(code, period, i, k - base);
      }
    }
  }

  // The two inner loops: the even samples of a chip, then the odd ones.
  method AlternateOneChip(dest: array<int>, base: nat, period: nat, chip: int)
    requires base + period <= dest.Length
    modifies dest
    ensures forall k :: 0 <= k < base || base + period <= k < dest.Length ==> dest[k] == old(dest[k])
    ensures forall k :: base <= k < base + period ==> dest[k] == Alternate(k - base) * chip
  {
    EverySecond(dest, base, 0, period, chip);
    EverySecond(dest, base, 1, period, -chip);
  }

  method EverySecond(dest: array<int>, base: nat, start: nat, period: nat, value: int)
    requires base + period <= dest.Length && start < 2
    modifies dest
    ensures forall k :: 0 <= k < base || base + period <= k < dest.Length ==> dest[k] == old(dest[k])
    ensures forall k :: base <= k < base + period ==> dest[k] == if (k - base) % 2 == start then value else old(dest[k])
  {
    var j := start;
    while j < period
      invariant j >= start && j % 2 == start
      invariant forall k :: 0 <= k < base || base + j <= k < dest.Length ==> dest[k] == old(dest[k])
      invariant forall k :: base <= k < base + j && k < base + period ==>
                  dest[k] == if (k - base) % 2 == start then value else old(dest[k])
      invariant forall k :: base + period <= k < dest.Length ==> dest[k] == old(dest[k])
    {
      dest[base + j] := value;
      j := j + 2;
    }
  }

  // ---- the replica -----------------------------------------------------------------------------------------

  datatype Signal = E1B | E1C | OtherSignal

  datatype Weights = Weights(alpha: real, beta: real)

  // The square roots of 10/11 and of 1/11, up to sign.
  ghost predicate Cboc(w: Weights) {
    w.alpha * w.alpha == 10.0 / 11.0 && w.beta * w.beta == 1.0 / 11.0
  }

  // E1B adds the sub-carriers, E1C subtracts the second.
  function Replica(w: Weights, signal: Signal, code: seq<int>, period: nat, k: nat): real
    requires |code| >= CHIPS && signal != OtherSignal
  {
    if signal == E1B then w.alpha * SinBoc11(code, period, k) as real + w.beta * SinBoc61(code, period, k) as real
    else w.alpha * SinBoc11(code, period, k) as real - w.beta * SinBoc61(code, period, k) as real
  }

  lemma {:induction false} PastTheLastChip(code: seq<int>, period: nat)
    requires |code| >= CHIPS
    ensures forall k :: k >= CHIPS * period ==> SinBoc11(code, period, k) == SinBoc61(code, period, k) == 0
  {
  }

  // The two sub-carriers in new arrays.
  method SubCarriers(prn: array<int>, length: nat) returns (sinBoc11: array<int>, sinBoc61: array<int>)
    requires prn.Length >= CHIPS
    ensures fresh(sinBoc11) && fresh(sinBoc61) && sinBoc11.Length == sinBoc61.Length == length
    ensures forall k :: 0 <= k < length ==> sinBoc11[k] == SinBoc11(prn[..], length / CHIPS, k)
    ensures forall k :: 0 <= k < length ==> sinBoc61[k] == SinBoc61(prn[..], length / CHIPS, k)
  {
    hide SinBoc11, SinBoc61;
    sinBoc11 := new int[length](_ => 0);
    sinBoc61 := new int[length](_ => 0);
    GalileoE1SinBoc11GenInt(sinBoc11, prn);
    GalileoE1SinBoc61GenInt(sinBoc61, prn);
    PastTheLastChip(prn[..], length / CHIPS);
  }

  method GalileoE1GenFloat(w: Weights, dest: array<real>, prn: array<int>, signal: Signal)
    requires prn.Length >= CHIPS
    modifies dest
    ensures signal == OtherSignal ==> dest[..] == old(dest[..])
    ensures signal != OtherSignal ==>
              forall k :: 0 <= k < dest.Length ==>
                dest[k] == Replica(w, signal, prn[..], dest.Length / CHIPS, k)
  {
    hide SinBoc11, SinBoc61;
    var codeLength := dest.Length;
    var sinBoc11, sinBoc61 := SubCarriers(prn, codeLength);
    ghost var code, period := prn[..], codeLength / CHIPS;
    ghost var first, second := sinBoc11[..], sinBoc61[..];
    assert forall k :: 0 <= k < codeLength ==> first[k] == SinBoc11(code, period, k);
    assert forall k :: 0 <= k < codeLength ==> second[k] == SinBoc61(code, period, k);
    if signal == E1B {
      for i := 0 to codeLength
        invariant first == sinBoc11[..] && second == sinBoc61[..]
        invariant forall k :: 0 <= k < i ==> dest[k] == Replica(w, signal, code, period, k)
      {
        assert sinBoc11[i] == first[i] && sinBoc61[i] == second[i];
        dest[i] := w.alpha * sinBoc11[i] as real + w.beta * sinBoc61[i] as real;
      }
    } else if signal == E1C {
      for i := 0 to codeLength
        invariant first == sinBoc11[..] && second == sinBoc61[..]
        invariant forall k :: 0 <= k < i ==> dest[k] == Replica(w, signal, code, period, k)
      {
        assert sinBoc11[i] == first[i] && sinBoc61[i] == second[i];
        dest[i] := w.alpha * sinBoc11[i] as real - w.beta * sinBoc61[i] as real;
      }
    }
  }

  // ---- energy ------------------------------------------------------------------------------------------------

  ghost predicate Chips(code: seq<int>) {
    |code| >= CHIPS && forall i :: 0 <= i < |code| ==> code[i] == 1 || code[i] == -1
  }

  // Sum of the squares of the first n samples.
  ghost function Energy(w: Weights, signal: Signal, code: seq<int>, period: nat, n: nat): real
    requires |code| >= CHIPS && signal != OtherSignal
  {
    if n == 0 then 0.0
    else
      var s := Replica(w, signal, code, period, n - 1);
      Energy(w, signal, code, period, n - 1) + s * s
  }

  // Correlation of the two sub-carriers over the first j samples of a chip.
  ghost function ChipCorrelation(period: nat, j: nat): int {
    if j == 0 then 0 else ChipCorrelation(period, j - 1) + Half(period, j - 1) * Alternate(j - 1)
  }

  lemma {:induction false} ChipCorrelationClosed(period: nat, j: nat)
    requires j <= period
    ensures ChipCorrelation(period, j)
            == if j <= period / 2 then j % 2 else 2 * (period / 2 % 2) - j % 2
  {
    if j > 0 {
      ChipCorrelationClosed(period, j - 1);
    }
  }

  // The sub-carriers are orthogonal in a chip exactly when the samples a chip are a multiple of 4.
  lemma {:induction false} OrthogonalExactly(period: nat)
    ensures ChipCorrelation(period, period) == 0 <==> period % 4 == 0
  {
    ChipCorrelationClosed(period, period);
  }

  // One for E1B, minus one for E1C: the sign of the cross term.
  function Sign(signal: Signal): real {
    if signal == E1B then 1.0 else -1.0
  }

  // What the cross products add to the energy when the correlation of the sub-carriers is n.
  function CrossTerm(w: Weights, signal: Signal, n: int): real {
    Sign(signal) * (2.0 * w.alpha * w.beta) * n as real
  }

  lemma {:induction false} CrossTermFacts(w: Weights, signal: Signal, m: int, n: int)
    requires Cboc(w)
    ensures CrossTerm(w, signal, m + n) == CrossTerm(w, signal, m) + CrossTerm(w, signal, n)
    ensures CrossTerm(w, signal, n) == 0.0 <==> n == 0
  {
    var f := Sign(signal) * (2.0 * w.alpha * w.beta);
    assert w.alpha != 0.0 && w.beta != 0.0;
    assert w.alpha * w.beta != 0.0;
    assert f != 0.0;
    Gather(f, m as real, n as real);
  }

  lemma {:induction false} Gather(f: real, x: real, y: real)
    ensures f * x + f * y == f * (x + y)
  {
  }

  lemma {:induction false} SquareOfSample(w: Weights, signal: Signal, a: int, b: int, c: int, s: real)
    requires Cboc(w) && (a == 1 || a == -1) && (b == 1 || b == -1) && (c == 1 || c == -1)
    requires s == w.alpha * (a * c) as real + Sign(signal) * (w.beta * (b * c) as real)
    ensures s * s == 1.0 + CrossTerm(w, signal, a * b)
  {
    var p, q := w.alpha, w.beta;
    assert (p + q) * (p + q) == p * p + q * q + 2.0 * p * q;
    assert (p - q) * (p - q) == p * p + q * q - 2.0 * p * q;
    assert s == p + q || s == p - q || s == -(p + q) || s == -(p - q);
  }

  lemma {:induction false} SquareOfReplica(w: Weights, signal: Signal, code: seq<int>, period: nat, i: nat, j: nat)
    requires Cboc(w) && Chips(code) && signal != OtherSignal && j < period && i < CHIPS
    ensures 0 <= Place(i, period, j)
    ensures var s := Replica(w, signal, code, period, Place(i, period, j));
            s * s == 1.0 + CrossTerm(w, signal, Half(period, j) * Alternate(j))
  {
    hide SinBoc11, SinBoc61, Place, CrossTerm;
    SubCarrierSamples(code, period, i, j);
    var s := Replica(w, signal, code, period, Place(i, period, j));
    SquareOfSample(w, signal, Half(period, j), Alternate(j), code[i], s);
  }

  // What one more sample adds.
  lemma {:induction false} EnergyStep(w: Weights, signal: Signal, code: seq<int>, period: nat, i: nat, j: nat)
    requires Cboc(w) && Chips(code) && signal != OtherSignal && j < period && i < CHIPS
    ensures 0 <= Place(i, period, j) == Place(i, period, j + 1) - 1
    ensures Energy(w, signal, code, period, Place(i, period, j + 1))
            == Energy(w, signal, code, period, Place(i, period, j))
               + 1.0 + CrossTerm(w, signal, Half(period, j) * Alternate(j))
  {
    hide SinBoc11, SinBoc61, Place, CrossTerm, Replica, Half, Alternate, Cboc;
    PlaceSteps(i, period, j);
    PlaceSteps(i, period, j + 1);
    var k := Place(i, period, j);
    var s := Replica(w, signal, code, period, k);
    SquareOfReplica(w, signal, code, period, i, j);
    assert Energy(w, signal, code, period, k + 1) == Energy(w, signal, code, period, k) + s * s;
  }

  // Energy after i whole chips and j samples of the next.
  lemma {:induction false} EnergyUpTo(w: Weights, signal: Signal, code: seq<int>, period: nat, i: nat, j: nat)
    requires Cboc(w) && Chips(code) && signal != OtherSignal && j <= period && (i < CHIPS || (i == CHIPS && j == 0))
    ensures 0 <= Place(i, period, j)
    ensures Energy(w, signal, code, period, Place(i, period, j))
            == Place(i, period, j) as real
               + CrossTerm(w, signal, Place(i, ChipCorrelation(period, period), ChipCorrelation(period, j)))
    decreases i, j
  {
    hide SinBoc11, SinBoc61, CrossTerm, Half, Alternate, Replica;
    var whole := ChipCorrelation(period, period);
    if j > 0 {
      EnergyUpTo(w, signal, code, period, i, j - 1);
      EnergyStep(w, signal, code, period, i, j - 1);
      CrossTermFacts(w, signal, Place(i, whole, ChipCorrelation(period, j - 1)),
                     Half(period, j - 1) * Alternate(j - 1));
    } else if i > 0 {
      EnergyUpTo(w, signal, code, period, i - 1, period);
      NextMultiple(i, period);
      NextMultiple(i, whole);
    } else {
      CrossTermFacts(w, signal, 0, 0);
    }
  }

  lemma {:induction false} NextMultiple(i: int, x: int)
    ensures Place(i, x, 0) == Place(i - 1, x, x)
  {
  }

  // Samples past the last whole chip are zero.
  lemma {:induction false} EnergyOfRest(w: Weights, signal: Signal, code: seq<int>, period: nat, n: nat)
    requires |code| >= CHIPS && signal != OtherSignal && n >= CHIPS * period
    ensures Energy(w, signal, code, period, n) == Energy(w, signal, code, period, CHIPS * period)
    decreases n
  {
    if n > CHIPS * period {
      hide SinBoc11, SinBoc61;
      EnergyOfRest(w, signal, code, period, n - 1);
      PastTheLastChip(code, period);
      SilentSample(w, signal, code, period, n - 1);
    }
  }

  lemma {:induction false} SilentSample(w: Weights, signal: Signal, code: seq<int>, period: nat, k: nat)
    requires |code| >= CHIPS && signal != OtherSignal && SinBoc11(code, period, k) == SinBoc61(code, period, k) == 0
    ensures Replica(w, signal, code, period, k) == 0.0
  {
  }

  // For every code of ones and minus ones, both signals and every length of the destination, the
  // energy of the replica is the number of samples in whole chips if and only if there is a
  // multiple of 4 of them in each chip.
  lemma {:induction false} EnergyExactly(w: Weights, signal: Signal, code: seq<int>, length: nat)
    requires Cboc(w) && Chips(code) && signal != OtherSignal
    ensures var period := length / CHIPS;
            Energy(w, signal, code, period, length) == (CHIPS * period) as real <==> period % 4 == 0
  {
    hide SinBoc11, SinBoc61, CrossTerm, Replica;
    var period := length / CHIPS;
    EnergyOfRest(w, signal, code, period, length);
    EnergyUpTo(w, signal, code, period, CHIPS, 0);
    OrthogonalExactly(period);
    CrossTermFacts(w, signal, 0, CHIPS * ChipCorrelation(period, period));
  }

  // ---- correlation ---------------------------------------------------------------------------------------------

  // Sample k of the second sub-carrier or of the first.
  function SubCarrier(second: bool, code: seq<int>, period: nat, k: nat): int
    requires |code| >= CHIPS
  {
    if second then SinBoc61(code, period, k) else SinBoc11(code, period, k)
  }

  // Correlation of the replica with a sub-carrier over the first n samples.
  ghost function Correlation(w: Weights, signal: Signal, second: bool, code: seq<int>, period: nat, n: nat): real
    requires |code| >= CHIPS && signal != OtherSignal
  {
    if n == 0 then 0.0
    else
      Correlation(w, signal, second, code, period, n - 1)
      + Times(Replica(w, signal, code, period, n - 1), SubCarrier(second, code, period, n - 1))
  }

  function Times(x: real, m: int): real {
    x * m as real
  }

  // Sum of the products of two sub-carriers.
  ghost function Inner(a: bool, b: bool, code: seq<int>, period: nat, n: nat): int
    requires |code| >= CHIPS
  {
    if n == 0 then 0
    else
      Inner(a, b, code, period, n - 1) + Product(a, b, code, period, n - 1)
  }

  function Product(a: bool, b: bool, code: seq<int>, period: nat, k: nat): int
    requires |code| >= CHIPS
  {
    SubCarrier(a, code, period, k) * SubCarrier(b, code, period, k)
  }

  // The weight of the second sub-carrier, with its sign.
  function Second(w: Weights, signal: Signal): real {
    if signal == E1B then w.beta else -w.beta
  }

  lemma {:induction false} CorrelationIsInner(w: Weights, signal: Signal, second: bool, code: seq<int>, period: nat,
                                              n: nat)
    requires |code| >= CHIPS && signal != OtherSignal
    ensures Correlation(w, signal, second, code, period, n)
            == Times(w.alpha, Inner(false, second, code, period, n))
               + Times(Second(w, signal), Inner(true, second, code, period, n))
  {
    hide SubCarrier, Replica, Second, Times, Product;
    if n == 0 {
      TimesZero(w.alpha, Second(w, signal));
    } else {
      CorrelationIsInner(w, signal, second, code, period, n - 1);
      OneProduct(w, signal, second, code, period, n - 1, Inner(false, second, code, period, n - 1),
                 Inner(true, second, code, period, n - 1));
    }
  }

  lemma {:induction false} TimesZero(p: real, q: real)
    ensures Times(p, 0) + Times(q, 0) == 0.0
  {
  }

  // What one sample adds to both sides.
  lemma {:induction false} OneProduct(w: Weights, signal: Signal, second: bool, code: seq<int>, period: nat, k: nat,
                                      m: int, n: int)
    requires |code| >= CHIPS && signal != OtherSignal
    ensures Times(w.alpha, m) + Times(Second(w, signal), n)
            + Times(Replica(w, signal, code, period, k), SubCarrier(second, code, period, k))
            == Times(w.alpha, m + Product(false, second, code, period, k))
               + Times(Second(w, signal), n + Product(true, second, code, period, k))
  {
    hide SubCarrier, Replica, Second, Times;
    ReplicaIsSum(w, signal, code, period, k);
    var z := SubCarrier(second, code, period, k);
    Distributed(w.alpha, m, SubCarrier(false, code, period, k), z);
    Distributed(Second(w, signal), n, SubCarrier(true, code, period, k), z);
    SumTimes(Times(w.alpha, SubCarrier(false, code, period, k)),
             Times(Second(w, signal), SubCarrier(true, code, period, k)), z);
  }

  lemma {:induction false} ReplicaIsSum(w: Weights, signal: Signal, code: seq<int>, period: nat, k: nat)
    requires |code| >= CHIPS && signal != OtherSignal
    ensures Replica(w, signal, code, period, k)
            == Times(w.alpha, SubCarrier(false, code, period, k))
               + Times(Second(w, signal), SubCarrier(true, code, period, k))
  {
    hide SinBoc11, SinBoc61;
    Negated(w.beta, SinBoc61(code, period, k) as real);
  }

  lemma {:induction false} Negated(b: real, y: real)
    ensures (-b) * y == -(b * y)
  {
  }

  lemma {:induction false} Distributed(p: real, m: int, x: int, z: int)
    ensures Times(p, m + x * z) == Times(p, m) + Times(Times(p, x), z)
  {
    assert (m + x * z) as real == m as real + x as real * z as real;
    assert p * (x as real * z as real) == (p * x as real) * z as real;
  }

  lemma {:induction false} SumTimes(a: real, b: real, z: int)
    ensures Times(a + b, z) == Times(a, z) + Times(b, z)
  {
  }

  // After i whole chips and j samples of the next.
  lemma {:induction false} InnerUpTo(a: bool, b: bool, code: seq<int>, period: nat, i: nat, j: nat)
    requires Chips(code) && j <= period && (i < CHIPS || (i == CHIPS && j == 0))
    ensures 0 <= Place(i, period, j)
    ensures Inner(a, b, code, period, Place(i, period, j))
            == if a == b then Place(i, period, j)
               else Place(i, ChipCorrelation(period, period), ChipCorrelation(period, j))
    decreases i, j
  {
    hide Product;
    var whole := ChipCorrelation(period, period);
    if j > 0 {
      InnerUpTo(a, b, code, period, i, j - 1);
      PlaceSteps(i, period, j - 1);
      PlaceSteps(i, period, j);
      SubCarrierProduct(a, b, code, period, i, j - 1);
    } else if i > 0 {
      InnerUpTo(a, b, code, period, i - 1, period);
      NextMultiple(i, period);
      NextMultiple(i, whole);
    }
  }

  lemma {:induction false} SubCarrierProduct(a: bool, b: bool, code: seq<int>, period: nat, i: nat, j: nat)
    requires Chips(code) && j < period && i < CHIPS
    ensures 0 <= Place(i, period, j)
    ensures Product(a, b, code, period, Place(i, period, j))
            == if a == b then 1 else Half(period, j) * Alternate(j)
  {
    hide SinBoc11, SinBoc61, Place;
    SubCarrierSamples(code, period, i, j);
    var c := code[i];
    assert c == 1 || c == -1;
  }

  lemma {:induction false} InnerOfRest(a: bool, b: bool, code: seq<int>, period: nat, n: nat)
    requires |code| >= CHIPS && n >= CHIPS * period
    ensures Inner(a, b, code, period, n) == Inner(a, b, code, period, CHIPS * period)
    decreases n
  {
    if n > CHIPS * period {
      hide SinBoc11, SinBoc61;
      InnerOfRest(a, b, code, period, n - 1);
      PastTheLastChip(code, period);
    }
  }

  lemma {:induction false} InnerWhole(a: bool, b: bool, code: seq<int>, length: nat)
    requires Chips(code)
    ensures var period := length / CHIPS;
            Inner(a, b, code, period, length) == CHIPS * if a == b then period else ChipCorrelation(period, period)
  {
    hide Inner, ChipCorrelation;
    var period := length / CHIPS;
    InnerOfRest(a, b, code, period, length);
    InnerUpTo(a, b, code, period, CHIPS, 0);
    NothingCorrelated(period);
  }

  lemma {:induction false} NothingCorrelated(period: nat)
    ensures ChipCorrelation(period, 0) == 0
  {
  }

  // Which weight goes with which sub-carrier: the correlation of the replica with SinBOC(1,1) is alpha
  // times the samples in whole chips, and with SinBOC(6,1) beta times them for E1B and minus that for
  // E1C, if and only if there is a multiple of 4 of them in each chip.
  lemma {:induction false} CorrelationExactly(w: Weights, signal: Signal, code: seq<int>, length: nat)
    requires Cboc(w) && Chips(code) && signal != OtherSignal
    ensures var period := length / CHIPS;
            var samples := (CHIPS * period) as real;
            && ((Correlation(w, signal, false, code, period, length) == w.alpha * samples) <==> period % 4 == 0)
            && ((Correlation(w, signal, true, code, period, length)
                 == (if signal == E1B then w.beta else -w.beta) * samples) <==> period % 4 == 0)
  {
    hide Correlation, Inner, ChipCorrelation;
    var period := length / CHIPS;
    var cross := CHIPS * ChipCorrelation(period, period);
    CorrelationIsInner(w, signal, false, code, period, length);
    CorrelationIsInner(w, signal, true, code, period, length);
    InnerWhole(false, false, code, length);
    InnerWhole(false, true, code, length);
    InnerWhole(true, false, code, length);
    InnerWhole(true, true, code, length);
    OrthogonalExactly(period);
    assert w.alpha != 0.0 && w.beta != 0.0;
    OnlyZero(w.alpha, cross);
    OnlyZero(Second(w, signal), cross);
  }

  lemma {:induction false} OnlyZero(f: real, n: int)
    requires f != 0.0
    ensures f * n as real == 0.0 <==> n == 0
  {
  }
}
