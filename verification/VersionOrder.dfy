// my_strverscmp: the comparison of names with embedded numbers, and the proof that it is a strict
// total order.
module VersionOrder {

  // A character of a NUL-terminated string, other than the NUL.
  type Char8 = c: int | 0 < c < 256 witness 1
  type Name = seq<Char8>

  const ZERO := 48  // '0'

  // States and results of the comparison table.
  const S_N := 0
  const S_I := 3
  const S_F := 6
  const S_Z := 9
  const CMP := 2
  const LEN := 3

  //                             x    d    0
  const NEXT_STATE: seq<int> := [
    /* S_N */                  S_N, S_I, S_Z,
    /* S_I */                  S_N, S_I, S_I,
    /* S_F */                  S_N, S_F, S_F,
    /* S_Z */                  S_N, S_F, S_Z]

  //                             x/x  x/d  x/0  d/x  d/d  d/0  0/x  0/d  0/0
  const RESULT_TYPE: seq<int> := [
    /* S_N */                  CMP, CMP, CMP, CMP, LEN, CMP, CMP, CMP, CMP,
    /* S_I */                  CMP,  -1,  -1,   1, LEN, LEN,   1, LEN, LEN,
    /* S_F */                  CMP, CMP, CMP, CMP, CMP, CMP, CMP, CMP, CMP,
    /* S_Z */                  CMP,   1,   1,  -1, CMP, CMP,  -1, CMP, CMP]

  predicate IsDigit(c: int) {
    ZERO <= c <= ZERO + 9
  }

  // 0 for a character that is no digit, 1 for 1 to 9, 2 for 0.
  function Kind(c: int): (k: nat)
    ensures k <= 2
  {
    (if c == ZERO then 1 else 0) + (if IsDigit(c) then 1 else 0)
  }

  predicate IsState(s: int) {
    s == S_N || s == S_I || s == S_F || s == S_Z
  }

  // The character at p, NUL at the end of the string; nothing may be read beyond that.
  function At(s: Name, p: nat): (c: int)
    requires p <= |s|
  {
    if p < |s| then s[p] else 0
  }

  function Head(s: Name): int {
    At(s, 0)
  }

  function Tail(s: Name): Name {
    if s == [] then [] else s[1..]
  }

  // Length of the run of digits a string starts with.
  function Run(s: Name): (n: nat)
    ensures n <= |s|
  {
    if s != [] && IsDigit(s[0]) then 1 + Run(s[1..]) else 0
  }

  // The longer run of digits is greater, equal runs compare by the first difference.
  function ByLength(run1: nat, run2: nat, diff: int): int {
    if run1 > run2 then 1 else if run1 < run2 then -1 else diff
  }

  // Entry of the result table.
  function Entry(state: int, k: nat): (result: int)
    requires 0 <= state < 12 && k <= 2
  {
    RESULT_TYPE[state * 3 + k]
  }

  // Result at the first difference, in state s.
  function Decide(s: int, a: Name, b: Name): int
    requires IsState(s)
  {
    var diff := Head(a) - Head(b);
    var result := Entry(s + Kind(Head(a)), Kind(Head(b)));
    if result == CMP then diff
    else if result == LEN then ByLength(Run(Tail(a)), Run(Tail(b)), diff)
    else result
  }

  // What the table says, spelled out.
  lemma {:induction false} Table(s: int, a: Name, b: Name)
    requires IsState(s)
    ensures var k1, k2, diff := Kind(Head(a)), Kind(Head(b)), Head(a) - Head(b);
            Decide(s, a, b) ==
            if (s == S_N && k1 == 1 && k2 == 1) || (s == S_I && k1 > 0 && k2 > 0)
              then ByLength(Run(Tail(a)), Run(Tail(b)), diff)
            else if s == S_I && k1 == 0 && k2 > 0 then -1
            else if s == S_I && k1 > 0 && k2 == 0 then 1
            else if s == S_Z && k1 == 0 && k2 > 0 then 1
            else if s == S_Z && k1 > 0 && k2 == 0 then -1
            else diff
  {
    hide Head, Tail, Kind, Run, ByLength, Entry;
    Entries(s, Kind(Head(a)), Kind(Head(b)));
  }

  lemma {:induction false} Entries(s: int, k1: nat, k2: nat)
    requires IsState(s) && k1 <= 2 && k2 <= 2
    ensures Entry(s + k1, k2) ==
            if (s == S_N && k1 == 1 && k2 == 1) || (s == S_I && k1 > 0 && k2 > 0) then LEN
            else if s == S_I && k1 == 0 && k2 > 0 then -1
            else if s == S_I && k1 > 0 && k2 == 0 then 1
            else if s == S_Z && k1 == 0 && k2 > 0 then 1
            else if s == S_Z && k1 > 0 && k2 == 0 then -1
            else CMP
  {
  }

  function Next(s: int, k: nat): (r: int)
    requires IsState(s) && k <= 2
    ensures IsState(r)
    ensures (s == S_I || s == S_N) && k == 1 ==> r == S_I
    ensures s == S_I && k == 2 ==> r == S_I
    ensures s == S_N && k == 0 ==> r == S_N
  {
    NEXT_STATE[s + k]
  }

  // Comparison of the rest of two strings that agree so far, in the state their common part led to.
  function Compare(s: int, a: Name, b: Name): (r: int)
    requires IsState(s)
    decreases |a|
  {
    if Head(a) != Head(b) then Decide(s, a, b)
    else if a == [] then 0
    else Compare(Next(s, Kind(a[0])), a[1..], Tail(b))
  }

  // my_strverscmp. `same` says that both arguments are the same pointer.
  method MyStrverscmp(s1: Name, s2: Name, same: bool) returns (r: int)
    requires same ==> s1 == s2
    ensures r == Compare(S_N, s1, s2)
  {
    if same {
      EqualCompare(S_N, s1);
      return 0;
    }
    var p1, p2 := 0, 0;
    var c1, c2 := At(s1, 0), At(s2, 0);
    p1, p2 := 1, 1;
    ghost var base := S_N;
    var state := S_N + Kind(c1);
    while c1 - c2 == 0
      invariant 1 <= p1 == p2 <= |s1| + 1 && p2 <= |s2| + 1
      invariant c1 == At(s1, p1 - 1) && c2 == At(s2, p2 - 1)
      invariant IsState(base) && state == base + Kind(c1)
      invariant Compare(S_N, s1, s2) == Compare(base, s1[p1 - 1..], s2[p2 - 1..])
      decreases |s1| + 1 - p1
    {
      if c1 == 0 {
        return 0;
      }
      base := Next(base, Kind(c1));
      state := NEXT_STATE[state];
      assert s1[p1 - 1..][1..] == s1[p1..] && s2[p2 - 1..][1..] == s2[p2..];
      c1 := At(s1, p1);
      c2 := At(s2, p2);
      p1, p2 := p1 + 1, p2 + 1;
      state := state + Kind(c1);
    }
    r := AtFirstDifference(s1, s2, p1, p2, state, base);
  }

  // The decision after the loop: p1 and p2 are past the characters that differ.
  method AtFirstDifference(s1: Name, s2: Name, p1: nat, p2: nat, state: int, ghost base: int) returns (r: int)
    requires 1 <= p1 <= |s1| + 1 && 1 <= p2 <= |s2| + 1
    requires IsState(base) && state == base + Kind(At(s1, p1 - 1)) && At(s1, p1 - 1) != At(s2, p2 - 1)
    ensures r == Decide(base, s1[p1 - 1..], s2[p2 - 1..])
  {
    hide Head, Tail, At, Kind, Run, ByLength, Entry;
    ghost var a, b := s1[p1 - 1..], s2[p2 - 1..];
    SuffixAt(s1, p1);
    SuffixAt(s2, p2);
    var c1, c2 := At(s1, p1 - 1), At(s2, p2 - 1);
    var diff := c1 - c2;
    var result := Entry(state, Kind(c2));
    if result == CMP {
      return diff;
    } else if result == LEN {
      LengthsOfDigits(base, a, b);
      r := CompareLengths(s1, s2, p1, p2, diff);
    } else {
      return result;
    }
  }

  lemma {:induction false} SuffixAt(s: Name, p: nat)
    requires 1 <= p <= |s| + 1
    ensures Head(s[p - 1..]) == At(s, p - 1)
    ensures p <= |s| ==> Tail(s[p - 1..]) == s[p..]
  {
  }

  // Lengths are compared only between digits, so both strings go on there.
  lemma {:induction false} LengthsOfDigits(s: int, a: Name, b: Name)
    requires IsState(s) && Entry(s + Kind(Head(a)), Kind(Head(b))) == LEN
    ensures a != [] && b != []
  {
  }

  method CompareLengths(s1: Name, s2: Name, start1: nat, start2: nat, diff: int) returns (r: int)
    requires start1 <= |s1| && start2 <= |s2|
    ensures r == ByLength(Run(s1[start1..]), Run(s2[start2..]), diff)
  {
    var p1, p2 := start1, start2;
    while IsDigit(At(s1, p1))
      invariant 0 <= p1 <= |s1| && 0 <= p2 <= |s2|
      invariant ByLength(Run(s1[start1..]), Run(s2[start2..]), diff) == ByLength(Run(s1[p1..]), Run(s2[p2..]), diff)
      decreases |s1| - p1
    {
      assert s1[p1..][1..] == s1[p1 + 1..];
      p1 := p1 + 1;
      if !IsDigit(At(s2, p2)) {
        return 1;
      }
      assert s2[p2..][1..] == s2[p2 + 1..];
      p2 := p2 + 1;
    }
    return if IsDigit(At(s2, p2)) then -1 else diff;
  }

  // ---- strict total order --------------------------------------------------------------------------

  lemma {:induction false} EqualCompare(s: int, a: Name)
    requires IsState(s)
    ensures Compare(s, a, a) == 0
    decreases |a|
  {
    if a != [] {
      EqualCompare(Next(s, Kind(a[0])), a[1..]);
    }
  }

  lemma {:induction false} ZeroMeansEqual(s: int, a: Name, b: Name)
    requires IsState(s)
    ensures Compare(s, a, b) == 0 <==> a == b
    decreases |a|
  {
    if Head(a) == Head(b) && a != [] {
      ZeroMeansEqual(Next(s, Kind(a[0])), a[1..], Tail(b));
      assert a == [a[0]] + a[1..] && b == [b[0]] + b[1..];
    }
  }

  lemma {:induction false} Antisymmetric(s: int, a: Name, b: Name)
    requires IsState(s)
    ensures Compare(s, a, b) < 0 <==> Compare(s, b, a) > 0
    decreases |a|
  {
    hide Decide;
    Table(s, a, b);
    Table(s, b, a);
    if Head(a) == Head(b) && a != [] {
      Antisymmetric(Next(s, Kind(a[0])), a[1..], Tail(b));
    }
  }

  // Inside an integer the comparison is by the length of the rest of the digits first.
  lemma {:induction false} RunFirst(a: Name, b: Name)
    ensures Run(a) < Run(b) ==> Compare(S_I, a, b) < 0
    ensures Compare(S_I, a, b) < 0 ==> Run(a) <= Run(b)
    decreases |a|
  {
    hide Decide;
    Table(S_I, a, b);
    if Head(a) == Head(b) && a != [] && IsDigit(a[0]) {
      RunFirst(a[1..], Tail(b));
    }
  }

  lemma {:induction false} Transitive(s: int, a: Name, b: Name, c: Name)
    requires IsState(s) && Compare(s, a, b) < 0 && Compare(s, b, c) < 0
    ensures Compare(s, a, c) < 0
    decreases |a|
  {
    hide Decide;
    Table(s, a, b);
    Table(s, b, c);
    Table(s, a, c);
    if Head(a) == Head(b) == Head(c) && a != [] {
      Transitive(Next(s, Kind(a[0])), a[1..], Tail(b), Tail(c));
    } else {
      if Head(a) == Head(b) && a != [] {
        RunFirst(Tail(a), Tail(b));
      }
      if Head(b) == Head(c) && b != [] {
        RunFirst(Tail(b), Tail(c));
      }
      if Head(a) == Head(c) && a != [] {
        RunFirst(Tail(a), Tail(c));
      }
    }
  }

  // sort_directories
  predicate Before(a: Name, b: Name) {
    Compare(S_N, a, b) < 0
  }

  // What std::sort requires of its comparison, and more: distinct names are always comparable.
  lemma {:induction false} StrictTotalOrder(a: Name, b: Name, c: Name)
    ensures !Before(a, a)
    ensures Before(a, b) ==> !Before(b, a)
    ensures Before(a, b) && Before(b, c) ==> Before(a, c)
    ensures a != b ==> Before(a, b) || Before(b, a)
  {
    EqualCompare(S_N, a);
    Antisymmetric(S_N, a, b);
    ZeroMeansEqual(S_N, a, b);
    Antisymmetric(S_N, b, a);
    if Before(a, b) && Before(b, c) {
      Transitive(S_N, a, b, c);
    }
  }

  // ---- the comparison without its tables -----------------------------------------------------------

  predicate Digit(c: int) {
    48 <= c <= 57
  }

  // The run of digits a string ends with.
  function Number(p: Name): (r: Name)
    ensures |r| <= |p|
  {
    if p != [] && Digit(p[|p| - 1]) then Number(p[..|p| - 1]) + [p[|p| - 1]] else []
  }

  predicate AllZeros(r: Name) {
    forall i :: 0 <= i < |r| ==> r[i] == 48
  }

  // What a common part that ends with the digits r says of the first difference, between the rests a
  // and b. In an integer, the longer run of digits is greater. Behind zeros that start a number, the
  // string whose run of digits goes on comes first. Everywhere else the characters decide.
  function Verdict(r: Name, a: Name, b: Name): int {
    var x, y := Head(a), Head(b);
    var integer := if r == [] then x != 48 && y != 48 && Digit(x) && Digit(y) else r[0] != 48;
    if integer && Digit(x) && Digit(y) then
      if Run(Tail(a)) != Run(Tail(b)) then (if Run(Tail(a)) > Run(Tail(b)) then 1 else -1) else x - y
    else if integer && Digit(x) then 1
    else if integer && Digit(y) then -1
    else if r != [] && AllZeros(r) && Digit(x) && !Digit(y) then -1
    else if r != [] && AllZeros(r) && Digit(y) && !Digit(x) then 1
    else x - y
  }

  // The state that a common part leads to.
  function StateAfter(p: Name): (s: int)
    ensures IsState(s)
  {
    if p == [] then S_N else Next(StateAfter(p[..|p| - 1]), Kind(p[|p| - 1]))
  }

  lemma {:induction false} StateExactly(p: Name)
    ensures var r := Number(p);
            StateAfter(p)
            == if r == [] then S_N else if r[0] != 48 then S_I else if AllZeros(r) then S_Z else S_F
  {
    if p != [] {
      var n := |p| - 1;
      StateExactly(p[..n]);
      NextStates(StateAfter(p[..n]), Kind(p[n]));
      LongerNumber(Number(p[..n]), p[n]);
    }
  }

  lemma {:induction false} NextStates(s: int, k: nat)
    requires IsState(s) && k <= 2
    ensures Next(s, k)
            == if k == 0 then S_N
               else if s == S_N then (if k == 2 then S_Z else S_I)
               else if s == S_Z then (if k == 2 then S_Z else S_F)
               else s
  {
  }

  lemma {:induction false} LongerNumber(r: Name, c: Char8)
    ensures AllZeros(r + [c]) <==> AllZeros(r) && c == 48
  {
    if AllZeros(r + [c]) {
      forall i | 0 <= i < |r|
        ensures r[i] == 48
      {
        assert (r + [c])[i] == r[i];
      }
      assert (r + [c])[|r|] == c;
    }
  }

  lemma {:induction false} CommonPart(p: Name, a: Name, b: Name)
    ensures Compare(S_N, p + a, p + b) == Compare(StateAfter(p), a, b)
  {
    if p == [] {
      assert p + a == a && p + b == b;
    } else {
      var n := |p| - 1;
      var c := [p[n]];
      assert p + a == p[..n] + (c + a) && p + b == p[..n] + (c + b);
      assert (c + a)[1..] == a && (c + b)[1..] == b;
      CommonPart(p[..n], c + a, c + b);
    }
  }

  // The comparison of any two strings at their first difference.
  lemma {:induction false} CompareExactly(p: Name, a: Name, b: Name)
    requires Head(a) != Head(b)
    ensures Compare(S_N, p + a, p + b) == Verdict(Number(p), a, b)
  {
    hide Decide, Number, Run, AllZeros;
    CommonPart(p, a, b);
    StateExactly(p);
    Table(StateAfter(p), a, b);
  }

  // Every two distinct strings have one.
  lemma {:induction false} FirstDifference(a: Name, b: Name) returns (p: Name, x: Name, y: Name)
    requires a != b
    ensures a == p + x && b == p + y && Head(x) != Head(y)
    decreases |a|
  {
    if Head(a) != Head(b) {
      p, x, y := [], a, b;
    } else {
      assert a != [] && b != [];
      assert a == [a[0]] + a[1..] && b == [a[0]] + b[1..];
      p, x, y := FirstDifference(a[1..], b[1..]);
      p := [a[0]] + p;
    }
  }

  // Fractions: behind zeros that start a number, digits compare as text, and the string whose run of
  // digits goes on comes first.
  lemma {:induction false} Fractions(p: Name, zeros: nat, a: Name, b: Name)
    requires (p != [] ==> !Digit(p[|p| - 1])) && zeros > 0 && Head(a) != Head(b) && Digit(Head(a))
    ensures Before(p + seq(zeros, i => 48) + a, p + seq(zeros, i => 48) + b) <==> !Digit(Head(b)) || Head(a) < Head(b)
  {
    NumberOfZeros(p, zeros);
    CompareExactly(p + seq(zeros, i => 48), a, b);
  }

  lemma {:induction false} NumberOfZeros(p: Name, zeros: nat)
    requires p != [] ==> !Digit(p[|p| - 1])
    ensures Number(p + seq(zeros, i => 48)) == seq(zeros, i => 48)
  {
    var z: Name := seq(zeros, i => 48);
    if zeros == 0 {
      assert p + z == p;
    } else {
      NumberOfZeros(p, zeros - 1);
      assert (p + z)[..|p| + zeros - 1] == p + seq(zeros - 1, i => 48);
      assert seq(zeros - 1, i => 48) + [48] == z;
    }
  }
}
