// find_uio_num: the k-th FPGA device of a given name in the order of device numbers. The directory
// listing and the device names stored in the file system are parameters.
module UioLookup {
  import opened Arithmetic
  import opened VersionOrder
  import opened Options

  // NotFound is the result -1; Unreadable is the exception of get_uio_name.
  datatype Lookup = Found(number: nat) | NotFound | Unreadable

  // ---- numbers in names ------------------------------------------------------------------------------

  function Pow10(n: nat): (p: nat)
    ensures p > 0
  {
    if n == 0 then 1 else 10 * Pow10(n - 1)
  }

  ghost predicate AllDigits(s: Name) {
    forall i :: 0 <= i < |s| ==> IsDigit(s[i])
  }

  function Decimal(n: nat): (s: Name)
    ensures |s| > 0
  {
    (if n < 10 then [] else Decimal(n / 10)) + [ZERO + n % 10]
  }

  function Value(s: Name): (v: int) {
    if s == [] then 0 else (s[0] - ZERO) * Pow10(|s| - 1) + Value(s[1..])
  }

  lemma {:induction false} ValueBound(s: Name)
    requires AllDigits(s)
    ensures 0 <= Value(s) < Pow10(|s|)
  {
    if s != [] {
      ValueBound(s[1..]);
      Scale(s[0] - ZERO, Pow10(|s| - 1));
    }
  }

  lemma {:induction false} Scale(d: int, p: int)
    requires 0 <= d <= 9 && p > 0
    ensures 0 <= d * p <= 9 * p
  {
  }

  lemma {:induction false} ValueAppend(s: Name, c: Char8)
    ensures Value(s + [c]) == 10 * Value(s) + (c - ZERO)
  {
    if s == [] {
      assert Value([c][1..]) == 0;
    } else {
      ValueAppend(s[1..], c);
      assert (s + [c])[1..] == s[1..] + [c];
      var d, p := s[0] - ZERO, Pow10(|s| - 1);
      assert d * (10 * p) == 10 * (d * p);
    }
  }

  // No leading zero, except in "0" itself.
  ghost predicate Canonical(s: Name) {
    s != [] && AllDigits(s) && (s[0] == ZERO ==> |s| == 1)
  }

  lemma {:induction false} DecimalValue(n: nat)
    ensures Canonical(Decimal(n)) && Value(Decimal(n)) == n && (Decimal(n)[0] == ZERO ==> n == 0)
  {
    if n < 10 {
      ValueAppend([], ZERO + n);
      assert Decimal(n) == [] + [ZERO + n];
    } else {
      DecimalValue(n / 10);
      ValueAppend(Decimal(n / 10), ZERO + n % 10);
    }
  }

  lemma {:induction false} RunOfDigits(s: Name)
    requires AllDigits(s)
    ensures Run(s) == |s|
  {
    if s != [] {
      RunOfDigits(s[1..]);
    }
  }

  lemma {:induction false} Longer(a: Name, b: Name)
    requires AllDigits(a) && AllDigits(b) && |a| < |b| && b[0] != ZERO
    ensures Value(a) < Value(b)
  {
    ValueBound(a);
    ValueBound(b[1..]);
    Pow10Monotone(|a|, |b| - 1);
    MulSpread(b[0] - ZERO, Pow10(|b| - 1));
  }

  lemma {:induction false} Pow10Monotone(a: nat, b: nat)
    requires a <= b
    ensures Pow10(a) <= Pow10(b)
    decreases b
  {
    if a < b {
      Pow10Monotone(a, b - 1);
    }
  }

  // Inside an integer, digit strings of one length compare as their values do.
  lemma {:induction false} SameLengthDigits(a: Name, b: Name)
    requires AllDigits(a) && AllDigits(b) && |a| == |b|
    ensures Compare(S_I, a, b) < 0 <==> Value(a) < Value(b)
    ensures Compare(S_I, a, b) == 0 <==> Value(a) == Value(b)
    decreases |a|
  {
    if a != [] {
      if a[0] == b[0] {
        SameLengthDigits(a[1..], b[1..]);
      } else {
        FirstDigit(a, b);
      }
    }
  }

  lemma {:induction false} FirstDigit(a: Name, b: Name)
    requires AllDigits(a) && AllDigits(b) && |a| == |b| > 0 && a[0] != b[0]
    ensures a[0] < b[0] <==> Value(a) < Value(b)
    ensures Value(a) != Value(b)
    ensures Compare(S_I, a, b) == Head(a) - Head(b)
  {
    FirstDigitDecides(a, b);
    FirstDigitValue(a, b);
  }

  lemma {:induction false} FirstDigitValue(a: Name, b: Name)
    requires AllDigits(a) && AllDigits(b) && |a| == |b| > 0 && a[0] != b[0]
    ensures a[0] < b[0] <==> Value(a) < Value(b)
    ensures Value(a) != Value(b)
  {
    hide Pow10;
    ValueBound(a[1..]);
    ValueBound(b[1..]);
    var x: int, y: int := a[0] - ZERO, b[0] - ZERO;
    LeadingDigit(x, y, Pow10(|a| - 1), Value(a[1..]), Value(b[1..]));
  }

  lemma {:induction false} FirstDigitDecides(a: Name, b: Name)
    requires AllDigits(a) && AllDigits(b) && |a| == |b| > 0 && a[0] != b[0]
    ensures Compare(S_I, a, b) == Head(a) - Head(b)
  {
    hide Decide;
    RunOfDigits(a[1..]);
    RunOfDigits(b[1..]);
    Table(S_I, a, b);
  }

  lemma {:induction false} LeadingDigit(x: int, y: int, p: int, u: int, v: int)
    requires 0 <= u < p && 0 <= v < p && x != y
    ensures x < y <==> x * p + u < y * p + v
    ensures x * p + u != y * p + v
  {
    if x < y {
      MulSpread(y - x, p);
    } else {
      MulSpread(x - y, p);
    }
    assert (y - x) * p == y * p - x * p && (x - y) * p == x * p - y * p;
  }

  // Decimal numbers without leading zeros compare as numbers.
  lemma {:induction false} CanonicalOrder(a: Name, b: Name)
    requires Canonical(a) && Canonical(b)
    ensures Compare(S_N, a, b) < 0 <==> Value(a) < Value(b)
  {
    if a[0] != ZERO && b[0] != ZERO {
      NonzeroOrder(a, b);
    } else if a[0] == b[0] {
      EqualCompare(S_N, a);
      assert a == b;
    } else if a[0] == ZERO {
      ZeroFirst(a, b);
    } else {
      ZeroFirst(b, a);
      Antisymmetric(S_N, b, a);
    }
  }

  lemma {:induction false} ZeroFirst(a: Name, b: Name)
    requires Canonical(a) && Canonical(b) && a[0] == ZERO && b[0] != ZERO
    ensures Compare(S_N, a, b) < 0 && Value(a) < Value(b)
  {
    hide Decide;
    Table(S_N, a, b);
    assert Value(a[1..]) == 0;
    ValueBound(b[1..]);
    MulSpread(b[0] - ZERO, Pow10(|b| - 1));
  }

  lemma {:induction false} NonzeroOrder(a: Name, b: Name)
    requires Canonical(a) && Canonical(b) && a[0] != ZERO && b[0] != ZERO
    ensures Compare(S_N, a, b) < 0 <==> Value(a) < Value(b)
  {
    StartInteger(a, b);
    RunOfDigits(a);
    RunOfDigits(b);
    if |a| == |b| {
      SameLengthDigits(a, b);
    } else if |a| < |b| {
      Longer(a, b);
      RunFirst(a, b);
    } else {
      Longer(b, a);
      RunFirst(b, a);
      Antisymmetric(S_I, b, a);
    }
  }

  lemma {:induction false} StartInteger(a: Name, b: Name)
    requires Canonical(a) && Canonical(b) && a[0] != ZERO && b[0] != ZERO
    ensures Compare(S_N, a, b) == Compare(S_I, a, b)
  {
    hide Decide;
    Table(S_N, a, b);
    Table(S_I, a, b);
  }

  lemma {:induction false} SkipPrefix(prefix: Name, a: Name, b: Name)
    requires forall i :: 0 <= i < |prefix| ==> !IsDigit(prefix[i])
    ensures Compare(S_N, prefix + a, prefix + b) == Compare(S_N, a, b)
    decreases |prefix|
  {
    if prefix == [] {
      assert prefix + a == a && prefix + b == b;
    } else {
      assert (prefix + a)[1..] == prefix[1..] + a && (prefix + b)[1..] == prefix[1..] + b;
      SkipPrefix(prefix[1..], a, b);
    }
  }

  // A directory entry: a prefix without digits and a device number.
  function Path(prefix: Name, n: nat): Name {
    prefix + Decimal(n)
  }

  ghost predicate DigitFree(prefix: Name) {
    forall i :: 0 <= i < |prefix| ==> !IsDigit(prefix[i])
  }

  lemma {:induction false} PathOrder(prefix: Name, m: nat, n: nat)
    requires DigitFree(prefix)
    ensures Before(Path(prefix, m), Path(prefix, n)) <==> m < n
  {
    SkipPrefix(prefix, Decimal(m), Decimal(n));
    DecimalValue(m);
    DecimalValue(n);
    CanonicalOrder(Decimal(m), Decimal(n));
  }

  // ---- get_uio_num -------------------------------------------------------------------------------------

  function FirstDigitIn(s: Name): (i: nat)
    ensures i <= |s|
  {
    if s == [] || IsDigit(s[0]) then 0 else 1 + FirstDigitIn(s[1..])
  }

  // The number after the first digit, 0 when there is none.
  function UioNum(s: Name): int {
    var rest := s[FirstDigitIn(s)..];
    Value(rest[..Run(rest)])
  }

  method GetUioNum(name: Name) returns (n: int)
    ensures n == UioNum(name) && n >= 0
  {
    var i := 0;
    while i < |name| && !IsDigit(name[i])
      invariant 0 <= i <= |name|
      invariant FirstDigitIn(name) == i + FirstDigitIn(name[i..])
    {
      assert name[i..][1..] == name[i + 1..];
      i := i + 1;
    }
    n := Atoi(name[i..]);
  }

  // atoi on text that starts with a digit or is empty.
  method Atoi(s: Name) returns (n: int)
    ensures n == Value(s[..Run(s)]) && n >= 0
  {
    n := 0;
    var i := 0;
    while i < |s| && IsDigit(s[i])
      invariant 0 <= i <= |s| && n == Value(s[..i]) && n >= 0
      invariant Run(s) == i + Run(s[i..])
    {
      assert s[i..][1..] == s[i + 1..];
      assert s[..i + 1] == s[..i] + [s[i]];
      ValueAppend(s[..i], s[i]);
      n := 10 * n + (s[i] - ZERO);
      i := i + 1;
    }
  }

  lemma {:induction false} UioNumOfPath(prefix: Name, n: nat)
    requires DigitFree(prefix)
    ensures UioNum(Path(prefix, n)) == n
  {
    DecimalValue(n);
    RunOfDigits(Decimal(n));
    FirstDigitOfPath(prefix, Decimal(n));
    assert Path(prefix, n)[|prefix|..] == Decimal(n);
    assert Decimal(n)[..|Decimal(n)|] == Decimal(n);
  }

  lemma {:induction false} FirstDigitOfPath(prefix: Name, s: Name)
    requires DigitFree(prefix) && s != [] && IsDigit(s[0])
    ensures FirstDigitIn(prefix + s) == |prefix|
    decreases |prefix|
  {
    if prefix == [] {
      assert prefix + s == s;
    } else {
      assert (prefix + s)[1..] == prefix[1..] + s;
      FirstDigitOfPath(prefix[1..], s);
    }
  }

  // ---- sorting --------------------------------------------------------------------------------------------

  // What std::sort guarantees.
  ghost predicate Ordered(s: seq<Name>) {
    forall i, j :: 0 <= i < j < |s| ==> !Before(s[j], s[i])
  }

  function Insert(x: Name, s: seq<Name>): (r: seq<Name>)
    ensures multiset(r) == multiset(s) + multiset{x}
  {
    if s == [] then [x]
    else if Before(x, s[0]) then
      assert [x] + s == [x] + s;
      [x] + s
    else
      assert s == [s[0]] + s[1..];
      [s[0]] + Insert(x, s[1..])
  }

  function Sort(s: seq<Name>): (r: seq<Name>)
    ensures multiset(r) == multiset(s)
  {
    if s == [] then []
    else
      assert s == [s[0]] + s[1..];
      Insert(s[0], Sort(s[1..]))
  }

  lemma {:induction false} InsertOrdered(x: Name, s: seq<Name>)
    requires Ordered(s)
    ensures Ordered(Insert(x, s))
  {
    if s != [] && !Before(x, s[0]) {
      InsertOrdered(x, s[1..]);
      var r := Insert(x, s[1..]);
      forall j | 0 <= j < |r|
        ensures !Before(r[j], s[0])
      {
        assert r[j] in multiset(r);
        assert r[j] == x || r[j] in s[1..];
      }
    } else if s != [] {
      forall j | 0 <= j < |s|
        ensures !Before(s[j], x)
      {
        StrictTotalOrder(x, s[0], s[j]);
        StrictTotalOrder(s[j], x, s[0]);
        StrictTotalOrder(s[0], s[j], x);
      }
    }
  }

  lemma {:induction false} SortOrdered(s: seq<Name>)
    ensures Ordered(Sort(s))
  {
    if s != [] {
      SortOrdered(s[1..]);
      InsertOrdered(s[0], Sort(s[1..]));
    }
  }

  // Because the comparison is a strict total order, whatever std::sort does its result is determined.
  lemma {:induction false} SortDetermined(u: seq<Name>, v: seq<Name>)
    requires Ordered(u) && Ordered(v) && multiset(u) == multiset(v)
    ensures u == v
    decreases |u|
  {
    if u == [] {
      assert |multiset(v)| == 0;
    } else {
      hide Before;
      SameHead(u, v);
      RestOf(u);
      RestOf(v);
      SortDetermined(u[1..], v[1..]);
    }
  }

  lemma {:induction false} SameHead(u: seq<Name>, v: seq<Name>)
    requires Ordered(u) && Ordered(v) && multiset(u) == multiset(v) && u != []
    ensures v != [] && u[0] == v[0]
  {
    hide Before;
    assert |multiset(u)| == |multiset(v)|;
    assert u[0] in multiset(u) && v[0] in multiset(v);
    var i :| 0 <= i < |v| && v[i] == u[0];
    var j :| 0 <= j < |u| && u[j] == v[0];
    StrictTotalOrder(u[0], v[0], u[0]);
  }

  lemma {:induction false} RestOf(u: seq<Name>)
    requires u != []
    ensures u == [u[0]] + u[1..] && multiset(u[1..]) == multiset(u) - multiset{u[0]}
  {
    assert u == [u[0]] + u[1..];
  }

  // ---- find_uio_num -------------------------------------------------------------------------------------------

  // The search through the sorted entries.
  function Search(entries: seq<Name>, device: string, k: nat, nameOf: int -> Option<string>): (r: Lookup) {
    if entries == [] then NotFound
    else
      var n := UioNum(entries[0]);
      match nameOf(n)
      case None => Unreadable
      case Some(name) =>
        if name != device then Search(entries[1..], device, k, nameOf)
        else if k > 0 then Search(entries[1..], device, k - 1, nameOf)
        else if n >= 0 then Found(n)
        else NotFound
  }

  // find_uio_num, on the directory listing.
  method FindUioNum(listing: seq<Name>, device: string, deviceNum: nat, nameOf: int -> Option<string>)
    returns (r: Lookup)
    ensures r == Search(Sort(listing), device, deviceNum, nameOf)
  {
    var dirs := Sort(listing);
    var uioCount := 0;
    for i := 0 to |dirs|
      invariant uioCount <= deviceNum
      invariant Search(dirs, device, deviceNum, nameOf) == Search(dirs[i..], device, deviceNum - uioCount, nameOf)
    {
      assert dirs[i..][1..] == dirs[i + 1..];
      var uioNum := GetUioNum(dirs[i]);
      if uioNum >= 0 {
        match nameOf(uioNum)
        case None => return Unreadable;
        case Some(name) =>
          if device == name {
            if uioCount == deviceNum {
              return Found(uioNum);
            } else {
              uioCount := uioCount + 1;
            }
          }
      }
    }
    return NotFound;
  }

  function Paths(prefix: Name, ns: seq<nat>): (r: seq<Name>)
    ensures |r| == |ns|
  {
    seq(|ns|, i requires 0 <= i < |ns| => Path(prefix, ns[i]))
  }

  ghost predicate Increasing(ns: seq<nat>) {
    forall i, j :: 0 <= i < j < |ns| ==> ns[i] < ns[j]
  }

  // The numbers of the devices of that name, in the order given.
  function Matching(ns: seq<nat>, device: string, nameOf: int -> Option<string>): (r: seq<nat>) {
    if ns == [] then []
    else (if nameOf(ns[0]) == Some(device) then [ns[0]] else []) + Matching(ns[1..], device, nameOf)
  }

  // How many names can be read before one that cannot.
  function Readable(ns: seq<nat>, nameOf: int -> Option<string>): (u: nat)
    ensures u <= |ns| && (u < |ns| ==> nameOf(ns[u]).None?)
    ensures forall i :: 0 <= i < u ==> nameOf(ns[i]).Some?
  {
    if ns == [] || nameOf(ns[0]).None? then 0 else 1 + Readable(ns[1..], nameOf)
  }

  // What a search is to return: the k-th matching device before the first one whose name cannot be
  // read.
  function Kth(ns: seq<nat>, device: string, k: nat, nameOf: int -> Option<string>): Lookup {
    var u := Readable(ns, nameOf);
    var m := Matching(ns[..u], device, nameOf);
    if k < |m| then Found(m[k]) else if u < |ns| then Unreadable else NotFound
  }

  lemma {:induction false} KthStep(ns: seq<nat>, device: string, k: nat, nameOf: int -> Option<string>)
    requires ns != [] && nameOf(ns[0]).Some?
    ensures Kth(ns, device, k, nameOf)
            == if nameOf(ns[0]).value != device then Kth(ns[1..], device, k, nameOf)
               else if k > 0 then Kth(ns[1..], device, k - 1, nameOf)
               else Found(ns[0])
  {
    var u := Readable(ns, nameOf);
    assert ns[..u][1..] == ns[1..][..u - 1];
  }

  lemma {:induction false} SearchPaths(prefix: Name, ns: seq<nat>, device: string, k: nat,
                                       nameOf: int -> Option<string>)
    requires DigitFree(prefix)
    ensures Search(Paths(prefix, ns), device, k, nameOf) == Kth(ns, device, k, nameOf)
    decreases |ns|
  {
    if ns != [] {
      UioNumOfPath(prefix, ns[0]);
      hide UioNum, Path, DigitFree;
      if nameOf(ns[0]).Some? {
        hide Kth;
        assert Paths(prefix, ns)[1..] == Paths(prefix, ns[1..]);
        KthStep(ns, device, k, nameOf);
        SearchPaths(prefix, ns[1..], device, k, nameOf);
        if k > 0 {
          SearchPaths(prefix, ns[1..], device, k - 1, nameOf);
        }
      }
    }
  }

  lemma {:induction false} MatchingMembers(ns: seq<nat>, device: string, nameOf: int -> Option<string>)
    requires Increasing(ns)
    ensures Increasing(Matching(ns, device, nameOf))
    ensures forall n :: n in Matching(ns, device, nameOf) <==> n in ns && nameOf(n) == Some(device)
  {
    if ns != [] {
      MatchingMembers(ns[1..], device, nameOf);
      assert ns == [ns[0]] + ns[1..];
      var rest := Matching(ns[1..], device, nameOf);
      forall i | 0 <= i < |rest|
        ensures rest[i] > ns[0]
      {
        assert rest[i] in ns[1..];
        var j :| 0 <= j < |ns| - 1 && ns[1..][j] == rest[i];
        assert ns[0] < ns[j + 1];
      }
    }
  }

  // Sorting directory entries sorts their numbers.
  lemma {:induction false} SortPaths(prefix: Name, listing: seq<Name>, ns: seq<nat>)
    requires DigitFree(prefix) && Increasing(ns) && multiset(listing) == multiset(Paths(prefix, ns))
    ensures Sort(listing) == Paths(prefix, ns)
  {
    var p := Paths(prefix, ns);
    forall i, j | 0 <= i < j < |p|
      ensures !Before(p[j], p[i])
    {
      PathOrder(prefix, ns[j], ns[i]);
    }
    SortOrdered(listing);
    SortDetermined(Sort(listing), p);
  }

  // For a listing in any order of entries with the numbers ns, the search returns the k-th
  // matching device in increasing numeric order. Devices from the first one on whose name cannot be
  // read do not matter; the search fails there, or returns -1 if there is no such device.
  lemma {:induction false} KthDevice(prefix: Name, listing: seq<Name>, ns: seq<nat>, device: string, k: nat,
                                     nameOf: int -> Option<string>)
    requires DigitFree(prefix) && Increasing(ns) && multiset(listing) == multiset(Paths(prefix, ns))
    ensures var u := Readable(ns, nameOf);
            var m := Matching(ns[..u], device, nameOf);
            && Increasing(m) && (forall n :: n in m <==> n in ns[..u] && nameOf(n) == Some(device))
            && Search(Sort(listing), device, k, nameOf)
               == if k < |m| then Found(m[k]) else if u < |ns| then Unreadable else NotFound
  {
    SortPaths(prefix, listing, ns);
    SearchPaths(prefix, ns, device, k, nameOf);
    MatchingMembers(ns[..Readable(ns, nameOf)], device, nameOf);
  }
}
