// INIReader: the values of a parsed file under lower-case "section.name" keys.
module IniReader {
  import opened IniText
  import opened IniParser
  import opened IniFile
  import opened Options

  function ToLower(c: char): char {
    if 'A' <= c <= 'Z' then c - 'A' + 'a' else c
  }

  function Lower(s: string): (r: string)
    ensures |r| == |s|
  {
    seq(|s|, i requires 0 <= i < |s| => ToLower(s[i]))
  }

  function Key(section: string, name: string): string {
    Lower(section + "." + name)
  }

  // ---- agreement up to case, character by character ------------------------------------------------

  predicate SameLetter(c: char, d: char) {
    || c == d
    || ('A' <= c <= 'Z' && d as int == c as int + 32)
    || ('A' <= d <= 'Z' && c as int == d as int + 32)
  }

  predicate Agree(a: string, b: string) {
    |a| == |b| && forall i :: 0 <= i < |a| ==> SameLetter(a[i], b[i])
  }

  lemma {:induction false} LowerIsCaseFree(c: char, d: char)
    ensures ToLower(c) == ToLower(d) <==> SameLetter(c, d)
  {
  }

  lemma {:induction false} LowerExactly(a: string, b: string)
    ensures Lower(a) == Lower(b) <==> Agree(a, b)
  {
    hide ToLower, SameLetter;
    if Agree(a, b) {
      forall i | 0 <= i < |a|
        ensures Lower(a)[i] == Lower(b)[i]
      {
        LowerIsCaseFree(a[i], b[i]);
      }
      assert Lower(a) == Lower(b);
    }
    if Lower(a) == Lower(b) {
      forall i | 0 <= i < |a|
        ensures SameLetter(a[i], b[i])
      {
        assert Lower(a)[i] == Lower(b)[i];
        LowerIsCaseFree(a[i], b[i]);
      }
    }
  }

  // Two pairs share a key exactly when their texts agree up to the case of ASCII letters.
  lemma {:induction false} KeyExactly(s: string, n: string, s': string, n': string)
    ensures Key(s, n) == Key(s', n') <==> Agree(s + "." + n, s' + "." + n')
  {
    LowerExactly(s + "." + n, s' + "." + n');
  }

  // The key of a pair starts with the key of a section exactly when its text does, up to case.
  lemma {:induction false} PrefixExactly(section: string, s: string, n: string)
    ensures Lower(section + ".") <= Key(s, n) <==> StartsWith(s + "." + n, section + ".")
  {
    var prefix, text := section + ".", s + "." + n;
    if |prefix| <= |text| {
      LowerExactly(prefix, text[..|prefix|]);
      assert Lower(text)[..|prefix|] == Lower(text[..|prefix|]);
    }
  }

  predicate StartsWith(text: string, prefix: string) {
    |prefix| <= |text| && Agree(prefix, text[..|prefix|])
  }

  // ---- the order of keys ---------------------------------------------------------------------------

  // Lexicographic order, as std::map<std::string, ...> keeps its keys.
  predicate LessEq(a: string, b: string) {
    a == "" || (b != "" && (a[0] < b[0] || (a[0] == b[0] && LessEq(a[1..], b[1..]))))
  }

  lemma {:induction false} LessEqTotal(a: string, b: string)
    ensures LessEq(a, b) || LessEq(b, a)
    ensures LessEq(a, b) && LessEq(b, a) ==> a == b
  {
    if a != "" && b != "" && a[0] == b[0] {
      LessEqTotal(a[1..], b[1..]);
      assert a == [a[0]] + a[1..] && b == [b[0]] + b[1..];
    }
  }

  lemma {:induction false} LessEqTransitive(a: string, b: string, c: string)
    requires LessEq(a, b) && LessEq(b, c)
    ensures LessEq(a, c)
  {
    if a != "" && a[0] == b[0] == c[0] {
      LessEqTransitive(a[1..], b[1..], c[1..]);
    }
  }

  lemma {:induction false} PrefixLessEq(p: string, k: string)
    requires p <= k
    ensures LessEq(p, k)
  {
    if p != "" {
      PrefixLessEq(p[1..], k[1..]);
    }
  }

  // A key between a prefix and a key with that prefix has the prefix too.
  lemma {:induction false} Between(p: string, x: string, k: string)
    requires LessEq(p, x) && LessEq(x, k) && p <= k
    ensures p <= x
  {
    if p != "" {
      Between(p[1..], x[1..], k[1..]);
      assert p == [p[0]] + p[1..] && x == [x[0]] + x[1..];
    }
  }

  ghost predicate IsLowerBound(keys: set<string>, key: string, bound: Option<string>) {
    match bound
    case None => forall k :: k in keys ==> !LessEq(key, k)
    case Some(b) => b in keys && LessEq(key, b) && forall k :: k in keys && LessEq(key, k) ==> LessEq(b, k)
  }

  // std::map::lower_bound
  method LowerBound(values: map<string, string>, key: string) returns (bound: Option<string>)
    ensures IsLowerBound(values.Keys, key, bound)
  {
    bound := None;
    var rest := values.Keys;
    while rest != {}
      invariant rest <= values.Keys && IsLowerBound(values.Keys - rest, key, bound)
      decreases |rest|
    {
      var k :| k in rest;
      rest := rest - {k};
      if LessEq(key, k) {
        LessEqTotal(k, k);
        if bound.None? {
          bound := Some(k);
        } else {
          LessEqTotal(bound.value, k);
          if !LessEq(bound.value, k) {
            Smaller(values.Keys - rest - {k}, key, bound.value, k);
            bound := Some(k);
          }
        }
      }
    }
  }

  lemma {:induction false} Smaller(seen: set<string>, key: string, b: string, k: string)
    requires IsLowerBound(seen, key, Some(b)) && LessEq(k, b)
    ensures forall x :: x in seen && LessEq(key, x) ==> LessEq(k, x)
  {
    forall x | x in seen && LessEq(key, x)
      ensures LessEq(k, x)
    {
      LessEqTransitive(k, b, x);
    }
  }

  // Inspecting the key at the lower bound alone decides whether any key has the prefix.
  lemma {:induction false} BoundDecides(keys: set<string>, key: string, bound: Option<string>)
    requires IsLowerBound(keys, key, bound)
    ensures (bound.Some? && key <= bound.value) <==> exists k :: k in keys && key <= k
  {
    if k :| k in keys && key <= k {
      PrefixLessEq(key, k);
      if bound.Some? {
        Between(key, bound.value, k);
      }
    }
  }

  class INIReader {
    var values: map<string, string>
    var error: nat

    // ValueHandler; it always reports success.
    method ValueHandler(section: string, name: string, value: string) returns (ok: bool)
      modifies this`values
      ensures ok && values == old(values)[Key(section, name) := value]
    {
      values := values[MakeKey(section, name) := value];
      return true;
    }

    static function MakeKey(section: string, name: string): string {
      Key(section, name)
    }

    constructor (lines: seq<string>)
      ensures values == StoreAll(map[], Parse(Start(), lines, Always()).calls)
      ensures error == Parse(Start(), lines, Always()).error
    {
      values := map[];
      error := 0;
      new;
      var parser := new IniParser(Always());
      error := parser.ParseFile(lines);
      for i := 0 to |parser.calls|
        invariant error == Parse(Start(), lines, Always()).error
        invariant parser.calls == Parse(Start(), lines, Always()).calls
        invariant StoreAll(map[], parser.calls) == StoreAll(values, parser.calls[i..])
        modifies this`values
      {
        var call := parser.calls[i];
        assert parser.calls[i..][1..] == parser.calls[i + 1..];
        var ok := ValueHandler(call.section, call.name, call.value);
      }
    }

    method Get(section: string, name: string, defaultValue: string) returns (value: string)
      ensures value == if Key(section, name) in values then values[Key(section, name)] else defaultValue
      ensures forall s, n :: Agree(s + "." + n, section + "." + name) && Key(s, n) in values ==>
                               value == values[Key(s, n)]
    {
      forall s, n | Agree(s + "." + n, section + "." + name)
        ensures Key(s, n) == Key(section, name)
      {
        KeyExactly(s, n, section, name);
      }
      var key := MakeKey(section, name);
      return if key in values then values[key] else defaultValue;
    }

    // True exactly when some stored key starts with the lower-case "section.".
    method HasSection(section: string) returns (found: bool)
      ensures found <==> exists k :: k in values && Lower(section + ".") <= k
    {
      var key := MakeKey(section, "");
      assert section + "." + "" == section + ".";
      var pos := LowerBound(values, key);
      BoundDecides(values.Keys, key, pos);
      if pos.None? { return false; }
      return |pos.value| >= |key| && pos.value[..|key|] == key;
    }
  }

  function StoreAll(values: map<string, string>, calls: seq<Call>): map<string, string>
    decreases |calls|
  {
    if calls == [] then values
    else StoreAll(values[Key(calls[0].section, calls[0].name) := calls[0].value], calls[1..])
  }

  // The last value given for a key.
  function LastValue(calls: seq<Call>, key: string): Option<string> {
    if calls == [] then None
    else
      var last := calls[|calls| - 1];
      if Key(last.section, last.name) == key then Some(last.value) else LastValue(calls[..|calls| - 1], key)
  }

  lemma {:induction false} StoreSnoc(values: map<string, string>, calls: seq<Call>)
    requires calls != []
    ensures var n := |calls| - 1;
            StoreAll(values, calls)
            == StoreAll(values, calls[..n])[Key(calls[n].section, calls[n].name) := calls[n].value]
    decreases |calls|
  {
    if |calls| > 1 {
      StoreSnoc(values[Key(calls[0].section, calls[0].name) := calls[0].value], calls[1..]);
      assert calls[1..][..|calls| - 2] == calls[..|calls| - 1][1..];
    }
  }

  lemma {:induction false} StoredIsLast(calls: seq<Call>, key: string)
    ensures var v := StoreAll(map[], calls);
            LastValue(calls, key) == if key in v then Some(v[key]) else None
    decreases |calls|
  {
    if calls != [] {
      StoreSnoc(map[], calls);
      StoredIsLast(calls[..|calls| - 1], key);
    }
  }

  // The last value among the pairs whose text agrees with section.name.
  function LastAgreeing(calls: seq<Call>, section: string, name: string): Option<string> {
    if calls == [] then None
    else
      var last := calls[|calls| - 1];
      if Agree(last.section + "." + last.name, section + "." + name) then Some(last.value)
      else LastAgreeing(calls[..|calls| - 1], section, name)
  }

  lemma {:induction false} LastExactly(calls: seq<Call>, section: string, name: string)
    ensures LastValue(calls, Key(section, name)) == LastAgreeing(calls, section, name)
    decreases |calls|
  {
    hide Key, Agree;
    if calls != [] {
      var last := calls[|calls| - 1];
      KeyExactly(last.section, last.name, section, name);
      LastExactly(calls[..|calls| - 1], section, name);
    }
  }

  // A printed file reads back: there is no error, Get returns the last value among the pairs whose
  // text agrees with the one asked for up to the case of ASCII letters, and HasSection finds exactly
  // the sections with entries, in the same sense (up to dots in names).
  method ReadPrinted(items: seq<Item>, section: string, name: string, defaultValue: string)
    returns (value: string, found: bool, error: nat)
    requires forall i :: 0 <= i < |items| ==> Printable(items[i])
    ensures error == 0
    ensures var last := LastAgreeing(CallsOf(items, "", ""), section, name);
            value == if last.Some? then last.value else defaultValue
    ensures found <==> exists c :: c in CallsOf(items, "", "") && StartsWith(c.section + "." + c.name, section + ".")
  {
    hide Parse, Print, CallsOf, StoreAll, LastValue, LastAgreeing, Printable, LessEq, StartsWith;
    PrintParse(Start(), items);
    assert [] + CallsOf(items, "", "") == CallsOf(items, "", "");
    var reader := new INIReader(Print(items));
    error := reader.error;
    StoredIsLast(CallsOf(items, "", ""), Key(section, name));
    LastExactly(CallsOf(items, "", ""), section, name);
    value := reader.Get(section, name, defaultValue);
    found := reader.HasSection(section);
    SectionOfCalls(CallsOf(items, "", ""), Lower(section + "."));
    forall c: Call
      ensures Lower(section + ".") <= Key(c.section, c.name) <==> StartsWith(c.section + "." + c.name, section + ".")
    {
      PrefixExactly(section, c.section, c.name);
    }
  }

  lemma {:induction false} SectionOfCalls(calls: seq<Call>, prefix: string)
    ensures (exists k :: k in StoreAll(map[], calls) && prefix <= k) <==>
              exists c :: c in calls && prefix <= Key(c.section, c.name)
  {
    KeysOfCalls(calls);
    if c :| c in calls && prefix <= Key(c.section, c.name) {
      assert Key(c.section, c.name) in StoreAll(map[], calls);
    }
  }

  lemma {:induction false} KeysOfCalls(calls: seq<Call>)
    ensures forall k :: k in StoreAll(map[], calls) <==> exists c :: c in calls && Key(c.section, c.name) == k
    decreases |calls|
  {
    if calls != [] {
      var n := |calls| - 1;
      StoreSnoc(map[], calls);
      KeysOfCalls(calls[..n]);
      assert forall c :: c in calls <==> c in calls[..n] || c == calls[n];
      forall k
        ensures k in StoreAll(map[], calls) <==> exists c :: c in calls && Key(c.section, c.name) == k
      {
        if k in StoreAll(map[], calls) {
          if k in StoreAll(map[], calls[..n]) {
            var c :| c in calls[..n] && Key(c.section, c.name) == k;
            assert c in calls;
          } else {
            assert calls[n] in calls;
          }
        }
      }
    }
  }
}
