// NUL-terminated text in a buffer, and the in-place string helpers of ini.cc.
module IniText {

  const NUL := '\0'

  // isspace in the C locale.
  predicate IsSpace(c: char) {
    c == ' ' || '\t' <= c <= '\r'
  }

  // Position of the terminator of the text that starts at p, or the end of the buffer.
  function End(b: seq<char>, p: nat): (e: nat)
    requires p <= |b|
    ensures p <= e <= |b|
    ensures forall i :: p <= i < e ==> b[i] != NUL
    ensures e < |b| ==> b[e] == NUL
    decreases |b| - p
  {
    if p < |b| && b[p] != NUL then End(b, p + 1) else p
  }

  predicate Terminated(b: seq<char>, p: nat) {
    p < |b| && End(b, p) < |b|
  }

  // The C string at p.
  function Text(b: seq<char>, p: nat): (t: string)
    requires p <= |b|
  {
    b[p..End(b, p)]
  }

  lemma {:induction false} EndIs(b: seq<char>, p: nat, e: nat)
    requires p <= e < |b| && b[e] == NUL && forall i :: p <= i < e ==> b[i] != NUL
    ensures End(b, p) == e && Text(b, p) == b[p..e] && Terminated(b, p)
  {
  }

  function RStrip(s: string): (r: string)
    ensures |r| <= |s| && r == s[..|r|]
  {
    if s != "" && IsSpace(s[|s| - 1]) then RStrip(s[..|s| - 1]) else s
  }

  function LSkip(s: string): (r: string)
    ensures |r| <= |s| && r == s[|s| - |r|..]
  {
    if s != "" && IsSpace(s[0]) then LSkip(s[1..]) else s
  }

  // Index of the first c or ';', or the length.
  function Find(s: string, c: char): (i: nat)
    ensures i <= |s|
    ensures forall j :: 0 <= j < i ==> s[j] != c && s[j] != ';'
    ensures i < |s| ==> s[i] == c || s[i] == ';'
  {
    if s == "" || s[0] == c || s[0] == ';' then 0 else 1 + Find(s[1..], c)
  }

  function Take(s: string, n: nat): string {
    if |s| <= n then s else s[..n]
  }

  // rstrip: nothing changes but blanks at the end of the text, which become NUL.
  method Rstrip(a: array<char>, s: nat)
    requires Terminated(a[..], s)
    modifies a
    ensures Terminated(a[..], s) && Text(a[..], s) == RStrip(Text(old(a[..]), s))
    ensures var e := s + |Text(a[..], s)|;
            forall i :: 0 <= i < a.Length ==> a[i] == if e <= i < End(old(a[..]), s) then NUL else old(a[i])
  {
    hide RStrip, End;
    ghost var b := a[..];
    ghost var text := Text(b, s);
    var p := Strlen(a, s);
    ghost var e := p;
    assert text[..p - s] == text;
    RStripStep(text, 0);
    while p > s
      invariant s <= p <= e
      invariant forall i :: 0 <= i < a.Length ==> a[i] == if p <= i < e then NUL else b[i]
      invariant RStrip(text) == RStrip(text[..p - s])
    {
      assert text[p - s - 1] == b[p - 1];
      RStripStep(text, p - s);
      if !IsSpace(a[p - 1]) {
        break;
      }
      a[p - 1] := NUL;
      p := p - 1;
    }
    CutBlanks(a[..], b, s, p);
  }

  // A text whose characters from p on became NUL.
  lemma {:induction false} CutBlanks(b': seq<char>, b: seq<char>, s: nat, p: nat)
    requires |b'| == |b| && Terminated(b, s) && s <= p <= End(b, s)
    requires forall i :: 0 <= i < |b| ==> b'[i] == if p <= i < End(b, s) then NUL else b[i]
    ensures Terminated(b', s) && Text(b', s) == Text(b, s)[..p - s]
  {
    EndIs(b', s, p);
    assert b'[s..p] == b[s..p];
  }

  method Strlen(a: array<char>, s: nat) returns (e: nat)
    requires Terminated(a[..], s)
    ensures e == End(a[..], s)
  {
    e := s;
    while a[e] != NUL
      invariant s <= e < a.Length && End(a[..], s) == End(a[..], e)
      decreases a.Length - e
    {
      e := e + 1;
    }
  }

  // lskip
  method Lskip(a: array<char>, s: nat) returns (p: nat)
    requires Terminated(a[..], s)
    ensures s <= p && Terminated(a[..], p) && End(a[..], p) == End(a[..], s)
    ensures Text(a[..], p) == LSkip(Text(a[..], s)) && p == s + |Text(a[..], s)| - |Text(a[..], p)|
  {
    hide End, LSkip, Text;
    ghost var b := a[..];
    p := s;
    while a[p] != NUL && IsSpace(a[p])
      invariant s <= p && Terminated(b, p) && End(b, p) == End(b, s)
      invariant LSkip(Text(b, s)) == LSkip(Text(b, p))
      decreases a.Length - p
    {
      LSkipStep(b, p);
      p := p + 1;
    }
    LSkipStep(b, p);
    TextLength(b, s);
    TextLength(b, p);
  }

  // One step of rstrip, on the first n characters.
  lemma {:induction false} RStripStep(text: string, n: nat)
    requires n <= |text|
    ensures n == 0 ==> RStrip(text[..n]) == text[..n]
    ensures n > 0 && IsSpace(text[n - 1]) ==> RStrip(text[..n]) == RStrip(text[..n - 1])
    ensures n > 0 && !IsSpace(text[n - 1]) ==> RStrip(text[..n]) == text[..n]
  {
    if n > 0 {
      assert text[..n][..n - 1] == text[..n - 1];
    }
  }

  lemma {:induction false} TextLength(b: seq<char>, p: nat)
    requires p <= |b|
    ensures |Text(b, p)| == End(b, p) - p
  {
  }

  lemma {:induction false} LSkipStep(b: seq<char>, p: nat)
    requires Terminated(b, p)
    ensures b[p] == NUL || !IsSpace(b[p]) ==> LSkip(Text(b, p)) == Text(b, p)
    ensures b[p] != NUL && IsSpace(b[p]) ==>
              && LSkip(Text(b, p)) == LSkip(Text(b, p + 1))
              && Terminated(b, p + 1) && End(b, p + 1) == End(b, p)
  {
    hide End, Text, LSkip;
    if b[p] == NUL {
      TextNone(b, p);
      LSkipCons(b[p], "");
    } else {
      TextHead(b, p);
      LSkipCons(b[p], Text(b, p + 1));
    }
  }

  lemma {:induction false} TextNone(b: seq<char>, p: nat)
    requires Terminated(b, p) && b[p] == NUL
    ensures Text(b, p) == ""
  {
  }

  lemma {:induction false} LSkipCons(c: char, s: string)
    ensures LSkip("") == ""
    ensures LSkip([c] + s) == if IsSpace(c) then LSkip(s) else [c] + s
  {
    assert ([c] + s)[1..] == s;
  }

  lemma {:induction false} TextHead(b: seq<char>, p: nat)
    requires Terminated(b, p) && b[p] != NUL
    ensures Terminated(b, p + 1) && End(b, p + 1) == End(b, p)
    ensures Text(b, p) == [b[p]] + Text(b, p + 1)
  {
  }

  // find_char_or_comment
  method FindCharOrComment(a: array<char>, s: nat, c: char) returns (p: nat)
    requires Terminated(a[..], s)
    ensures p == s + Find(Text(a[..], s), c) && p <= End(a[..], s)
    ensures a[p] == if p < End(a[..], s) then Text(a[..], s)[p - s] else NUL
  {
    ghost var b := a[..];
    p := s;
    while a[p] != NUL && a[p] != c && a[p] != ';'
      invariant s <= p && Terminated(b, p) && End(b, p) == End(b, s)
      invariant Find(Text(b, s), c) == p - s + Find(Text(b, p), c)
      decreases a.Length - p
    {
      TextHead(b, p);
      p := p + 1;
    }
    if a[p] != NUL {
      TextHead(b, p);
    }
  }

  // strncpy0: always reads size - 1 characters of the source, whatever its length.
  method Strncpy0(dest: array<char>, src: array<char>, from: nat, size: nat)
    requires dest != src && 0 < size == dest.Length && from + size - 1 <= src.Length && Terminated(src[..], from)
    modifies dest
    ensures Terminated(dest[..], 0) && Text(dest[..], 0) == Take(Text(src[..], from), size - 1)
  {
    for i := 0 to size - 1
      invariant forall k :: 0 <= k < i ==> dest[k] == src[from + k]
    {
      dest[i] := src[from + i];
    }
    dest[size - 1] := NUL;
    CopiedText(dest[..], src[..], from, size - 1);
  }

  lemma {:induction false} CopiedText(dest: seq<char>, src: seq<char>, from: nat, room: nat)
    requires |dest| == room + 1 && from + room <= |src| && Terminated(src, from)
    requires dest[room] == NUL && forall k :: 0 <= k < room ==> dest[k] == src[from + k]
    ensures Terminated(dest, 0) && Text(dest, 0) == Take(Text(src, from), room)
  {
    var n := |Text(src, from)|;
    var e := if n < room then n else room;
    if n < room {
      assert dest[n] == src[from + n] == NUL;
    }
    forall k | 0 <= k < e
      ensures dest[k] == Text(src, from)[k] && dest[k] != NUL
    {
      assert dest[k] == src[from + k];
    }
    EndIs(dest, 0, e);
    assert dest[0..e] == Take(Text(src, from), room);
  }

  // *p = '\0'
  lemma {:induction false} CutText(b: seq<char>, s: nat, p: nat)
    requires Terminated(b, s) && s <= p <= End(b, s)
    ensures Terminated(b[p := NUL], s) && Text(b[p := NUL], s) == Text(b, s)[..p - s]
  {
    EndIs(b[p := NUL], s, p);
  }

  // Text behind a cut is not affected by it.
  lemma {:induction false} TextBehind(b: seq<char>, b': seq<char>, s: nat)
    requires |b| == |b'| && Terminated(b, s) && b[s..] == b'[s..]
    ensures Terminated(b', s) && Text(b', s) == Text(b, s)
  {
    forall i | s <= i < |b|
      ensures b[i] == b'[i]
    {
      assert b[s..][i - s] == b'[s..][i - s];
    }
    EndIs(b', s, End(b, s));
  }
}
