// ini_parse over the lines of a file.
module IniParser {
  import opened IniText

  const MAX_LINE := 200
  const MAX_SECTION := 50
  const MAX_NAME := 50

  datatype Call = Call(section: string, name: string, value: string)

  // What one line is.
  datatype Line =
    | Nothing
    | Section(name: string)
    | Pair(name: string, value: string)
    | Continuation(value: string)
    | Bad

  // The part of a line that the buffer takes, as a C string.
  function Buffered(line: string): (s: string) {
    var kept := Take(line, MAX_LINE - 1);
    kept[..End(kept, 0)]
  }

  function ClassifySection(start: string): Line
    requires start != ""
  {
    var rest := start[1..];
    var i := Find(rest, ']');
    if i < |rest| && rest[i] == ']' then Section(rest[..i]) else Bad
  }

  function ClassifyPair(start: string): Line {
    var i := Find(start, '=');
    if i < |start| && start[i] == '=' then
      var value := LSkip(start[i + 1..]);
      Pair(RStrip(start[..i]), RStrip(value[..Find(value, ';')]))
    else Bad
  }

  function Classify(line: string): Line {
    var text := RStrip(Buffered(line));
    var start := LSkip(text);
    if start != "" && |start| < |text| then Continuation(start)
    else if start == "" || start[0] == ';' then Nothing
    else if start[0] == '[' then ClassifySection(start)
    else ClassifyPair(start)
  }

  datatype State = State(section: string, prevName: string, lineno: nat, error: nat, calls: seq<Call>)

  type Handler = (string, string, string) -> bool

  function Fail(s: State): State {
    if s.error == 0 then s.(error := s.lineno) else s
  }

  function Invoke(s: State, h: Handler, name: string, value: string): State {
    var s1 := s.(calls := s.calls + [Call(s.section, name, value)]);
    if h(s.section, name, value) then s1 else Fail(s1)
  }

  function Act(s: State, line: Line, h: Handler): State {
    match line
    case Nothing => s
    case Section(name) => s.(section := Take(name, MAX_SECTION - 1))
    case Pair(name, value) => Invoke(s.(prevName := Take(name, MAX_NAME - 1)), h, name, value)
    case Continuation(value) => Invoke(s, h, s.prevName, value)
    case Bad => Fail(s)
  }

  function ParseLine(s: State, line: string, h: Handler): State {
    Act(s.(lineno := s.lineno + 1), Classify(line), h)
  }

  function Parse(s: State, lines: seq<string>, h: Handler): State
    decreases |lines|
  {
    if lines == [] then s else Parse(ParseLine(s, lines[0], h), lines[1..], h)
  }

  function Start(): State {
    State("", "", 0, 0, [])
  }

  // ---- the loop of ini_parse ----------------------------------------------------------------------

  class IniParser {
    const line: array<char>
    const section: array<char>
    const prevName: array<char>
    var lineno: nat
    var error: nat
    var calls: seq<Call>
    const handler: Handler

    ghost predicate Valid()
      reads this, line, section, prevName
    {
      && line.Length == MAX_LINE && section.Length == MAX_SECTION && prevName.Length == MAX_NAME
      && line != section && line != prevName && section != prevName
      && Terminated(section[..], 0) && Terminated(prevName[..], 0)
    }

    ghost function Snapshot(): State
      reads this, line, section, prevName
      requires Valid()
    {
      State(Text(section[..], 0), Text(prevName[..], 0), lineno, error, calls)
    }

    constructor (handler: Handler)
      ensures Valid() && Snapshot() == Start() && this.handler == handler
      ensures fresh(line) && fresh(section) && fresh(prevName)
    {
      this.handler := handler;
      line := new char[MAX_LINE](i => NUL);
      section := new char[MAX_SECTION](i => NUL);
      prevName := new char[MAX_NAME](i => NUL);
      lineno, error, calls := 0, 0, [];
      new;
      EndIs(section[..], 0, 0);
      EndIs(prevName[..], 0, 0);
    }

    // Lines 119-130: the line into the buffer.
    method FillLine(text: string)
      requires line.Length == MAX_LINE
      modifies line
      ensures Terminated(line[..], 0) && Text(line[..], 0) == Buffered(text)
    {
      var length := |text|;
      if length > MAX_LINE - 1 {
        length := MAX_LINE - 1;
      }
      for i := 0 to length
        invariant forall k :: 0 <= k < i ==> line[k] == text[k]
      {
        line[i] := text[i];
      }
      line[length] := NUL;
      ghost var kept := Take(text, MAX_LINE - 1);
      ghost var e := End(kept, 0);
      assert kept == text[..length];
      EndIs(line[..], 0, e);
      assert line[..][0..e] == kept[..e];
    }

    // Calls the handler with a name and a value.
    method InvokeHandler(name: string, value: string)
      requires Valid()
      modifies this`error, this`calls
      ensures Valid() && Snapshot() == Invoke(old(Snapshot()), handler, name, value)
    {
      var s := CString(section, 0);
      calls := calls + [Call(s, name, value)];
      if !handler(s, name, value) && error == 0 {
        error := lineno;
      }
    }

    // The text a char pointer stands for.
    static method CString(a: array<char>, p: nat) returns (s: string)
      requires Terminated(a[..], p)
      ensures s == Text(a[..], p)
    {
      var e := Strlen(a, p);
      s := a[p..e];
      assert a[p..e] == a[..][p..e];
    }

    // Lines 145-160.
    method SectionLine()
      requires Valid() && Terminated(line[..], 0) && Text(line[..], 0) != "" && line[0] == '['
      modifies line, section, prevName, this`error
      ensures Valid()
      ensures Snapshot() == Act(old(Snapshot()), ClassifySection(Text(old(line[..]), 0)), handler)
    {
      ghost var b := line[..];
      EndIs(b, 1, End(b, 0));
      assert Text(b, 1) == Text(b, 0)[1..];
      var end := FindCharOrComment(line, 1, ']');
      if line[end] == ']' {
        line[end] := NUL;
        CutText(b, 1, end);
        assert line[..] == b[end := NUL];
        Strncpy0(section, line, 1, MAX_SECTION);
        ghost var n := prevName[..];
        prevName[MAX_NAME - 1] := NUL;
        LastNul(n, prevName[..]);
      } else if error == 0 {
        error := lineno;
      }
    }

    // Lines 161-189.
    method PairLine()
      requires Valid() && Terminated(line[..], 0) && Text(line[..], 0) != "" && !IsSpace(line[0])
      modifies line, prevName, this`error, this`calls
      ensures Valid()
      ensures Snapshot() == Act(old(Snapshot()), ClassifyPair(Text(old(line[..]), 0)), handler)
    {
      hide LSkip, RStrip, Find, Invoke, Take, End, ClassifyPair;
      PairParts(Text(line[..], 0));
      var end := FindCharOrComment(line, 0, '=');
      if line[end] == '=' {
        var name, value := SplitPair(end);
        TakePair(name, value);
      } else if error == 0 {
        error := lineno;
      }
    }

    // Lines 177-182: the name at the front of the buffer is kept, and the handler called.
    method TakePair(name: string, value: string)
      requires Valid() && Terminated(line[..], 0) && Text(line[..], 0) == name
      modifies prevName, this`error, this`calls
      ensures Valid() && Snapshot() == Act(old(Snapshot()), Pair(name, value), handler)
    {
      hide Invoke, Take, End;
      Strncpy0(prevName, line, 0, MAX_NAME);
      InvokeHandler(name, value);
    }

    // Lines 167-175: cuts the buffer into a name at 0 and a value.
    method SplitPair(end: nat) returns (name: string, value: string)
      requires line.Length == MAX_LINE && Terminated(line[..], 0) && end < End(line[..], 0)
      modifies line
      ensures var start := Text(old(line[..]), 0);
              && name == RStrip(start[..end])
              && value == RStrip(LSkip(start[end + 1..])[..Find(LSkip(start[end + 1..]), ';')])
      ensures Terminated(line[..], 0) && Text(line[..], 0) == name
    {
      CutName(end);
      name := CString(line, 0);
      value := CutValue(end);
    }

    method CutName(end: nat)
      requires line.Length == MAX_LINE && Terminated(line[..], 0) && end < End(line[..], 0)
      modifies line
      ensures Terminated(line[..], 0) && Text(line[..], 0) == RStrip(Text(old(line[..]), 0)[..end])
      ensures End(line[..], 0) <= end && line[end] == NUL
      ensures Terminated(line[..], end + 1) && Text(line[..], end + 1) == Text(old(line[..]), 0)[end + 1..]
    {
      hide End, RStrip;
      ghost var b0 := line[..];
      line[end] := NUL;
      ghost var b1 := line[..];
      CutText(b0, 0, end);
      assert b1 == b0[end := NUL];
      EndIs(b0, end + 1, End(b0, 0));
      assert b1[end + 1..] == b0[end + 1..];
      TextBehind(b0, b1, end + 1);
      Rstrip(line, 0);
      assert line[..][end + 1..] == b1[end + 1..];
      TextBehind(b1, line[..], end + 1);
    }

    // The value behind the cut at `end`, without its comment and surrounding blanks.
    method CutValue(end: nat) returns (value: string)
      requires line.Length == MAX_LINE && Terminated(line[..], 0) && End(line[..], 0) <= end
               && Terminated(line[..], end + 1)
      modifies line
      ensures var text := LSkip(Text(old(line[..]), end + 1));
              value == RStrip(text[..Find(text, ';')])
      ensures Terminated(line[..], 0) && Text(line[..], 0) == Text(old(line[..]), 0)
    {
      hide LSkip, RStrip, Find;
      ghost var b := line[..];
      var v := Lskip(line, end + 1);
      CutComment(v);
      ghost var b' := line[..];
      assert b'[..v] == b[..v];
      Rstrip(line, v);
      assert line[..][..v] == b'[..v];
      TextBefore(b, line[..], v);
      value := CString(line, v);
    }

    method CutComment(v: nat)
      requires line.Length == MAX_LINE && Terminated(line[..], v)
      modifies line
      ensures Terminated(line[..], v) && line[..v] == old(line[..v])
      ensures var text := Text(old(line[..]), v);
              Text(line[..], v) == text[..Find(text, ';')]
    {
      ghost var b := line[..];
      var stop := FindCharOrComment(line, v, ';');
      if line[stop] == ';' {
        line[stop] := NUL;
        CutText(b, v, stop);
        assert line[..] == b[stop := NUL];
      } else {
        assert Text(b, v)[..stop - v] == Text(b, v);
      }
    }

    // Lines 119-131: the stripped line in the buffer, and where its first nonblank is.
    method ReadLine(text: string) returns (start: nat)
      requires line.Length == MAX_LINE
      modifies line
      ensures Terminated(line[..], 0) && Terminated(line[..], start)
      ensures Text(line[..], 0) == RStrip(Buffered(text)) && Text(line[..], start) == LSkip(RStrip(Buffered(text)))
      ensures start == |RStrip(Buffered(text))| - |LSkip(RStrip(Buffered(text)))|
      ensures line[start] == if Text(line[..], start) == "" then NUL else Text(line[..], start)[0]
    {
      FillLine(text);
      Rstrip(line, 0);
      start := Lskip(line, 0);
      if Text(line[..], start) != "" {
        assert Text(line[..], start)[0] == line[start];
      }
    }

    method ContinuationLine(start: nat)
      requires Valid() && Terminated(line[..], start)
      modifies this`error, this`calls
      ensures Valid() && Snapshot() == Act(old(Snapshot()), Continuation(Text(line[..], start)), handler)
    {
      var name := CString(prevName, 0);
      var value := CString(line, start);
      InvokeHandler(name, value);
    }

    method ParseOne(text: string)
      requires Valid()
      modifies this`lineno, this`error, this`calls, line, section, prevName
      ensures Valid() && Snapshot() == ParseLine(old(Snapshot()), text, handler)
    {
      hide Buffered, Act, ClassifySection, ClassifyPair, RStrip, LSkip, End, IsSpace;
      lineno := lineno + 1;
      ghost var s := Snapshot();
      var start := ReadLine(text);
      assert Snapshot() == s;
      LSkipHead(RStrip(Buffered(text)));
      ActNothing(s, handler);
      if line[start] != NUL && start > 0 {
        ContinuationLine(start);
      } else if line[start] == '[' {
        SectionLine();
      } else if line[start] != NUL && line[start] != ';' {
        PairLine();
      }
    }

    // ini_parse, once the file is open
    method ParseFile(lines: seq<string>) returns (result: nat)
      requires Valid()
      modifies this`lineno, this`error, this`calls, line, section, prevName
      ensures Valid() && Snapshot() == Parse(old(Snapshot()), lines, handler) && result == Snapshot().error
    {
      hide ParseLine;
      for i := 0 to |lines|
        invariant Valid() && Parse(old(Snapshot()), lines, handler) == Parse(Snapshot(), lines[i..], handler)
      {
        assert lines[i..][1..] == lines[i + 1..];
        ParseOne(lines[i]);
      }
      return error;
    }
  }

  lemma {:induction false} LSkipHead(s: string)
    ensures LSkip(s) != "" ==> !IsSpace(LSkip(s)[0])
  {
    if s != "" {
      LSkipHead(s[1..]);
    }
  }

  lemma {:induction false} TextBefore(b: seq<char>, b': seq<char>, v: nat)
    requires |b| == |b'| && Terminated(b, 0) && End(b, 0) < v <= |b| && b[..v] == b'[..v]
    ensures Terminated(b', 0) && Text(b', 0) == Text(b, 0)
  {
    forall i | 0 <= i < v
      ensures b[i] == b'[i]
    {
      assert b[..v][i] == b'[..v][i];
    }
    EndIs(b', 0, End(b, 0));
  }

  lemma {:induction false} PairParts(start: string)
    ensures var i := Find(start, '=');
            ClassifyPair(start) ==
            if i < |start| && start[i] == '=' then
              Pair(RStrip(start[..i]), RStrip(LSkip(start[i + 1..])[..Find(LSkip(start[i + 1..]), ';')]))
            else Bad
  {
    hide Find, LSkip, RStrip;
  }

  lemma {:induction false} ActNothing(s: State, h: Handler)
    ensures Act(s, Nothing, h) == s
  {
  }

  lemma {:induction false} LastNul(b: seq<char>, b': seq<char>)
    requires |b| == |b'| > 0 && Terminated(b, 0) && b' == b[|b| - 1 := NUL]
    ensures Terminated(b', 0) && Text(b', 0) == Text(b, 0)
  {
    EndIs(b', 0, End(b, 0));
  }
}
