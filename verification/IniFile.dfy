// What ini_parse promises of whole files: the error line, and that printed files parse back.
module IniFile {
  import opened IniText
  import opened IniParser

  // ---- error line --------------------------------------------------------------------------------

  // No `c` in s from index `from` on that comes before every ';' there.
  ghost predicate Lacks(s: string, from: nat, c: char) {
    forall i :: from <= i < |s| && s[i] == c ==> exists j :: from <= j < i && s[j] == ';'
  }

  // An unindented line that is no comment and lacks its ']' or '='.
  ghost predicate Malformed(line: string) {
    var text := RStrip(Buffered(line));
    && text != "" && !Blank(text[0]) && text[0] != ';'
    && if text[0] == '[' then Lacks(text, 1, ']') else Lacks(text, 0, '=')
  }

  lemma {:induction false} FindLacks(s: string, from: nat, c: char)
    requires from <= |s| && c != ';'
    ensures var i := Find(s[from..], c);
            !(i < |s[from..]| && s[from..][i] == c) <==> Lacks(s, from, c)
  {
    var rest := s[from..];
    var i := Find(rest, c);
    if i < |rest| && rest[i] == c {
      assert s[from + i] == c;
      forall j | from <= j < from + i
        ensures s[j] != ';'
      {
        assert s[j] == rest[j - from];
      }
    } else {
      forall k | from <= k < |s| && s[k] == c
        ensures exists j :: from <= j < k && s[j] == ';'
      {
        assert rest[k - from] == c;
        assert i < k - from && rest[i] == ';' && s[from + i] == ';';
      }
    }
  }

  lemma {:induction false} LSkipKeeps(s: string)
    ensures (s != "" && !IsSpace(s[0])) <==> (s != "" && LSkip(s) == s)
    ensures s != "" && IsSpace(s[0]) ==> |LSkip(s)| < |s|
  {
  }

  lemma {:induction false} RStripEnd(s: string)
    ensures RStrip(s) != "" ==> !IsSpace(RStrip(s)[|RStrip(s)| - 1])
  {
    if s != "" && IsSpace(s[|s| - 1]) {
      RStripEnd(s[..|s| - 1]);
    }
  }

  lemma {:induction false} LSkipAll(s: string)
    ensures LSkip(s) == "" <==> forall i :: 0 <= i < |s| ==> IsSpace(s[i])
  {
    if s != "" && IsSpace(s[0]) {
      LSkipAll(s[1..]);
      if forall i :: 0 <= i < |s[1..]| ==> IsSpace(s[1..][i]) {
        forall i | 0 <= i < |s|
          ensures IsSpace(s[i])
        {
          if i > 0 {
            assert s[i] == s[1..][i - 1];
          }
        }
      } else {
        var i :| 0 <= i < |s[1..]| && !IsSpace(s[1..][i]);
        assert !IsSpace(s[i + 1]);
      }
    }
  }

  lemma {:induction false} BadMeansMalformed(line: string)
    ensures Classify(line) == Bad <==> Malformed(line)
  {
    hide Buffered, RStrip, Lacks, ClassifySection, ClassifyPair;
    var text := RStrip(Buffered(line));
    LSkipKeeps(text);
    if text != "" {
      BadText(text);
      if IsSpace(text[0]) {
        StripIndented(line);
      }
    }
  }

  lemma {:induction false} BadText(text: string)
    requires text != ""
    ensures ClassifySection(text) == Bad <==> Lacks(text, 1, ']')
    ensures ClassifyPair(text) == Bad <==> Lacks(text, 0, '=')
  {
    hide Find, Lacks;
    FindLacks(text, 1, ']');
    FindLacks(text, 0, '=');
    assert text[0..] == text;
  }

  lemma {:induction false} StripIndented(line: string)
    ensures var text := RStrip(Buffered(line));
            text != "" && IsSpace(text[0]) ==> LSkip(text) != "" && |LSkip(text)| < |text|
  {
    var text := RStrip(Buffered(line));
    RStripEnd(Buffered(line));
    LSkipAll(text);
    LSkipKeeps(text);
  }

  // Every nonblank line that starts with a blank is a continuation, whatever follows the blank.
  lemma {:induction false} ContinuationExactly(line: string)
    ensures var text := RStrip(Buffered(line));
            Classify(line).Continuation? <==> text != "" && Blank(text[0])
  {
    hide Buffered, RStrip, Find, LSkip, Blank, IsSpace;
    var text := RStrip(Buffered(line));
    LSkipKeeps(text);
    if text != "" {
      BlankIsSpace(text[0]);
      if Blank(text[0]) {
        StripIndented(line);
      }
    }
  }

  // The name of the last pair, whatever sections, comments and errors come after it.
  ghost function LastName(lines: seq<string>, before: string): string {
    if lines == [] then before
    else
      match Classify(lines[|lines| - 1])
      case Pair(name, _) => Cut(name)
      case _ => LastName(lines[..|lines| - 1], before)
  }

  // The name a continuation is given is that of the last pair of the file, or empty if there was
  // none: a section header does not forget it.
  lemma {:induction false} ContinuationName(lines: seq<string>, line: string, value: string, h: Handler)
    requires Classify(line) == Continuation(value)
    ensures var s := Parse(Start(), lines, h);
            && s.prevName == LastName(lines, "")
            && Parse(Start(), lines + [line], h).calls == s.calls + [Call(s.section, LastName(lines, ""), value)]
  {
    hide Classify;
    LastNameKept(Start(), lines, h);
    ParseAppend(Start(), lines, [line], h);
    ParseOne(Parse(Start(), lines, h), line, h);
  }

  lemma {:induction false} ParseOne(s: State, line: string, h: Handler)
    ensures Parse(s, [line], h) == ParseLine(s, line, h)
  {
    assert [line][1..] == [];
  }

  lemma {:induction false} CutIsTake(s: string)
    ensures Take(s, MAX_NAME - 1) == Cut(s) == Take(s, MAX_SECTION - 1)
  {
  }

  lemma {:induction false} LineName(s: State, line: string, h: Handler)
    ensures ParseLine(s, line, h).prevName == match Classify(line) case Pair(name, _) => Cut(name) case _ => s.prevName
  {
    hide Classify, Cut, Take;
    if Classify(line).Pair? {
      CutIsTake(Classify(line).name);
    }
  }

  lemma {:induction false} LastNameKept(s: State, lines: seq<string>, h: Handler)
    ensures Parse(s, lines, h).prevName == LastName(lines, s.prevName)
    decreases |lines|
  {
    if lines != [] {
      hide Classify, Cut, ParseLine;
      var front, last := lines[..|lines| - 1], lines[|lines| - 1];
      LastNameKept(s, front, h);
      assert lines == front + [last];
      ParseAppend(s, front, [last], h);
      ParseOne(Parse(s, front, h), last, h);
      LineName(Parse(s, front, h), last, h);
    }
  }

  // So a continuation right after a section header reaches the handler as another value of the last
  // name of the section before.
  lemma {:induction false} StrayContinuation(pair: string, header: string, line: string, h: Handler,
                                             name: string, value: string, section: string, more: string)
    requires Classify(pair) == Pair(name, value) && Classify(header) == Section(section)
    requires Classify(line) == Continuation(more)
    ensures Parse(Start(), [pair, header, line], h).calls
            == [Call("", name, value), Call(Cut(section), Cut(name), more)]
  {
    hide Classify;
    ParseOne(Start(), pair, h);
    var s1 := Parse(Start(), [pair], h);
    ParseAppend(Start(), [pair], [header], h);
    ParseOne(s1, header, h);
    assert [pair] + [header] == [pair, header] && [pair, header] + [line] == [pair, header, line];
    assert [pair, header][..1] == [pair] && [pair][..0] == [];
    ContinuationName([pair, header], line, more, h);
  }

  // Number of the first malformed line, 0 if there is none.
  ghost function FirstMalformed(lines: seq<string>, lineno: nat): (n: nat) {
    if lines == [] then 0
    else if Malformed(lines[0]) then lineno + 1
    else FirstMalformed(lines[1..], lineno + 1)
  }

  function Always(): Handler {
    (section, name, value) => true
  }

  lemma {:induction false} ErrorKept(s: State, lines: seq<string>, h: Handler)
    requires s.error != 0
    ensures Parse(s, lines, h).error == s.error
    decreases |lines|
  {
    hide Classify;
    if lines != [] {
      ErrorKept(ParseLine(s, lines[0], h), lines[1..], h);
    }
  }

  lemma {:induction false} StepError(s: State, line: string)
    requires s.error == 0
    ensures var r := ParseLine(s, line, Always());
            r.lineno == s.lineno + 1 && r.error == if Classify(line) == Bad then s.lineno + 1 else 0
  {
    hide Classify;
  }

  // With a handler that always succeeds the result is the number of the first malformed line, or 0.
  lemma {:induction false} ErrorLine(s: State, lines: seq<string>)
    requires s.error == 0
    ensures Parse(s, lines, Always()).error == FirstMalformed(lines, s.lineno)
    decreases |lines|
  {
    hide ParseLine, Classify, Malformed, Always;
    if lines != [] {
      BadMeansMalformed(lines[0]);
      StepError(s, lines[0]);
      var next := ParseLine(s, lines[0], Always());
      if Malformed(lines[0]) {
        ErrorKept(next, lines[1..], Always());
      } else {
        ErrorLine(next, lines[1..]);
      }
    }
  }

  // The handler is called by a line and refuses.
  ghost predicate Refused(s: State, line: string, h: Handler) {
    var calls := ParseLine(s, line, h).calls;
    |calls| == |s.calls| + 1 && !h(calls[|s.calls|].section, calls[|s.calls|].name, calls[|s.calls|].value)
  }

  // Number of the first line that is malformed or that the handler refuses, 0 if there is none.
  ghost function FirstFailing(s: State, lines: seq<string>, h: Handler): (n: nat)
    decreases |lines|
  {
    if lines == [] then 0
    else if Malformed(lines[0]) || Refused(s, lines[0], h) then s.lineno + 1
    else FirstFailing(ParseLine(s, lines[0], h), lines[1..], h)
  }

  // With any handler the result is the number of that line.
  lemma {:induction false} ErrorExactly(s: State, lines: seq<string>, h: Handler)
    requires s.error == 0
    ensures Parse(s, lines, h).error == FirstFailing(s, lines, h)
    decreases |lines|
  {
    hide ParseLine, Classify, Malformed, Refused;
    if lines != [] {
      BadMeansMalformed(lines[0]);
      AnyStepError(s, lines[0], h);
      var next := ParseLine(s, lines[0], h);
      if Malformed(lines[0]) || Refused(s, lines[0], h) {
        ErrorKept(next, lines[1..], h);
      } else {
        ErrorExactly(next, lines[1..], h);
      }
    }
  }

  lemma {:induction false} AnyStepError(s: State, line: string, h: Handler)
    requires s.error == 0
    ensures ParseLine(s, line, h).lineno == s.lineno + 1
    ensures ParseLine(s, line, h).error == if Classify(line) == Bad || Refused(s, line, h) then s.lineno + 1 else 0
  {
    hide Classify;
  }

  // ---- printing ------------------------------------------------------------------------------------

  // A line of a file: a section with anything behind its bracket, a pair with blanks and a comment, a
  // further value of the last pair on an indented line, or a blank line or comment.
  datatype Item =
    | Header(section: string, behind: string)
    | Value(name: string, left: string, right: string, value: string, tail: string)
    | More(indent: string, value: string, tail: string)
    | Note(text: string)

  function LineOf(item: Item): string {
    match item
    case Header(section, behind) => ['['] + section + ([']'] + behind)
    case Value(name, left, right, value, tail) => (name + left) + ['='] + (right + value + tail)
    case More(indent, value, tail) => indent + (value + tail)
    case Note(text) => text
  }

  function Print(items: seq<Item>): (lines: seq<string>)
    ensures |lines| == |items|
  {
    if items == [] then [] else [LineOf(items[0])] + Print(items[1..])
  }

  // Sections and names are kept up to 49 characters.
  function Cut(s: string): string {
    if |s| > 49 then s[..49] else s
  }

  // The triples that the items stand for, in order: `section` and `name` are the last ones before.
  function CallsOf(items: seq<Item>, section: string, name: string): seq<Call> {
    if items == [] then []
    else
      match items[0]
      case Header(s, _) => CallsOf(items[1..], Cut(s), name)
      case Value(n, _, _, v, _) => [Call(section, n, v)] + CallsOf(items[1..], section, Cut(n))
      case More(_, v, _) => [Call(section, name, v)] + CallsOf(items[1..], section, name)
      case Note(_) => CallsOf(items[1..], section, name)
  }

  predicate Free(s: string, c: char) {
    c !in s
  }

  predicate Blank(c: char) {
    c == ' ' || c == '\t' || c == '\n' || c == '\U{000B}' || c == '\U{000C}' || c == '\r'
  }

  predicate Blanks(s: string) {
    forall i :: 0 <= i < |s| ==> Blank(s[i])
  }

  predicate Trimmed(s: string) {
    s != "" ==> !Blank(s[0]) && !Blank(s[|s| - 1])
  }

  // Blanks, or blanks and a comment.
  predicate Remark(s: string) {
    s == "" || s[0] == ';' || (Blank(s[0]) && Remark(s[1..]))
  }

  predicate Printable(item: Item) {
    match item
    case Header(section, _) =>
      Free(section, ']') && Free(section, ';') && |LineOf(item)| <= 199 && Free(LineOf(item), NUL)
    case Value(name, left, right, value, tail) =>
      && Trimmed(name) && Free(name, '=') && Free(name, ';') && Blanks(left)
      && (if name == "" then left == "" else name[0] != '[')
      && Blanks(right) && Trimmed(value) && Free(value, ';') && Remark(tail)
      && |LineOf(item)| <= 199 && Free(LineOf(item), NUL)
    case More(indent, value, tail) =>
      && indent != "" && Blanks(indent) && value != "" && Trimmed(value) && Blanks(tail)
      && |LineOf(item)| <= 199 && Free(LineOf(item), NUL)
    case Note(text) => Blanks(text) || text[0] == ';'
  }

  // ---- blanks at both ends ---------------------------------------------------------------------------

  lemma {:induction false} BlankIsSpace(c: char)
    ensures Blank(c) == IsSpace(c)
  {
  }

  lemma {:induction false} RStripBlanks(s: string, b: string)
    requires Blanks(b)
    ensures RStrip(s + b) == RStrip(s)
    decreases |b|
  {
    if b == "" {
      assert s + b == s;
    } else {
      var n := |b| - 1;
      BlankIsSpace(b[n]);
      assert (s + b)[..|s| + n] == s + b[..n];
      RStripBlanks(s, b[..n]);
    }
  }

  // Nothing is stripped in front of the last character that is no blank.
  lemma {:induction false} RStripBehind(s: string, x: string)
    requires s != "" && !Blank(s[|s| - 1])
    ensures RStrip(s + x) == s + RStrip(x)
    decreases |x|
  {
    if x == "" {
      assert s + x == s;
      BlankIsSpace(s[|s| - 1]);
    } else {
      var n := |x| - 1;
      BlankIsSpace(x[n]);
      assert (s + x)[..|s| + n] == s + x[..n];
      RStripBehind(s, x[..n]);
    }
  }

  lemma {:induction false} RStripTrimmed(s: string)
    requires s != "" ==> !Blank(s[|s| - 1])
    ensures RStrip(s) == s
  {
    if s != "" {
      BlankIsSpace(s[|s| - 1]);
    }
  }

  lemma {:induction false} LSkipBlanks(b: string, s: string)
    requires Blanks(b)
    ensures LSkip(b + s) == LSkip(s)
    decreases |b|
  {
    if b == "" {
      assert b + s == s;
    } else {
      BlankIsSpace(b[0]);
      assert (b + s)[1..] == b[1..] + s;
      LSkipBlanks(b[1..], s);
    }
  }

  lemma {:induction false} LSkipTrimmed(s: string)
    requires s != "" ==> !Blank(s[0])
    ensures LSkip(s) == s
  {
    if s != "" {
      BlankIsSpace(s[0]);
    }
  }

  lemma {:induction false} OnlyBlanks(s: string)
    requires Blanks(s)
    ensures RStrip(s) == "" == LSkip(s)
  {
    RStripBlanks("", s);
    assert "" + s == s;
    LSkipBlanks(s, "");
    assert s + "" == s;
  }

  // ---- round trip, line by line ------------------------------------------------------------------------

  lemma {:induction false} EndOfFree(s: string, p: nat)
    requires p <= |s| && Free(s, NUL)
    ensures End(s, p) == |s|
    decreases |s| - p
  {
    if p < |s| {
      assert s[p] in s;
      EndOfFree(s, p + 1);
    }
  }

  lemma {:induction false} BufferedWhole(s: string)
    requires |s| <= 199 && Free(s, NUL)
    ensures Buffered(s) == s
  {
    assert Take(s, MAX_LINE - 1) == s;
    EndOfFree(s, 0);
    assert s[..|s|] == s;
  }

  // Of a longer line the first 199 characters count.
  lemma {:induction false} LongLine(line: string)
    requires |line| > 199
    ensures Classify(line) == Classify(line[..199])
  {
    hide RStrip, LSkip, ClassifySection, ClassifyPair;
    assert Take(line, 199) == line[..199] == Take(line[..199], 199);
  }

  lemma {:induction false} FindAt(a: string, c: char, b: string)
    requires Free(a, c) && Free(a, ';')
    ensures Find(a + [c] + b, c) == |a|
  {
    var s := a + [c] + b;
    if a == "" {
      assert s[0] == c;
    } else {
      assert s[0] == a[0] && a[0] in a;
      assert s[1..] == a[1..] + [c] + b;
      assert Free(a[1..], c) && Free(a[1..], ';');
      FindAt(a[1..], c, b);
    }
  }

  lemma {:induction false} FindNone(s: string)
    requires Free(s, ';')
    ensures Find(s, ';') == |s|
  {
    if s != "" {
      assert s[0] in s;
      assert Free(s[1..], ';');
      FindNone(s[1..]);
    }
  }

  // What an unindented line is once its end is stripped.
  lemma {:induction false} Unindented(line: string, text: string)
    requires |line| <= 199 && Free(line, NUL) && RStrip(line) == text && text != "" && !Blank(text[0]) && text[0] != ';'
    ensures Classify(line) == if text[0] == '[' then ClassifySection(text) else ClassifyPair(text)
  {
    hide RStrip, LSkip, Buffered, ClassifySection, ClassifyPair;
    BufferedWhole(line);
    LSkipTrimmed(text);
  }

  lemma {:induction false} SectionLineParses(section: string, behind: string)
    requires Printable(Header(section, behind))
    ensures Classify(LineOf(Header(section, behind))) == Section(section)
  {
    hide RStrip, Find, Free, Classify;
    var line := LineOf(Header(section, behind));
    var head := ['['] + section + [']'];
    assert line == head + behind;
    RStripBehind(head, behind);
    var text := head + RStrip(behind);
    var rest := section + [']'] + RStrip(behind);
    assert text[1..] == rest;
    FindAt(section, ']', RStrip(behind));
    assert rest[..|section|] == section;
    Unindented(line, text);
  }

  // Blanks, and what follows them.
  lemma {:induction false} RemarkParts(s: string) returns (b: string, c: string)
    requires Remark(s)
    ensures s == b + c && Blanks(b) && (c == "" || c[0] == ';')
  {
    if s == "" || s[0] == ';' {
      b, c := "", s;
    } else {
      b, c := RemarkParts(s[1..]);
      assert s == [s[0]] + b + c;
      b := [s[0]] + b;
    }
  }

  lemma {:induction false} BlanksFree(b: string)
    requires Blanks(b)
    ensures Free(b, ';') && Free(b, '=')
  {
  }

  // The value behind the equals sign, without blanks around it and without a comment.
  lemma {:induction false} ValuePart(right: string, value: string, tail: string)
    requires Blanks(right) && Trimmed(value) && Free(value, ';') && Remark(tail)
    ensures var v := LSkip(RStrip(right + value + tail));
            RStrip(v[..Find(v, ';')]) == value
  {
    var b, c := RemarkParts(tail);
    if c == "" {
      PlainValue(right, value, tail);
    } else {
      RemarkedValue(right, value, b, c);
      assert right + value + tail == right + value + (b + c);
    }
  }

  lemma {:induction false} PlainValue(right: string, value: string, b: string)
    requires Blanks(right) && Trimmed(value) && Free(value, ';') && Blanks(b)
    ensures var v := LSkip(RStrip(right + value + b));
            RStrip(v[..Find(v, ';')]) == value
  {
    hide RStrip, LSkip, Find, Free;
    RStripBlanks(right + value, b);
    if value == "" {
      assert right + value == right;
      OnlyBlanks(right);
      OnlyBlanks("");
    } else {
      RStripTrimmed(right + value);
      LSkipBlanks(right, value);
      LSkipTrimmed(value);
      RStripTrimmed(value);
    }
    FindNone(value);
    assert value[..|value|] == value;
  }

  lemma {:induction false} RemarkedValue(right: string, value: string, b: string, c: string)
    requires Blanks(right) && Trimmed(value) && Free(value, ';') && Blanks(b) && c != "" && c[0] == ';'
    ensures var v := LSkip(RStrip(right + value + (b + c)));
            RStrip(v[..Find(v, ';')]) == value
  {
    hide RStrip, LSkip, Find, Free, Trimmed;
    assert right + value + (b + c) == (right + value + b) + c;
    var k := RemarkKept(right + value + b, c);
    assert (right + value + b) + k == right + (value + b + k);
    LSkipBlanks(right, value + b + k);
    if value == "" {
      NoValue(b, k);
      assert value + b + k == b + k;
    } else {
      ValueBefore(value, b, k);
    }
  }

  // A comment is not stripped away.
  lemma {:induction false} RemarkKept(front: string, c: string) returns (k: string)
    requires c != "" && c[0] == ';'
    ensures RStrip(front + c) == front + k && k != "" && k[0] == ';'
  {
    hide RStrip;
    var head := front + [';'];
    assert front + c == head + c[1..];
    RStripBehind(head, c[1..]);
    k := [';'] + RStrip(c[1..]);
    assert head + RStrip(c[1..]) == front + k;
  }

  lemma {:induction false} NoValue(b: string, k: string)
    requires Blanks(b) && k != "" && k[0] == ';'
    ensures var v := LSkip(b + k); RStrip(v[..Find(v, ';')]) == ""
  {
    hide LSkip;
    LSkipBlanks(b, k);
    LSkipTrimmed(k);
    assert k[..0] == "";
  }

  lemma {:induction false} ValueBefore(value: string, b: string, k: string)
    requires value != "" && Trimmed(value) && Free(value, ';') && Blanks(b) && k != "" && k[0] == ';'
    ensures var v := LSkip(value + b + k); RStrip(v[..Find(v, ';')]) == value
  {
    hide RStrip, LSkip, Find, Free;
    var a := value + b;
    LSkipTrimmed(a + k);
    BlanksFree(b);
    FreeOfBoth(value, b, ';');
    FindAt(a, ';', k[1..]);
    assert a + [';'] + k[1..] == a + k;
    assert (a + k)[..|a|] == a;
    RStripBlanks(value, b);
    RStripTrimmed(value);
  }

  lemma {:induction false} FreeOfBoth(a: string, b: string, c: char)
    requires Free(a, c) && Free(b, c)
    ensures Free(a + b, c)
  {
  }

  lemma {:induction false} PairLineParses(name: string, left: string, right: string, value: string, tail: string)
    requires Printable(Value(name, left, right, value, tail))
    ensures Classify(LineOf(Value(name, left, right, value, tail))) == Pair(name, value)
  {
    hide RStrip, LSkip, Find, Free, Classify, Remark;
    var line := LineOf(Value(name, left, right, value, tail));
    var front, rest := name + left, right + value + tail;
    assert line == (front + ['=']) + rest;
    RStripBehind(front + ['='], rest);
    var text := front + ['='] + RStrip(rest);
    BlanksFree(left);
    FreeOfBoth(name, left, '=');
    FreeOfBoth(name, left, ';');
    FindAt(front, '=', RStrip(rest));
    assert text[..|front|] == front && text[|front| + 1..] == RStrip(rest);
    RStripBlanks(name, left);
    RStripTrimmed(name);
    ValuePart(right, value, tail);
    FirstCharacter(name, left, text);
    Unindented(line, text);
  }

  lemma {:induction false} FirstCharacter(name: string, left: string, text: string)
    requires Trimmed(name) && Free(name, ';') && if name == "" then left == "" else name[0] != '['
    requires name + left + ['='] <= text
    ensures text != "" && !Blank(text[0]) && text[0] != ';' && text[0] != '['
  {
    assert text[0] == if name == "" then '=' else name[0];
    assert name != "" ==> name[0] in name;
  }

  lemma {:induction false} MoreLineParses(indent: string, value: string, tail: string)
    requires Printable(More(indent, value, tail))
    ensures Classify(LineOf(More(indent, value, tail))) == Continuation(value)
  {
    hide RStrip, LSkip, Buffered;
    var line := LineOf(More(indent, value, tail));
    BufferedWhole(line);
    assert line == (indent + value) + tail;
    RStripBlanks(indent + value, tail);
    RStripTrimmed(indent + value);
    LSkipBlanks(indent, value);
    LSkipTrimmed(value);
  }

  lemma {:induction false} NoteLineParses(text: string)
    requires Printable(Note(text))
    ensures Classify(text) == Nothing
  {
    hide RStrip, LSkip, Buffered;
    var kept := Buffered(text);
    if Blanks(text) {
      BufferedPrefix(text);
      OnlyBlanks(kept);
      OnlyBlanks("");
    } else {
      BufferedComment(text);
      assert kept == [';'] + kept[1..];
      RStripBehind([';'], kept[1..]);
      LSkipTrimmed(RStrip(kept));
    }
  }

  lemma {:induction false} BufferedPrefix(text: string)
    ensures Buffered(text) <= text
  {
  }

  lemma {:induction false} BufferedComment(text: string)
    requires text != "" && text[0] == ';'
    ensures Buffered(text) != "" && Buffered(text)[0] == ';'
  {
  }

  // ---- round trip of a file ------------------------------------------------------------------------------

  lemma {:induction false} ParseAppend(s: State, a: seq<string>, b: seq<string>, h: Handler)
    ensures Parse(s, a + b, h) == Parse(Parse(s, a, h), b, h)
    decreases |a|
  {
    hide ParseLine;
    if a == [] {
      assert a + b == b;
    } else {
      assert (a + b)[1..] == a[1..] + b;
      ParseAppend(ParseLine(s, a[0], h), a[1..], b, h);
    }
  }

  // What one printed line does to the state.
  lemma {:induction false} ItemParses(s: State, item: Item)
    requires Printable(item)
    ensures var r := ParseLine(s, LineOf(item), Always());
            r.error == s.error
            && match item
               case Header(section, _) => r.section == Cut(section) && r.prevName == s.prevName && r.calls == s.calls
               case Value(name, _, _, value, _) =>
                 && r.section == s.section && r.prevName == Cut(name)
                 && r.calls == s.calls + [Call(s.section, name, value)]
               case More(_, value, _) =>
                 && r.section == s.section && r.prevName == s.prevName
                 && r.calls == s.calls + [Call(s.section, s.prevName, value)]
               case Note(_) => r.section == s.section && r.prevName == s.prevName && r.calls == s.calls
  {
    hide Classify, Printable, LineOf;
    match item
    case Header(section, behind) => SectionLineParses(section, behind);
    case Value(name, left, right, value, tail) => PairLineParses(name, left, right, value, tail);
    case More(indent, value, tail) => MoreLineParses(indent, value, tail);
    case Note(text) =>
      NoteLineParses(text);
      LineOfNote(text);
  }

  lemma {:induction false} LineOfNote(text: string)
    ensures LineOf(Note(text)) == text
  {
  }

  // Printing and parsing back: the handler is called with exactly the printed triples, in order.
  lemma {:induction false} PrintParse(s: State, items: seq<Item>)
    requires forall i :: 0 <= i < |items| ==> Printable(items[i])
    ensures var r := Parse(s, Print(items), Always());
            r.error == s.error && r.calls == s.calls + CallsOf(items, s.section, s.prevName)
    decreases |items|
  {
    hide ParseLine, Printable, LineOf, Cut;
    if items == [] {
      assert s.calls + [] == s.calls;
    } else {
      ItemParses(s, items[0]);
      var next := ParseLine(s, LineOf(items[0]), Always());
      assert Print(items)[1..] == Print(items[1..]);
      PrintParse(next, items[1..]);
      assert forall c, rest :: s.calls + [c] + rest == s.calls + ([c] + rest);
    }
  }
}
