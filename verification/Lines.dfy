/** JSON lines: one printed record a line, read back with Python's `splitlines`. */
module Lines {
  import opened Canonical
  import opened Json
  import opened Lists
  import opened Text

  /** Where `str.splitlines` ends a line. */
  predicate IsBreak(c: char) {
    var n := Code(c);
    0x0a <= n <= 0x0d || 0x1c <= n <= 0x1e || n == 0x85 || n == 0x2028 || n == 0x2029
  }

  predicate NoBreak(s: string) {
    forall i :: 0 <= i < |s| ==> !IsBreak(s[i])
  }

  /** How many characters come before the first break, or the whole length. */
  function LineLength(s: string): (n: nat)
    ensures n <= |s| && NoBreak(s[..n]) && (n < |s| ==> IsBreak(s[n]))
  {
    if s == "" || IsBreak(s[0]) then 0 else 1 + LineLength(s[1..])
  }

  /** A carriage return followed by a line feed is one break. */
  function BreakLength(s: string): nat {
    if s == "" then 0 else if |s| >= 2 && s[0] == '\r' && s[1] == '\n' then 2 else 1
  }

  function SplitLines(s: string): seq<string>
    decreases |s|
  {
    if s == "" then []
    else
      var n := LineLength(s);
      [s[..n]] + SplitLines(s[n..][BreakLength(s[n..])..])
  }

  function FileText(lines: seq<string>): string {
    if lines == [] then "" else lines[0] + "\n" + FileText(lines[1..])
  }

  function Printed(records: seq<Json>): seq<string> {
    seq(|records|, i requires 0 <= i < |records| => Print(records[i], false))
  }

  // ---- Framing ----

  lemma LineThenRest(line: string, rest: string)
    requires NoBreak(line)
    ensures SplitLines(line + "\n" + rest) == [line] + SplitLines(rest)
  {
    hide SplitLines, LineLength;
    var s := line + "\n" + rest;
    LengthOfLine(line, "\n" + rest);
    assert line + ("\n" + rest) == s;
    FirstLine(s);
    var n := |line|;
    assert s[..n] == line && s[n..] == "\n" + rest;
    assert s[n..][1..] == rest;
  }

  lemma {:induction false} LengthOfLine(line: string, rest: string)
    requires NoBreak(line) && rest != "" && IsBreak(rest[0])
    ensures LineLength(line + rest) == |line|
  {
    var s := line + rest;
    if line == "" {
      assert s == rest;
    } else {
      assert s[0] == line[0];
      LengthOfLine(line[1..], rest);
      assert s[1..] == line[1..] + rest;
    }
  }

  /** A carriage return with a newline after it ends one line, not two. */
  lemma CarriageReturnNewline(line: string, rest: string)
    requires NoBreak(line)
    ensures SplitLines(line + "\r\n" + rest) == [line] + SplitLines(rest)
  {
    hide SplitLines, LineLength;
    var s, tail := line + "\r\n" + rest, "\r\n" + rest;
    assert line + tail == s && tail[0] == '\r' && tail[1] == '\n';
    LengthOfLine(line, tail);
    FirstLine(s);
    assert s[..|line|] == line && s[|line|..] == tail && tail[2..] == rest;
  }

  lemma FirstLine(s: string)
    requires s != ""
    ensures var n := LineLength(s);
            && BreakLength(s[n..]) <= |s[n..]|
            && SplitLines(s) == [s[..n]] + SplitLines(s[n..][BreakLength(s[n..])..])
            && NoBreak(SplitLines(s)[0])
  {
  }

  /** Lines without a break character inside come back as they were written, and only they do. */
  lemma {:induction false} FramingRoundTrip(lines: seq<string>)
    ensures SplitLines(FileText(lines)) == lines <==> forall i :: 0 <= i < |lines| ==> NoBreak(lines[i])
  {
    hide NoBreak, SplitLines;
    if lines == [] {
      NoLines();
    } else {
      var rest := FileText(lines[1..]);
      if NoBreak(lines[0]) {
        LineThenRest(lines[0], rest);
        FramingRoundTrip(lines[1..]);
        var back := SplitLines(rest);
        assert ([lines[0]] + back)[1..] == back;
      } else {
        FirstLine(lines[0] + "\n" + rest);
      }
    }
  }

  /** The ten characters at which Python ends a line. */
  predicate Separates(c: char) {
    c in {'\n', '\r', '\U{0b}', '\U{0c}', '\U{1c}', '\U{1d}', '\U{1e}', '\U{85}', '\U{2028}', '\U{2029}'}
  }

  /** Lines come back as they were written exactly when none of them holds one of the ten separators. */
  lemma LinesComeBackIff(lines: seq<string>)
    ensures SplitLines(FileText(lines)) == lines
            <==> forall i, k :: 0 <= i < |lines| && 0 <= k < |lines[i]| ==> !Separates(lines[i][k])
  {
    hide SplitLines, FileText;
    FramingRoundTrip(lines);
  }

  lemma NoLines()
    ensures SplitLines("") == []
  {
  }

  // ---- Which records print without a break ----

  /** The separators that `json.dumps(..., ensure_ascii=False)` leaves as they are. */
  predicate IsRawBreak(c: char) {
    Code(c) == 0x85 || Code(c) == 0x2028 || Code(c) == 0x2029
  }

  predicate CleanText(s: string) {
    forall i :: 0 <= i < |s| ==> !IsRawBreak(s[i])
  }

  /** No string in the value, keys included, holds U+0085, U+2028 or U+2029. */
  predicate Clean(v: Json)
    decreases v
  {
    match v
    case Str(text) => CleanText(text)
    case Arr(items) => forall i :: 0 <= i < |items| ==> Clean(items[i])
    case Obj(members) => forall i :: 0 <= i < |members| ==> CleanText(members[i].key) && Clean(members[i].value)
    case _ => true
  }

  lemma NoBreakConcat(a: string, b: string)
    ensures NoBreak(a + b) <==> NoBreak(a) && NoBreak(b)
  {
    if NoBreak(a + b) {
      assert forall i :: 0 <= i < |a| ==> a[i] == (a + b)[i];
      assert forall i :: 0 <= i < |b| ==> b[i] == (a + b)[|a| + i];
    }
  }

  lemma HexNoBreak(d: nat)
    requires d < 16
    ensures !IsBreak(Hex(d))
  {
    assert Code(Hex(d)) >= 0x30 && Code(Hex(d)) < 0x80;
  }

  lemma CodeUnitNoBreak(u: nat)
    requires u < 0x10000
    ensures NoBreak(CodeUnit(u))
  {
    hide Hex;
    HexNoBreak(u / 0x1000);
    HexNoBreak(u / 0x100 % 0x10);
    HexNoBreak(u / 0x10 % 0x10);
    HexNoBreak(u % 0x10);
  }

  lemma EscapeNoBreak(c: char)
    ensures NoBreak(Escape(c, false)) <==> !IsRawBreak(c)
  {
    hide CodeUnit;
    var e := Escape(c, false);
    if Code(c) < 0x20 {
      CodeUnitNoBreak(Code(c));
      UnitLength(Code(c));
      if |e| == 2 {
        assert e[0] == '\\' && (e[1] == 'n' || e[1] == 'r' || e[1] == 't' || e[1] == 'b' || e[1] == 'f');
        assert forall i :: 0 <= i < 2 ==> Code(e[i]) > 0x20 && Code(e[i]) < 0x80;
      }
    } else if c == '\"' || c == '\\' {
      assert e == ['\\', c];
    } else {
      assert e == [c];
      assert NoBreak(e) <==> !IsBreak(e[0]);
    }
  }

  lemma {:induction false} EscapeAllNoBreak(s: string)
    ensures NoBreak(EscapeAll(s, false)) <==> CleanText(s)
  {
    hide Escape, NoBreak, IsRawBreak;
    if s == "" {
      EmptyNoBreak();
    } else {
      EscapeNoBreak(s[0]);
      EscapeAllNoBreak(s[1..]);
      NoBreakConcat(Escape(s[0], false), EscapeAll(s[1..], false));
    }
  }

  lemma EmptyNoBreak()
    ensures NoBreak("")
  {
  }

  lemma QuotedNoBreak(s: string)
    ensures NoBreak(Quoted(s, false)) <==> CleanText(s)
  {
    hide EscapeAll, CleanText;
    EscapeAllNoBreak(s);
    NoBreakConcat(['\"'] + EscapeAll(s, false), ['\"']);
    NoBreakConcat(['\"'], EscapeAll(s, false));
  }

  /** A record's line has no break in it exactly when its strings are clean. */
  lemma {:induction false} PrintNoBreak(v: Json)
    requires Lexical(v)
    ensures NoBreak(Print(v, false)) <==> Clean(v)
    decreases v, 1
  {
    hide NoBreak, Quoted, CleanText, Lexeme;
    match v
    case Str(text) => QuotedNoBreak(text);
    case Arr(items) => ArrayNoBreak(items);
    case Obj(members) => ObjectNoBreak(members);
    case Num(lexeme) => LexemeNoBreak(lexeme);
    case _ => WordNoBreak(v);
  }

  lemma LexemeNoBreak(s: string)
    requires Lexeme(s)
    ensures NoBreak(s)
  {
    forall i | 0 <= i < |s| ensures !IsBreak(s[i]) {
      assert NumChar(s[i]);
      assert 0x2b <= Code(s[i]) < 0x80;
    }
  }

  lemma WordNoBreak(v: Json)
    requires v.Null? || v.Bool?
    ensures NoBreak(Print(v, false))
  {
    var p := Print(v, false);
    forall i | 0 <= i < |p| ensures !IsBreak(p[i]) { assert 0x61 <= Code(p[i]) < 0x80; }
  }

  lemma ArrayNoBreak(items: seq<Json>)
    requires forall i :: 0 <= i < |items| ==> Lexical(items[i])
    ensures NoBreak(Print(Arr(items), false)) <==> forall i :: 0 <= i < |items| ==> Clean(items[i])
    decreases items, 0
  {
    if items != [] {
      PrintNoBreak(items[0]);
      ItemsNoBreak(items[1..]);
      NoBreakConcat("[" + Print(items[0], false), PrintItems(items[1..], false));
      NoBreakConcat("[", Print(items[0], false));
    }
  }

  lemma {:induction false} ItemsNoBreak(items: seq<Json>)
    requires forall i :: 0 <= i < |items| ==> Lexical(items[i])
    ensures NoBreak(PrintItems(items, false)) <==> forall i :: 0 <= i < |items| ==> Clean(items[i])
    decreases items, 0
  {
    if items != [] {
      PrintNoBreak(items[0]);
      ItemsNoBreak(items[1..]);
      NoBreakConcat(", " + Print(items[0], false), PrintItems(items[1..], false));
      NoBreakConcat(", ", Print(items[0], false));
    }
  }

  predicate CleanMember(m: Member) {
    CleanText(m.key) && Clean(m.value)
  }

  lemma MemberNoBreak(m: Member)
    requires Lexical(m.value)
    ensures NoBreak(PrintMember(m, false)) <==> CleanMember(m)
    decreases m, 2
  {
    hide Clean, CleanText, Quoted, Print;
    QuotedNoBreak(m.key);
    PrintNoBreak(m.value);
    NoBreakConcat(Quoted(m.key, false) + ": ", Print(m.value, false));
    NoBreakConcat(Quoted(m.key, false), ": ");
  }

  lemma ObjectNoBreak(members: seq<Member>)
    requires forall i :: 0 <= i < |members| ==> Lexical(members[i].value)
    ensures NoBreak(Print(Obj(members), false)) <==> forall i :: 0 <= i < |members| ==> CleanMember(members[i])
    decreases members, 0
  {
    if members != [] {
      MemberNoBreak(members[0]);
      MembersNoBreak(members[1..]);
      NoBreakConcat("{" + PrintMember(members[0], false), PrintMembers(members[1..], false));
      NoBreakConcat("{", PrintMember(members[0], false));
    }
  }

  lemma {:induction false} MembersNoBreak(members: seq<Member>)
    requires forall i :: 0 <= i < |members| ==> Lexical(members[i].value)
    ensures NoBreak(PrintMembers(members, false)) <==> forall i :: 0 <= i < |members| ==> CleanMember(members[i])
    decreases members, 0
  {
    if members != [] {
      MemberNoBreak(members[0]);
      MembersNoBreak(members[1..]);
      NoBreakConcat(", " + PrintMember(members[0], false), PrintMembers(members[1..], false));
      NoBreakConcat(", ", PrintMember(members[0], false));
    }
  }

  // ---- Reading records back ----

  /** Python's `str.isspace` on one character. */
  predicate IsSpace(c: char) {
    var n := Code(c);
    0x09 <= n <= 0x0d || 0x1c <= n <= 0x20 || n == 0x85 || n == 0xa0 || n == 0x1680 || 0x2000 <= n <= 0x200a ||
    n == 0x2028 || n == 0x2029 || n == 0x202f || n == 0x205f || n == 0x3000
  }

  function StripLeft(s: string): string {
    if s != "" && IsSpace(s[0]) then StripLeft(s[1..]) else s
  }

  function StripRight(s: string): string {
    if s != "" && IsSpace(s[|s| - 1]) then StripRight(s[..|s| - 1]) else s
  }

  /** The object on one line, or None for a blank line, a line that is not JSON, and other values. */
  function ReadLine(loads: string -> Option<Json>, line: string): Option<Json> {
    var text := StripRight(StripLeft(line));
    if text == "" then None else if loads(text).Some? && loads(text).value.Obj? then loads(text) else None
  }

  function ReadLines(loads: string -> Option<Json>, lines: seq<string>): seq<Json>
    decreases |lines|
  {
    if lines == [] then []
    else
      var n := |lines| - 1;
      ReadLines(loads, lines[..n]) + match ReadLine(loads, lines[n]) { case None => [] case Some(r) => [r] }
  }

  predicate Blank(line: string) {
    forall i :: 0 <= i < |line| ==> IsSpace(line[i])
  }

  function NotBlank(): string -> bool {
    (line: string) => !Blank(line)
  }

  lemma {:induction false} BlankStrips(line: string)
    ensures Blank(line) <==> StripLeft(line) == ""
  {
    hide IsSpace;
    if line != "" { BlankStrips(line[1..]); }
  }

  lemma BlankReadsNothing(loads: string -> Option<Json>, line: string)
    requires Blank(line)
    ensures ReadLine(loads, line) == None
  {
    BlankStrips(line);
  }

  /** Whatever the parser makes of an empty text, lines with nothing but white space are as if they were not there. */
  lemma {:induction false} BlankLinesAreSkipped(loads: string -> Option<Json>, lines: seq<string>)
    ensures ReadLines(loads, lines) == ReadLines(loads, Filter(lines, NotBlank()))
    decreases |lines|
  {
    hide ReadLine, Filter, Blank;
    if lines == [] {
      FilterHead(lines, NotBlank());
    } else {
      var n := |lines| - 1;
      BlankLinesAreSkipped(loads, lines[..n]);
      assert lines == lines[..n] + [lines[n]];
      FilterConcat(lines[..n], [lines[n]], NotBlank());
      OneLineFiltered(lines[n]);
      var kept := Filter(lines[..n], NotBlank());
      assert (kept + [lines[n]])[..|kept|] == kept == kept + [];
      if Blank(lines[n]) {
        BlankReadsNothing(loads, lines[n]);
        assert ReadLines(loads, lines) == ReadLines(loads, lines[..n]) + [];
      }
    }
  }

  lemma OneLineFiltered(line: string)
    ensures Filter([line], NotBlank()) == if Blank(line) then [] else [line]
  {
    hide Blank;
    assert [line][1..] == [];
  }

  /** `json.loads` gives back every value `json.dumps` printed. */
  ghost predicate ReadsBack(loads: string -> Option<Json>) {
    forall v :: Valid(v) ==> loads(Print(v, false)) == Some(v)
  }

  predicate IsRecord(v: Json) {
    v.Obj? && Valid(v)
  }

  lemma {:induction false} MembersEnd(members: seq<Member>)
    ensures var p := PrintMembers(members, false); |p| > 0 && p[|p| - 1] == '}'
  {
    if members != [] { MembersEnd(members[1..]); }
  }

  lemma {:induction false} ItemsEnd(items: seq<Json>)
    ensures var p := PrintItems(items, false); |p| > 0 && p[|p| - 1] == ']'
  {
    if items != [] { ItemsEnd(items[1..]); }
  }

  predicate EndsInk(s: string) {
    s != "" && !IsSpace(s[|s| - 1])
  }

  lemma EndChar(s: string, c: char)
    requires s != "" && s[|s| - 1] == c && (c == '}' || c == ']' || c == '\"' || c == 'l' || c == 'e')
    ensures EndsInk(s)
  {
  }

  lemma PrintEnd(v: Json)
    requires Lexical(v)
    ensures var p := Print(v, false); p != "" && !IsSpace(p[0]) && EndsInk(p)
  {
    hide IsSpace, EndsInk;
    FirstNotSpace(v);
    if v.Obj? {
      ObjectEnd(v.members);
    } else if v.Arr? {
      ArrayEnd(v.items);
    } else {
      AtomEnd(v);
    }
  }

  lemma ObjectEnd(members: seq<Member>)
    ensures EndsInk(Print(Obj(members), false))
  {
    hide EndsInk, PrintMember, PrintMembers;
    if members != [] { MembersEnd(members[1..]); }
    EndChar(Print(Obj(members), false), '}');
  }

  lemma ArrayEnd(items: seq<Json>)
    ensures EndsInk(Print(Arr(items), false))
  {
    hide EndsInk, PrintItems;
    if items != [] { ItemsEnd(items[1..]); }
    EndChar(Print(Arr(items), false), ']');
  }

  lemma AtomEnd(v: Json)
    requires Lexical(v) && !v.Obj? && !v.Arr?
    ensures EndsInk(Print(v, false))
  {
    hide EscapeAll, EndsInk, Lexeme, IsSpace;
    var p := Print(v, false);
    match v
    case Str(_) => EndChar(p, '\"');
    case Num(lexeme) => LexemeEndsInk(lexeme);
    case Null => EndChar(p, 'l');
    case Bool(_) => EndChar(p, 'e');
    case _ =>
  }

  lemma LexemeEndsInk(s: string)
    requires Lexeme(s)
    ensures EndsInk(s)
  {
  }

  lemma FirstNotSpace(v: Json)
    requires Lexical(v)
    ensures var p := Print(v, false); p != "" && !IsSpace(p[0])
  {
    PrintStart(v, false);
    hide Print, Lexical;
  }

  /** A printed line reads as its value when that is an object, and as nothing otherwise. */
  lemma PrintedLineReads(loads: string -> Option<Json>, v: Json)
    requires ReadsBack(loads) && Valid(v)
    ensures ReadLine(loads, Print(v, false)) == if v.Obj? then Some(v) else None
  {
    hide Print, IsSpace;
    PrintEnd(v);
  }

  lemma {:induction false} RecordLinesReadBack(loads: string -> Option<Json>, records: seq<Json>)
    requires ReadsBack(loads) && forall i :: 0 <= i < |records| ==> IsRecord(records[i])
    ensures ReadLines(loads, Printed(records)) == records
    decreases |records|
  {
    hide ReadLine, Print;
    if records != [] {
      var n := |records| - 1;
      PrintedLineReads(loads, records[n]);
      RecordLinesReadBack(loads, records[..n]);
      assert Printed(records)[..n] == Printed(records[..n]);
    }
  }

  function LoadLines(loads: string -> Option<Json>, text: string): seq<Json> {
    ReadLines(loads, SplitLines(text))
  }

  /** A stream of records survives the file exactly line for line when every record is clean, and
      then it is read back as it was written. */
  lemma StreamRoundTrip(loads: string -> Option<Json>, records: seq<Json>)
    requires ReadsBack(loads) && forall i :: 0 <= i < |records| ==> IsRecord(records[i])
    ensures SplitLines(FileText(Printed(records))) == Printed(records)
            <==> forall i :: 0 <= i < |records| ==> Clean(records[i])
    ensures (forall i :: 0 <= i < |records| ==> Clean(records[i])) ==>
            LoadLines(loads, FileText(Printed(records))) == records
  {
    hide Print, ReadLines, Clean, SplitLines, FileText;
    FramingRoundTrip(Printed(records));
    forall i | 0 <= i < |records| ensures NoBreak(Printed(records)[i]) <==> Clean(records[i]) {
      PrintNoBreak(records[i]);
    }
    RecordLinesReadBack(loads, records);
  }

  lemma {:induction false} FileTextAppend(lines: seq<string>, line: string)
    ensures FileText(lines + [line]) == FileText(lines) + (line + "\n")
  {
    if lines == [] {
      assert lines + [line] == [line];
      assert [line][1..] == [];
      assert FileText([line]) == line + "\n" + FileText([]);
    } else {
      assert (lines + [line])[1..] == lines[1..] + [line];
      FileTextAppend(lines[1..], line);
    }
  }

  /** Some parser reads every printed value back: printing is injective. */
  lemma ParserExists() returns (loads: string -> Option<Json>)
    ensures ReadsBack(loads)
  {
    loads := Unprint();
    forall v | Valid(v) ensures loads(Print(v, false)) == Some(v) {
      assert IsPrintOf(Print(v, false), v);
      var w :| loads(Print(v, false)) == Some(w) && IsPrintOf(Print(v, false), w);
      PrintInjective(v, w, false);
    }
  }

  ghost predicate IsPrintOf(text: string, v: Json) {
    Valid(v) && Print(v, false) == text
  }

  ghost function Unprint(): string -> Option<Json> {
    (text: string) => if exists v :: IsPrintOf(text, v) then
        var v :| IsPrintOf(text, v);
        Some(v)
      else None
  }
}
