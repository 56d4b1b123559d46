/** What becomes of records that hold a raw line separator: the pieces of their lines never make up the
    record again, so a stream comes back as it was saved exactly when every record is clean. */
module RawBreaks {
  import opened Canonical
  import opened Json
  import opened Lines
  import opened Text

  predicate IsHexDigit(c: char) {
    '0' <= c <= '9' || 'a' <= c <= 'f'
  }

  /** Every backslash begins an escape as `json.dumps(..., ensure_ascii=False)` writes them: one character, or
      four digits for a control character below U+0020. */
  predicate Written(t: string)
    decreases |t|
  {
    t == "" ||
    if t[0] != '\\' then Written(t[1..])
    else
      |t| >= 2 &&
      if t[1] == 'u' then
        |t| >= 6 && t[2] == '0' == t[3] && (t[4] == '0' || t[4] == '1') && IsHexDigit(t[5]) && Written(t[6..])
      else t[1] in "\"\\nrtbf" && Written(t[2..])
  }

  /** The parser takes U+0085, U+2028 and U+2029 only from a text that holds them, raw or as an escape. */
  ghost predicate Honest(loads: string -> Option<Json>) {
    forall t, v :: NoBreak(t) && Written(t) && loads(t) == Some(v) ==> Clean(v)
  }

  lemma HonestParserExists() returns (loads: string -> Option<Json>)
    ensures ReadsBack(loads) && Honest(loads)
  {
    loads := Unprint();
    forall v | Valid(v) ensures loads(Print(v, false)) == Some(v) {
      assert IsPrintOf(Print(v, false), v);
      var w :| loads(Print(v, false)) == Some(w) && IsPrintOf(Print(v, false), w);
      PrintInjective(v, w, false);
    }
    forall t, v | NoBreak(t) && Written(t) && loads(t) == Some(v) ensures Clean(v) {
      assert IsPrintOf(t, v);
      PrintNoBreak(v);
    }
  }

  // ---- Printed text is written so ----

  lemma {:induction false} WrittenConcat(a: string, b: string)
    requires Written(a) && Written(b)
    ensures Written(a + b)
    decreases |a|
  {
    if a == "" {
      assert a + b == b;
    } else {
      var n := if a[0] != '\\' then 1 else if a[1] == 'u' then 6 else 2;
      assert (a + b)[n..] == a[n..] + b;
      WrittenConcat(a[n..], b);
    }
  }

  lemma {:induction false} PlainIsWritten(t: string)
    requires '\\' !in t
    ensures Written(t)
  {
    if t != "" { PlainIsWritten(t[1..]); }
  }

  lemma EscapeWritten(c: char)
    ensures Written(Escape(c, false))
  {
    hide CodeUnit, IsHexDigit;
    var e, none := Escape(c, false), "";
    assert Written(none);
    if Code(c) < 0x20 { ControlWritten(Code(c)); }
    if e == [c] {
      PlainIsWritten(e);
    } else if |e| == 2 {
      assert e[2..] == none;
    }
  }

  lemma ControlWritten(n: nat)
    requires n < 0x20
    ensures |CodeUnit(n)| == 6 && Written(CodeUnit(n))
  {
    var u := CodeUnit(n);
    assert n / 0x1000 == 0 && n / 0x100 % 0x10 == 0 && n / 0x10 % 0x10 <= 1;
    HexIsDigit(n % 0x10);
    assert u[6..] == "";
  }

  lemma HexIsDigit(d: nat)
    requires d < 16
    ensures IsHexDigit(Hex(d))
  {
  }

  lemma {:induction false} EscapeAllWritten(s: string)
    ensures Written(EscapeAll(s, false))
  {
    hide Escape, Written;
    if s == "" {
      PlainIsWritten("");
    } else {
      EscapeWritten(s[0]);
      EscapeAllWritten(s[1..]);
      WrittenConcat(Escape(s[0], false), EscapeAll(s[1..], false));
    }
  }

  lemma QuotedWritten(s: string)
    ensures Written(Quoted(s, false))
  {
    hide EscapeAll, Written;
    EscapeAllWritten(s);
    PlainIsWritten(['\"']);
    WrittenConcat(['\"'], EscapeAll(s, false));
    WrittenConcat(['\"'] + EscapeAll(s, false), ['\"']);
  }

  lemma {:induction false} PrintWritten(v: Json)
    requires Lexical(v)
    ensures Written(Print(v, false))
    decreases v, 1
  {
    hide Written, Quoted, Lexeme;
    match v
    case Str(text) => QuotedWritten(text);
    case Arr(items) =>
      PlainIsWritten("[]");
      PlainIsWritten("[");
      if items != [] {
        PrintWritten(items[0]);
        ItemsWritten(items[1..]);
        WrittenConcat("[", Print(items[0], false));
        WrittenConcat("[" + Print(items[0], false), PrintItems(items[1..], false));
      }
    case Obj(members) =>
      PlainIsWritten("{}");
      PlainIsWritten("{");
      if members != [] {
        MemberWritten(members[0]);
        MembersWritten(members[1..]);
        WrittenConcat("{", PrintMember(members[0], false));
        WrittenConcat("{" + PrintMember(members[0], false), PrintMembers(members[1..], false));
      }
    case Num(lexeme) => LexemeWritten(lexeme);
    case Null => PlainIsWritten("null");
    case Bool(b) =>
      PlainIsWritten("true");
      PlainIsWritten("false");
  }

  lemma LexemeWritten(s: string)
    requires Lexeme(s)
    ensures Written(s)
  {
    forall i | 0 <= i < |s| ensures s[i] != '\\' { assert NumChar(s[i]); }
    PlainIsWritten(s);
  }

  lemma {:induction false} ItemsWritten(items: seq<Json>)
    requires forall i :: 0 <= i < |items| ==> Lexical(items[i])
    ensures Written(PrintItems(items, false))
    decreases items, 0
  {
    hide Written;
    PlainIsWritten("]");
    PlainIsWritten(", ");
    if items != [] {
      PrintWritten(items[0]);
      ItemsWritten(items[1..]);
      WrittenConcat(", ", Print(items[0], false));
      WrittenConcat(", " + Print(items[0], false), PrintItems(items[1..], false));
    }
  }

  lemma MemberWritten(m: Member)
    requires Lexical(m.value)
    ensures Written(PrintMember(m, false))
    decreases m, 2
  {
    hide Written, Print, Quoted;
    QuotedWritten(m.key);
    PlainIsWritten(": ");
    PrintWritten(m.value);
    WrittenConcat(Quoted(m.key, false), ": ");
    WrittenConcat(Quoted(m.key, false) + ": ", Print(m.value, false));
  }

  lemma {:induction false} MembersWritten(members: seq<Member>)
    requires forall i :: 0 <= i < |members| ==> Lexical(members[i].value)
    ensures Written(PrintMembers(members, false))
    decreases members, 0
  {
    hide Written;
    PlainIsWritten("}");
    PlainIsWritten(", ");
    if members != [] {
      MemberWritten(members[0]);
      MembersWritten(members[1..]);
      WrittenConcat(", ", PrintMember(members[0], false));
      WrittenConcat(", " + PrintMember(members[0], false), PrintMembers(members[1..], false));
    }
  }

  // ---- And so are the pieces between its breaks ----

  /** No escape holds a space or a line break. */
  lemma {:induction false} WrittenSplit(s: string, k: nat)
    requires Written(s) && k < |s| && IsSpace(s[k])
    ensures Written(s[..k]) && Written(s[k + 1..])
    decreases |s|
  {
    if k == 0 {
      assert s[..0] == "" && s[0] != '\\';
    } else {
      var n := if s[0] != '\\' then 1 else if s[1] == 'u' then 6 else 2;
      SpaceOutside(s, n, k);
      WrittenSplit(s[n..], k - n);
      assert s[..k][n..] == s[n..][..k - n] && s[k + 1..] == s[n..][k - n + 1..];
    }
  }

  lemma SpaceOutside(s: string, n: nat, k: nat)
    requires Written(s) && 0 < k < |s| && IsSpace(s[k])
    requires n == if s[0] != '\\' then 1 else if s[1] == 'u' then 6 else 2
    ensures n <= k && s[n..][k - n] == s[k] && Written(s[n..])
  {
    hide IsSpace, IsHexDigit;
    EscapeIsInk(s[k]);
    assert k < n ==> k == 1 || k == 2 || k == 3 || k == 4 || k == 5;
  }

  /** The characters that escapes are made of. */
  lemma EscapeIsInk(c: char)
    ensures c in "\"\\nrtbfu01" || IsHexDigit(c) ==> !IsSpace(c)
  {
    assert c in "\"\\nrtbfu01" || IsHexDigit(c) ==> 0x21 <= Code(c) < 0x80;
  }

  lemma BreakIsSpace(c: char)
    requires IsBreak(c)
    ensures IsSpace(c)
  {
  }

  lemma {:induction false} PiecesWritten(s: string)
    requires Written(s)
    ensures forall i :: 0 <= i < |SplitLines(s)| ==> Written(SplitLines(s)[i]) && NoBreak(SplitLines(s)[i])
    decreases |s|
  {
    hide Written, SplitLines, LineLength, IsBreak, IsSpace;
    if s == "" {
      NoLines();
    } else {
      FirstLine(s);
      var n := LineLength(s);
      var m := n + BreakLength(s[n..]);
      assert s[m..] == s[n..][BreakLength(s[n..])..];
      if n < |s| {
        BreakIsSpace(s[n]);
        WrittenSplit(s, n);
        if BreakLength(s[n..]) == 2 {
          assert s[n + 1..][0] == '\n';
          LineFeedIsSpace();
          WrittenSplit(s[n + 1..], 0);
          assert s[n + 1..][1..] == s[m..];
        }
      } else {
        assert s[..n] == s && s[m..] == "";
        PlainIsWritten("");
      }
      NoBreakHere(s, n);
      PiecesWritten(s[m..]);
    }
  }

  lemma LineFeedIsSpace()
    ensures IsSpace('\n')
  {
  }

  lemma NoBreakHere(s: string, n: nat)
    requires s != "" && n == LineLength(s)
    ensures NoBreak(s[..n])
  {
  }

  lemma {:induction false} FileWritten(lines: seq<string>)
    requires forall i :: 0 <= i < |lines| ==> Written(lines[i])
    ensures Written(FileText(lines))
  {
    hide Written;
    if lines == [] {
      PlainIsWritten("");
    } else {
      PlainIsWritten("\n");
      FileWritten(lines[1..]);
      WrittenConcat(lines[0], "\n");
      WrittenConcat(lines[0] + "\n", FileText(lines[1..]));
    }
  }

  lemma {:induction false} StripLeftKeeps(s: string)
    requires Written(s) && NoBreak(s)
    ensures Written(StripLeft(s)) && NoBreak(StripLeft(s))
  {
    hide IsSpace, IsBreak, Written;
    if s != "" && IsSpace(s[0]) {
      WrittenSplit(s, 0);
      StripLeftKeeps(s[1..]);
    }
  }

  lemma {:induction false} StripRightKeeps(s: string)
    requires Written(s) && NoBreak(s)
    ensures Written(StripRight(s)) && NoBreak(StripRight(s))
  {
    hide IsSpace, IsBreak, Written;
    if s != "" && IsSpace(s[|s| - 1]) {
      WrittenSplit(s, |s| - 1);
      StripRightKeeps(s[..|s| - 1]);
    }
  }

  lemma {:induction false} ReadIsClean(loads: string -> Option<Json>, lines: seq<string>)
    requires Honest(loads) && forall i :: 0 <= i < |lines| ==> Written(lines[i]) && NoBreak(lines[i])
    ensures forall i :: 0 <= i < |ReadLines(loads, lines)| ==>
              Clean(ReadLines(loads, lines)[i]) && ReadLines(loads, lines)[i].Obj?
    decreases |lines|
  {
    hide Written, NoBreak, Clean, StripLeft, StripRight;
    if lines != [] {
      var n := |lines| - 1;
      ReadIsClean(loads, lines[..n]);
      StripLeftKeeps(lines[n]);
      StripRightKeeps(StripLeft(lines[n]));
    }
  }

  /** Whatever valid values are written, every record that is read is a clean object. */
  lemma LoadedIsClean(loads: string -> Option<Json>, values: seq<Json>)
    requires Honest(loads) && forall i :: 0 <= i < |values| ==> Lexical(values[i])
    ensures var loaded := LoadLines(loads, FileText(Printed(values)));
            forall i :: 0 <= i < |loaded| ==> Clean(loaded[i]) && loaded[i].Obj?
  {
    hide Written, NoBreak, Clean, Honest, Lexical, Print, SplitLines, FileText, ReadLines;
    forall i | 0 <= i < |values| ensures Written(Printed(values)[i]) { PrintWritten(values[i]); }
    FileWritten(Printed(values));
    PiecesWritten(FileText(Printed(values)));
    ReadIsClean(loads, SplitLines(FileText(Printed(values))));
  }

  /** A stream of records loads as it was saved exactly when every record is clean. */
  lemma RecordsComeBackIff(loads: string -> Option<Json>, records: seq<Json>)
    requires ReadsBack(loads) && Honest(loads) && forall i :: 0 <= i < |records| ==> IsRecord(records[i])
    ensures LoadLines(loads, FileText(Printed(records))) == records
            <==> forall i :: 0 <= i < |records| ==> Clean(records[i])
  {
    hide Clean, Honest, ReadsBack, Print, LoadLines, FileText, SplitLines;
    StreamRoundTrip(loads, records);
    LoadedIsClean(loads, records);
  }
}
