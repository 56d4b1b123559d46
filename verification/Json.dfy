/** JSON values as Python holds them (objects keep insertion order) and the text `json.dumps` prints
    for them: separators ", " and ": ", with or without the \u escapes of `ensure_ascii`. A number is
    held as the text Python prints for it, since `repr` never prints two different numbers alike. */
module Json {
  datatype Json =
    | Null
    | Bool(b: bool)
    | Num(lexeme: string)
    | Str(text: string)
    | Arr(items: seq<Json>)
    | Obj(members: seq<Member>)

  datatype Member = Member(key: string, value: Json)

  // ---- Number lexemes ----

  predicate NumStart(c: char) {
    '0' <= c <= '9' || c == '-' || c == 'N' || c == 'I'
  }

  predicate NumChar(c: char) {
    '0' <= c <= '9' || c in "+-.eENaInfity"
  }

  predicate Lexeme(s: string) {
    s != "" && NumStart(s[0]) && forall i :: 0 <= i < |s| ==> NumChar(s[i])
  }

  /** Every number in the value is a number lexeme. */
  predicate Lexical(v: Json)
    decreases v
  {
    match v
    case Num(lexeme) => Lexeme(lexeme)
    case Arr(items) => forall i :: 0 <= i < |items| ==> Lexical(items[i])
    case Obj(members) => forall i :: 0 <= i < |members| ==> Lexical(members[i].value)
    case _ => true
  }

  // ---- Printing ----

  function Hex(d: nat): char
    requires d < 16
  {
    "0123456789abcdef"[d]
  }

  function CodeUnit(u: nat): string
    requires u < 0x10000
  {
    ['\\', 'u', Hex(u / 0x1000), Hex(u / 0x100 % 0x10), Hex(u / 0x10 % 0x10), Hex(u % 0x10)]
  }

  function Code(c: char): nat {
    c as int
  }

  /** Beyond the basic plane a character prints as its surrogate pair. */
  function Unicode(c: char): string {
    var n := Code(c);
    if n < 0x10000 then CodeUnit(n)
    else CodeUnit(0xd800 + (n - 0x10000) / 0x400) + CodeUnit(0xdc00 + (n - 0x10000) % 0x400)
  }

  function Escape(c: char, ascii: bool): string {
    if c == '\"' then "\\\""
    else if c == '\\' then "\\\\"
    else if c == '\n' then "\\n"
    else if c == '\r' then "\\r"
    else if c == '\t' then "\\t"
    else if Code(c) == 8 then "\\b"
    else if Code(c) == 12 then "\\f"
    else if Code(c) < 0x20 || (ascii && Code(c) > 0x7e) then Unicode(c)
    else [c]
  }

  function EscapeAll(s: string, ascii: bool): string {
    if s == "" then "" else Escape(s[0], ascii) + EscapeAll(s[1..], ascii)
  }

  function Quoted(s: string, ascii: bool): string {
    ['\"'] + EscapeAll(s, ascii) + ['\"']
  }

  function Print(v: Json, ascii: bool): string
    decreases v, 1
  {
    match v
    case Null => "null"
    case Bool(b) => if b then "true" else "false"
    case Num(lexeme) => lexeme
    case Str(text) => Quoted(text, ascii)
    case Arr(items) => if items == [] then "[]" else "[" + Print(items[0], ascii) + PrintItems(items[1..], ascii)
    case Obj(members) =>
      if members == [] then "{}" else "{" + PrintMember(members[0], ascii) + PrintMembers(members[1..], ascii)
  }

  function PrintItems(items: seq<Json>, ascii: bool): string
    decreases items, 0
  {
    if items == [] then "]" else ", " + Print(items[0], ascii) + PrintItems(items[1..], ascii)
  }

  function PrintMember(m: Member, ascii: bool): string
    decreases m, 2
  {
    Quoted(m.key, ascii) + ": " + Print(m.value, ascii)
  }

  function PrintMembers(members: seq<Member>, ascii: bool): string
    decreases members, 0
  {
    if members == [] then "}" else ", " + PrintMember(members[0], ascii) + PrintMembers(members[1..], ascii)
  }

  // ---- Escaped characters are a prefix code ----

  lemma HexInjective(c: nat, d: nat)
    requires c < 16 && d < 16 && Hex(c) == Hex(d)
    ensures c == d
  {
  }

  lemma CodeUnitInjective(u: nat, w: nat)
    requires u < 0x10000 && w < 0x10000 && CodeUnit(u) == CodeUnit(w)
    ensures u == w
  {
    assert CodeUnit(u)[2] == CodeUnit(w)[2] && CodeUnit(u)[3] == CodeUnit(w)[3];
    assert CodeUnit(u)[4] == CodeUnit(w)[4] && CodeUnit(u)[5] == CodeUnit(w)[5];
    HexInjective(u / 0x1000, w / 0x1000);
    HexInjective(u / 0x100 % 0x10, w / 0x100 % 0x10);
    HexInjective(u / 0x10 % 0x10, w / 0x10 % 0x10);
    HexInjective(u % 0x10, w % 0x10);
    Nibbles(u);
    Nibbles(w);
  }

  lemma Nibbles(u: nat)
    ensures u == 0x1000 * (u / 0x1000) + 0x100 * (u / 0x100 % 0x10) + 0x10 * (u / 0x10 % 0x10) + u % 0x10
  {
    assert u / 0x100 == 0x10 * (u / 0x1000) + u / 0x100 % 0x10;
    assert u / 0x10 == 0x10 * (u / 0x100) + u / 0x10 % 0x10;
  }

  lemma UnicodePrefixFree(c: char, d: char, x: string, y: string)
    requires Unicode(c) + x == Unicode(d) + y
    ensures c == d && x == y
  {
    hide CodeUnit;
    var m, n := Code(c), Code(d);
    var u := if m < 0x10000 then m else 0xd800 + (m - 0x10000) / 0x400;
    var w := if n < 0x10000 then n else 0xd800 + (n - 0x10000) / 0x400;
    UnitLength(u);
    UnitLength(w);
    assert CodeUnit(u) == (Unicode(c) + x)[..6] && CodeUnit(w) == (Unicode(d) + y)[..6];
    CodeUnitInjective(u, w);
    if m >= 0x10000 {
      var u', w' := 0xdc00 + (m - 0x10000) % 0x400, 0xdc00 + (n - 0x10000) % 0x400;
      UnitLength(u');
      UnitLength(w');
      assert CodeUnit(u') == (Unicode(c) + x)[6..12] && CodeUnit(w') == (Unicode(d) + y)[6..12];
      CodeUnitInjective(u', w');
    }
    assert x == (Unicode(c) + x)[|Unicode(c)|..] && y == (Unicode(d) + y)[|Unicode(d)|..];
  }

  lemma UnitLength(u: nat)
    requires u < 0x10000
    ensures |CodeUnit(u)| == 6
  {
  }

  lemma UnicodeStart(c: char)
    ensures |Unicode(c)| >= 2 && Unicode(c)[0] == '\\' && Unicode(c)[1] == 'u'
  {
  }

  /** How an escape begins: a quote never starts one, and its first two characters tell its kind. */
  lemma EscapeStart(c: char, ascii: bool)
    ensures var e := Escape(c, ascii);
            && |e| >= 1 && e[0] != '\"'
            && (e[0] != '\\' ==> e == [c])
            && (e[0] == '\\' ==> |e| >= 2 && (e[1] != 'u' ==> |e| == 2) && (e[1] == 'u' ==> e == Unicode(c)))
  {
    hide Unicode;
    UnicodeStart(c);
  }

  lemma ShortEscapes(c: char, d: char, ascii: bool)
    requires var e, f := Escape(c, ascii), Escape(d, ascii); |e| == |f| == 2 && e[1] != 'u' && e == f
    requires Escape(c, ascii)[0] == '\\'
    ensures c == d
  {
    hide Unicode;
    UnicodeStart(c);
    UnicodeStart(d);
    assert Escape(c, ascii)[1] == Escape(d, ascii)[1];
  }

  lemma EscapePrefixFree(c: char, d: char, x: string, y: string, ascii: bool)
    requires Escape(c, ascii) + x == Escape(d, ascii) + y
    ensures c == d && x == y
  {
    hide Escape, Unicode;
    EscapeStart(c, ascii);
    EscapeStart(d, ascii);
    var e, f := Escape(c, ascii), Escape(d, ascii);
    var all := e + x;
    assert all[0] == e[0] == f[0];
    if e[0] == '\\' {
      assert all[1] == e[1] == f[1];
      if e[1] == 'u' {
        UnicodePrefixFree(c, d, x, y);
      } else {
        assert e == all[..2] && f == all[..2];
        ShortEscapes(c, d, ascii);
        assert x == all[2..] && y == all[2..];
      }
    } else {
      assert x == all[1..] && y == all[1..];
    }
  }

  lemma ClosingQuote(s: string, x: string, ascii: bool)
    ensures (EscapeAll(s, ascii) + ['\"'] + x)[0] == '\"' <==> s == ""
  {
    if s != "" { EscapeStart(s[0], ascii); }
  }

  lemma {:induction false} QuotedPrefixFree(s: string, t: string, x: string, y: string, ascii: bool)
    requires EscapeAll(s, ascii) + ['\"'] + x == EscapeAll(t, ascii) + ['\"'] + y
    ensures s == t && x == y
  {
    hide Escape;
    var all := EscapeAll(s, ascii) + ['\"'] + x;
    ClosingQuote(s, x, ascii);
    ClosingQuote(t, y, ascii);
    if s == "" {
      assert x == all[1..] && y == all[1..];
    } else {
      var s', t' := EscapeAll(s[1..], ascii) + ['\"'] + x, EscapeAll(t[1..], ascii) + ['\"'] + y;
      assert all == Escape(s[0], ascii) + s' && all == Escape(t[0], ascii) + t';
      EscapePrefixFree(s[0], t[0], s', t', ascii);
      QuotedPrefixFree(s[1..], t[1..], x, y, ascii);
    }
  }

  lemma QuotedUnique(s: string, t: string, x: string, y: string, ascii: bool)
    requires Quoted(s, ascii) + x == Quoted(t, ascii) + y
    ensures s == t && x == y
  {
    hide EscapeAll;
    var all := Quoted(s, ascii) + x;
    assert all[1..] == EscapeAll(s, ascii) + ['\"'] + x;
    assert all[1..] == EscapeAll(t, ascii) + ['\"'] + y;
    QuotedPrefixFree(s, t, x, y, ascii);
  }

  // ---- Printing is injective ----

  predicate Delimited(rest: string) {
    rest == "" || rest[0] == ',' || rest[0] == ']' || rest[0] == '}'
  }

  /** The first character printed tells the kind of value. */
  lemma PrintStart(v: Json, ascii: bool)
    requires Lexical(v)
    ensures var p := Print(v, ascii);
            && p != ""
            && (v.Null? <==> p[0] == 'n')
            && (v.Bool? <==> p[0] == 't' || p[0] == 'f')
            && (v.Num? <==> NumStart(p[0]))
            && (v.Str? <==> p[0] == '\"')
            && (v.Arr? <==> p[0] == '[')
            && (v.Obj? <==> p[0] == '{')
            && p[0] != ']' && p[0] != '}' && p[0] != ','
  {
    hide EscapeAll;
  }

  lemma LexemeUnique(a: string, b: string, x: string, y: string)
    requires Lexeme(a) && Lexeme(b) && Delimited(x) && Delimited(y)
    requires a + x == b + y
    ensures a == b && x == y
  {
    LexemeEnds(a, x);
    LexemeEnds(b, y);
    var all := a + x;
    assert |b| <= |a| && |a| <= |b|;
    assert a == all[..|a|] && b == all[..|b|] && x == all[|a|..] && y == all[|b|..];
  }

  lemma LexemeEnds(a: string, x: string)
    requires Lexeme(a) && Delimited(x)
    ensures forall i :: 0 <= i < |a| ==> NumChar((a + x)[i])
    ensures |a| < |a + x| ==> !NumChar((a + x)[|a|])
  {
  }

  lemma Regroup(p: string, a: string, b: string, c: string)
    ensures p + a + b + c == p + (a + (b + c))
  {
  }

  lemma CutPrefix(p: string, a: string, b: string)
    requires p + a == p + b
    ensures a == b
  {
    assert a == (p + a)[|p|..] && b == (p + b)[|p|..];
  }

  /** Two values that print alike in front of delimited text are the same value, in front of the same text. */
  lemma {:induction false} PrintUnique(v: Json, w: Json, x: string, y: string, ascii: bool)
    requires Lexical(v) && Lexical(w) && Delimited(x) && Delimited(y)
    requires Print(v, ascii) + x == Print(w, ascii) + y
    ensures v == w && x == y
    decreases v, 1
  {
    hide Quoted, NumStart, PrintItems, PrintMembers, PrintMember;
    PrintStart(v, ascii);
    PrintStart(w, ascii);
    var all := Print(v, ascii) + x;
    assert Print(v, ascii)[0] == all[0] == Print(w, ascii)[0];
    match v {
      case Null => CutPrefix("null", x, y);
      case Bool(b) =>
        assert all[0] == (if b then 't' else 'f') && all[0] == if w.b then 't' else 'f';
        CutPrefix(Print(v, ascii), x, y);
      case Num(lexeme) => LexemeUnique(lexeme, w.lexeme, x, y);
      case Str(text) => QuotedUnique(text, w.text, x, y, ascii);
      case Arr(items) => ArraysUnique(items, w.items, x, y, ascii);
      case Obj(members) => ObjectsUnique(members, w.members, x, y, ascii);
    }
  }

  lemma ArraySplit(a: seq<Json>, x: string, ascii: bool)
    requires Lexical(Arr(a))
    ensures var all := Print(Arr(a), ascii) + x;
            && |all| >= 2 && (all[1] == ']' <==> a == [])
            && (a == [] ==> all == "[]" + x)
            && (a != [] ==> all == "[" + (Print(a[0], ascii) + (PrintItems(a[1..], ascii) + x)))
  {
    hide PrintItems;
    if a != [] {
      PrintStart(a[0], ascii);
      var first, rest := Print(a[0], ascii), PrintItems(a[1..], ascii);
      Regroup("[", first, rest, x);
    }
  }

  lemma ArraysUnique(a: seq<Json>, b: seq<Json>, x: string, y: string, ascii: bool)
    requires Lexical(Arr(a)) && Lexical(Arr(b)) && Delimited(x) && Delimited(y)
    requires Print(Arr(a), ascii) + x == Print(Arr(b), ascii) + y
    ensures a == b && x == y
    decreases a, 0
  {
    hide Print, PrintItems;
    ArraySplit(a, x, ascii);
    ArraySplit(b, y, ascii);
    if a == [] {
      CutPrefix("[]", x, y);
    } else {
      var x', y' := PrintItems(a[1..], ascii) + x, PrintItems(b[1..], ascii) + y;
      CutPrefix("[", Print(a[0], ascii) + x', Print(b[0], ascii) + y');
      ItemsDelimited(a[1..], x, ascii);
      ItemsDelimited(b[1..], y, ascii);
      PrintUnique(a[0], b[0], x', y', ascii);
      ItemsUnique(a[1..], b[1..], x, y, ascii);
    }
  }

  lemma ItemsDelimited(items: seq<Json>, x: string, ascii: bool)
    ensures var all := PrintItems(items, ascii) + x;
            && Delimited(all) && |all| >= 1 && (all[0] == ']' <==> items == [])
            && (items == [] ==> all == "]" + x)
            && (items != [] ==> all == ", " + (Print(items[0], ascii) + (PrintItems(items[1..], ascii) + x)))
  {
    hide Print;
    if items != [] {
      var first, rest := Print(items[0], ascii), PrintItems(items[1..], ascii);
      Regroup(", ", first, rest, x);
    }
  }

  lemma {:induction false} ItemsUnique(a: seq<Json>, b: seq<Json>, x: string, y: string, ascii: bool)
    requires Lexical(Arr(a)) && Lexical(Arr(b)) && Delimited(x) && Delimited(y)
    requires PrintItems(a, ascii) + x == PrintItems(b, ascii) + y
    ensures a == b && x == y
    decreases a, 0
  {
    hide Print, PrintItems;
    ItemsDelimited(a, x, ascii);
    ItemsDelimited(b, y, ascii);
    if a == [] {
      CutPrefix("]", x, y);
    } else {
      var x', y' := PrintItems(a[1..], ascii) + x, PrintItems(b[1..], ascii) + y;
      CutPrefix(", ", Print(a[0], ascii) + x', Print(b[0], ascii) + y');
      ItemsDelimited(a[1..], x, ascii);
      ItemsDelimited(b[1..], y, ascii);
      PrintUnique(a[0], b[0], x', y', ascii);
      ItemsUnique(a[1..], b[1..], x, y, ascii);
    }
  }

  lemma ObjectSplit(a: seq<Member>, x: string, ascii: bool)
    ensures var all := Print(Obj(a), ascii) + x;
            && |all| >= 2 && (all[1] == '}' <==> a == [])
            && (a == [] ==> all == "{}" + x)
            && (a != [] ==> all == "{" + (PrintMember(a[0], ascii) + (PrintMembers(a[1..], ascii) + x)))
  {
    hide PrintMembers;
    if a != [] {
      assert PrintMember(a[0], ascii)[0] == '\"';
      var first, rest := PrintMember(a[0], ascii), PrintMembers(a[1..], ascii);
      Regroup("{", first, rest, x);
    }
  }

  lemma ObjectsUnique(a: seq<Member>, b: seq<Member>, x: string, y: string, ascii: bool)
    requires Lexical(Obj(a)) && Lexical(Obj(b)) && Delimited(x) && Delimited(y)
    requires Print(Obj(a), ascii) + x == Print(Obj(b), ascii) + y
    ensures a == b && x == y
    decreases a, 0
  {
    hide Print, PrintMember, PrintMembers;
    ObjectSplit(a, x, ascii);
    ObjectSplit(b, y, ascii);
    if a == [] {
      CutPrefix("{}", x, y);
    } else {
      var x', y' := PrintMembers(a[1..], ascii) + x, PrintMembers(b[1..], ascii) + y;
      CutPrefix("{", PrintMember(a[0], ascii) + x', PrintMember(b[0], ascii) + y');
      MembersDelimited(a[1..], x, ascii);
      MembersDelimited(b[1..], y, ascii);
      MemberUnique(a[0], b[0], x', y', ascii);
      MembersUnique(a[1..], b[1..], x, y, ascii);
    }
  }

  lemma MembersDelimited(members: seq<Member>, x: string, ascii: bool)
    ensures var all := PrintMembers(members, ascii) + x;
            && Delimited(all) && |all| >= 1 && (all[0] == '}' <==> members == [])
            && (members == [] ==> all == "}" + x)
            && (members != [] ==>
                  all == ", " + (PrintMember(members[0], ascii) + (PrintMembers(members[1..], ascii) + x)))
  {
    hide PrintMember;
    if members != [] {
      var first, rest := PrintMember(members[0], ascii), PrintMembers(members[1..], ascii);
      Regroup(", ", first, rest, x);
    }
  }

  lemma {:induction false} MemberUnique(m: Member, n: Member, x: string, y: string, ascii: bool)
    requires Lexical(m.value) && Lexical(n.value) && Delimited(x) && Delimited(y)
    requires PrintMember(m, ascii) + x == PrintMember(n, ascii) + y
    ensures m == n && x == y
    decreases m, 2
  {
    hide Quoted, Print;
    var x', y' := ": " + (Print(m.value, ascii) + x), ": " + (Print(n.value, ascii) + y);
    assert PrintMember(m, ascii) + x == Quoted(m.key, ascii) + x';
    assert PrintMember(n, ascii) + y == Quoted(n.key, ascii) + y';
    QuotedUnique(m.key, n.key, x', y', ascii);
    CutPrefix(": ", Print(m.value, ascii) + x, Print(n.value, ascii) + y);
    PrintUnique(m.value, n.value, x, y, ascii);
  }

  lemma {:induction false} MembersUnique(a: seq<Member>, b: seq<Member>, x: string, y: string, ascii: bool)
    requires Lexical(Obj(a)) && Lexical(Obj(b)) && Delimited(x) && Delimited(y)
    requires PrintMembers(a, ascii) + x == PrintMembers(b, ascii) + y
    ensures a == b && x == y
    decreases a, 0
  {
    hide PrintMember, PrintMembers;
    MembersDelimited(a, x, ascii);
    MembersDelimited(b, y, ascii);
    if a == [] {
      CutPrefix("}", x, y);
    } else {
      var x', y' := PrintMembers(a[1..], ascii) + x, PrintMembers(b[1..], ascii) + y;
      CutPrefix(", ", PrintMember(a[0], ascii) + x', PrintMember(b[0], ascii) + y');
      MembersDelimited(a[1..], x, ascii);
      MembersDelimited(b[1..], y, ascii);
      MemberUnique(a[0], b[0], x', y', ascii);
      MembersUnique(a[1..], b[1..], x, y, ascii);
    }
  }

  lemma PrintInjective(v: Json, w: Json, ascii: bool)
    requires Lexical(v) && Lexical(w) && Print(v, ascii) == Print(w, ascii)
    ensures v == w
  {
    assert Print(v, ascii) + "" == Print(v, ascii) && Print(w, ascii) + "" == Print(w, ascii);
    PrintUnique(v, w, "", "", ascii);
  }
}
