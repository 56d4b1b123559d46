/** Reading a JSON string as section 7 of RFC 8259 says: what is printed between the quotes is read back. */
module Escapes {
  import opened Json
  import opened Text

  function HexValue(c: char): Option<nat> {
    if '0' <= c <= '9' then Some(c as nat - '0' as nat)
    else if 'a' <= c <= 'f' then Some(10 + c as nat - 'a' as nat)
    else if 'A' <= c <= 'F' then Some(10 + c as nat - 'A' as nat)
    else None
  }

  /** The code unit of a `\uXXXX` at the start of the text. */
  function Unit(t: string): Option<nat> {
    if |t| < 6 || t[0] != '\\' || t[1] != 'u' then None
    else
      match (HexValue(t[2]), HexValue(t[3]), HexValue(t[4]), HexValue(t[5]))
      case (Some(a), Some(b), Some(c), Some(d)) => Some(0x1000 * a + 0x100 * b + 0x10 * c + d)
      case _ => None
  }

  /** The character that a two-character escape stands for. */
  function ShortEscape(c: char): Option<char> {
    match c
    case '\"' => Some('\"')
    case '\\' => Some('\\')
    case '/' => Some('/')
    case 'b' => Some('\U{08}')
    case 'f' => Some('\U{0c}')
    case 'n' => Some('\U{0a}')
    case 'r' => Some('\U{0d}')
    case 't' => Some('\U{09}')
    case _ => None
  }

  datatype Read = Read(c: char, length: nat)

  /** The character at the start of the text and how long its escape is; two units may make one character. */
  function First(t: string): (r: Option<Read>)
    requires t != ""
    ensures r.Some? ==> 0 < r.value.length <= |t|
  {
    if t[0] != '\\' then Some(Read(t[0], 1))
    else if |t| >= 2 && t[1] != 'u' then
      match ShortEscape(t[1]) case Some(c) => Some(Read(c, 2)) case None => None
    else
      match Unit(t)
      case None => None
      case Some(u) =>
        if u < 0xd800 || 0xe000 <= u < 0x10000 then Some(Read(u as char, 6))
        else if u < 0xdc00 then
          match Unit(t[6..])
          case Some(w) =>
            if 0xdc00 <= w < 0xe000 then Some(Read((0x10000 + 0x400 * (u - 0xd800) + (w - 0xdc00)) as char, 12))
            else None
          case None => None
        else None
  }

  function ReadString(t: string): Option<string>
    decreases |t|
  {
    if t == "" then Some("")
    else
      match First(t)
      case None => None
      case Some(r) =>
        match ReadString(t[r.length..]) case Some(rest) => Some([r.c] + rest) case None => None
  }

  lemma HexReads(d: nat)
    requires d < 16
    ensures HexValue(Hex(d)) == Some(d)
  {
  }

  lemma UnitReads(u: nat, rest: string)
    requires u < 0x10000
    ensures Unit(CodeUnit(u) + rest) == Some(u) && (CodeUnit(u) + rest)[6..] == rest
  {
    hide HexValue, Hex;
    HexReads(u / 0x1000);
    HexReads(u / 0x100 % 0x10);
    HexReads(u / 0x10 % 0x10);
    HexReads(u % 0x10);
    Nibbles(u);
  }

  lemma UnicodeReads(c: char, rest: string)
    ensures First(Unicode(c) + rest) == Some(Read(c, |Unicode(c)|))
  {
    hide Unit, CodeUnit, ShortEscape;
    UnicodeStart(c);
    var n := Code(c);
    if n < 0x10000 {
      UnitReads(n, rest);
      UnitLength(n);
    } else {
      var u, w := 0xd800 + (n - 0x10000) / 0x400, 0xdc00 + (n - 0x10000) % 0x400;
      UnitReads(u, CodeUnit(w) + rest);
      UnitReads(w, rest);
      UnitLength(u);
      UnitLength(w);
      assert Unicode(c) + rest == CodeUnit(u) + (CodeUnit(w) + rest);
    }
  }

  lemma EscapeReads(c: char, ascii: bool, rest: string)
    ensures First(Escape(c, ascii) + rest) == Some(Read(c, |Escape(c, ascii)|))
  {
    hide Unicode, Unit;
    UnicodeStart(c);
    UnicodeReads(c, rest);
  }

  /** Every string is read back as it was printed, with or without escapes for what is not ASCII. */
  lemma {:induction false} PrintedStringReads(s: string, ascii: bool)
    ensures ReadString(EscapeAll(s, ascii)) == Some(s)
  {
    hide Escape, First;
    if s != "" {
      var e, rest := Escape(s[0], ascii), EscapeAll(s[1..], ascii);
      EscapeStart(s[0], ascii);
      EscapeReads(s[0], ascii, rest);
      PrintedStringReads(s[1..], ascii);
      assert EscapeAll(s, ascii) == e + rest && (e + rest)[|e|..] == rest;
      assert s == [s[0]] + s[1..];
    }
  }
}
