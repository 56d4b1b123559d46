/** What the two writing file tools do to the text of one file. */
module Edits {
  import opened Text

  datatype FileOp =
    | Write(content: string)
    | Edit(before: string, after: string, replaceAll: bool)

  datatype Reply =
    | Wrote(characters: nat)
    | Unreadable
    | Stale
    | Ambiguous(occurrences: nat)
    | Edited(occurrences: nat)

  /** Python's `text.count(p)` from position `i` on: matches do not overlap. */
  function Count(text: string, p: string, i: nat): nat
    requires p != ""
    decreases |text| - i
  {
    if i + |p| > |text| then 0
    else if OccursAt(text, p, i) then 1 + Count(text, p, i + |p|)
    else Count(text, p, i + 1)
  }

  function Occurrences(text: string, p: string): nat {
    if p == "" then |text| + 1 else Count(text, p, 0)
  }

  function ReplaceEach(text: string, p: string, with: string, i: nat): string
    requires p != "" && i <= |text|
    decreases |text| - i
  {
    if i + |p| > |text| then text[i..]
    else if OccursAt(text, p, i) then with + ReplaceEach(text, p, with, i + |p|)
    else [text[i]] + ReplaceEach(text, p, with, i + 1)
  }

  function Interleave(text: string, with: string): string {
    if text == "" then with else with + [text[0]] + Interleave(text[1..], with)
  }

  function ReplaceFirst(text: string, p: string, with: string, i: nat): string
    requires i <= |text|
    decreases |text| - i
  {
    if i + |p| > |text| then text[i..]
    else if OccursAt(text, p, i) then with + text[i + |p|..]
    else if i == |text| then ""
    else [text[i]] + ReplaceFirst(text, p, with, i + 1)
  }

  function Replaced(text: string, p: string, with: string, all: bool): string {
    if !all then ReplaceFirst(text, p, with, 0)
    else if p == "" then Interleave(text, with)
    else ReplaceEach(text, p, with, 0)
  }

  /** A file's text, or None when it cannot be read, before and after one tool call. */
  function Apply(op: FileOp, file: Option<string>): (Option<string>, Reply) {
    match op
    case Write(content) => (Some(content), Wrote(|content|))
    case Edit(p, with, all) =>
      if file.None? then (file, Unreadable)
      else
        var n := Occurrences(file.value, p);
        if n == 0 then (file, Stale)
        else if !all && n > 1 then (file, Ambiguous(n))
        else (Some(Replaced(file.value, p, with, all)), Edited(n))
  }

  // ---- When "appears once" means once ----

  /** No proper suffix of `p` is a prefix of it, so two matches cannot overlap. */
  ghost predicate Unbordered(p: string) {
    forall k :: 0 < k < |p| ==> p[k..] != p[..|p| - k]
  }

  ghost predicate OccursOnce(text: string, p: string) {
    exists i: nat :: OccursAt(text, p, i) && forall j: nat :: OccursAt(text, p, j) ==> j == i
  }

  lemma OverlapIsBorder(text: string, p: string, i: nat, j: nat)
    requires OccursAt(text, p, i) && OccursAt(text, p, j) && i < j < i + |p|
    ensures !Unbordered(p)
  {
    var k := j - i;
    forall m | 0 <= m < |p| - k ensures p[k..][m] == p[..|p| - k][m] {
      assert text[i..i + |p|][k + m] == text[j..j + |p|][m];
    }
    assert p[k..] == p[..|p| - k];
  }

  lemma {:induction false} CountZero(text: string, p: string, i: nat)
    requires p != ""
    ensures Count(text, p, i) == 0 <==> forall j: nat :: i <= j ==> !OccursAt(text, p, j)
    decreases |text| - i
  {
    hide OccursAt;
    if i + |p| > |text| {
      forall j: nat | i <= j ensures !OccursAt(text, p, j) { TooShort(text, p, j); }
    } else if !OccursAt(text, p, i) {
      CountZero(text, p, i + 1);
    }
  }

  lemma TooShort(text: string, p: string, j: nat)
    requires j + |p| > |text|
    ensures !OccursAt(text, p, j)
  {
  }

  /** The first match at or after `i` is where the scan counts from. */
  lemma {:induction false} FirstMatch(text: string, p: string, i: nat) returns (f: nat)
    requires p != "" && Count(text, p, i) > 0
    ensures i <= f && OccursAt(text, p, f) && forall j: nat :: i <= j < f ==> !OccursAt(text, p, j)
    ensures Count(text, p, i) == 1 + Count(text, p, f + |p|)
    decreases |text| - i
  {
    hide OccursAt;
    if OccursAt(text, p, i) {
      f := i;
    } else {
      f := FirstMatch(text, p, i + 1);
    }
  }

  lemma {:induction false} ReplacesFirstMatch(text: string, p: string, with: string, i: nat, f: nat)
    requires i <= f && f + |p| <= |text| && OccursAt(text, p, f)
    requires forall j: nat :: i <= j < f ==> !OccursAt(text, p, j)
    ensures ReplaceFirst(text, p, with, i) == text[i..f] + with + text[f + |p|..]
    decreases f - i
  {
    hide OccursAt;
    if i < f {
      ReplacesFirstMatch(text, p, with, i + 1, f);
      assert text[i..f] == [text[i]] + text[i + 1..f];
    } else {
      assert text[i..f] == "";
    }
  }

  /** For a pattern that cannot overlap itself, the tool counts one occurrence exactly when there
      is one. */
  lemma CountOneIsOnce(text: string, p: string)
    requires p != "" && Unbordered(p)
    ensures Count(text, p, 0) == 1 <==> OccursOnce(text, p)
  {
    hide OccursAt, Unbordered;
    CountZero(text, p, 0);
    if Count(text, p, 0) > 0 {
      var f := FirstMatch(text, p, 0);
      CountZero(text, p, f + |p|);
      if Count(text, p, f + |p|) == 0 {
        forall j: nat | OccursAt(text, p, j) ensures j == f {
          if f < j < f + |p| { OverlapIsBorder(text, p, f, j); }
        }
      }
    }
  }

  /** A pattern with a border occurs twice in a text where the tool counts it once. */
  lemma BorderedIsAmbiguous(p: string) returns (text: string)
    requires p != "" && !Unbordered(p)
    ensures Occurrences(text, p) == 1 && !OccursOnce(text, p)
  {
    var k :| 0 < k < |p| && p[k..] == p[..|p| - k];
    text := p[..k] + p;
    forall m | 0 <= m < |p| ensures text[..|p|][m] == p[m] {
      if m >= k { assert p[..|p| - k][m - k] == p[k..][m - k]; }
    }
    assert text[0..0 + |p|] == text[..|p|] == p;
    assert OccursAt(text, p, 0);
    assert text[k..k + |p|] == p;
    assert OccursAt(text, p, k);
    assert Count(text, p, |p|) == 0;
  }

  lemma EmptyIsUnbordered()
    ensures Unbordered("")
  {
  }

  /** The empty pattern is counted once in the empty text alone. */
  lemma EmptyOccursOnce(text: string)
    ensures Occurrences(text, "") == 1 ==> OccursOnce(text, "")
  {
    assert OccursAt(text, "", 0);
  }

  ghost predicate AcceptedMeansOnce(p: string) {
    forall text, with :: Apply(Edit(p, with, false), Some(text)).1.Edited? ==> OccursOnce(text, p)
  }

  /** "Appears more than once is rejected" holds for a pattern exactly when it cannot overlap
      itself: otherwise some text holds it twice and the edit still goes through. */
  lemma RejectsAmbiguityIff(p: string)
    ensures AcceptedMeansOnce(p) <==> Unbordered(p)
  {
    hide OccursOnce, Unbordered;
    if p == "" {
      EmptyIsUnbordered();
      forall text, with | Apply(Edit(p, with, false), Some(text)).1.Edited? ensures OccursOnce(text, p) {
        EmptyOccursOnce(text);
      }
    } else if Unbordered(p) {
      forall text, with | Apply(Edit(p, with, false), Some(text)).1.Edited? ensures OccursOnce(text, p) {
        CountOneIsOnce(text, p);
      }
    } else {
      var text := BorderedIsAmbiguous(p);
      assert Apply(Edit(p, "", false), Some(text)).1.Edited?;
    }
  }

  /** An accepted single edit replaces the first occurrence and nothing else. */
  lemma SingleEdit(text: string, p: string, with: string) returns (f: nat)
    requires p != "" && Apply(Edit(p, with, false), Some(text)).1.Edited?
    ensures OccursAt(text, p, f) && forall j: nat :: j < f ==> !OccursAt(text, p, j)
    ensures Apply(Edit(p, with, false), Some(text)).0 == Some(text[..f] + with + text[f + |p|..])
  {
    f := FirstMatch(text, p, 0);
    ReplacesFirstMatch(text, p, with, 0, f);
  }

  /** Replacing all occurrences changes the length by the reported count times the difference. */
  lemma {:induction false} ReplaceEachLength(text: string, p: string, with: string, i: nat)
    requires p != "" && i <= |text|
    ensures |ReplaceEach(text, p, with, i)| == |text| - i + Count(text, p, i) * (|with| - |p|)
    decreases |text| - i
  {
    hide OccursAt;
    if i + |p| <= |text| {
      if OccursAt(text, p, i) {
        ReplaceEachLength(text, p, with, i + |p|);
        var n := Count(text, p, i + |p|);
        assert (1 + n) * (|with| - |p|) == (|with| - |p|) + n * (|with| - |p|);
      } else {
        ReplaceEachLength(text, p, with, i + 1);
      }
    }
  }

  // ---- An edit splits the text and joins it again ----

  /** The stretches of the text between the matches that a scan from position `i` finds. */
  function Gaps(text: string, p: string, i: nat): (gaps: seq<string>)
    requires p != "" && i <= |text|
    ensures gaps != []
    decreases |text| - i
  {
    if i + |p| > |text| then [text[i..]]
    else if OccursAt(text, p, i) then [""] + Gaps(text, p, i + |p|)
    else
      var gaps := Gaps(text, p, i + 1);
      [[text[i]] + gaps[0]] + gaps[1..]
  }

  lemma JoinPrepend(gaps: seq<string>, first: string, sep: string)
    requires gaps != []
    ensures Join([first] + gaps, sep) == first + sep + Join(gaps, sep)
    ensures Join([first + gaps[0]] + gaps[1..], sep) == first + Join(gaps, sep)
  {
    hide Join;
    JoinHead([first] + gaps, sep);
    JoinHead([first + gaps[0]] + gaps[1..], sep);
    JoinHead(gaps, sep);
    assert ([first] + gaps)[1..] == gaps;
    assert ([first + gaps[0]] + gaps[1..])[1..] == gaps[1..];
  }

  lemma MatchSplits(text: string, p: string, i: nat)
    requires OccursAt(text, p, i)
    ensures i + |p| <= |text| && text[i..] == p + text[i + |p|..]
  {
  }

  lemma GapsUnfold(text: string, p: string, i: nat)
    requires p != "" && i <= |text|
    ensures var gaps := Gaps(text, p, i);
            if i + |p| > |text| then gaps == [text[i..]]
            else if OccursAt(text, p, i) then gaps == [""] + Gaps(text, p, i + |p|)
            else var more := Gaps(text, p, i + 1); gaps == [[text[i]] + more[0]] + more[1..]
  {
    hide OccursAt;
  }

  /** Joined with another text the gaps make the replaced text. */
  lemma {:induction false} GapsJoin(text: string, p: string, with: string, i: nat)
    requires p != "" && i <= |text|
    ensures |Gaps(text, p, i)| == Count(text, p, i) + 1
    ensures Join(Gaps(text, p, i), with) == ReplaceEach(text, p, with, i)
    decreases |text| - i
  {
    hide Join, OccursAt, Gaps;
    GapsUnfold(text, p, i);
    if i + |p| > |text| {
      JoinHead([text[i..]], with);
    } else if OccursAt(text, p, i) {
      GapsJoin(text, p, with, i + |p|);
      JoinPrepend(Gaps(text, p, i + |p|), "", with);
      assert "" + with == with;
    } else {
      GapsJoin(text, p, with, i + 1);
      JoinPrepend(Gaps(text, p, i + 1), [text[i]], with);
    }
  }

  /** Replacing a pattern by itself changes nothing. */
  lemma {:induction false} ReplaceBySame(text: string, p: string, i: nat)
    requires p != "" && i <= |text|
    ensures ReplaceEach(text, p, p, i) == text[i..]
    decreases |text| - i
  {
    hide OccursAt;
    if i + |p| <= |text| {
      if OccursAt(text, p, i) {
        MatchSplits(text, p, i);
        ReplaceBySame(text, p, i + |p|);
      } else {
        ReplaceBySame(text, p, i + 1);
        assert text[i..] == [text[i]] + text[i + 1..];
      }
    }
  }

  ghost predicate NoMatch(text: string, p: string) {
    forall j: nat :: !OccursAt(text, p, j)
  }

  /** No match begins inside a gap, not even one that runs on into the match behind it. */
  ghost predicate FreeOf(gaps: seq<string>, p: string) {
    && (forall k, j: nat :: 0 <= k < |gaps| - 1 && j < |gaps[k]| ==> !OccursAt(gaps[k] + p, p, j))
    && (gaps != [] ==> NoMatch(gaps[|gaps| - 1], p))
  }

  lemma LastGapFree(text: string, p: string)
    requires |p| > |text|
    ensures FreeOf([text], p)
  {
  }

  lemma EmptyGapFree(gaps: seq<string>, p: string)
    requires gaps != [] && FreeOf(gaps, p)
    ensures FreeOf([""] + gaps, p)
  {
    hide OccursAt;
    assert forall k :: 0 < k <= |gaps| ==> ([""] + gaps)[k] == gaps[k - 1];
  }

  lemma LaterMatch(text: string, p: string, i: nat)
    requires i <= |text| && !OccursAt(text, p, i)
    ensures !OccursAt(text[i..], p, 0)
  {
    if |p| <= |text| - i { assert text[i..][..|p|] == text[i..i + |p|]; }
  }

  lemma {:induction false} GapsFree(text: string, p: string, i: nat)
    requires p != "" && i <= |text|
    ensures FreeOf(Gaps(text, p, i), p)
    decreases |text| - i
  {
    hide Join, OccursAt, Gaps, FreeOf;
    GapsUnfold(text, p, i);
    if i + |p| > |text| {
      LastGapFree(text[i..], p);
    } else if OccursAt(text, p, i) {
      GapsFree(text, p, i + |p|);
      EmptyGapFree(Gaps(text, p, i + |p|), p);
    } else {
      GapsFree(text, p, i + 1);
      GapsJoin(text, p, p, i);
      ReplaceBySame(text, p, i);
      LaterMatch(text, p, i);
      LongerGap(text[i..], text[i], Gaps(text, p, i + 1), p);
    }
  }

  lemma LongerGap(text: string, c: char, more: seq<string>, p: string)
    requires p != "" && more != [] && FreeOf(more, p)
    requires text == Join([[c] + more[0]] + more[1..], p) && !OccursAt(text, p, 0)
    ensures FreeOf([[c] + more[0]] + more[1..], p)
  {
    hide Join;
    var gaps := [[c] + more[0]] + more[1..];
    JoinHead(gaps, p);
    if |more| == 1 {
      forall j: nat ensures !OccursAt(gaps[0], p, j) {
        if j > 0 { Shifted(more[0], c, p, j); }
      }
    } else {
      forall j: nat | j < |gaps[0]| ensures !OccursAt(gaps[0] + p, p, j) {
        if j == 0 {
          var tail := Join(gaps[1..], p);
          assert text[..|gaps[0] + p|] == gaps[0] + p;
          assert (gaps[0] + p)[..|p|] == text[..|p|];
        } else {
          assert gaps[0] + p == [c] + (more[0] + p);
          Shifted(more[0] + p, c, p, j);
        }
      }
      assert forall k :: 0 < k < |gaps| ==> gaps[k] == more[k];
    }
  }

  lemma Shifted(text: string, c: char, p: string, j: nat)
    requires j > 0
    ensures OccursAt([c] + text, p, j) <==> OccursAt(text, p, j - 1)
  {
    if j <= |text| + 1 - |p| { assert ([c] + text)[j..j + |p|] == text[j - 1..j - 1 + |p|]; }
  }

  /** An edit splits the text at the matches found from the left and joins it with the new text in their place.
      Without a match it reports stale text; with several, and not told to replace all, it changes nothing. */
  lemma EditIsSplitAndJoin(text: string, p: string, with: string, all: bool) returns (gaps: seq<string>)
    requires p != ""
    ensures gaps != [] && Join(gaps, p) == text && FreeOf(gaps, p)
    ensures Apply(Edit(p, with, all), Some(text)) ==
            if |gaps| == 1 then (Some(text), Stale)
            else if |gaps| > 2 && !all then (Some(text), Ambiguous(|gaps| - 1))
            else (Some(Join(gaps, with)), Edited(|gaps| - 1))
  {
    hide OccursAt, Join;
    gaps := Gaps(text, p, 0);
    GapsJoin(text, p, with, 0);
    GapsJoin(text, p, p, 0);
    ReplaceBySame(text, p, 0);
    GapsFree(text, p, 0);
    if |gaps| == 2 {
      var f := FirstMatch(text, p, 0);
      MatchSplits(text, p, f);
      ReplacesFirstMatch(text, p, with, 0, f);
      OneMatch(text, p, with, f);
    }
  }

  lemma {:induction false} NoMatchLeft(text: string, p: string, with: string, i: nat)
    requires p != "" && i <= |text| && Count(text, p, i) == 0
    ensures ReplaceEach(text, p, with, i) == text[i..]
    decreases |text| - i
  {
    if i + |p| <= |text| { NoMatchLeft(text, p, with, i + 1); }
  }

  lemma {:induction false} OneMatchFrom(text: string, p: string, with: string, i: nat, f: nat)
    requires p != "" && i <= f && OccursAt(text, p, f) && Count(text, p, f + |p|) == 0
    requires forall j: nat :: i <= j < f ==> !OccursAt(text, p, j)
    ensures f + |p| <= |text| && ReplaceEach(text, p, with, i) == text[i..f] + with + text[f + |p|..]
    decreases f - i
  {
    hide OccursAt;
    MatchSplits(text, p, f);
    if i == f {
      NoMatchLeft(text, p, with, f + |p|);
      assert text[i..f] == "";
    } else {
      OneMatchFrom(text, p, with, i + 1, f);
      assert text[i..f] == [text[i]] + text[i + 1..f];
    }
  }

  lemma OneMatch(text: string, p: string, with: string, f: nat)
    requires p != "" && OccursAt(text, p, f) && Count(text, p, f + |p|) == 0
    requires forall j: nat :: j < f ==> !OccursAt(text, p, j)
    ensures f + |p| <= |text| && ReplaceEach(text, p, with, 0) == text[..f] + with + text[f + |p|..]
  {
    hide OccursAt;
    MatchSplits(text, p, f);
    assert text[0..f] == text[..f];
    OneMatchFrom(text, p, with, 0, f);
  }

  function Letters(text: string): seq<string> {
    seq(|text|, i requires 0 <= i < |text| => [text[i]])
  }

  /** The empty pattern is found before every character and at the end. */
  lemma {:induction false} EmptyPatternGoesBetween(text: string, with: string)
    ensures Apply(Edit("", with, true), Some(text)) ==
            (Some(Join([""] + Letters(text) + [""], with)), Edited(|text| + 1))
    ensures Apply(Edit("", with, false), Some(text)) ==
            if text == "" then (Some(with), Edited(1)) else (Some(text), Ambiguous(|text| + 1))
  {
    hide Join;
    Between(text, with);
    JoinPrepend(Letters(text) + [""], "", with);
    assert [""] + Letters(text) + [""] == [""] + (Letters(text) + [""]);
    assert OccursAt(text, "", 0);
    assert "" + with == with == with + "";
  }

  lemma {:induction false} Between(text: string, with: string)
    ensures Interleave(text, with) == with + Join(Letters(text) + [""], with)
  {
    hide Join;
    if text == "" {
      JoinHead(Letters(text) + [""], with);
    } else {
      Between(text[1..], with);
      assert Letters(text) + [""] == [[text[0]]] + (Letters(text[1..]) + [""]);
      JoinPrepend(Letters(text[1..]) + [""], [text[0]], with);
    }
  }
}
