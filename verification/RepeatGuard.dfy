/** The advisory detector of repeated tool calls: one chain for the same call with the same
    arguments, one for the same tool name whatever the arguments. */
module RepeatGuard {
  import opened Json
  import opened Canonical
  import opened Text

  datatype ToolCall = ToolCall(name: string, args: Json)

  datatype Notice =
    | Quiet
    | GentleRepeat
    | GentleName
    | Detailed(tool: string, count: nat, preview: string)

  function Key(c: ToolCall): string {
    Print(Arr([Str(c.name), Str(Canonicalize(c.args))]), true)
  }

  ghost predicate SameCall(c: ToolCall, d: ToolCall) {
    c.name == d.name && Same(c.args, d.args)
  }

  lemma KeyExact(c: ToolCall, d: ToolCall)
    requires Valid(c.args) && Valid(d.args)
    ensures Key(c) == Key(d) <==> SameCall(c, d)
  {
    hide Print, Canonicalize;
    CanonicalExact(c.args, d.args);
    var v, w := Arr([Str(c.name), Str(Canonicalize(c.args))]), Arr([Str(d.name), Str(Canonicalize(d.args))]);
    if Key(c) == Key(d) {
      PrintInjective(v, w, true);
      assert v.items[0] == w.items[0] && v.items[1] == w.items[1];
    }
  }

  // ---- Reference: the longest suffix of equal calls ----

  /** Length of the longest suffix of `calls` all of whose members equal the last call. */
  ghost function RepeatRun(calls: seq<ToolCall>): nat {
    if |calls| <= 1 then |calls|
    else if SameCall(calls[|calls| - 2], calls[|calls| - 1]) then RepeatRun(calls[..|calls| - 1]) + 1
    else 1
  }

  ghost function NameRun(calls: seq<ToolCall>): nat {
    if |calls| <= 1 then |calls|
    else if calls[|calls| - 2].name == calls[|calls| - 1].name then NameRun(calls[..|calls| - 1]) + 1
    else 1
  }

  ghost predicate AllValid(calls: seq<ToolCall>) {
    forall i :: 0 <= i < |calls| ==> Valid(calls[i].args)
  }

  lemma SameCallTrans(c: ToolCall, d: ToolCall, e: ToolCall)
    requires Valid(c.args) && Valid(d.args) && Valid(e.args) && SameCall(d, e)
    ensures SameCall(c, d) <==> SameCall(c, e)
  {
    hide Key, SameCall;
    KeyExact(c, d);
    KeyExact(d, e);
    KeyExact(c, e);
  }

  /** The run is a suffix of calls equal to the last one, and cannot be made longer. */
  lemma {:induction false} RepeatRunIsLongest(calls: seq<ToolCall>)
    requires AllValid(calls) && calls != []
    ensures var n, k := |calls|, RepeatRun(calls);
            && 1 <= k <= n
            && (forall i :: n - k <= i < n ==> SameCall(calls[i], calls[n - 1]))
            && (k < n ==> !SameCall(calls[n - k - 1], calls[n - 1]))
    decreases |calls|
  {
    hide SameCall, Valid;
    var n := |calls|;
    SameCallRefl(calls[n - 1]);
    if n > 1 && SameCall(calls[n - 2], calls[n - 1]) {
      RepeatRunIsLongest(calls[..n - 1]);
      forall i | 0 <= i < n - 1
        ensures SameCall(calls[..n - 1][i], calls[n - 2]) <==> SameCall(calls[i], calls[n - 1])
      {
        SameCallTrans(calls[i], calls[n - 2], calls[n - 1]);
      }
    }
  }

  lemma SameCallRefl(c: ToolCall)
    requires Valid(c.args)
    ensures SameCall(c, c)
  {
    hide SameCall, Key;
    KeyExact(c, c);
  }

  lemma {:induction false} NameRunIsLongest(calls: seq<ToolCall>)
    requires calls != []
    ensures var n, k := |calls|, NameRun(calls);
            && 1 <= k <= n
            && (forall i :: n - k <= i < n ==> calls[i].name == calls[n - 1].name)
            && (k < n ==> calls[n - k - 1].name != calls[n - 1].name)
    decreases |calls|
  {
    if |calls| > 1 {
      NameRunIsLongest(calls[..|calls| - 1]);
    }
  }

  lemma {:induction false} RepeatNeverExceedsName(calls: seq<ToolCall>)
    ensures RepeatRun(calls) <= NameRun(calls)
    decreases |calls|
  {
    hide Same;
    if |calls| > 1 {
      RepeatNeverExceedsName(calls[..|calls| - 1]);
    }
  }

  /** A further call continues or restarts each run; the keys decide the exact one. */
  lemma RunsGrow(calls: seq<ToolCall>, c: ToolCall)
    requires AllValid(calls) && Valid(c.args)
    ensures RepeatRun(calls + [c]) ==
            if calls != [] && Key(calls[|calls| - 1]) == Key(c) then RepeatRun(calls) + 1 else 1
    ensures NameRun(calls + [c]) == if calls != [] && calls[|calls| - 1].name == c.name then NameRun(calls) + 1 else 1
  {
    hide Key, SameCall, Valid;
    assert (calls + [c])[..|calls|] == calls;
    if calls != [] { KeyExact(calls[|calls| - 1], c); }
  }

  // ---- Thresholds ----

  /** What the constructor accepts: at least one threshold, each at least 2, no duplicates (it sorts them). */
  predicate GoodThresholds(ts: seq<nat>) {
    ts != [] && Distinct(ts) && (forall i :: 0 <= i < |ts| ==> ts[i] >= 2)
  }

  function Least(ts: seq<nat>): nat
    requires ts != []
  {
    if |ts| == 1 || ts[0] < Least(ts[1..]) then ts[0] else Least(ts[1..])
  }

  /** The first `chars` characters, and how many were cut off. */
  function Preview(text: string, chars: nat): string {
    if |text| <= chars then text
    else text[..chars] + "\U{2026} (+" + Decimal(|text| - chars) + " more chars)"
  }

  function Hit(ts: seq<nat>, count: nat, gentle: Notice, c: ToolCall, chars: nat): Notice
    requires ts != []
  {
    if count !in ts then Quiet
    else if count == Least(ts) then gentle
    else Detailed(c.name, count, Preview(Canonicalize(c.args), chars))
  }

  /** The notice for a call after which the runs have these lengths; an exact repeat takes precedence. */
  function NoticeFor(exact: seq<nat>, byName: seq<nat>, count: nat, nameCount: nat, c: ToolCall, chars: nat): Notice
    requires exact != [] && byName != []
  {
    var e := Hit(exact, count, GentleRepeat, c, chars);
    if e != Quiet then e else Hit(byName, nameCount, GentleName, c, chars)
  }

  lemma {:induction false} LeastIs(ts: seq<nat>)
    requires ts != []
    ensures Least(ts) in ts && forall t :: t in ts ==> Least(ts) <= t
  {
    if |ts| > 1 {
      LeastIs(ts[1..]);
      assert ts == [ts[0]] + ts[1..];
    }
  }

  /** The printed arguments, in full or cut with the number of characters left out. */
  predicate Shows(preview: string, args: string, chars: nat) {
    if |args| <= chars then preview == args
    else
      && |preview| > chars && preview[..chars] == args[..chars]
      && preview[chars..] == "\U{2026} (+" + Decimal(|args| - chars) + " more chars)"
  }

  /** A run as long as some threshold is noticed: gently at the smallest one, with the tool, the length of the run
      and its arguments at the others. A run of equal calls goes before a run of one name, and no other length is. */
  lemma NoticeMeans(exact: seq<nat>, byName: seq<nat>, count: nat, nameCount: nat, c: ToolCall, chars: nat)
    requires exact != [] && byName != []
    ensures var notice := NoticeFor(exact, byName, count, nameCount, c, chars);
            var ts, n := if count in exact then exact else byName, if count in exact then count else nameCount;
            if n !in ts then notice == Quiet
            else if forall t :: t in ts ==> n <= t then notice == if count in exact then GentleRepeat else GentleName
            else
              && notice.Detailed? && notice.tool == c.name && notice.count == n
              && Shows(notice.preview, Canonicalize(c.args), chars)
  {
    hide Least, Canonicalize, Decimal, Preview;
    LeastIs(exact);
    LeastIs(byName);
    PreviewShows(Canonicalize(c.args), chars);
  }

  lemma PreviewShows(text: string, chars: nat)
    ensures Shows(Preview(text, chars), text, chars)
  {
    hide Decimal;
  }

  class RepeatCallGuard {
    const thresholds: seq<nat>
    const nameThresholds: seq<nat>
    const previewChars: nat
    var key: Option<string>
    var count: nat
    var name: Option<string>
    var nameCount: nat
    ghost var calls: seq<ToolCall>  // observed since the last reset

    ghost predicate Consistent()
      reads this
    {
      && GoodThresholds(thresholds) && GoodThresholds(nameThresholds)
      && AllValid(calls)
      && count == RepeatRun(calls) && nameCount == NameRun(calls)
      && key == (if calls == [] then None else Some(Key(calls[|calls| - 1])))
      && name == (if calls == [] then None else Some(calls[|calls| - 1].name))
    }

    constructor (thresholds: seq<nat>, previewChars: nat, nameThresholds: seq<nat>)
      requires GoodThresholds(thresholds) && GoodThresholds(nameThresholds) && previewChars >= 1
      ensures Consistent() && calls == []
      ensures this.thresholds == thresholds && this.nameThresholds == nameThresholds
              && this.previewChars == previewChars
    {
      this.thresholds, this.nameThresholds, this.previewChars := thresholds, nameThresholds, previewChars;
      key, count, name, nameCount, calls := None, 0, None, 0, [];
    }

    method Reset()
      requires Consistent()
      modifies this
      ensures Consistent() && calls == []
    {
      key, count, name, nameCount, calls := None, 0, None, 0, [];
    }

    /** The counts are the two run lengths of the calls since the reset, and the notice follows from them alone. */
    method Observe(c: ToolCall) returns (notice: Notice)
      requires Consistent() && Valid(c.args)
      modifies this
      ensures Consistent() && calls == old(calls) + [c]
      ensures notice == NoticeFor(thresholds, nameThresholds, RepeatRun(calls), NameRun(calls), c, previewChars)
      ensures count <= nameCount
    {
      hide Key, Valid, RepeatRun, NameRun, Hit;
      RunsGrow(calls, c);
      RepeatNeverExceedsName(calls + [c]);
      var k := Key(c);
      if key == Some(k) {
        count := count + 1;
      } else {
        key, count := Some(k), 1;
      }
      var exactNotice := Hit(thresholds, count, GentleRepeat, c, previewChars);
      if name == Some(c.name) {
        nameCount := nameCount + 1;
      } else {
        name, nameCount := Some(c.name), 1;
      }
      var nameNotice := Hit(nameThresholds, nameCount, GentleName, c, previewChars);
      calls := calls + [c];
      notice := if exactNotice != Quiet then exactNotice else nameNotice;
    }
  }
}
