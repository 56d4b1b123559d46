/** When the order of two file calls of one concurrent group matters. Under the path locks each call
    is one step on its file, but nothing fixes which of two calls on one file comes first. */
module FileRaces {
  import B = Batch
  import opened Edits
  import L = Locks
  import opened Text

  /** Both orders of two calls on one file leave the same text. */
  predicate FilesAgree(a: FileOp, b: FileOp, file: Option<string>) {
    Apply(b, Apply(a, file).0).0 == Apply(a, Apply(b, file).0).0
  }

  /** Each call gets the same reply whether it comes first or second. */
  predicate RepliesAgree(a: FileOp, b: FileOp, file: Option<string>) {
    Apply(b, Apply(a, file).0).1 == Apply(b, file).1 && Apply(a, Apply(b, file).0).1 == Apply(a, file).1
  }

  predicate Commute(a: FileOp, b: FileOp, file: Option<string>) {
    FilesAgree(a, b, file) && RepliesAgree(a, b, file)
  }

  // ---- Which calls commute ----

  lemma TwoWritesCommuteIff(x: string, y: string, file: Option<string>)
    ensures Commute(Write(x), Write(y), file) <==> x == y
  {
    assert Some(x) == Some(y) <==> x == y;
  }

  /** A write and an edit of one file commute exactly when the edit leaves the written text as it is
      (rejected on it, or replacing nothing by something else) and replies on it as on the file before. */
  lemma WriteAndEditCommuteIff(x: string, p: string, with: string, all: bool, file: Option<string>)
    ensures Commute(Write(x), Edit(p, with, all), file)
            <==> (&& (|| Occurrences(x, p) == 0 || (!all && Occurrences(x, p) > 1)
                      || Replaced(x, p, with, all) == x)
                  && Apply(Edit(p, with, all), Some(x)).1 == Apply(Edit(p, with, all), file).1)
  {
    hide Occurrences, Replaced;
    assert Some(Replaced(x, p, with, all)) == Some(x) <==> Replaced(x, p, with, all) == x;
  }

  /** A single edit leaves a text that holds its pattern exactly when it replaces the pattern by itself. */
  lemma EditKeepsIff(x: string, p: string, with: string)
    requires p != "" && Occurrences(x, p) == 1
    ensures Replaced(x, p, with, false) == x <==> with == p
  {
    hide Count, OccursAt, ReplaceFirst;
    var f := SingleEdit(x, p, with);
    OccursThere(x, p, f);
    var y := x[..f] + with + x[f + |p|..];
    assert x == x[..f] + p + x[f + |p|..];
    assert |y| == |x| - |p| + |with|;
    if y == x {
      assert y[f..f + |with|] == with && x[f..f + |p|] == p;
    }
  }

  lemma OccursThere(x: string, p: string, f: nat)
    requires OccursAt(x, p, f)
    ensures f + |p| <= |x| && x[f..f + |p|] == p
  {
  }

  /** Two edits of which one makes the other's pattern: turning "a" into "b" and "b" into "c". */
  lemma EditsRace()
    ensures !FilesAgree(Edit("a", "b", false), Edit("b", "c", false), Some("a"))
  {
    OneLetter('a', "b");
    OneLetter('b', "c");
    NoLetter('a', 'b');
    var first, second := Edit("a", "b", false), Edit("b", "c", false);
    assert Apply(first, Some("a")).0 == Some("b") && Apply(second, Some("b")).0 == Some("c");
    assert Apply(second, Some("a")).0 == Some("a");
    assert "b"[0] != "c"[0];
  }

  /** The text may be the same and a reply not: the edit finds its pattern only before the write. */
  lemma RepliesRace()
    ensures var write, edit, file := Write("b"), Edit("a", "b", false), Some("a");
            FilesAgree(write, edit, file) && !RepliesAgree(write, edit, file)
  {
    OneLetter('a', "b");
    NoLetter('b', 'a');
  }

  lemma OneLetter(c: char, with: string)
    ensures Occurrences([c], [c]) == 1 && Replaced([c], [c], with, false) == with
  {
    assert [c][0..1] == [c];
    assert OccursAt([c], [c], 0);
    assert Count([c], [c], 1) == 0;
    assert with + [c][1..] == with;
  }

  lemma NoLetter(c: char, d: char)
    requires c != d
    ensures Occurrences([c], [d]) == 0
  {
    assert [c][0..1] == [c] && [c][0] != [d][0];
    assert !OccursAt([c], [d], 0);
    assert Count([c], [d], 1) == 0;
  }

  // ---- In threads under the path locks ----

  lemma OneTurn(e: L.Setup, s: L.State, t: nat, rest: seq<nat>)
    requires L.Fits(e, s) && t < |e.calls| && L.Turn(e, s, t).Some?
    ensures L.Run(e, s, [t] + rest) == L.Run(e, L.Turn(e, s, t).value, rest)
  {
    assert ([t] + rest)[1..] == rest;
  }

  /** Thread `t` from its first turn to its last: four turns to get into its path's lock, three inside. */
  function Whole(t: nat): seq<nat> {
    [t, t, t, t] + [t, t, t]
  }

  lemma FindsLock(e: L.Setup, s: L.State, t: nat)
    requires L.Fits(e, s) && t < |e.calls| && s.pcs[t] == L.Idle && s.master == None
    ensures var r := L.Run(e, s, [t, t]);
            && L.Fits(e, r) && r.master == Some(t) && r.entered == s.entered && r.files == s.files && r.owner == s.owner
            && r.pcs[t].Found? && r.pcs == s.pcs[t := r.pcs[t]]
  {
    hide L.Run, L.Key;
    var s1 := L.Turn(e, s, t).value;
    var s2 := L.Turn(e, s1, t).value;
    OneTurn(e, s, t, [t]);
    OneTurn(e, s1, t, []);
    Repeated(t);
    NoTurns(e, s2);
    assert s2.pcs == s.pcs[t := s2.pcs[t]];
  }

  lemma TakesLock(e: L.Setup, s: L.State, t: nat)
    requires L.Fits(e, s) && t < |e.calls| && s.pcs[t].Found? && s.owner == map[]
    ensures var r := L.Run(e, s, [t, t]);
            && L.Fits(e, r) && r.master == None && r.entered == s.entered + [t] && r.files == s.files
            && r.pcs[t].Entered? && r.owner == map[r.pcs[t].lock := t] && r.pcs == s.pcs[t := r.pcs[t]]
  {
    hide L.Run, L.Key, L.LookUp;
    var s1 := L.Turn(e, s, t).value;
    var s2 := L.Turn(e, s1, t).value;
    OneTurn(e, s, t, [t]);
    OneTurn(e, s1, t, []);
    Repeated(t);
    NoTurns(e, s2);
    assert s2.pcs == s.pcs[t := s2.pcs[t]];
  }

  lemma GetsIn(e: L.Setup, s: L.State, t: nat)
    requires L.Fits(e, s) && t < |e.calls| && s.pcs[t] == L.Idle && s.master == None && s.owner == map[]
    ensures var r := L.Run(e, s, [t, t, t, t]);
            && L.Fits(e, r) && r.master == None && r.entered == s.entered + [t] && r.files == s.files
            && r.pcs[t].Entered? && r.owner == map[r.pcs[t].lock := t] && r.pcs == s.pcs[t := r.pcs[t]]
  {
    hide L.Run;
    FindsLock(e, s, t);
    TakesLock(e, L.Run(e, s, [t, t]), t);
    RunOn(e, s, [t, t], [t, t]);
    Repeated(t);
  }

  lemma GetsOut(e: L.Setup, s: L.State, t: nat)
    requires L.Fits(e, s) && t < |e.calls| && s.pcs[t].Entered? && s.owner == map[s.pcs[t].lock := t]
    ensures var r := L.Run(e, s, [t, t, t]); var key := L.Key(e, t);
            && L.Fits(e, r) && r.master == s.master && r.owner == map[] && r.entered == s.entered
            && r.pcs == s.pcs[t := L.Finished]
            && r.files == L.Stored(s.files, key, e.calls[t].op, L.Content(s.files, key))
  {
    hide L.Run, L.Stored, L.Content, L.Key, Edits.Apply;
    var s1 := L.Turn(e, s, t).value;
    var s2 := L.Turn(e, s1, t).value;
    var s3 := L.Turn(e, s2, t).value;
    OneTurn(e, s, t, [t, t]);
    OneTurn(e, s1, t, [t]);
    OneTurn(e, s2, t, []);
    Repeated(t);
    NoTurns(e, s3);
    assert s3.owner == map[];
    assert s3.pcs == s.pcs[t := L.Finished];
  }

  /** A call that nobody disturbs does its work and gives every lock back. */
  lemma WholeCall(e: L.Setup, s: L.State, t: nat)
    requires L.Fits(e, s) && t < |e.calls| && s.pcs[t] == L.Idle && s.master == None && s.owner == map[]
    ensures var r := L.Run(e, s, Whole(t)); var key := L.Key(e, t);
            && L.Fits(e, r) && r.master == None && r.owner == map[] && r.entered == s.entered + [t]
            && r.pcs == s.pcs[t := L.Finished]
            && r.files == L.Stored(s.files, key, e.calls[t].op, L.Content(s.files, key))
  {
    hide L.Run, L.Stored, L.Content, L.Key, Edits.Apply;
    GetsIn(e, s, t);
    GetsOut(e, L.Run(e, s, [t, t, t, t]), t);
    RunOn(e, s, [t, t, t, t], [t, t, t]);
  }

  lemma Repeated(t: nat)
    ensures [t, t, t, t] == [t, t] + [t, t] && [t, t, t] == [t] + [t, t] && [t, t] == [t] + [t] && [t] == [t] + []
  {
  }

  lemma NoTurns(e: L.Setup, s: L.State)
    requires L.Fits(e, s)
    ensures L.Run(e, s, []) == s
  {
  }

  lemma {:induction false} RunOn(e: L.Setup, s: L.State, a: seq<nat>, b: seq<nat>)
    requires L.Fits(e, s)
    ensures L.Run(e, s, a + b) == L.Run(e, L.Run(e, s, a), b)
    decreases a
  {
    hide L.Turn;
    if a == [] {
      assert a + b == b;
    } else {
      assert (a + b)[1..] == a[1..] + b;
      var moved := a[0] < |e.calls| && L.Turn(e, s, a[0]).Some?;
      RunOn(e, if moved then L.Turn(e, s, a[0]).value else s, a[1..], b);
    }
  }

  /** One call after the other, in this order. */
  function InTurn(order: seq<nat>): seq<nat>
    decreases |order|
  {
    if order == [] then [] else InTurn(order[..|order| - 1]) + Whole(order[|order| - 1])
  }

  ghost predicate Threads(e: L.Setup, order: seq<nat>) {
    forall t: nat :: t in order ==> t < |e.calls|
  }

  /** The threads in `order` have finished, the others have not begun. */
  ghost predicate Through(e: L.Setup, pcs: seq<L.Pc>, order: seq<nat>) {
    |pcs| == |e.calls| && forall t :: 0 <= t < |pcs| ==> pcs[t] == if t in order then L.Finished else L.Idle
  }

  lemma OneMoreThrough(e: L.Setup, pcs: seq<L.Pc>, order: seq<nat>, t: nat)
    requires Through(e, pcs, order) && t < |e.calls| && t !in order
    ensures pcs[t] == L.Idle && Through(e, pcs[t := L.Finished], order + [t])
  {
  }

  /** Any order is the order of acquisition of some schedule. */
  lemma {:induction false} RunsInTurn(e: L.Setup, files: map<string, string>, order: seq<nat>)
    requires Distinct(order) && Threads(e, order)
    ensures var r := L.Run(e, L.Start(e, files), InTurn(order));
            r.master == None && r.owner == map[] && r.entered == order && Through(e, r.pcs, order)
    decreases |order|
  {
    hide L.Run, L.Stored, L.Content, L.Key, Edits.Apply, Whole, Through;
    var s := L.Start(e, files);
    if order == [] {
      NoTurns(e, s);
      NoneThrough(e, files);
    } else {
      var n := |order| - 1;
      var first, t := order[..n], order[n];
      assert order == first + [t];
      assert forall u :: u in first ==> u in order;
      assert t in order && t !in first;
      RunsInTurn(e, files, first);
      var mid := L.Run(e, s, InTurn(first));
      OneMoreThrough(e, mid.pcs, first, t);
      RunOn(e, s, InTurn(first), Whole(t));
      WholeCall(e, mid, t);
    }
  }

  lemma NoneThrough(e: L.Setup, files: map<string, string>)
    ensures Through(e, L.Start(e, files).pcs, [])
  {
  }

  /** Every call once. */
  ghost predicate IsOrder(e: L.Setup, order: seq<nat>) {
    Distinct(order) && forall t: nat :: t in order <==> t < |e.calls|
  }

  ghost predicate SameOutcome(e: L.Setup, files: map<string, string>, p: seq<nat>, q: seq<nat>)
    requires IsOrder(e, p) && IsOrder(e, q)
  {
    && L.Serial(e, files, p) == L.Serial(e, files, q)
    && forall i, j :: 0 <= i < |p| && 0 <= j < |q| && p[i] == q[j] ==> SameReply(e, files, p, i, q, j)
  }

  ghost predicate SameReply(e: L.Setup, files: map<string, string>, p: seq<nat>, i: nat, q: seq<nat>, j: nat)
    requires IsOrder(e, p) && IsOrder(e, q) && i < |p| && j < |q|
  {
    assert p[i] in p && q[j] in q;
    L.SerialReply(e, files, p, i) == L.SerialReply(e, files, q, j)
  }

  /** The calls run one after another leave the same files and get the same replies in every order. */
  ghost predicate AllOrdersAgree(e: L.Setup, files: map<string, string>) {
    forall p, q :: IsOrder(e, p) && IsOrder(e, q) ==> SameOutcome(e, files, p, q)
  }

  ghost predicate SameEnd(e: L.Setup, s: L.State, r: L.State) {
    && s.files == r.files
    && forall t: nat :: t < |e.calls| ==> t in s.replies && t in r.replies && s.replies[t] == r.replies[t]
  }

  /** Under every schedule the calls leave the same files and get the same replies. */
  ghost predicate AllSchedulesAgree(e: L.Setup, files: map<string, string>) {
    forall a, b :: L.Over(L.Run(e, L.Start(e, files), a)) && L.Over(L.Run(e, L.Start(e, files), b)) ==>
      SameEnd(e, L.Run(e, L.Start(e, files), a), L.Run(e, L.Start(e, files), b))
  }

  /** What a schedule ends with is what its order of acquisition ends with. */
  lemma EndsAsOrder(e: L.Setup, files: map<string, string>, a: seq<nat>)
    requires L.Over(L.Run(e, L.Start(e, files), a))
    ensures var s := L.Run(e, L.Start(e, files), a);
            && IsOrder(e, s.entered) && s.files == L.Serial(e, files, s.entered)
            && forall i :: 0 <= i < |s.entered| ==> L.RepliedAt(e, files, s, s.entered, i)
  {
    hide L.Run, L.Start, L.Over, L.Serial, L.RepliedAt;
    L.EditsAreSerialisable(e, files, a);
  }

  lemma SameEndIff(e: L.Setup, files: map<string, string>, s: L.State, r: L.State)
    requires IsOrder(e, s.entered) && s.files == L.Serial(e, files, s.entered)
    requires IsOrder(e, r.entered) && r.files == L.Serial(e, files, r.entered)
    requires forall i :: 0 <= i < |s.entered| ==> L.RepliedAt(e, files, s, s.entered, i)
    requires forall i :: 0 <= i < |r.entered| ==> L.RepliedAt(e, files, r, r.entered, i)
    ensures SameEnd(e, s, r) <==> SameOutcome(e, files, s.entered, r.entered)
  {
    hide L.Serial, L.SerialReply, L.RepliedAt, SameReply;
    if SameOutcome(e, files, s.entered, r.entered) {
      forall t: nat | t < |e.calls| ensures t in s.replies && t in r.replies && s.replies[t] == r.replies[t] {
        assert t in s.entered && t in r.entered;
        var i :| 0 <= i < |s.entered| && s.entered[i] == t;
        var j :| 0 <= j < |r.entered| && r.entered[j] == t;
        ReplyMatches(e, files, s, r, i, j);
      }
    }
    if SameEnd(e, s, r) {
      forall i, j | 0 <= i < |s.entered| && 0 <= j < |r.entered| && s.entered[i] == r.entered[j]
        ensures SameReply(e, files, s.entered, i, r.entered, j)
      {
        ReplyMatches(e, files, s, r, i, j);
        assert s.entered[i] in s.entered;
      }
    }
  }

  lemma ReplyMatches(e: L.Setup, files: map<string, string>, s: L.State, r: L.State, i: nat, j: nat)
    requires IsOrder(e, s.entered) && IsOrder(e, r.entered) && i < |s.entered| && j < |r.entered|
    requires L.RepliedAt(e, files, s, s.entered, i) && L.RepliedAt(e, files, r, r.entered, j)
    requires s.entered[i] == r.entered[j]
    ensures var t := s.entered[i];
            && t in s.replies && t in r.replies
            && (SameReply(e, files, s.entered, i, r.entered, j) <==> s.replies[t] == r.replies[t])
  {
    hide L.SerialReply;
  }

  /** Any number of file calls in threads leave the same files and get the same replies under every
      schedule exactly when all orders of running them one after another do. */
  lemma AllSchedulesAgreeIff(e: L.Setup, files: map<string, string>)
    ensures AllSchedulesAgree(e, files) <==> AllOrdersAgree(e, files)
  {
    hide L.Run, L.Serial, L.RepliedAt, SameOutcome, SameEnd, IsOrder, L.Over;
    var start := L.Start(e, files);
    forall a, b | L.Over(L.Run(e, start, a)) && L.Over(L.Run(e, start, b)) && AllOrdersAgree(e, files)
      ensures SameEnd(e, L.Run(e, start, a), L.Run(e, start, b))
    {
      EndsAsOrder(e, files, a);
      EndsAsOrder(e, files, b);
      SameEndIff(e, files, L.Run(e, start, a), L.Run(e, start, b));
    }
    forall p, q | IsOrder(e, p) && IsOrder(e, q) && AllSchedulesAgree(e, files) ensures SameOutcome(e, files, p, q) {
      OrderIsScheduled(e, files, p);
      OrderIsScheduled(e, files, q);
      EndsAsOrder(e, files, InTurn(p));
      EndsAsOrder(e, files, InTurn(q));
      SameEndIff(e, files, L.Run(e, start, InTurn(p)), L.Run(e, start, InTurn(q)));
    }
  }

  lemma OrderIsScheduled(e: L.Setup, files: map<string, string>, order: seq<nat>)
    requires IsOrder(e, order)
    ensures var r := L.Run(e, L.Start(e, files), InTurn(order)); L.Over(r) && r.entered == order
  {
    hide L.Run, InTurn;
    RunsInTurn(e, files, order);
  }

  // ---- Two calls, and calls on different files ----

  lemma TwoOrders(order: seq<nat>)
    requires Distinct(order) && forall t: nat :: t in order <==> t < 2
    ensures order == [0, 1] || order == [1, 0]
  {
    assert 0 in order && 1 in order;
    var i :| 0 <= i < |order| && order[i] == 0;
    var j :| 0 <= j < |order| && order[j] == 1;
    if |order| > 2 {
      OneOfTwo(order, i, j, 0);
      OneOfTwo(order, i, j, 1);
      OneOfTwo(order, i, j, 2);
    }
  }

  lemma OneOfTwo(order: seq<nat>, i: nat, j: nat, k: nat)
    requires Distinct(order) && forall t: nat :: t in order ==> t < 2
    requires i < |order| && j < |order| && k < |order| && order[i] == 0 && order[j] == 1
    ensures k == i || k == j
  {
    assert order[k] in order;
  }

  lemma SerialOfTwo(e: L.Setup, files: map<string, string>, t: nat, u: nat)
    requires |e.calls| == 2 && t < 2 && u < 2
    ensures var first := L.Stored(files, L.Key(e, t), e.calls[t].op, L.Content(files, L.Key(e, t)));
            L.Serial(e, files, [t, u]) == L.Stored(first, L.Key(e, u), e.calls[u].op, L.Content(first, L.Key(e, u)))
  {
    hide L.Stored, L.Content, L.Key;
    var one, two, none: seq<nat> := [t], [t, u], [];
    assert two[..1] == one && one[..0] == none;
    assert L.Serial(e, files, none) == files;
    assert L.Serial(e, files, one) == L.Stored(files, L.Key(e, t), e.calls[t].op, L.Content(files, L.Key(e, t)));
  }

  lemma StoredContent(files: map<string, string>, key: string, op: FileOp, other: string)
    ensures L.Content(L.Stored(files, key, op, L.Content(files, key)), key) == Apply(op, L.Content(files, key)).0
    ensures other != key ==>
            L.Content(L.Stored(files, key, op, L.Content(files, key)), other) == L.Content(files, other)
  {
    hide Occurrences, Replaced;
  }

  lemma SameContents(a: map<string, string>, b: map<string, string>)
    ensures a == b <==> forall key :: L.Content(a, key) == L.Content(b, key)
  {
    if forall key :: L.Content(a, key) == L.Content(b, key) {
      forall key ensures key in a <==> key in b { assert L.Content(a, key) == L.Content(b, key); }
      forall key | key in a ensures a[key] == b[key] { assert L.Content(a, key) == L.Content(b, key); }
    }
  }

  /** What the second of two calls finds. */
  lemma SecondFinds(e: L.Setup, files: map<string, string>, t: nat, u: nat)
    requires |e.calls| == 2 && t < 2 && u < 2
    ensures var k, m := L.Key(e, t), L.Key(e, u);
            var first := L.Stored(files, k, e.calls[t].op, L.Content(files, k));
            && L.Content(first, m) ==
               (if k == m then Apply(e.calls[t].op, L.Content(files, k)).0 else L.Content(files, m))
            && L.SerialReply(e, files, [t, u], 0) == Apply(e.calls[t].op, L.Content(files, k)).1
            && L.SerialReply(e, files, [t, u], 1) == Apply(e.calls[u].op, L.Content(first, m)).1
  {
    hide L.Stored, L.Content, L.Key, Edits.Apply;
    var one, two, none: seq<nat> := [t], [t, u], [];
    assert two[..0] == none && two[..1] == one && one[..0] == none;
    assert L.Serial(e, files, none) == files;
    assert L.Serial(e, files, one) == L.Stored(files, L.Key(e, t), e.calls[t].op, L.Content(files, L.Key(e, t)));
    StoredContent(files, L.Key(e, t), e.calls[t].op, L.Key(e, u));
  }

  lemma SerialFilesAgreeIff(e: L.Setup, files: map<string, string>)
    requires |e.calls| == 2
    ensures L.Serial(e, files, [0, 1]) == L.Serial(e, files, [1, 0])
            <==> L.Key(e, 0) != L.Key(e, 1) || FilesAgree(e.calls[0].op, e.calls[1].op, L.Content(files, L.Key(e, 0)))
  {
    hide L.Serial, L.Stored, L.Content, L.Key, Edits.Apply;
    var k, m, a, b := L.Key(e, 0), L.Key(e, 1), e.calls[0].op, e.calls[1].op;
    SerialOfTwo(e, files, 0, 1);
    SerialOfTwo(e, files, 1, 0);
    var f, g := L.Stored(files, k, a, L.Content(files, k)), L.Stored(files, m, b, L.Content(files, m));
    var x, y := L.Serial(e, files, [0, 1]), L.Serial(e, files, [1, 0]);
    SameContents(x, y);
    forall key ensures key != k && key != m ==> L.Content(x, key) == L.Content(y, key) {
      StoredContent(files, k, a, key);
      StoredContent(files, m, b, key);
      StoredContent(f, m, b, key);
      StoredContent(g, k, a, key);
    }
    StoredContent(files, k, a, m);
    StoredContent(files, m, b, k);
    StoredContent(f, m, b, k);
    StoredContent(g, k, a, m);
  }

  lemma TwoOrdersAgreeIff(e: L.Setup, files: map<string, string>)
    requires |e.calls| == 2
    ensures AllOrdersAgree(e, files)
            <==> IsOrder(e, [0, 1]) && IsOrder(e, [1, 0]) && SameOutcome(e, files, [0, 1], [1, 0])
  {
    hide L.Serial, L.SerialReply;
    var p: seq<nat>, q: seq<nat> := [0, 1], [1, 0];
    assert IsOrder(e, p) && IsOrder(e, q);
    forall x, y | IsOrder(e, x) && IsOrder(e, y) && SameOutcome(e, files, p, q) ensures SameOutcome(e, files, x, y) {
      TwoOrders(x);
      TwoOrders(y);
      assert x == p || x == q;
      assert y == p || y == q;
      assert SameReply(e, files, p, 0, q, 1) && SameReply(e, files, p, 1, q, 0);
    }
  }

  /** Two file calls agree under every schedule exactly when they name different files or commute on
      the one they name. */
  lemma TwoCallsAgreeIff(e: L.Setup, files: map<string, string>)
    requires |e.calls| == 2
    ensures AllSchedulesAgree(e, files)
            <==> L.Key(e, 0) != L.Key(e, 1) || Commute(e.calls[0].op, e.calls[1].op, L.Content(files, L.Key(e, 0)))
  {
    hide AllSchedulesAgree, AllOrdersAgree, L.Serial, L.SerialReply, L.Stored, L.Content, L.Key, Edits.Apply,
      FilesAgree;
    AllSchedulesAgreeIff(e, files);
    TwoOrdersAgreeIff(e, files);
    SerialFilesAgreeIff(e, files);
    SecondFinds(e, files, 0, 1);
    SecondFinds(e, files, 1, 0);
    var p: seq<nat>, q: seq<nat> := [0, 1], [1, 0];
    assert IsOrder(e, p) && IsOrder(e, q);
    assert SameReply(e, files, p, 0, q, 1) <==> L.SerialReply(e, files, p, 0) == L.SerialReply(e, files, q, 1);
    assert SameReply(e, files, p, 1, q, 0) <==> L.SerialReply(e, files, p, 1) == L.SerialReply(e, files, q, 0);
    assert SameOutcome(e, files, p, q)
        <==> && L.Serial(e, files, p) == L.Serial(e, files, q)
             && SameReply(e, files, p, 0, q, 1) && SameReply(e, files, p, 1, q, 0);
  }

  // ---- Any number of writes, and of calls on different files ----

  lemma LastStored(e: L.Setup, files: map<string, string>, order: seq<nat>, key: string)
    requires order != [] && order[|order| - 1] < |e.calls|
    ensures var t := order[|order| - 1]; var before := L.Serial(e, files, order[..|order| - 1]);
            L.Content(L.Serial(e, files, order), key) ==
            if L.Key(e, t) == key then Apply(e.calls[t].op, L.Content(before, key)).0 else L.Content(before, key)
  {
    hide L.Content, L.Stored, L.Key, Edits.Apply;
    var t := order[|order| - 1];
    StoredContent(L.Serial(e, files, order[..|order| - 1]), L.Key(e, t), e.calls[t].op, key);
  }

  ghost predicate OneTextAFile(e: L.Setup) {
    forall t: nat, u: nat :: t < |e.calls| && u < |e.calls| && L.Key(e, t) == L.Key(e, u) ==>
      e.calls[t].op == e.calls[u].op
  }

  ghost predicate OnlyWrites(e: L.Setup) {
    forall t :: 0 <= t < |e.calls| ==> e.calls[t].op.Write?
  }

  lemma {:induction false} SerialWrites(e: L.Setup, files: map<string, string>, order: seq<nat>, key: string)
    requires OnlyWrites(e) && OneTextAFile(e) && Threads(e, order)
    ensures forall t :: t in order && L.Key(e, t) == key ==>
              L.Content(L.Serial(e, files, order), key) == Some(e.calls[t].op.content)
    ensures (forall t :: t in order ==> L.Key(e, t) != key) ==>
              L.Content(L.Serial(e, files, order), key) == L.Content(files, key)
    decreases |order|
  {
    hide L.Content, L.Serial, L.Key;
    if order == [] {
      NothingRun(e, files);
    } else {
      var n := |order| - 1;
      assert order == order[..n] + [order[n]];
      assert order[n] in order && forall t :: t in order[..n] ==> t in order;
      SerialWrites(e, files, order[..n], key);
      LastStored(e, files, order, key);
    }
  }

  lemma NothingRun(e: L.Setup, files: map<string, string>)
    ensures L.Serial(e, files, []) == files
  {
  }

  lemma WritesReply(e: L.Setup, files: map<string, string>, p: seq<nat>, i: nat, q: seq<nat>, j: nat)
    requires OnlyWrites(e) && IsOrder(e, p) && IsOrder(e, q) && i < |p| && j < |q| && p[i] == q[j]
    ensures SameReply(e, files, p, i, q, j)
  {
    hide L.Serial, L.Content;
    assert p[i] in p;
  }

  /** Thread `t` after all others. */
  function LastOf(n: nat, t: nat): seq<nat>
    requires t < n
  {
    seq(n, i => if i < t then i else if i < n - 1 then i + 1 else t)
  }

  lemma LastOfIsOrder(e: L.Setup, t: nat)
    requires t < |e.calls|
    ensures var order := LastOf(|e.calls|, t); IsOrder(e, order) && order != [] && order[|order| - 1] == t
  {
    var n, order := |e.calls|, LastOf(|e.calls|, t);
    forall u: nat | u < n ensures u in order {
      var i := if u < t then u else if u == t then n - 1 else u - 1;
      assert order[i] == u;
    }
  }

  /** A group of writes agrees under every schedule exactly when writes of one file write the same text. */
  lemma WritesAgreeIff(e: L.Setup, files: map<string, string>)
    requires OnlyWrites(e)
    ensures AllSchedulesAgree(e, files) <==> OneTextAFile(e)
  {
    hide AllSchedulesAgree, L.Serial, L.SerialReply, L.Content, L.Key, LastOf, IsOrder, SameReply;
    AllSchedulesAgreeIff(e, files);
    if OneTextAFile(e) {
      forall p, q | IsOrder(e, p) && IsOrder(e, q) ensures SameOutcome(e, files, p, q) {
        SameWrites(e, files, p, q);
      }
    } else {
      var t: nat, u: nat :|
        t < |e.calls| && u < |e.calls| && L.Key(e, t) == L.Key(e, u) && e.calls[t].op != e.calls[u].op;
      LastOfIsOrder(e, t);
      LastOfIsOrder(e, u);
      var p, q := LastOf(|e.calls|, t), LastOf(|e.calls|, u);
      LastStored(e, files, p, L.Key(e, t));
      LastStored(e, files, q, L.Key(e, t));
      assert !SameOutcome(e, files, p, q);
    }
  }

  lemma SameWrites(e: L.Setup, files: map<string, string>, p: seq<nat>, q: seq<nat>)
    requires OnlyWrites(e) && OneTextAFile(e) && IsOrder(e, p) && IsOrder(e, q)
    ensures SameOutcome(e, files, p, q)
  {
    hide L.Serial, L.SerialReply, L.Content, L.Key, SameReply, OneTextAFile, OnlyWrites;
    forall i, j | 0 <= i < |p| && 0 <= j < |q| && p[i] == q[j] ensures SameReply(e, files, p, i, q, j) {
      WritesReply(e, files, p, i, q, j);
    }
    forall key ensures L.Content(L.Serial(e, files, p), key) == L.Content(L.Serial(e, files, q), key) {
      SerialWrites(e, files, p, key);
      SerialWrites(e, files, q, key);
      if t: nat :| t < |e.calls| && L.Key(e, t) == key {
        assert t in p && t in q;
      }
    }
    SameContents(L.Serial(e, files, p), L.Serial(e, files, q));
  }

  ghost predicate DifferentFiles(e: L.Setup) {
    forall t: nat, u: nat :: t < |e.calls| && u < |e.calls| && L.Key(e, t) == L.Key(e, u) ==> t == u
  }

  lemma {:induction false} SerialApart(e: L.Setup, files: map<string, string>, order: seq<nat>, key: string)
    requires DifferentFiles(e) && Threads(e, order) && Distinct(order)
    ensures forall t :: t in order && L.Key(e, t) == key ==>
              L.Content(L.Serial(e, files, order), key) == Apply(e.calls[t].op, L.Content(files, key)).0
    ensures (forall t :: t in order ==> L.Key(e, t) != key) ==>
              L.Content(L.Serial(e, files, order), key) == L.Content(files, key)
    decreases |order|
  {
    hide L.Content, L.Serial, L.Key, Edits.Apply;
    if order == [] {
      NothingRun(e, files);
    } else {
      var n := |order| - 1;
      assert order == order[..n] + [order[n]];
      assert order[n] in order && order[n] !in order[..n] && forall t :: t in order[..n] ==> t in order;
      SerialApart(e, files, order[..n], key);
      LastStored(e, files, order, key);
    }
  }

  lemma ApartReply(e: L.Setup, files: map<string, string>, order: seq<nat>, i: nat)
    requires DifferentFiles(e) && IsOrder(e, order) && i < |order| && order[i] < |e.calls|
    ensures L.SerialReply(e, files, order, i) ==
            Apply(e.calls[order[i]].op, L.Content(files, L.Key(e, order[i]))).1
  {
    hide L.Content, L.Serial, L.Key, Edits.Apply;
    var before := order[..i];
    forall t | t in before ensures L.Key(e, t) != L.Key(e, order[i]) && t < |e.calls| {
      assert t in order;
    }
    SerialApart(e, files, before, L.Key(e, order[i]));
  }

  /** Calls on different files agree under every schedule. */
  lemma DifferentFilesAgree(e: L.Setup, files: map<string, string>)
    requires DifferentFiles(e)
    ensures AllSchedulesAgree(e, files)
  {
    hide AllSchedulesAgree, L.Serial, L.SerialReply, L.Content, L.Key, DifferentFiles, Edits.Apply;
    AllSchedulesAgreeIff(e, files);
    forall p, q | IsOrder(e, p) && IsOrder(e, q) ensures SameOutcome(e, files, p, q) {
      forall i, j | 0 <= i < |p| && 0 <= j < |q| && p[i] == q[j] ensures SameReply(e, files, p, i, q, j) {
        assert p[i] in p;
        ApartReply(e, files, p, i);
        ApartReply(e, files, q, j);
      }
      forall key ensures L.Content(L.Serial(e, files, p), key) == L.Content(L.Serial(e, files, q), key) {
        SerialApart(e, files, p, key);
        SerialApart(e, files, q, key);
        if t: nat :| t < |e.calls| && L.Key(e, t) == key {
          assert t in p && t in q;
        }
      }
      SameContents(L.Serial(e, files, p), L.Serial(e, files, q));
    }
  }

  // ---- In a concurrent group of a batch ----

  datatype FileCall = FileCall(tool: string, path: string, op: FileOp, reply: Option<Reply>)

  /** The text a file tool returns. */
  function Told(path: string, reply: Reply): string {
    match reply
    case Wrote(n) => "Wrote " + Decimal(n) + " characters to " + path
    case Unreadable => "Error: "
    case Stale => "StaleContentError: old_string not found in " + path
    case Ambiguous(n) => "Error: old_string appears " + Decimal(n) + " times in " + path
                         + "; set replace_all=true to replace all occurrences"
    case Edited(n) => "Edited " + path + ": replaced " + Decimal(n) + " occurrence(s)"
  }

  /** The file tools: under its path's lock a call is a single step. */
  function FileTools(paths: B.Action -> string, ops: B.Action -> FileOp): B.Bodies<map<string, string>, FileCall> {
    B.Bodies((a: B.Action) => FileCall(a.name, paths(a), ops(a), None),
             (files: map<string, string>, l: FileCall) =>
               if l.reply.Some? then (files, l)
               else
                 (L.Stored(files, l.path, l.op, L.Content(files, l.path)),
                  l.(reply := Some(Apply(l.op, L.Content(files, l.path)).1))),
             (l: FileCall) => if l.reply.None? then 1 else 0,
             (l: FileCall) => B.Value(if l.reply.Some? then Told(l.path, l.reply.value) else ""),
             (l: FileCall) => l.tool)
  }

  lemma FileToolsSound(paths: B.Action -> string, ops: B.Action -> FileOp)
    ensures B.Sound(FileTools(paths, ops))
  {
    hide L.Stored, L.Content, Edits.Apply;
  }

  /** The second thread may go first. Then files and calls end as left-to-right exactly when the two
      calls of one file commute on it. */
  lemma SecondFirstIff(
    paths: B.Action -> string, ops: B.Action -> FileOp, files: map<string, string>, a: B.Action, c: B.Action)
    requires paths(a) == paths(c) && B.Sound(FileTools(paths, ops))
    ensures var b := FileTools(paths, ops); var ls := B.Starts(b, [a, c]);
            && B.Legal(b, files, ls, [1, 0]) && B.AllDone(b, B.Run(b, files, ls, [1, 0]).1)
            && (B.Run(b, files, ls, [1, 0]) == B.LeftToRight(b, files, ls)
                <==> Commute(ops(a), ops(c), L.Content(files, paths(a))))
  {
    hide L.Stored, L.Content, Edits.Apply, Told, FilesAgree;
    var b := FileTools(paths, ops);
    var ls, path, f := B.Starts(b, [a, c]), paths(a), L.Content(files, paths(a));
    var x, y := L.Stored(files, path, ops(a), f), L.Stored(files, path, ops(c), f);
    assert ls == [FileCall(a.name, path, ops(a), None), FileCall(c.name, path, ops(c), None)];
    SwappedRun(b, files, ls);
    PlainRun(b, files, ls);
    StoredContent(files, path, ops(a), path);
    StoredContent(files, path, ops(c), path);
    StoredTwiceAgreeIff(files, path, ops(a), ops(c));
  }

  lemma StoredTwiceAgreeIff(files: map<string, string>, path: string, p: FileOp, q: FileOp)
    ensures var f := L.Content(files, path);
            var x, y := L.Stored(files, path, p, f), L.Stored(files, path, q, f);
            L.Stored(x, path, q, L.Content(x, path)) == L.Stored(y, path, p, L.Content(y, path))
            <==> FilesAgree(p, q, f)
  {
    hide L.Stored, L.Content, Edits.Apply;
    var f := L.Content(files, path);
    var x, y := L.Stored(files, path, p, f), L.Stored(files, path, q, f);
    var xy, yx := L.Stored(x, path, q, L.Content(x, path)), L.Stored(y, path, p, L.Content(y, path));
    StoredContent(files, path, p, path);
    StoredContent(files, path, q, path);
    StoredContent(x, path, q, path);
    StoredContent(y, path, p, path);
    SameContents(xy, yx);
    forall key ensures key != path ==> L.Content(xy, key) == L.Content(yx, key) {
      StoredContent(files, path, p, key);
      StoredContent(files, path, q, key);
      StoredContent(x, path, q, key);
      StoredContent(y, path, p, key);
    }
  }

  lemma SwappedRun(b: B.Bodies<map<string, string>, FileCall>, files: map<string, string>, ls: seq<FileCall>)
    requires |ls| == 2 && b.left(ls[0]) > 0 && b.left(ls[1]) > 0
    ensures B.Legal(b, files, ls, [1, 0])
    ensures var (y, m) := b.step(files, ls[1]); var (yx, l) := b.step(y, ls[0]);
            B.Run(b, files, ls, [1, 0]) == (yx, [l, m])
  {
    var none, one, two: seq<nat> := [], [0], [1, 0];
    assert one[1..] == none && two[1..] == one;
    var (y, m) := b.step(files, ls[1]);
    var after := ls[1 := m];
    var (yx, l) := b.step(y, after[0]);
    assert after[0 := l] == [l, m];
    assert B.Legal(b, yx, after[0 := l], none) && B.Run(b, yx, after[0 := l], none) == (yx, [l, m]);
    assert B.Legal(b, y, after, one) && B.Run(b, y, after, one) == (yx, [l, m]);
  }

  lemma PlainRun(b: B.Bodies<map<string, string>, FileCall>, files: map<string, string>, ls: seq<FileCall>)
    requires B.Sound(b) && |ls| == 2 && b.left(ls[0]) == 1 && b.left(ls[1]) == 1
    ensures var (x, l) := b.step(files, ls[0]); var (xy, m) := b.step(x, ls[1]);
            B.LeftToRight(b, files, ls) == (xy, [l, m])
  {
    var (x, l) := b.step(files, ls[0]);
    var (xy, m) := b.step(x, ls[1]);
    assert (x, l) == b.step(files, ls[0]) && (xy, m) == b.step(x, ls[1]);
    OneStep(b, files, ls[0]);
    OneStep(b, x, ls[1]);
    hide B.RunAlone;
    var tail := ls[1..];
    var none: seq<FileCall> := [];
    assert tail[1..] == none && B.LeftToRight(b, xy, none) == (xy, none);
    assert [m] + none == [m] && B.LeftToRight(b, x, tail) == (xy, [m]);
    assert [l] + [m] == [l, m];
  }

  lemma OneStep(b: B.Bodies<map<string, string>, FileCall>, files: map<string, string>, l: FileCall)
    requires B.Sound(b) && b.left(l) == 1
    ensures B.RunAlone(b, files, l) == b.step(files, l)
  {
    var (x, m) := b.step(files, l);
    assert (x, m) == b.step(files, l);
    assert b.left(m) == 0;
    assert B.RunAlone(b, x, m) == (x, m);
  }

  /** Two actions that write different texts to one file: their threads need not end as left-to-right,
      so declared safe, as `write_file` is, they do not keep what the flag promises. */
  lemma WriteFileIsNotSafe(
    paths: B.Action -> string, ops: B.Action -> FileOp, files: map<string, string>, a: B.Action, c: B.Action,
    x: string, y: string)
    requires paths(a) == paths(c) && ops(a) == Write(x) && ops(c) == Write(y) && x != y
    ensures var b := FileTools(paths, ops); var ls := B.Starts(b, [a, c]);
            && B.Sound(b) && B.Legal(b, files, ls, [1, 0]) && B.AllDone(b, B.Run(b, files, ls, [1, 0]).1)
            && B.Run(b, files, ls, [1, 0]) != B.LeftToRight(b, files, ls)
            && forall reg :: B.Safe(reg, a.name) && B.Safe(reg, c.name) ==> !B.SafeToolsCommute(b, reg, [a, c])
  {
    hide B.SafeToolsCommute, B.Safe, B.Run, B.LeftToRight, L.Content, B.Reachable, B.AllDone, B.Legal, B.Sound;
    var b := FileTools(paths, ops);
    var ls := B.Starts(b, [a, c]);
    FileToolsSound(paths, ops);
    SecondFirstIff(paths, ops, files, a, c);
    TwoWritesCommuteIff(x, y, L.Content(files, paths(a)));
    forall reg | B.Safe(reg, a.name) && B.Safe(reg, c.name) ensures !B.SafeToolsCommute(b, reg, [a, c]) {
      B.StartIsReachable(b, [a, c], a);
      B.StartIsReachable(b, [a, c], c);
      assert B.AllSafe(b, reg, [a, c], ls);
      if B.SafeToolsCommute(b, reg, [a, c]) {
        B.EveryScheduleAgrees(b, reg, [a, c], files, ls, [1, 0]);
      }
    }
  }
}
