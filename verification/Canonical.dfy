/** The canonical form of call arguments: deep key sort, then print. Two values have the same form
    exactly when they are equal up to key order at every depth. */
module Canonical {
  import opened Json

  // ---- Key order: code points, left to right ----

  predicate KeyLess(a: string, b: string) {
    if b == "" then false
    else if a == "" then true
    else Code(a[0]) < Code(b[0]) || (a[0] == b[0] && KeyLess(a[1..], b[1..]))
  }

  lemma {:induction false} KeyLessTotal(a: string, b: string)
    ensures a == b || KeyLess(a, b) || KeyLess(b, a)
    ensures !(KeyLess(a, b) && KeyLess(b, a)) && (a == b ==> !KeyLess(a, b))
  {
    if a != "" && b != "" {
      KeyLessTotal(a[1..], b[1..]);
      if Code(a[0]) == Code(b[0]) { assert a[0] == b[0]; }
      if a[0] == b[0] && a[1..] == b[1..] { assert a == [a[0]] + a[1..] && b == [b[0]] + b[1..]; }
    }
  }

  lemma {:induction false} KeyLessTrans(a: string, b: string, c: string)
    requires KeyLess(a, b) && KeyLess(b, c)
    ensures KeyLess(a, c)
  {
    if a != "" && a[0] == b[0] && b[0] == c[0] {
      KeyLessTrans(a[1..], b[1..], c[1..]);
    }
  }

  /** The two agree up to `k`, and there `a` ends or holds the smaller character. */
  ghost predicate DecidedAt(a: string, b: string, k: nat) {
    k <= |a| && k < |b| && a[..k] == b[..k] && (k < |a| ==> a[k] < b[k])
  }

  lemma SameStart(a: string, b: string)
    ensures forall k: nat :: 0 < k <= |a| && k <= |b| && a[..k] == b[..k] ==> a[0] == b[0]
  {
    forall k: nat | 0 < k <= |a| && k <= |b| && a[..k] == b[..k] ensures a[0] == b[0] {
      assert a[..k][0] == a[0] && b[..k][0] == b[0];
    }
  }

  /** Keys are ordered as Python orders strings: a proper prefix first, else by the first character that differs. */
  lemma {:induction false} KeyLessMeans(a: string, b: string)
    ensures KeyLess(a, b) <==> exists k: nat :: DecidedAt(a, b, k)
  {
    if b == "" {
    } else if a == "" {
      assert DecidedAt(a, b, 0);
    } else if a[0] == b[0] {
      KeyLessMeans(a[1..], b[1..]);
      forall k: nat ensures DecidedAt(a[1..], b[1..], k) <==> DecidedAt(a, b, k + 1) {
        if k < |a| && k + 1 < |b| {
          assert a[..k + 1] == [a[0]] + a[1..][..k] && b[..k + 1] == [b[0]] + b[1..][..k];
        }
      }
      if k: nat :| DecidedAt(a[1..], b[1..], k) { assert DecidedAt(a, b, k + 1); }
      if k: nat :| DecidedAt(a, b, k) { assert DecidedAt(a[1..], b[1..], k - 1); }
    } else {
      SameStart(a, b);
      assert a[0] < b[0] ==> DecidedAt(a, b, 0);
    }
  }

  // ---- Sorting ----

  function Insert(m: Member, ms: seq<Member>): seq<Member> {
    if ms == [] || KeyLess(m.key, ms[0].key) then [m] + ms else [ms[0]] + Insert(m, ms[1..])
  }

  function SortValue(v: Json): Json
    decreases v, 1
  {
    match v
    case Arr(items) => Arr(SortItems(items))
    case Obj(members) => Obj(SortMembers(members))
    case _ => v
  }

  function SortItems(items: seq<Json>): seq<Json>
    decreases items, 0
  {
    if items == [] then [] else [SortValue(items[0])] + SortItems(items[1..])
  }

  function SortMembers(members: seq<Member>): seq<Member>
    decreases members, 0
  {
    if members == [] then []
    else Insert(SortMember(members[0]), SortMembers(members[1..]))
  }

  function SortMember(m: Member): Member
    decreases m, 2
  {
    Member(m.key, SortValue(m.value))
  }

  function Canonicalize(v: Json): string {
    Print(SortValue(v), true)
  }

  // ---- The reference notion of equality ----

  /** A Python dict holds each key once. */
  predicate DistinctKeys(v: Json)
    decreases v
  {
    match v
    case Arr(items) => forall i :: 0 <= i < |items| ==> DistinctKeys(items[i])
    case Obj(members) =>
      && (forall i :: 0 <= i < |members| ==> DistinctKeys(members[i].value))
      && (forall i, j :: 0 <= i < j < |members| ==> members[i].key != members[j].key)
    case _ => true
  }

  predicate Valid(v: Json) {
    Lexical(v) && DistinctKeys(v)
  }

  /** Equal, but for the order of keys at any depth. */
  ghost predicate Same(a: Json, b: Json)
    decreases a, 0
  {
    match a
    case Arr(items) =>
      b.Arr? && |items| == |b.items| && forall i :: 0 <= i < |items| ==> Same(items[i], b.items[i])
    case Obj(ms) =>
      && b.Obj?
      && (forall i {:trigger HasMatch(ms[i], b.members)} :: 0 <= i < |ms| ==> HasMatch(ms[i], b.members))
      && (forall j {:trigger IsMatched(ms, b.members[j])} :: 0 <= j < |b.members| ==> IsMatched(ms, b.members[j]))
    case _ => a == b
  }

  ghost predicate SameMember(m: Member, n: Member)
    decreases m, 1
  {
    m.key == n.key && Same(m.value, n.value)
  }

  ghost predicate HasMatch(m: Member, ns: seq<Member>)
    decreases m, 2
  {
    exists j :: 0 <= j < |ns| && SameMember(m, ns[j])
  }

  ghost predicate IsMatched(ms: seq<Member>, n: Member)
    decreases ms, 3
  {
    exists i :: 0 <= i < |ms| && SameMember(ms[i], n)
  }

  // ---- Sorted members ----

  ghost predicate Ascending(ms: seq<Member>) {
    forall i, j :: 0 <= i < j < |ms| ==> KeyLess(ms[i].key, ms[j].key)
  }

  lemma {:induction false} InsertMembers(m: Member, ms: seq<Member>)
    ensures forall x :: x in Insert(m, ms) <==> x == m || x in ms
  {
    if ms != [] {
      InsertMembers(m, ms[1..]);
      assert ms == [ms[0]] + ms[1..];
    }
  }

  lemma {:induction false} InsertAscending(m: Member, ms: seq<Member>)
    requires Ascending(ms) && forall x :: x in ms ==> x.key != m.key
    ensures Ascending(Insert(m, ms))
  {
    if ms == [] {
    } else if KeyLess(m.key, ms[0].key) {
      forall j | 0 <= j < |ms| ensures KeyLess(m.key, ms[j].key) {
        if j > 0 { KeyLessTrans(m.key, ms[0].key, ms[j].key); }
      }
    } else {
      KeyLessTotal(m.key, ms[0].key);
      assert ms[0] in ms;
      InsertAscending(m, ms[1..]);
      InsertMembers(m, ms[1..]);
      var rest := Insert(m, ms[1..]);
      forall j | 0 <= j < |rest| ensures KeyLess(ms[0].key, rest[j].key) {
        assert rest[j] in rest;
        if rest[j] != m {
          var k :| 0 <= k < |ms[1..]| && ms[1..][k] == rest[j];
          assert ms[k + 1] == rest[j];
        }
      }
    }
  }

  lemma {:induction false} SortedHas(ms: seq<Member>, i: nat)
    requires i < |ms|
    ensures SortMember(ms[i]) in SortMembers(ms)
  {
    hide SortMember;
    InsertMembers(SortMember(ms[0]), SortMembers(ms[1..]));
    if i > 0 {
      SortedHas(ms[1..], i - 1);
    }
  }

  lemma {:induction false} SortedOrigin(ms: seq<Member>, x: Member) returns (i: nat)
    requires x in SortMembers(ms)
    ensures i < |ms| && x == SortMember(ms[i])
  {
    hide SortMember;
    InsertMembers(SortMember(ms[0]), SortMembers(ms[1..]));
    if x == SortMember(ms[0]) {
      i := 0;
    } else {
      var k := SortedOrigin(ms[1..], x);
      i := k + 1;
    }
  }

  lemma {:induction false} SortedAscending(ms: seq<Member>)
    requires forall i, j :: 0 <= i < j < |ms| ==> ms[i].key != ms[j].key
    ensures Ascending(SortMembers(ms))
  {
    hide SortValue, Ascending;
    if ms == [] {
      NothingAscending();
    } else {
      SortedAscending(ms[1..]);
      forall x | x in SortMembers(ms[1..]) ensures x.key != ms[0].key {
        var k := SortedOrigin(ms[1..], x);
        assert ms[k + 1].key != ms[0].key;
      }
      InsertAscending(SortMember(ms[0]), SortMembers(ms[1..]));
    }
  }

  lemma NothingAscending()
    ensures Ascending([])
  {
  }

  lemma {:induction false} SortItemsShape(items: seq<Json>)
    ensures |SortItems(items)| == |items|
    ensures forall i :: 0 <= i < |items| ==> SortItems(items)[i] == SortValue(items[i])
  {
    hide SortValue;
    if items != [] {
      SortItemsShape(items[1..]);
    }
  }

  lemma {:induction false} SortKeepsLexical(v: Json)
    requires Lexical(v)
    ensures Lexical(SortValue(v))
    decreases v
  {
    match v
    case Arr(items) =>
      SortItemsShape(items);
      forall i | 0 <= i < |items| ensures Lexical(SortValue(items[i])) { SortKeepsLexical(items[i]); }
    case Obj(ms) =>
      var sorted := SortMembers(ms);
      forall k | 0 <= k < |sorted| ensures Lexical(sorted[k].value) {
        assert sorted[k] in sorted;
        var i := SortedOrigin(ms, sorted[k]);
        SortKeepsLexical(ms[i].value);
      }
    case _ =>
  }

  lemma {:induction false} AscendingUnique(a: seq<Member>, b: seq<Member>)
    requires Ascending(a) && Ascending(b)
    requires forall x :: x in a <==> x in b
    ensures a == b
  {
    if b != [] { assert b[0] in b; }
    if a != [] {
      assert a[0] in b;
      LeastFirst(a, b);
      forall x ensures x in a[1..] <==> x in b[1..] { TailMember(a, x); TailMember(b, x); }
      AscendingUnique(a[1..], b[1..]);
      assert a == [a[0]] + a[1..] && b == [b[0]] + b[1..];
    }
  }

  lemma LeastFirst(a: seq<Member>, b: seq<Member>)
    requires Ascending(a) && Ascending(b) && a != [] && b != []
    requires a[0] in b && b[0] in a
    ensures a[0] == b[0]
  {
    var i :| 0 <= i < |a| && a[i] == b[0];
    var j :| 0 <= j < |b| && b[j] == a[0];
    KeyLessTotal(a[0].key, b[0].key);
  }

  lemma TailMember(a: seq<Member>, x: Member)
    requires a != [] && Ascending(a)
    ensures x in a[1..] <==> x in a && x != a[0]
  {
    KeyLessTotal(a[0].key, a[0].key);
    assert a == [a[0]] + a[1..];
    if x in a[1..] {
      var k :| 0 <= k < |a[1..]| && a[1..][k] == x;
      assert a[k + 1] == x;
    }
  }

  // ---- The two directions ----

  lemma {:induction false} SameSortsAlike(a: Json, b: Json)
    requires DistinctKeys(a) && DistinctKeys(b) && Same(a, b)
    ensures SortValue(a) == SortValue(b)
    decreases a
  {
    match a
    case Arr(items) =>
      SortItemsShape(items);
      SortItemsShape(b.items);
      forall i | 0 <= i < |items| ensures SortValue(items[i]) == SortValue(b.items[i]) {
        SameSortsAlike(items[i], b.items[i]);
      }
    case Obj(ms) =>
      var ns := b.members;
      forall i, j | 0 <= i < |ms| && 0 <= j < |ns| && SameMember(ms[i], ns[j])
        ensures SortMember(ms[i]) == SortMember(ns[j])
      {
        SameSortsAlike(ms[i].value, ns[j].value);
      }
      SortedMembersAgree(ms, ns);
    case _ =>
  }

  lemma SortedMembersAgree(a: seq<Member>, b: seq<Member>)
    requires DistinctKeys(Obj(a)) && DistinctKeys(Obj(b)) && Same(Obj(a), Obj(b))
    requires forall i, j :: 0 <= i < |a| && 0 <= j < |b| && SameMember(a[i], b[j]) ==>
             SortMember(a[i]) == SortMember(b[j])
    ensures SortMembers(a) == SortMembers(b)
  {
    hide SortMembers, SortMember, SameMember, Ascending;
    forall x ensures x in SortMembers(a) <==> x in SortMembers(b) {
      if x in SortMembers(a) {
        var i := SortedOrigin(a, x);
        assert HasMatch(a[i], b);
        var j :| 0 <= j < |b| && SameMember(a[i], b[j]);
        SortedHas(b, j);
      }
      if x in SortMembers(b) {
        var j := SortedOrigin(b, x);
        assert IsMatched(a, b[j]);
        var i :| 0 <= i < |a| && SameMember(a[i], b[j]);
        SortedHas(a, i);
      }
    }
    SortedAscending(a);
    SortedAscending(b);
    AscendingUnique(SortMembers(a), SortMembers(b));
  }

  lemma {:induction false} SortedAlikeSame(a: Json, b: Json)
    requires SortValue(a) == SortValue(b)
    ensures Same(a, b)
    decreases a
  {
    match a
    case Arr(items) =>
      SortItemsShape(items);
      SortItemsShape(b.items);
      assert |items| == |b.items|;
      forall i | 0 <= i < |items| ensures Same(items[i], b.items[i]) {
        assert SortValue(items[i]) == SortItems(items)[i] == SortItems(b.items)[i];
        SortedAlikeSame(items[i], b.items[i]);
      }
    case Obj(ms) =>
      var ns := b.members;
      assert SortMembers(ms) == SortMembers(ns);
      forall i, j | 0 <= i < |ms| && 0 <= j < |ns| && SortMember(ms[i]) == SortMember(ns[j])
        ensures SameMember(ms[i], ns[j])
      {
        SortedAlikeSame(ms[i].value, ns[j].value);
      }
      MembersAgree(ms, ns);
    case _ =>
  }

  lemma MembersAgree(a: seq<Member>, b: seq<Member>)
    requires SortMembers(a) == SortMembers(b)
    requires forall i, j :: 0 <= i < |a| && 0 <= j < |b| && SortMember(a[i]) == SortMember(b[j]) ==>
             SameMember(a[i], b[j])
    ensures Same(Obj(a), Obj(b))
  {
    hide SortMembers, SortMember, SameMember, HasMatch, IsMatched;
    forall i | 0 <= i < |a| ensures HasMatch(a[i], b) { MatchFor(a, b, i); }
    forall j | 0 <= j < |b| ensures IsMatched(a, b[j]) { MatchOf(a, b, j); }
  }

  lemma MatchFor(a: seq<Member>, b: seq<Member>, i: nat)
    requires SortMembers(a) == SortMembers(b) && i < |a|
    requires forall i, j :: 0 <= i < |a| && 0 <= j < |b| && SortMember(a[i]) == SortMember(b[j]) ==>
             SameMember(a[i], b[j])
    ensures HasMatch(a[i], b)
  {
    hide SortMembers, SortMember, SameMember;
    SortedHas(a, i);
    var j := SortedOrigin(b, SortMember(a[i]));
  }

  lemma MatchOf(a: seq<Member>, b: seq<Member>, j: nat)
    requires SortMembers(a) == SortMembers(b) && j < |b|
    requires forall i, j :: 0 <= i < |a| && 0 <= j < |b| && SortMember(a[i]) == SortMember(b[j]) ==>
             SameMember(a[i], b[j])
    ensures IsMatched(a, b[j])
  {
    hide SortMembers, SortMember, SameMember;
    SortedHas(b, j);
    var i := SortedOrigin(a, SortMember(b[j]));
  }

  /** The canonical text decides equality up to key order, exactly. */
  lemma CanonicalExact(a: Json, b: Json)
    requires Valid(a) && Valid(b)
    ensures Canonicalize(a) == Canonicalize(b) <==> Same(a, b)
  {
    if Same(a, b) {
      SameSortsAlike(a, b);
    }
    if Canonicalize(a) == Canonicalize(b) {
      SortKeepsLexical(a);
      SortKeepsLexical(b);
      PrintInjective(SortValue(a), SortValue(b), true);
      SortedAlikeSame(a, b);
    }
  }
}
