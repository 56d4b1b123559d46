/** Stratified sampling: tasks are dealt from per-stratum pools in round-robin order. */
module Sampling {
  import opened Canonical
  import opened Lists
  import opened Text

  datatype Task = Task(id: string)

  /** Workflow and persona, both read off the task's id. */
  datatype Stratum = Stratum(workflow: string, persona: string)

  type Strata = Task -> Stratum

  /** The random generator: what its draw number `d` gives, reduced to the size of the pool. */
  type Rng = nat -> nat

  datatype Sample = Picked(tasks: seq<Task>) | DivisionByZero

  predicate Before(a: Stratum, b: Stratum) {
    KeyLess(a.workflow, b.workflow) || (a.workflow == b.workflow && KeyLess(a.persona, b.persona))
  }

  predicate Sorted(keys: seq<Stratum>) {
    forall i, j :: 0 <= i < j < |keys| ==> Before(keys[i], keys[j])
  }

  function InsertKey(key: Stratum, keys: seq<Stratum>): seq<Stratum> {
    if keys == [] || Before(key, keys[0]) then [key] + keys else [keys[0]] + InsertKey(key, keys[1..])
  }

  lemma BeforeTotal(a: Stratum, b: Stratum)
    ensures a == b || Before(a, b) || Before(b, a)
    ensures !(Before(a, b) && Before(b, a)) && (a == b ==> !Before(a, b))
  {
    hide KeyLess;
    KeyLessTotal(a.workflow, b.workflow);
    KeyLessTotal(a.persona, b.persona);
  }

  lemma BeforeTrans(a: Stratum, b: Stratum, c: Stratum)
    requires Before(a, b) && Before(b, c)
    ensures Before(a, c)
  {
    hide KeyLess;
    if a.workflow != b.workflow && b.workflow != c.workflow {
      KeyLessTrans(a.workflow, b.workflow, c.workflow);
    } else if a.workflow == b.workflow == c.workflow {
      KeyLessTotal(a.workflow, b.workflow);
      KeyLessTotal(b.workflow, c.workflow);
      KeyLessTrans(a.persona, b.persona, c.persona);
    }
  }

  lemma {:induction false} InsertKeySorted(key: Stratum, keys: seq<Stratum>)
    requires Sorted(keys) && key !in keys
    ensures Sorted(InsertKey(key, keys))
    ensures forall k :: k in InsertKey(key, keys) <==> k == key || k in keys
  {
    hide Before;
    if keys == [] {
      assert InsertKey(key, keys) == [key];
    } else {
      BeforeTotal(key, keys[0]);
      if Before(key, keys[0]) {
        forall j | 0 <= j < |keys| ensures Before(key, keys[j]) {
          if j > 0 { BeforeTrans(key, keys[0], keys[j]); }
        }
      } else {
        var rest := InsertKey(key, keys[1..]);
        assert keys == [keys[0]] + keys[1..];
        InsertKeySorted(key, keys[1..]);
        forall j | 0 <= j < |rest| ensures Before(keys[0], rest[j]) {
          assert rest[j] in rest;
          if rest[j] != key {
            var i :| 0 <= i < |keys[1..]| && keys[1..][i] == rest[j];
            assert keys[i + 1] == rest[j];
          }
        }
      }
    }
  }

  lemma SortedDistinct(keys: seq<Stratum>)
    requires Sorted(keys)
    ensures Distinct(keys)
  {
    hide Before;
    forall i, j | 0 <= i < j < |keys| ensures keys[i] != keys[j] { BeforeTotal(keys[i], keys[j]); }
  }

  // ---- What is eligible ----

  function NotIn(exclude: set<string>): Task -> bool {
    (t: Task) => t.id !in exclude
  }

  function Eligible(tasks: seq<Task>, exclude: set<string>): seq<Task> {
    Filter(tasks, NotIn(exclude))
  }

  function InStratum(strata: Strata, key: Stratum): Task -> bool {
    (t: Task) => strata(t) == key
  }

  function Of(s: seq<Task>, strata: Strata, key: Stratum): seq<Task> {
    Filter(s, InStratum(strata, key))
  }

  /** `keys` lists, in sorted order, the strata that occur in `s`. */
  ghost predicate KeysOf(keys: seq<Stratum>, s: seq<Task>, strata: Strata) {
    Sorted(keys) && forall k :: k in keys <==> Occurs(s, strata, k)
  }

  ghost predicate Occurs(s: seq<Task>, strata: Strata, key: Stratum) {
    exists t :: t in s && strata(t) == key
  }

  /** The strata in `s`, each once, in sorted order. */
  function SortedKeys(s: seq<Task>, strata: Strata): seq<Stratum> {
    if s == [] then []
    else
      var keys, key := SortedKeys(s[..|s| - 1], strata), strata(s[|s| - 1]);
      if key in keys then keys else InsertKey(key, keys)
  }

  function PoolsOf(s: seq<Task>, strata: Strata): map<Stratum, seq<Task>> {
    map k | k in SortedKeys(s, strata) :: Of(s, strata, k)
  }

  lemma {:induction false} SortedKeysAre(s: seq<Task>, strata: Strata)
    ensures KeysOf(SortedKeys(s, strata), s, strata)
    ensures forall k :: k in SortedKeys(s, strata) ==> Of(s, strata, k) != []
  {
    hide InsertKey, Sorted, Filter, Of, Occurs;
    if s == [] {
      NothingSorted(strata);
    } else {
      var n := |s| - 1;
      var keys, key := SortedKeys(s[..n], strata), strata(s[n]);
      assert s == s[..n] + [s[n]];
      SortedKeysAre(s[..n], strata);
      StrataAppend(s[..n], s[n], strata);
      if key !in keys { InsertKeySorted(key, keys); }
      forall k ensures Occurs(s, strata, k) <==> Of(s, strata, k) != [] { NoneYet(s, strata, k); }
    }
  }

  lemma NothingSorted(strata: Strata)
    ensures Sorted([]) && forall k :: !Occurs([], strata, k)
  {
  }

  method BuildPools(tasks: seq<Task>, exclude: set<string>, strata: Strata)
    returns (pools: map<Stratum, seq<Task>>, keys: seq<Stratum>)
    ensures keys == SortedKeys(Eligible(tasks, exclude), strata)
    ensures pools == PoolsOf(Eligible(tasks, exclude), strata)
  {
    hide Filter, InsertKey;
    pools, keys := map[], [];
    ghost var eligible: seq<Task> := [];
    var i := 0;
    NothingEligible(tasks, exclude);
    while i < |tasks|
      invariant 0 <= i <= |tasks|
      invariant eligible == Eligible(tasks[..i], exclude)
      invariant keys == SortedKeys(eligible, strata) && pools.Keys == (set k | k in keys)
      invariant forall k :: k in keys ==> pools[k] == Of(eligible, strata, k)
    {
      var t := tasks[i];
      assert tasks[..i + 1] == tasks[..i] + [t];
      FilterConcat(tasks[..i], [t], NotIn(exclude));
      FilterSingle(t, NotIn(exclude));
      if t.id !in exclude {
        var key := strata(t);
        OfAppend(eligible, t, strata);
        assert (eligible + [t])[..|eligible|] == eligible;
        if key !in keys {
          SortedKeysAre(eligible, strata);
          NoneYet(eligible, strata, key);
          InsertKeySorted(key, keys);
          keys := InsertKey(key, keys);
          pools := pools[key := []];
        }
        pools := pools[key := pools[key] + [t]];
        eligible := eligible + [t];
      }
      i := i + 1;
    }
    assert tasks[..i] == tasks;
  }

  lemma NothingEligible(tasks: seq<Task>, exclude: set<string>)
    ensures Eligible(tasks[..0], exclude) == []
  {
  }

  lemma FilterSingle<T>(t: T, p: T -> bool)
    ensures Filter([t], p) == if p(t) then [t] else []
  {
    var one, none: seq<T> := [t], [];
    assert one[1..] == none;
    assert Filter(none, p) == none;
  }

  lemma OfAppend(s: seq<Task>, t: Task, strata: Strata)
    ensures forall k :: Of(s + [t], strata, k) == Of(s, strata, k) + if strata(t) == k then [t] else []
  {
    hide Filter;
    forall k ensures Of(s + [t], strata, k) == Of(s, strata, k) + if strata(t) == k then [t] else [] {
      FilterConcat(s, [t], InStratum(strata, k));
      FilterSingle(t, InStratum(strata, k));
    }
  }

  lemma StrataAppend(s: seq<Task>, t: Task, strata: Strata)
    ensures forall k :: Occurs(s + [t], strata, k) <==> strata(t) == k || Occurs(s, strata, k)
  {
    forall k ensures Occurs(s + [t], strata, k) <==> strata(t) == k || Occurs(s, strata, k) {
      assert t in s + [t];
      if Occurs(s, strata, k) {
        var u :| u in s && strata(u) == k;
        assert u in s + [t];
      }
    }
  }

  lemma {:induction false} NoneYet(s: seq<Task>, strata: Strata, key: Stratum)
    ensures !Occurs(s, strata, key) <==> Of(s, strata, key) == []
  {
    if s != [] {
      NoneYet(s[1..], strata, key);
      assert s == [s[0]] + s[1..];
      assert strata(s[0]) == key ==> s[0] in s;
      assert Occurs(s, strata, key) <==> strata(s[0]) == key || Occurs(s[1..], strata, key);
    }
  }

  // ---- Dealing ----

  /** Turns the stratum at position `k` of the key list has had after `rounds` full rounds and the
      first `j` keys of the next. */
  function Turns(rounds: nat, j: nat, k: nat): nat {
    rounds + if k < j then 1 else 0
  }

  function Min(a: nat, b: nat): nat {
    if a < b then a else b
  }

  /** Every stratum has given one task a turn until it ran out. */
  ghost predicate Dealt(
    picked: seq<Task>, eligible: seq<Task>, strata: Strata, keys: seq<Stratum>, rounds: nat, j: nat)
  {
    forall k :: 0 <= k < |keys| ==>
      |Of(picked, strata, keys[k])| == Min(|Of(eligible, strata, keys[k])|, Turns(rounds, j, k))
  }

  ghost predicate RoundRobin(picked: seq<Task>, eligible: seq<Task>, strata: Strata) {
    exists keys, rounds: nat, j: nat ::
      KeysOf(keys, eligible, strata) && Dealt(picked, eligible, strata, keys, rounds, j)
  }

  /** A stratum that still has tasks left has at most one pick fewer than any other. */
  ghost predicate Balanced(picked: seq<Task>, eligible: seq<Task>, strata: Strata) {
    forall a, b ::
      (&& Occurs(eligible, strata, a) && Occurs(eligible, strata, b)
       && |Of(picked, strata, a)| < |Of(eligible, strata, a)|)
      ==> |Of(picked, strata, b)| <= |Of(picked, strata, a)| + 1
  }

  lemma RoundRobinIsBalanced(picked: seq<Task>, eligible: seq<Task>, strata: Strata)
    requires RoundRobin(picked, eligible, strata)
    ensures Balanced(picked, eligible, strata)
  {
  }

  /** Picked and left over make up what was eligible: nothing is lost, repeated or invented. */
  ghost predicate Conserved(picked: seq<Task>, pools: map<Stratum, seq<Task>>, eligible: seq<Task>, strata: Strata) {
    forall t :: multiset(picked)[t] + Remaining(pools, strata, t) == multiset(eligible)[t]
  }

  function Remaining(pools: map<Stratum, seq<Task>>, strata: Strata, t: Task): nat {
    if strata(t) in pools then multiset(pools[strata(t)])[t] else 0
  }

  ghost predicate PoolsMatch(
    pools: map<Stratum, seq<Task>>, picked: seq<Task>, eligible: seq<Task>, strata: Strata, keys: seq<Stratum>)
  {
    forall k :: k in keys ==>
      && k in pools && (forall t :: t in pools[k] ==> strata(t) == k)
      && |Of(picked, strata, k)| + |pools[k]| == |Of(eligible, strata, k)|
  }

  lemma MulAtLeast(d: nat, n: nat)
    requires d >= 1
    ensures d * n >= n
  {
    assert d * n == (d - 1) * n + n;
  }

  lemma ModIs(i: nat, n: nat, rounds: nat, j: nat)
    requires j < n && i == rounds * n + j
    ensures i % n == j
  {
    var q, r := i / n, i % n;
    assert i == q * n + r;
    assert (q - rounds) * n == q * n - rounds * n && (rounds - q) * n == rounds * n - q * n;
    if q > rounds {
      MulAtLeast(q - rounds, n);
    } else if q < rounds {
      MulAtLeast(rounds - q, n);
    }
  }

  lemma ModNext(i: nat, n: nat)
    requires n > 0
    ensures (i + 1) % n == if i % n + 1 == n then 0 else i % n + 1
  {
    var q, r := i / n, i % n;
    assert i == q * n + r;
    if r + 1 == n {
      assert (q + 1) * n == q * n + n;
      ModIs(i + 1, n, q + 1, 0);
    } else {
      ModIs(i + 1, n, q, r + 1);
    }
  }

  predicate HasTasks(pools: map<Stratum, seq<Task>>, key: Stratum) {
    key in pools && pools[key] != []
  }

  predicate AllEmpty(pools: map<Stratum, seq<Task>>, keys: seq<Stratum>) {
    forall k :: k in keys ==> !HasTasks(pools, k)
  }

  /** How many keys from `j` on come before one with tasks, or before the end of the list. */
  function Scan(pools: map<Stratum, seq<Task>>, keys: seq<Stratum>, j: nat): (d: nat)
    requires j <= |keys|
    ensures j + d <= |keys|
    decreases |keys| - j
  {
    if j == |keys| || HasTasks(pools, keys[j]) then 0 else 1 + Scan(pools, keys, j + 1)
  }

  /** How many turns will be skipped before the next pick when key `j` is next. */
  function Ahead(pools: map<Stratum, seq<Task>>, keys: seq<Stratum>, j: nat): nat {
    if j >= |keys| then 0
    else
      var d := Scan(pools, keys, j);
      if j + d < |keys| then d else d + Scan(pools, keys, 0)
  }

  lemma {:induction false} ScanStops(pools: map<Stratum, seq<Task>>, keys: seq<Stratum>, j: nat, w: nat)
    requires j <= w < |keys| && HasTasks(pools, keys[w])
    ensures j + Scan(pools, keys, j) < |keys|
    decreases w - j
  {
    if !HasTasks(pools, keys[j]) { ScanStops(pools, keys, j + 1, w); }
  }

  lemma AheadFalls(pools: map<Stratum, seq<Task>>, keys: seq<Stratum>, j: nat)
    requires j < |keys| && !HasTasks(pools, keys[j]) && !AllEmpty(pools, keys)
    ensures Ahead(pools, keys, if j + 1 == |keys| then 0 else j + 1) < Ahead(pools, keys, j)
  {
    var k :| k in keys && HasTasks(pools, k);
    var w :| 0 <= w < |keys| && keys[w] == k;
    ScanStops(pools, keys, 0, w);
  }

  /** Exactly min(n, eligible) of the eligible tasks, each as often as it is eligible at most, dealt
      round-robin over the strata. */
  ghost predicate IsSample(picked: seq<Task>, eligible: seq<Task>, n: int, strata: Strata) {
    && |picked| == Min(if n > 0 then n else 0, |eligible|)
    && multiset(picked) <= multiset(eligible)
    && RoundRobin(picked, eligible, strata)
  }

  // ---- The loop ----

  /** The loop's state between two turns: `rounds` full rounds are over and key `j` is next. */
  ghost predicate Dealing(
    picked: seq<Task>, pools: map<Stratum, seq<Task>>, eligible: seq<Task>, strata: Strata, keys: seq<Stratum>,
    rounds: nat, j: nat)
  {
    && Conserved(picked, pools, eligible, strata) && PoolsMatch(pools, picked, eligible, strata, keys)
    && Dealt(picked, eligible, strata, keys, rounds, j)
  }

  function Without(s: seq<Task>, i: nat): seq<Task>
    requires i < |s|
  {
    DeleteAt(s, i)
  }

  /** A turn of a stratum that has tasks left moves one of them over. */
  lemma TurnPicks(
    picked: seq<Task>, pools: map<Stratum, seq<Task>>, eligible: seq<Task>, strata: Strata, keys: seq<Stratum>,
    rounds: nat, j: nat, i: nat)
    requires Distinct(keys) && j < |keys| && Dealing(picked, pools, eligible, strata, keys, rounds, j)
    requires i < |pools[keys[j]]|
    ensures var pool := pools[keys[j]];
            Dealing(picked + [pool[i]], pools[keys[j] := Without(pool, i)], eligible, strata, keys, rounds, j + 1)
  {
    hide Of;
    var key := keys[j];
    var pool := pools[key];
    var t, rest := pool[i], Without(pool, i);
    assert t in pool;
    assert pool == pool[..i] + [t] + pool[i + 1..];
    assert multiset(pool) == multiset(rest) + multiset{t};
    OfAppend(picked, t, strata);
  }

  /** A turn of a stratum that has run out changes nothing. */
  lemma TurnSkips(
    picked: seq<Task>, pools: map<Stratum, seq<Task>>, eligible: seq<Task>, strata: Strata, keys: seq<Stratum>,
    rounds: nat, j: nat)
    requires Distinct(keys) && j < |keys| && Dealing(picked, pools, eligible, strata, keys, rounds, j)
    requires pools[keys[j]] == []
    ensures Dealing(picked, pools, eligible, strata, keys, rounds, j + 1)
  {
    hide Of;
  }

  /** After the last key the next round begins. */
  lemma RoundOver(
    picked: seq<Task>, pools: map<Stratum, seq<Task>>, eligible: seq<Task>, strata: Strata, keys: seq<Stratum>,
    rounds: nat)
    requires Dealing(picked, pools, eligible, strata, keys, rounds, |keys|)
    ensures Dealing(picked, pools, eligible, strata, keys, rounds + 1, 0)
  {
    hide Of;
  }

  lemma NothingDealt(pools: map<Stratum, seq<Task>>, eligible: seq<Task>, strata: Strata, keys: seq<Stratum>)
    requires KeysOf(keys, eligible, strata)
    requires forall k :: k in keys ==> k in pools && pools[k] == Of(eligible, strata, k)
    requires pools.Keys == set k | k in keys
    ensures Dealing([], pools, eligible, strata, keys, 0, 0)
  {
    forall k ensures Of([], strata, k) == [] {}
    forall k, t | k in keys && t in pools[k] ensures strata(t) == k { FilterAll(eligible, InStratum(strata, k)); }
    forall t ensures multiset([])[t] + Remaining(pools, strata, t) == multiset(eligible)[t] {
      CountOf(eligible, strata, t);
      if strata(t) !in keys { assert t !in eligible; }
    }
  }

  lemma {:induction false} CountOf(s: seq<Task>, strata: Strata, t: Task)
    ensures multiset(Of(s, strata, strata(t)))[t] == multiset(s)[t]
  {
    if s != [] {
      CountOf(s[1..], strata, t);
      assert s == [s[0]] + s[1..];
    }
  }

  /** What has been picked never exceeds what was eligible, and meets it when the pools are empty. */
  lemma PicksFit(
    picked: seq<Task>, pools: map<Stratum, seq<Task>>, eligible: seq<Task>, strata: Strata, keys: seq<Stratum>)
    requires Conserved(picked, pools, eligible, strata) && PoolsMatch(pools, picked, eligible, strata, keys)
    requires pools.Keys == set k | k in keys
    ensures multiset(picked) <= multiset(eligible) && |picked| <= |eligible|
    ensures AllEmpty(pools, keys) <==> |picked| == |eligible|
  {
    hide Of;
    var p, e := multiset(picked), multiset(eligible);
    assert p <= e;
    assert (e - p) + p == e;
    assert |e - p| + |p| == |e|;
    if AllEmpty(pools, keys) {
      assert p == e;
    }
    if |picked| == |eligible| {
      assert |e - p| == 0;
      assert e == p;
      forall k | k in keys ensures pools[k] == [] {
        PoolEmpty(picked, pools, eligible, strata, keys, k);
      }
    }
  }

  lemma PoolEmpty(
    picked: seq<Task>, pools: map<Stratum, seq<Task>>, eligible: seq<Task>, strata: Strata, keys: seq<Stratum>,
    k: Stratum)
    requires Conserved(picked, pools, eligible, strata) && PoolsMatch(pools, picked, eligible, strata, keys)
    requires k in keys && multiset(picked) == multiset(eligible)
    ensures k in pools && pools[k] == []
  {
    hide Of;
    forall t: Task ensures multiset(pools[k])[t] == 0 {
      assert multiset(picked)[t] + Remaining(pools, strata, t) == multiset(eligible)[t];
      assert t in pools[k] ==> strata(t) == k;
    }
    assert multiset(pools[k]) == multiset{};
    assert |multiset(pools[k])| == |pools[k]|;
  }

  // ---- The sample as a function of the random draws ----

  function NextTurn(keys: seq<Stratum>, j: nat): nat {
    if j + 1 == |keys| then 0 else j + 1
  }

  /** What is dealt from key `j` on: each stratum in turn gives the task drawn, if it has one left, until
      `left` tasks are dealt or all have run out. */
  function Deal(pools: map<Stratum, seq<Task>>, keys: seq<Stratum>, j: nat, left: nat, draw: nat, rng: Rng): seq<Task>
    requires j < |keys|
    decreases left, Ahead(pools, keys, j)
  {
    if left == 0 || AllEmpty(pools, keys) then []
    else if !HasTasks(pools, keys[j]) then
      AheadFalls(pools, keys, j);
      Deal(pools, keys, NextTurn(keys, j), left, draw, rng)
    else
      var pool := pools[keys[j]];
      var at := rng(draw) % |pool|;
      [pool[at]] + Deal(pools[keys[j] := Without(pool, at)], keys, NextTurn(keys, j), left - 1, draw + 1, rng)
  }

  lemma DealEnds(pools: map<Stratum, seq<Task>>, keys: seq<Stratum>, j: nat, left: nat, draw: nat, rng: Rng)
    requires j < |keys| && (left == 0 || AllEmpty(pools, keys))
    ensures Deal(pools, keys, j, left, draw, rng) == []
  {
  }

  lemma DealSkips(pools: map<Stratum, seq<Task>>, keys: seq<Stratum>, j: nat, left: nat, draw: nat, rng: Rng)
    requires j < |keys| && left > 0 && !AllEmpty(pools, keys) && !HasTasks(pools, keys[j])
    ensures Deal(pools, keys, j, left, draw, rng) == Deal(pools, keys, NextTurn(keys, j), left, draw, rng)
    ensures Ahead(pools, keys, NextTurn(keys, j)) < Ahead(pools, keys, j)
  {
    hide AllEmpty, HasTasks, Ahead;
    AheadFalls(pools, keys, j);
  }

  lemma DealPicks(pools: map<Stratum, seq<Task>>, keys: seq<Stratum>, j: nat, left: nat, draw: nat, rng: Rng)
    requires j < |keys| && left > 0 && HasTasks(pools, keys[j])
    ensures var pool := pools[keys[j]]; var at := rng(draw) % |pool|;
            Deal(pools, keys, j, left, draw, rng) == [pool[at]]
              + Deal(pools[keys[j] := Without(pool, at)], keys, NextTurn(keys, j), left - 1, draw + 1, rng)
  {
    assert keys[j] in keys;
  }

  /** `picked` and what is still to be dealt make up `all`. */
  ghost predicate OnTheWay(
    all: seq<Task>, picked: seq<Task>, pools: map<Stratum, seq<Task>>, keys: seq<Stratum>, j: nat, n: nat, rng: Rng)
  {
    j < |keys| && |picked| <= n && all == picked + Deal(pools, keys, j, n - |picked|, |picked|, rng)
  }

  lemma PickMovesOver(
    all: seq<Task>, picked: seq<Task>, pools: map<Stratum, seq<Task>>, keys: seq<Stratum>, j: nat, n: nat, rng: Rng)
    requires OnTheWay(all, picked, pools, keys, j, n, rng) && |picked| < n && HasTasks(pools, keys[j])
    ensures var pool := pools[keys[j]]; var at := rng(|picked|) % |pool|;
            OnTheWay(all, picked + [pool[at]], pools[keys[j] := Without(pool, at)], keys, NextTurn(keys, j), n, rng)
  {
    hide Deal;
    DealPicks(pools, keys, j, n - |picked|, |picked|, rng);
  }

  lemma SkipKeepsWay(
    all: seq<Task>, picked: seq<Task>, pools: map<Stratum, seq<Task>>, keys: seq<Stratum>, j: nat, n: nat, rng: Rng)
    requires OnTheWay(all, picked, pools, keys, j, n, rng) && |picked| < n
    requires !HasTasks(pools, keys[j]) && !AllEmpty(pools, keys)
    ensures OnTheWay(all, picked, pools, keys, NextTurn(keys, j), n, rng)
    ensures Ahead(pools, keys, NextTurn(keys, j)) < Ahead(pools, keys, j)
  {
    hide Deal;
    DealSkips(pools, keys, j, n - |picked|, |picked|, rng);
  }

  lemma AllDealt(
    all: seq<Task>, picked: seq<Task>, pools: map<Stratum, seq<Task>>, keys: seq<Stratum>, j: nat, n: nat, rng: Rng)
    requires OnTheWay(all, picked, pools, keys, j, n, rng) && (|picked| == n || AllEmpty(pools, keys))
    ensures picked == all
  {
    hide Deal;
    DealEnds(pools, keys, j, n - |picked|, |picked|, rng);
  }

  /** The sample that the generator's draws make. */
  function SampleOf(tasks: seq<Task>, n: int, exclude: set<string>, strata: Strata, rng: Rng): Sample {
    var eligible := Eligible(tasks, exclude);
    var keys := SortedKeys(eligible, strata);
    if n <= 0 then Picked([])
    else if keys == [] then DivisionByZero
    else Picked(Deal(PoolsOf(eligible, strata), keys, 0, n, 0, rng))
  }

  /** Dealing on keeps the books until enough is dealt or nothing is left. */
  lemma {:induction false} DealKeepsBooks(
    picked: seq<Task>, pools: map<Stratum, seq<Task>>, eligible: seq<Task>, strata: Strata, keys: seq<Stratum>,
    rounds: nat, j: nat, left: nat, draw: nat, rng: Rng)
    returns (last: map<Stratum, seq<Task>>, rounds': nat, j': nat)
    requires j < |keys| && Distinct(keys) && Dealing(picked, pools, eligible, strata, keys, rounds, j)
    requires pools.Keys == set k | k in keys
    ensures var all := picked + Deal(pools, keys, j, left, draw, rng);
            && Dealing(all, last, eligible, strata, keys, rounds', j') && last.Keys == (set k | k in keys)
            && |all| <= |picked| + left && (AllEmpty(last, keys) || |all| == |picked| + left)
    decreases left, Ahead(pools, keys, j)
  {
    hide Dealing, Ahead, AllEmpty, Deal;
    if left == 0 || AllEmpty(pools, keys) {
      DealEnds(pools, keys, j, left, draw, rng);
      assert picked + [] == picked;
      return pools, rounds, j;
    }
    var r, next := rounds, j + 1;
    if HasTasks(pools, keys[j]) {
      var pool := pools[keys[j]];
      var at := rng(draw) % |pool|;
      var rest := pools[keys[j] := Without(pool, at)];
      TurnPicks(picked, pools, eligible, strata, keys, rounds, j, at);
      if next == |keys| {
        RoundOver(picked + [pool[at]], rest, eligible, strata, keys, rounds);
        r, next := r + 1, 0;
      }
      DealPicks(pools, keys, j, left, draw, rng);
      assert picked + Deal(pools, keys, j, left, draw, rng)
          == (picked + [pool[at]]) + Deal(rest, keys, next, left - 1, draw + 1, rng);
      last, rounds', j' :=
        DealKeepsBooks(picked + [pool[at]], rest, eligible, strata, keys, r, next, left - 1, draw + 1, rng);
    } else {
      assert keys[j] in keys;
      TurnSkips(picked, pools, eligible, strata, keys, rounds, j);
      DealSkips(pools, keys, j, left, draw, rng);
      if next == |keys| {
        RoundOver(picked, pools, eligible, strata, keys, rounds);
        r, next := r + 1, 0;
      }
      last, rounds', j' := DealKeepsBooks(picked, pools, eligible, strata, keys, r, next, left, draw, rng);
    }
  }

  lemma DealingBooks(
    picked: seq<Task>, pools: map<Stratum, seq<Task>>, eligible: seq<Task>, strata: Strata, keys: seq<Stratum>,
    rounds: nat, j: nat)
    requires Dealing(picked, pools, eligible, strata, keys, rounds, j)
    ensures Conserved(picked, pools, eligible, strata) && PoolsMatch(pools, picked, eligible, strata, keys)
    ensures Dealt(picked, eligible, strata, keys, rounds, j)
  {
  }

  lemma NoKeys(eligible: seq<Task>, strata: Strata)
    ensures SortedKeys(eligible, strata) == [] <==> eligible == []
  {
    SortedKeysAre(eligible, strata);
    if eligible != [] { assert Occurs(eligible, strata, strata(eligible[0])); }
  }

  /** Whatever is drawn, the sample holds exactly min(n, eligible) eligible tasks, dealt round-robin; with
      tasks wanted and none eligible the loop takes a remainder by zero. */
  lemma SampleOfIsSample(tasks: seq<Task>, n: int, exclude: set<string>, strata: Strata, rng: Rng)
    ensures var sample := SampleOf(tasks, n, exclude, strata, rng);
            && (sample.DivisionByZero? <==> n > 0 && Eligible(tasks, exclude) == [])
            && (sample.Picked? ==> IsSample(sample.tasks, Eligible(tasks, exclude), n, strata))
  {
    hide Dealing, Eligible, Of, KeysOf, SortedKeys, Dealt, Conserved, PoolsMatch, AllEmpty;
    var eligible := Eligible(tasks, exclude);
    var keys, pools := SortedKeys(eligible, strata), PoolsOf(eligible, strata);
    NoKeys(eligible, strata);
    SortedKeysAre(eligible, strata);
    KeysDistinct(keys, eligible, strata);
    NothingDealt(pools, eligible, strata, keys);
    if n <= 0 {
      DealingBooks([], pools, eligible, strata, keys, 0, 0);
      PicksFit([], pools, eligible, strata, keys);
    } else if keys != [] {
      var last, rounds, j := DealKeepsBooks([], pools, eligible, strata, keys, 0, 0, n, 0, rng);
      var all := Deal(pools, keys, 0, n, 0, rng);
      assert [] + all == all;
      DealingBooks(all, last, eligible, strata, keys, rounds, j);
      PicksFit(all, last, eligible, strata, keys);
    }
  }

  lemma KeysDistinct(keys: seq<Stratum>, s: seq<Task>, strata: Strata)
    requires KeysOf(keys, s, strata)
    ensures Distinct(keys)
  {
    hide Sorted;
    SortedDistinct(keys);
  }

  /** Samples at most `n` tasks, round after round over the strata. */
  method StratifiedSample(tasks: seq<Task>, n: int, exclude: set<string>, strata: Strata, rng: Rng)
    returns (sample: Sample)
    ensures sample == SampleOf(tasks, n, exclude, strata, rng)
  {
    hide SortedKeys, Eligible, AllEmpty, Ahead, Deal, PoolsOf, KeysOf, Without, OnTheWay;
    var pools, keys := BuildPools(tasks, exclude, strata);
    FirstPools(Eligible(tasks, exclude), strata);
    var picked: seq<Task>, i := [], 0;
    ghost var all := if keys == [] || n <= 0 then [] else Deal(pools, keys, 0, n, 0, rng);
    if keys != [] && n > 0 { StartOfWay(pools, keys, n, rng); }
    while |picked| < n
      invariant |picked| <= (if n > 0 then n else 0) && (keys == [] ==> picked == [])
      invariant keys != [] ==> !AllEmpty(pools, keys)
      invariant keys != [] && n > 0 ==> OnTheWay(all, picked, pools, keys, i % |keys|, n, rng)
      decreases n - |picked|, if keys == [] then 0 else Ahead(pools, keys, i % |keys|)
    {
      if keys == [] {
        return DivisionByZero;
      }
      var key := keys[i % |keys|];
      ModNext(i, |keys|);
      if HasTasks(pools, key) {
        var pool := pools[key];
        var at := rng(|picked|) % |pool|;
        PickMovesOver(all, picked, pools, keys, i % |keys|, n, rng);
        picked := picked + [pool[at]];
        pools := pools[key := Without(pool, at)];
      } else {
        SkipKeepsWay(all, picked, pools, keys, i % |keys|, n, rng);
      }
      i := i + 1;
      if AllEmpty(pools, keys) {
        break;
      }
    }
    if keys != [] && n > 0 { AllDealt(all, picked, pools, keys, i % |keys|, n, rng); }
    return Picked(picked);  // `picked[:n]` cuts nothing off
  }

  lemma StartOfWay(pools: map<Stratum, seq<Task>>, keys: seq<Stratum>, n: nat, rng: Rng)
    requires keys != []
    ensures OnTheWay(Deal(pools, keys, 0, n, 0, rng), [], pools, keys, 0, n, rng)
  {
    hide Deal;
  }

  lemma FirstPools(eligible: seq<Task>, strata: Strata)
    ensures var keys, pools := SortedKeys(eligible, strata), PoolsOf(eligible, strata);
            keys != [] ==> HasTasks(pools, keys[0]) && !AllEmpty(pools, keys)
  {
    hide SortedKeys, Of;
    SortedKeysAre(eligible, strata);
    var keys, pools := SortedKeys(eligible, strata), PoolsOf(eligible, strata);
    if keys != [] { assert keys[0] in keys && HasTasks(pools, keys[0]); }
  }

  // ---- Generations ----

  datatype Generation = Generation(test: seq<Task>, control: seq<Task>)

  function Ids(s: seq<Task>): set<string> {
    set t | t in s :: t.id
  }

  /** The ids that these generations have run. */
  function Used(generations: seq<Generation>): set<string>
    decreases |generations|
  {
    if generations == [] then {}
    else
      var n := |generations| - 1;
      Used(generations[..n]) + Ids(generations[n].test) + Ids(generations[n].control)
  }

  /** Both batches were sampled from what earlier generations had left. */
  ghost predicate Sampled(
    tasks: seq<Task>, used: set<string>, g: Generation, testSize: int, controlSize: int, strata: Strata)
  {
    && IsSample(g.test, Eligible(tasks, used), testSize, strata)
    && IsSample(g.control, Eligible(tasks, used), controlSize, strata)
  }

  ghost predicate AllSampled(tasks: seq<Task>, done: seq<Generation>, testSize: int, controlSize: int, strata: Strata) {
    forall g :: 0 <= g < |done| ==> Sampled(tasks, Used(done[..g]), done[g], testSize, controlSize, strata)
  }

  /** The draws that are left once `drawn` have been made. */
  function Onward(rng: Rng, drawn: nat): Rng {
    (d: nat) => rng(drawn + d)
  }

  /** The generations of one experiment. It divides by zero when a sample is wanted from no tasks, or
      averages over an empty batch. */
  method RunGenerations(tasks: seq<Task>, count: int, testSize: int, controlSize: int, strata: Strata, rng: Rng)
    returns (done: seq<Generation>, failed: bool)
    ensures AllSampled(tasks, done, testSize, controlSize, strata)
    ensures !failed ==> |done| == (if count > 0 then count else 0)
                        && forall g :: 0 <= g < |done| ==> done[g].test != [] && done[g].control != []
    ensures failed <==> count > 0 && (|| testSize <= 0 || controlSize <= 0
                                      || (|done| < count && Eligible(tasks, Used(done)) == []))
  {
    hide IsSample, Eligible, SampleOf;
    done, failed := [], false;
    var used: set<string> := {};
    var drawn: nat := 0;
    var gen := 0;
    while gen < count
      invariant 0 <= gen == |done| && gen <= (if count > 0 then count else 0)
      invariant gen > 0 ==> testSize > 0 && controlSize > 0
      invariant forall g :: 0 <= g < |done| ==> done[g].test != [] && done[g].control != []
      invariant used == Used(done) && AllSampled(tasks, done, testSize, controlSize, strata)
      decreases count - gen
    {
      SampleOfIsSample(tasks, testSize, used, strata, Onward(rng, drawn));
      var test := StratifiedSample(tasks, testSize, used, strata, Onward(rng, drawn));
      if test.DivisionByZero? {
        return done, true;
      }
      drawn := drawn + |test.tasks|;
      SampleOfIsSample(tasks, controlSize, used, strata, Onward(rng, drawn));
      var control := StratifiedSample(tasks, controlSize, used, strata, Onward(rng, drawn));
      if control.DivisionByZero? {
        return done, true;
      }
      drawn := drawn + |control.tasks|;
      ghost var before := done;
      SampleSize(test.tasks, Eligible(tasks, Used(before)), testSize, strata);
      SampleSize(control.tasks, Eligible(tasks, Used(before)), controlSize, strata);
      done := done + [Generation(test.tasks, control.tasks)];
      assert done[..|before|] == before;
      forall g | 0 <= g < |done| ensures Sampled(tasks, Used(done[..g]), done[g], testSize, controlSize, strata) {
        if g < |before| {
          assert done[..g] == before[..g];
          assert Sampled(tasks, Used(before[..g]), before[g], testSize, controlSize, strata);
        }
      }
      used := used + Ids(control.tasks) + Ids(test.tasks);
      if test.tasks == [] || control.tasks == [] {
        return done, true;
      }
      gen := gen + 1;
    }
  }

  lemma SampleSize(picked: seq<Task>, eligible: seq<Task>, n: int, strata: Strata)
    requires IsSample(picked, eligible, n, strata)
    ensures picked == [] <==> n <= 0 || eligible == []
  {
  }

  lemma {:induction false} UsedGrows(done: seq<Generation>, g: nat, h: nat)
    requires g < h <= |done|
    ensures Ids(done[g].test) + Ids(done[g].control) <= Used(done[..h])
    decreases h
  {
    assert done[..h][..h - 1] == done[..h - 1];
    if g < h - 1 { UsedGrows(done, g, h - 1); }
  }

  /** Batches of different generations share no task. */
  lemma GenerationsAreDisjoint(
    tasks: seq<Task>, done: seq<Generation>, testSize: int, controlSize: int, strata: Strata, g: nat, h: nat)
    requires AllSampled(tasks, done, testSize, controlSize, strata) && g < h < |done|
    ensures (Ids(done[g].test) + Ids(done[g].control)) !! (Ids(done[h].test) + Ids(done[h].control))
  {
    hide RoundRobin, Eligible;
    UsedGrows(done, g, h);
    assert Sampled(tasks, Used(done[..h]), done[h], testSize, controlSize, strata);
    FreshIds(tasks, Used(done[..h]), done[h].test, testSize, strata);
    FreshIds(tasks, Used(done[..h]), done[h].control, controlSize, strata);
  }

  lemma FreshIds(tasks: seq<Task>, used: set<string>, picked: seq<Task>, n: int, strata: Strata)
    requires IsSample(picked, Eligible(tasks, used), n, strata)
    ensures Ids(picked) !! used && forall t :: t in picked ==> t in tasks
  {
    FilterAll(tasks, NotIn(used));
    forall t | t in picked ensures t.id !in used && t in tasks {
      assert t in multiset(picked);
      assert t in multiset(Eligible(tasks, used));
      assert t in Eligible(tasks, used);
    }
  }

  lemma ApartFits(eligible: seq<Task>, test: seq<Task>, control: seq<Task>)
    requires multiset(test) <= multiset(eligible) && multiset(control) <= multiset(eligible)
    requires forall t :: t in test ==> t !in control
    ensures |test| + |control| <= |eligible|
  {
    var p, q, e := multiset(test), multiset(control), multiset(eligible);
    forall t ensures (p + q)[t] <= e[t] {
      assert t in p <==> t in test;
      assert t in q <==> t in control;
    }
    assert p + q <= e;
    assert (e - (p + q)) + (p + q) == e;
    assert |e| == |e - (p + q)| + |p + q|;
  }

  /** When test and control together want more than are left, they must share some. */
  lemma MoreThanLeftOverlaps(eligible: seq<Task>, test: seq<Task>, control: seq<Task>)
    requires multiset(test) <= multiset(eligible) && multiset(control) <= multiset(eligible)
    requires |test| + |control| > |eligible|
    ensures exists t :: t in test && t in control
  {
    if forall t :: t in test ==> t !in control {
      ApartFits(eligible, test, control);
    }
  }

  /** The two batches that one generation draws one after the other. */
  function Batches(tasks: seq<Task>, used: set<string>, testSize: int, controlSize: int, strata: Strata, rng: Rng)
    : (Sample, Sample)
  {
    var test := SampleOf(tasks, testSize, used, strata, rng);
    (test, SampleOf(tasks, controlSize, used, strata, Onward(rng, if test.Picked? then |test.tasks| else 0)))
  }

  ghost predicate Share(a: Sample, b: Sample) {
    a.Picked? && b.Picked? && exists t :: t in a.tasks && t in b.tasks
  }

  /** Test and control of one generation are sure to share no task exactly when one of them is wanted
      empty or nothing is left: any other generation may run a task in both arms. */
  lemma SameGenerationApartIff(tasks: seq<Task>, used: set<string>, testSize: int, controlSize: int, strata: Strata)
    ensures (forall rng: Rng ::
               !Share(Batches(tasks, used, testSize, controlSize, strata, rng).0,
                      Batches(tasks, used, testSize, controlSize, strata, rng).1))
            <==> testSize <= 0 || controlSize <= 0 || Eligible(tasks, used) == []
  {
    hide Deal, Eligible, Share;
    var eligible := Eligible(tasks, used);
    NoKeys(eligible, strata);
    if testSize <= 0 || controlSize <= 0 || eligible == [] {
      forall rng: Rng ensures !Share(Batches(tasks, used, testSize, controlSize, strata, rng).0,
                                     Batches(tasks, used, testSize, controlSize, strata, rng).1)
      {
        EmptySharesNothing(Batches(tasks, used, testSize, controlSize, strata, rng).0,
                           Batches(tasks, used, testSize, controlSize, strata, rng).1);
      }
    } else {
      var rng: Rng := (d: nat) => 0;
      var keys, pools := SortedKeys(eligible, strata), PoolsOf(eligible, strata);
      FirstPools(eligible, strata);
      var (test, control) := Batches(tasks, used, testSize, controlSize, strata, rng);
      FirstDealt(pools, keys, testSize, rng);
      FirstDealt(pools, keys, controlSize, Onward(rng, |test.tasks|));
      BothHold(test, control, pools[keys[0]][0]);
    }
  }

  lemma EmptySharesNothing(a: Sample, b: Sample)
    requires !a.Picked? || a.tasks == [] || !b.Picked? || b.tasks == []
    ensures !Share(a, b)
  {
  }

  lemma BothHold(a: Sample, b: Sample, t: Task)
    requires a.Picked? && b.Picked? && t in a.tasks && t in b.tasks
    ensures Share(a, b)
  {
  }

  lemma FirstDealt(pools: map<Stratum, seq<Task>>, keys: seq<Stratum>, n: nat, rng: Rng)
    requires keys != [] && n > 0 && HasTasks(pools, keys[0]) && !AllEmpty(pools, keys) && rng(0) == 0
    ensures pools[keys[0]][0] in Deal(pools, keys, 0, n, 0, rng)
  {
    hide AllEmpty;
    assert rng(0) % |pools[keys[0]]| == 0;
    assert Deal(pools, keys, 0, n, 0, rng)[0] == pools[keys[0]][0];
  }

  /** From a list without repeats every sample is without repeats, and holds no excluded task. */
  lemma SampleIsDistinct(tasks: seq<Task>, exclude: set<string>, picked: seq<Task>, n: int, strata: Strata)
    requires Distinct(tasks) && IsSample(picked, Eligible(tasks, exclude), n, strata)
    ensures Distinct(picked) && Ids(picked) !! exclude
  {
    hide RoundRobin;
    FreshIds(tasks, exclude, picked, n, strata);
    forall i, j | 0 <= i < j < |picked| ensures picked[i] != picked[j] {
      if picked[i] == picked[j] {
        TwiceIsTwo(picked, i, j);
        FilterCount(tasks, NotIn(exclude), picked[i]);
        DistinctCount(tasks, picked[i]);
      }
    }
  }

  lemma TwiceIsTwo(s: seq<Task>, i: nat, j: nat)
    requires i < j < |s| && s[i] == s[j]
    ensures multiset(s)[s[i]] >= 2
  {
    assert s == s[..i] + [s[i]] + s[i + 1..j] + [s[j]] + s[j + 1..];
  }

  lemma {:induction false} FilterCount(s: seq<Task>, p: Task -> bool, t: Task)
    ensures multiset(Filter(s, p))[t] <= multiset(s)[t]
  {
    if s != [] {
      FilterCount(s[1..], p, t);
      assert s == [s[0]] + s[1..];
    }
  }

  lemma {:induction false} DistinctCount(s: seq<Task>, t: Task)
    requires Distinct(s)
    ensures multiset(s)[t] <= 1
  {
    if s != [] {
      DistinctCount(s[1..], t);
      assert s == [s[0]] + s[1..];
      if s[0] == t { assert t !in s[1..]; }
    }
  }
}
