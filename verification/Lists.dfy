/** Removing matching elements from a list: by position, and by equality. */
module Lists {
  function Filter<T>(s: seq<T>, p: T -> bool): seq<T> {
    if s == [] then [] else (if p(s[0]) then [s[0]] else []) + Filter(s[1..], p)
  }

  /** `s` without its first `n` elements that match. */
  function RemoveFirst<T>(s: seq<T>, n: nat, p: T -> bool): seq<T> {
    if n == 0 || s == [] then s
    else if p(s[0]) then RemoveFirst(s[1..], n - 1, p)
    else [s[0]] + RemoveFirst(s[1..], n, p)
  }

  /** Python's `s.remove(x)`: drops the first element equal to `x`. */
  function RemoveEqual<T(==)>(s: seq<T>, x: T): seq<T> {
    if s == [] then [] else if s[0] == x then s[1..] else [s[0]] + RemoveEqual(s[1..], x)
  }

  function RemoveEach<T(==)>(s: seq<T>, xs: seq<T>): seq<T>
    decreases xs
  {
    if xs == [] then s else RemoveEach(RemoveEqual(s, xs[0]), xs[1..])
  }

  function DeleteAt<T>(s: seq<T>, i: nat): seq<T>
    requires i < |s|
  {
    s[..i] + s[i + 1..]
  }

  // ---- What RemoveFirst keeps ----

  lemma {:induction false} RemoveFirstFilter<T>(s: seq<T>, n: nat, p: T -> bool)
    requires n <= |Filter(s, p)|
    ensures Filter(RemoveFirst(s, n, p), p) == Filter(s, p)[n..]
    ensures |RemoveFirst(s, n, p)| == |s| - n
  {
    if n > 0 && s != [] {
      if p(s[0]) {
        RemoveFirstFilter(s[1..], n - 1, p);
      } else {
        RemoveFirstFilter(s[1..], n, p);
        assert ([s[0]] + RemoveFirst(s[1..], n, p))[1..] == RemoveFirst(s[1..], n, p);
      }
    }
  }

  lemma {:induction false} RemoveFirstOthers<T(!new)>(s: seq<T>, n: nat, p: T -> bool, q: T -> bool)
    requires forall x :: q(x) ==> !p(x)
    ensures Filter(RemoveFirst(s, n, p), q) == Filter(s, q)
  {
    if n > 0 && s != [] {
      if p(s[0]) {
        RemoveFirstOthers(s[1..], n - 1, p, q);
      } else {
        RemoveFirstOthers(s[1..], n, p, q);
        assert ([s[0]] + RemoveFirst(s[1..], n, p))[1..] == RemoveFirst(s[1..], n, p);
      }
    }
  }

  lemma FilterHead<T>(s: seq<T>, p: T -> bool)
    ensures s == [] ==> Filter(s, p) == []
    ensures s != [] ==> Filter(s, p) == (if p(s[0]) then [s[0]] else []) + Filter(s[1..], p)
  {
  }

  lemma {:induction false} FilterConcat<T>(s: seq<T>, t: seq<T>, p: T -> bool)
    ensures Filter(s + t, p) == Filter(s, p) + Filter(t, p)
  {
    hide Filter;
    FilterHead(s, p);
    if s == [] {
      assert s + t == t;
    } else {
      assert (s + t)[1..] == s[1..] + t && (s + t)[0] == s[0];
      FilterHead(s + t, p);
      FilterConcat(s[1..], t, p);
    }
  }

  lemma {:induction false} FilterAll<T>(s: seq<T>, p: T -> bool)
    ensures forall x :: x in Filter(s, p) <==> x in s && p(x)
  {
    if s != [] {
      FilterAll(s[1..], p);
      assert s == [s[0]] + s[1..];
    }
  }

  lemma {:induction false} FilterNone<T>(s: seq<T>, p: T -> bool)
    requires forall x :: x in s ==> !p(x)
    ensures Filter(s, p) == []
  {
    if s != [] {
      assert s == [s[0]] + s[1..];
      FilterNone(s[1..], p);
    }
  }

  /** Every two elements, in list order, are related. */
  ghost predicate Pairwise<T>(s: seq<T>, r: (T, T) -> bool) {
    s == [] || ((forall x :: x in s[1..] ==> r(s[0], x)) && Pairwise(s[1..], r))
  }

  lemma {:induction false} RemoveFirstSubset<T>(s: seq<T>, n: nat, p: T -> bool)
    ensures forall x :: x in RemoveFirst(s, n, p) ==> x in s
  {
    if n > 0 && s != [] {
      RemoveFirstSubset(s[1..], if p(s[0]) then n - 1 else n, p);
      assert s == [s[0]] + s[1..];
    }
  }

  lemma {:induction false} RemoveFirstPairwise<T>(s: seq<T>, n: nat, p: T -> bool, r: (T, T) -> bool)
    requires Pairwise(s, r)
    ensures Pairwise(RemoveFirst(s, n, p), r)
  {
    if n > 0 && s != [] {
      if p(s[0]) {
        RemoveFirstPairwise(s[1..], n - 1, p, r);
      } else {
        RemoveFirstPairwise(s[1..], n, p, r);
        RemoveFirstSubset(s[1..], n, p);
        assert ([s[0]] + RemoveFirst(s[1..], n, p))[1..] == RemoveFirst(s[1..], n, p);
      }
    }
  }

  lemma {:induction false} AppendPairwise<T>(s: seq<T>, x: T, r: (T, T) -> bool)
    requires Pairwise(s, r) && forall y :: y in s ==> r(y, x)
    ensures Pairwise(s + [x], r)
  {
    if s == [] {
      assert s + [x] == [x];
    } else {
      assert (s + [x])[1..] == s[1..] + [x];
      assert s == [s[0]] + s[1..];
      AppendPairwise(s[1..], x, r);
    }
  }

  /** Relations that look only at what `s` and `t` share element by element carry over. */
  lemma {:induction false} PairwiseAlike<T>(s: seq<T>, t: seq<T>, r: (T, T) -> bool)
    requires |s| == |t| && Pairwise(s, r)
    requires forall i, j :: 0 <= i < |s| && 0 <= j < |s| && r(s[i], s[j]) ==> r(t[i], t[j])
    ensures Pairwise(t, r)
  {
    if s != [] {
      forall x | x in t[1..] ensures r(t[0], x) {
        var j :| 0 <= j < |t[1..]| && t[1..][j] == x;
        assert s[1..][j] in s[1..] && s[1..][j] == s[j + 1];
        assert r(s[0], s[j + 1]);
      }
      forall i, j | 0 <= i < |s[1..]| && 0 <= j < |s[1..]| && r(s[1..][i], s[1..][j]) ensures r(t[1..][i], t[1..][j]) {
        assert r(s[i + 1], s[j + 1]);
      }
      PairwiseAlike(s[1..], t[1..], r);
    }
  }

  // ---- Removing by equality removes the oldest matches ----

  /** The first element equal to the first match is the first match itself. */
  lemma {:induction false} RemoveEqualIsFirst<T>(s: seq<T>, p: T -> bool)
    requires Filter(s, p) != []
    ensures RemoveEqual(s, Filter(s, p)[0]) == RemoveFirst(s, 1, p)
  {
    if s != [] && !p(s[0]) {
      RemoveEqualIsFirst(s[1..], p);
      FilterAll(s[1..], p);
      assert Filter(s, p) == Filter(s[1..], p);
      assert Filter(s, p)[0] in Filter(s[1..], p);
    }
  }

  lemma {:induction false} RemoveFirstSplit<T>(s: seq<T>, n: nat, p: T -> bool)
    ensures RemoveFirst(s, n + 1, p) == RemoveFirst(RemoveFirst(s, 1, p), n, p)
  {
    if s != [] && !p(s[0]) {
      RemoveFirstSplit(s[1..], n, p);
      var once := RemoveFirst(s, 1, p);
      assert once[1..] == RemoveFirst(s[1..], 1, p);
    }
  }

  lemma {:induction false} RemoveEachIsOldest<T>(s: seq<T>, n: nat, p: T -> bool)
    requires n <= |Filter(s, p)|
    ensures RemoveEach(s, Filter(s, p)[..n]) == RemoveFirst(s, n, p)
    decreases n
  {
    if n > 0 {
      var oldest, once := Filter(s, p)[..n], RemoveFirst(s, 1, p);
      RemoveEqualIsFirst(s, p);
      RemoveFirstFilter(s, 1, p);
      assert oldest[1..] == Filter(once, p)[..n - 1];
      RemoveEachIsOldest(once, n - 1, p);
      RemoveFirstSplit(s, n - 1, p);
    }
  }

  // ---- Deleting the matching positions from the back ----

  function Positions<T>(s: seq<T>, p: T -> bool): seq<nat> {
    if s == [] then []
    else Positions(s[..|s| - 1], p) + if p(s[|s| - 1]) then [|s| - 1] else []
  }

  lemma {:induction false} PositionsShape<T>(s: seq<T>, p: T -> bool)
    ensures forall k :: 0 <= k < |Positions(s, p)| ==> Positions(s, p)[k] < |s| && p(s[Positions(s, p)[k]])
    ensures forall j, k :: 0 <= j < k < |Positions(s, p)| ==> Positions(s, p)[j] < Positions(s, p)[k]
    ensures |Positions(s, p)| == |Filter(s, p)|
    ensures forall k :: 0 <= k < |Positions(s, p)| ==> Filter(s, p)[k] == s[Positions(s, p)[k]]
    ensures forall i :: 0 <= i < |s| && p(s[i]) ==> i in Positions(s, p)
  {
    if s != [] {
      var n := |s| - 1;
      PositionsShape(s[..n], p);
      assert s == s[..n] + [s[n]];
      FilterConcat(s[..n], [s[n]], p);
    }
  }

  /** Only the positions before a prefix's end matter for the matches inside it. */
  lemma {:induction false} PositionsPrefix<T>(s: seq<T>, m: nat, p: T -> bool)
    requires m <= |s|
    ensures var k := |Positions(s[..m], p)|; k <= |Positions(s, p)| && Positions(s[..m], p) == Positions(s, p)[..k]
    decreases |s|
  {
    if m == |s| {
      assert s[..m] == s;
    } else {
      assert s[..|s| - 1][..m] == s[..m];
      PositionsPrefix(s[..|s| - 1], m, p);
    }
  }

  lemma {:induction false} NoMatchesKept<T>(s: seq<T>, n: nat, t: seq<T>, p: T -> bool)
    requires |Filter(s, p)| == n
    ensures RemoveFirst(s + t, n, p) == RemoveFirst(s, n, p) + t
    decreases |s|
  {
    if s == [] {
      assert s + t == t;
    } else {
      assert (s + t)[1..] == s[1..] + t;
      if n > 0 {
        NoMatchesKept(s[1..], if p(s[0]) then n - 1 else n, t, p);
      } else {
        assert RemoveFirst(s, 0, p) == s;
      }
    }
  }

  /** Deleting the n-th match and then the first n - 1 is removing the first n. */
  lemma DeleteNth<T>(s: seq<T>, n: nat, p: T -> bool)
    requires 0 < n <= |Positions(s, p)|
    ensures var i := Positions(s, p)[n - 1];
            && i < |s|
            && RemoveFirst(DeleteAt(s, i), n - 1, p) == RemoveFirst(s, n, p)
            && Positions(s[..i], p) == Positions(s, p)[..n - 1]
  {
    hide RemoveFirst, Positions, Filter;
    PositionsShape(s, p);
    var all := Positions(s, p);
    var i := all[n - 1];
    PrefixMatches(s, n, p);
    PositionsShape(s[..i], p);
    var head, tail := s[..i], s[i + 1..];
    NoMatchesKept(head, n - 1, tail, p);
    assert s == head + ([s[i]] + tail);
    OneMore(head, n, s[i], tail, p);
  }

  lemma PrefixMatches<T>(s: seq<T>, n: nat, p: T -> bool)
    requires 0 < n <= |Positions(s, p)| && Positions(s, p)[n - 1] < |s|
    ensures Positions(s[..Positions(s, p)[n - 1]], p) == Positions(s, p)[..n - 1]
  {
    var all := Positions(s, p);
    var i := all[n - 1];
    PositionsShape(s, p);
    PositionsPrefix(s, i, p);
    PositionsShape(s[..i], p);
    var k := |Positions(s[..i], p)|;
    PositionsPrefix(s, i + 1, p);
    assert s[..i + 1][..i] == s[..i];
    assert Positions(s[..i + 1], p) == Positions(s[..i], p) + [i];
    assert all[..k + 1] == all[..k] + [i];
    assert all[k] == i;
  }

  lemma {:induction false} LastRemoved<T>(head: seq<T>, n: nat, x: T, p: T -> bool)
    requires 0 < n && |Filter(head, p)| == n - 1 && p(x)
    ensures RemoveFirst(head + [x], n, p) == RemoveFirst(head, n - 1, p)
    ensures |Filter(head + [x], p)| == n
    decreases |head|
  {
    FilterConcat(head, [x], p);
    if head == [] {
      assert head + [x] == [x];
    } else {
      var tail := head[1..];
      assert (head + [x])[1..] == tail + [x] && (head + [x])[0] == head[0];
      if p(head[0]) {
        LastRemoved(tail, n - 1, x, p);
      } else {
        LastRemoved(tail, n, x, p);
        if n == 1 {
          NothingRemoved(tail, p);
          NothingRemoved(head, p);
        }
      }
    }
  }

  lemma OneMore<T>(head: seq<T>, n: nat, x: T, tail: seq<T>, p: T -> bool)
    requires 0 < n && |Filter(head, p)| == n - 1 && p(x)
    ensures RemoveFirst(head + ([x] + tail), n, p) == RemoveFirst(head, n - 1, p) + tail
  {
    hide RemoveFirst, Filter;
    LastRemoved(head, n, x, p);
    NoMatchesKept(head + [x], n, tail, p);
    assert head + ([x] + tail) == (head + [x]) + tail;
  }

  /** Deletes the first `n` matches, last one first, so that positions still to delete stay valid. */
  method DeleteMatches<T>(s: seq<T>, p: T -> bool, n: nat) returns (kept: seq<T>)
    requires n <= |Positions(s, p)|
    ensures kept == RemoveFirst(s, n, p)
  {
    hide Positions, RemoveFirst;
    var indices := Positions(s, p);
    kept := s;
    var k := n;
    NothingRemoved(s, p);
    while k > 0
      invariant 0 <= k <= n
      invariant k <= |Positions(kept, p)| && Positions(kept, p)[..k] == indices[..k]
      invariant RemoveFirst(kept, k, p) == RemoveFirst(s, n, p)
    {
      ghost var before := kept;
      k := k - 1;
      DeleteNth(kept, k + 1, p);
      assert indices[k] == indices[..k + 1][k] == Positions(kept, p)[k];
      var i := indices[k];
      kept := DeleteAt(kept, i);
      PositionsPrefix(kept, i, p);
      assert kept[..i] == before[..i];
      assert indices[..k] == indices[..k + 1][..k] == Positions(before, p)[..k];
    }
    NothingRemoved(kept, p);
  }

  lemma NothingRemoved<T>(s: seq<T>, p: T -> bool)
    ensures RemoveFirst(s, 0, p) == s
  {
  }
}
