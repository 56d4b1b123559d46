/** What a storage backend means: a map from key to a stream of records. */
module Streams {
  import opened Canonical
  import opened Json
  import opened Lines
  import opened Lists
  import opened RawBreaks
  import opened Text

  datatype Filter = Filter(key: string, value: Json)

  datatype Op =
    | Save(key: string, records: seq<Json>)
    | Append(key: string, record: Json)
    | Delete(key: string)
    | LoadStream(key: string, limit: Option<int>)
    | Query(key: string, filters: seq<Filter>)

  datatype Answer = Ok | Found(records: seq<Json>) | StorageError

  type Streams = map<string, seq<Json>>

  /** Python's `==` on JSON values. */
  type Equality = (Json, Json) -> bool

  predicate KeyChar(c: char) {
    'a' <= c <= 'z' || 'A' <= c <= 'Z' || '0' <= c <= '9' || c == '_' || c == '-'
  }

  predicate LegalKey(key: string) {
    key != "" && forall i :: 0 <= i < |key| ==> KeyChar(key[i])
  }

  /** Every character that is no ASCII letter, digit, underscore or hyphen becomes an underscore. */
  function Sanitized(key: string): string {
    seq(|key|, i requires 0 <= i < |key| =>
      var n := key[i] as int;
      if 48 <= n <= 57 || 65 <= n <= 90 || 97 <= n <= 122 || n == 45 then key[i] else '_')
  }

  /** A key is legal exactly when it is not empty and sanitizing leaves it as it is. */
  lemma LegalKeyMeans(key: string)
    ensures LegalKey(key) <==> key != "" && Sanitized(key) == key
  {
    assert forall i :: 0 <= i < |key| ==> (KeyChar(key[i]) <==> Sanitized(key)[i] == key[i]);
  }

  /** Python's `records[-limit:]`, or all of them without a limit. */
  function Newest(records: seq<Json>, limit: Option<int>): seq<Json> {
    match limit
    case None => records
    case Some(n) =>
      var start := if n > 0 then |records| - n else -n;
      records[if start < 0 then 0 else if start > |records| then |records| else start..]
  }

  /** A positive limit gives the newest records, at most that many; 0 gives all of them, and a
      negative one skips that many of the oldest. */
  lemma LimitMeans(records: seq<Json>, n: int)
    ensures var r := Newest(records, Some(n));
            && |r| <= |records| && r == records[|records| - |r|..]
            && (n > 0 ==> |r| == if n < |records| then n else |records|)
            && (n == 0 ==> r == records)
            && (n < 0 ==> |r| == if -n < |records| then |records| + n else 0)
  {
  }

  /** `r.get(k)`: None, that is null, when the key is missing. */
  function Get(members: seq<Member>, key: string): Json {
    if members == [] then Null else if members[0].key == key then members[0].value else Get(members[1..], key)
  }

  function Satisfies(equal: Equality, filters: seq<Filter>): Json -> bool {
    (r: Json) => r.Obj? && forall i :: 0 <= i < |filters| ==> equal(Get(r.members, filters[i].key), filters[i].value)
  }

  function StreamOf(m: Streams, key: string): seq<Json> {
    if key in m then m[key] else []
  }

  function Perform(m: Streams, op: Op, equal: Equality): (Streams, Answer) {
    match op
    case Save(key, records) => (m[key := records], Ok)
    case Append(key, record) => (m[key := StreamOf(m, key) + [record]], Ok)
    case Delete(key) => (m - {key}, Ok)
    case LoadStream(key, limit) => (m, Found(Newest(StreamOf(m, key), limit)))
    case Query(key, filters) => (m, Found(Lists.Filter(StreamOf(m, key), Satisfies(equal, filters))))
  }

  function PerformAll(m: Streams, ops: seq<Op>, equal: Equality): (Streams, seq<Answer>)
    decreases |ops|
  {
    if ops == [] then (m, [])
    else
      var n := |ops| - 1;
      var (before, answers) := PerformAll(m, ops[..n], equal);
      var (after, answer) := Perform(before, ops[n], equal);
      (after, answers + [answer])
  }

  predicate Storable(r: Json) {
    IsRecord(r) && Clean(r)
  }

  predicate AllStorable(records: seq<Json>) {
    forall i :: 0 <= i < |records| ==> Storable(records[i])
  }

  /** A legal key, and records that JSON lines can frame. */
  predicate LegalOp(op: Op) {
    && LegalKey(op.key)
    && (op.Save? ==> AllStorable(op.records))
    && (op.Append? ==> Storable(op.record))
  }

  predicate AllStreamsStorable(m: Streams) {
    forall key :: key in m ==> AllStorable(m[key])
  }

  // ---- Which records a query finds ----

  /** The record holds this value under the key, where a missing key holds null. */
  predicate Holds(r: Json, key: string, value: Json) {
    && r.Obj?
    && ((value == Null && forall j :: 0 <= j < |r.members| ==> r.members[j].key != key)
        || exists i :: && 0 <= i < |r.members| && r.members[i] == Member(key, value)
                       && forall j :: 0 <= j < i ==> r.members[j].key != key)
  }

  lemma {:induction false} GetFinds(members: seq<Member>, key: string)
    ensures Holds(Obj(members), key, Get(members, key))
  {
    if members != [] && members[0].key != key {
      GetFinds(members[1..], key);
      var rest := members[1..];
      assert forall i :: 0 < i < |members| ==> members[i] == rest[i - 1];
      if exists j :: 0 <= j < |rest| && rest[j].key == key {
        var i :| && 0 <= i < |rest| && rest[i] == Member(key, Get(rest, key))
                 && forall j :: 0 <= j < i ==> rest[j].key != key;
        assert members[i + 1] == Member(key, Get(members, key));
      }
    } else if members != [] {
      assert members[0] == Member(key, members[0].value);
    }
  }

  lemma GetHolds(members: seq<Member>, key: string, value: Json)
    ensures Holds(Obj(members), key, value) <==> Get(members, key) == value
  {
    hide Get;
    GetFinds(members, key);
  }

  /** The record is an object that holds, for every filter, a value equal to the one asked for. */
  ghost predicate MeetsAll(r: Json, filters: seq<Filter>, equal: Equality) {
    r.Obj? && forall f :: f in filters ==> exists v :: Holds(r, f.key, v) && equal(v, f.value)
  }

  lemma SatisfiesAll(r: Json, filters: seq<Filter>, equal: Equality)
    ensures Satisfies(equal, filters)(r) <==> MeetsAll(r, filters, equal)
  {
    hide Holds, Get;
    if r.Obj? {
      forall f: Filter, v ensures Holds(r, f.key, v) <==> Get(r.members, f.key) == v {
        GetHolds(r.members, f.key, v);
      }
      forall f | f in filters
        ensures equal(Get(r.members, f.key), f.value) <==> exists v :: Holds(r, f.key, v) && equal(v, f.value)
      {
        assert Holds(r, f.key, Get(r.members, f.key));
      }
    }
  }

  /** A query answers with the records of the stream, at the positions `at`, that meet every filter, each once and
      in the order of the stream; it changes nothing. */
  lemma QueryMeans(m: Streams, key: string, filters: seq<Filter>, equal: Equality) returns (at: seq<nat>)
    ensures var (after, answer) := Perform(m, Query(key, filters), equal);
            var stream := if key in m then m[key] else [];
            && after == m && answer.Found? && |answer.records| == |at|
            && (forall i, j :: 0 <= i < j < |at| ==> at[i] < at[j])
            && (forall i :: 0 <= i < |at| ==> at[i] < |stream| && answer.records[i] == stream[at[i]])
            && forall k :: 0 <= k < |stream| ==> (k in at <==> MeetsAll(stream[k], filters, equal))
  {
    hide Satisfies, MeetsAll, Lists.Filter, Positions;
    var stream, p := StreamOf(m, key), Satisfies(equal, filters);
    forall k | 0 <= k < |stream| ensures p(stream[k]) <==> MeetsAll(stream[k], filters, equal) {
      SatisfiesAll(stream[k], filters, equal);
    }
    PositionsShape(stream, p);
    at := Positions(stream, p);
  }

  // ---- What a stored value reads as ----

  function Normalize(data: Json): seq<Json> {
    match data
    case Obj(_) => [data]
    case Arr(items) => items
    case _ => []
  }

  /** The lines that JSON lines writes for a saved value. */
  function LinesOf(data: Json): seq<Json> {
    if data.Arr? then data.items else [data]
  }

  ghost predicate NoRawBreaks(data: Json) {
    forall i :: 0 <= i < |LinesOf(data)| ==> Clean(LinesOf(data)[i])
  }

  /** Saving a list or an object and loading the stream gives the same records from all three backends
      exactly when every element of the list is an object and no string holds a raw separator. A bare
      string, number or word loads as nothing from all three, if the string holds no raw separator. */
  lemma SavedStreamsAgreeIff(loads: string -> Option<Json>, data: Json)
    requires ReadsBack(loads) && Honest(loads) && Valid(data) && (data.Str? ==> CleanText(data.text))
    ensures LoadLines(loads, FileText(Printed(LinesOf(data)))) == Normalize(data)
            <==> NoRawBreaks(data) && (data.Arr? ==> forall i :: 0 <= i < |data.items| ==> data.items[i].Obj?)
  {
    hide Print, ReadLine, Clean, SplitLines, FileText, Valid, ReadsBack, Honest, Objects, IsRecord, ReadLines;
    var values := LinesOf(data);
    PartsValid(data);
    FramingRoundTrip(Printed(values));
    PartsLexical(values);
    LoadedIsClean(loads, values);
    OnlyObjectsReadBack(loads, values);
    ObjectsOnly(values);
    if NoRawBreaks(data) {
      forall i | 0 <= i < |values| ensures NoBreak(Printed(values)[i]) { PrintNoBreak(values[i]); }
    }
    if !data.Arr? { OneLine(data); }
    if !data.Arr? && !data.Obj? { AtomIsClean(data); }
  }

  lemma PartsLexical(values: seq<Json>)
    requires forall i :: 0 <= i < |values| ==> Valid(values[i])
    ensures forall i :: 0 <= i < |values| ==> Lexical(values[i])
  {
  }

  lemma AtomIsClean(data: Json)
    requires !data.Arr? && !data.Obj? && (data.Str? ==> CleanText(data.text))
    ensures Clean(data)
  {
  }

  lemma OneLine(data: Json)
    ensures Objects([data]) == if data.Obj? then [data] else []
  {
    var none: seq<Json> := [];
    assert [data][..0] == none;
    assert Objects(none) == none;
  }

  lemma {:induction false} OnlyObjectsReadBack(loads: string -> Option<Json>, values: seq<Json>)
    requires ReadsBack(loads) && forall i :: 0 <= i < |values| ==> Valid(values[i])
    ensures ReadLines(loads, Printed(values)) == Objects(values)
    decreases |values|
  {
    hide ReadLine, Print, Valid, ReadsBack;
    if values != [] {
      var n := |values| - 1;
      PrintedLineReads(loads, values[n]);
      OnlyObjectsReadBack(loads, values[..n]);
      assert Printed(values)[..n] == Printed(values[..n]);
    }
  }

  function Objects(values: seq<Json>): seq<Json>
    decreases |values|
  {
    if values == [] then []
    else
      var n := |values| - 1;
      Objects(values[..n]) + if values[n].Obj? then [values[n]] else []
  }

  lemma {:induction false} ObjectsOnly(values: seq<Json>)
    ensures |Objects(values)| <= |values|
    ensures Objects(values) == values <==> forall i :: 0 <= i < |values| ==> values[i].Obj?
    decreases |values|
  {
    if values != [] {
      var n := |values| - 1;
      ObjectsOnly(values[..n]);
      assert values == values[..n] + [values[n]];
    }
  }

  lemma PartsValid(data: Json)
    requires Valid(data)
    ensures forall i :: 0 <= i < |LinesOf(data)| ==> Valid(LinesOf(data)[i]) && Lexical(LinesOf(data)[i])
  {
  }
}
