/** The three storage backends, each over its own representation. */
module Backends {
  import opened Json
  import opened Lines
  import opened Lists
  import opened Streams
  import opened Text

  // ---- One JSON value a key: files, or a dictionary in memory ----

  /** `append` to a value: a list grows, nothing becomes a list, anything else is an error. */
  function Appended(data: Option<Json>, record: Json): Option<Json> {
    match data
    case None => Some(Arr([record]))
    case Some(Null) => Some(Arr([record]))
    case Some(Arr(items)) => Some(Arr(items + [record]))
    case _ => None
  }

  function ValueAt(values: map<string, Json>, key: string): Option<Json> {
    if key in values then Some(values[key]) else None
  }

  function StreamAt(values: map<string, Json>, key: string): seq<Json> {
    if key in values then Normalize(values[key]) else []
  }

  /** The values hold exactly these streams, each as a list. */
  ghost predicate HoldsLists(values: map<string, Json>, m: Streams) {
    values.Keys == m.Keys && forall key :: key in m ==> values[key] == Arr(m[key])
  }

  class JSONBackend {
    var files: map<string, Json>

    constructor ()
      ensures files == map[]
    {
      files := map[];
    }

    method Save(key: string, data: Json) returns (answer: Answer)
      modifies this
      ensures LegalKey(key) ==> answer == Ok && files == old(files)[key := data]
      ensures !LegalKey(key) ==> answer == StorageError && files == old(files)
    {
      if !LegalKey(key) { return StorageError; }
      files := files[key := data];
      return Ok;
    }

    method Append(key: string, record: Json) returns (answer: Answer)
      modifies this
      ensures var next := Appended(ValueAt(old(files), key), record);
              if LegalKey(key) && next.Some? then answer == Ok && files == old(files)[key := next.value]
              else answer == StorageError && files == old(files)
    {
      if !LegalKey(key) { return StorageError; }
      var data := ValueAt(files, key);
      if data == None || data == Some(Null) {
        answer := Save(key, Arr([record]));
      } else if data.value.Arr? {
        answer := Save(key, Arr(data.value.items + [record]));
      } else {
        return StorageError;
      }
    }

    method Delete(key: string) returns (answer: Answer)
      modifies this
      ensures if LegalKey(key) then answer == Ok && files == old(files) - {key}
              else answer == StorageError && files == old(files)
    {
      if !LegalKey(key) { return StorageError; }
      files := files - {key};
      return Ok;
    }

    method LoadStream(key: string, limit: Option<int>) returns (answer: Answer)
      ensures answer == if LegalKey(key) then Found(Newest(StreamAt(files, key), limit)) else StorageError
    {
      if !LegalKey(key) { return StorageError; }
      return Found(Newest(StreamAt(files, key), limit));
    }

    method Query(key: string, filters: seq<Filter>, equal: Equality) returns (answer: Answer)
      ensures answer ==
              if LegalKey(key) then Found(Lists.Filter(StreamAt(files, key), Satisfies(equal, filters)))
              else StorageError
    {
      var all := LoadStream(key, None);
      if all.StorageError? { return all; }
      return Found(Lists.Filter(all.records, Satisfies(equal, filters)));
    }

    method Do(op: Op, equal: Equality, ghost m: Streams) returns (answer: Answer)
      requires HoldsLists(files, m) && LegalOp(op)
      modifies this
      ensures HoldsLists(files, Perform(m, op, equal).0) && answer == Perform(m, op, equal).1
    {
      hide LegalKey, AllStorable, Storable, Satisfies;
      match op {
        case Save(key, records) => answer := Save(key, Arr(records));
        case Append(key, record) => answer := Append(key, record);
        case Delete(key) => answer := Delete(key);
        case LoadStream(key, limit) => answer := LoadStream(key, limit);
        case Query(key, filters) => answer := Query(key, filters, equal);
      }
    }
  }

  class InMemoryBackend {
    var data: map<string, Json>

    constructor ()
      ensures data == map[]
    {
      data := map[];
    }

    /** Any key but the empty one will do. */
    method Save(key: string, value: Json) returns (answer: Answer)
      modifies this
      ensures key != "" ==> answer == Ok && data == old(data)[key := value]
      ensures key == "" ==> answer == StorageError && data == old(data)
    {
      if key == "" { return StorageError; }
      data := data[key := value];
      return Ok;
    }

    method Append(key: string, record: Json) returns (answer: Answer)
      modifies this
      ensures var next := Appended(ValueAt(old(data), key), record);
              if key != "" && next.Some? then answer == Ok && data == old(data)[key := next.value]
              else answer == StorageError && data == old(data)
    {
      if key == "" { return StorageError; }
      var items: seq<Json> := [];
      if key in data && data[key] != Null {
        if !data[key].Arr? { return StorageError; }
        items := data[key].items;
      }
      assert [] + [record] == [record];
      data := data[key := Arr(items + [record])];
      return Ok;
    }

    method Delete(key: string) returns (answer: Answer)
      modifies this
      ensures if key != "" then answer == Ok && data == old(data) - {key}
              else answer == StorageError && data == old(data)
    {
      if key == "" { return StorageError; }
      data := data - {key};
      return Ok;
    }

    method LoadStream(key: string, limit: Option<int>) returns (answer: Answer)
      ensures answer == if key != "" then Found(Newest(StreamAt(data, key), limit)) else StorageError
    {
      if key == "" { return StorageError; }
      return Found(Newest(StreamAt(data, key), limit));
    }

    method Query(key: string, filters: seq<Filter>, equal: Equality) returns (answer: Answer)
      ensures answer ==
              if key != "" then Found(Lists.Filter(StreamAt(data, key), Satisfies(equal, filters))) else StorageError
    {
      var all := LoadStream(key, None);
      if all.StorageError? { return all; }
      return Found(Lists.Filter(all.records, Satisfies(equal, filters)));
    }

    method Do(op: Op, equal: Equality, ghost m: Streams) returns (answer: Answer)
      requires HoldsLists(data, m) && LegalOp(op)
      modifies this
      ensures HoldsLists(data, Perform(m, op, equal).0) && answer == Perform(m, op, equal).1
    {
      hide AllStorable, Storable, Satisfies;
      match op {
        case Save(key, records) => answer := Save(key, Arr(records));
        case Append(key, record) => answer := Append(key, record);
        case Delete(key) => answer := Delete(key);
        case LoadStream(key, limit) => answer := LoadStream(key, limit);
        case Query(key, filters) => answer := Query(key, filters, equal);
      }
    }
  }

  // ---- Lines of text ----

  /** The files hold exactly these streams, one printed record a line. */
  ghost predicate HoldsLines(files: map<string, string>, m: Streams) {
    files.Keys == m.Keys && forall key :: key in m ==> files[key] == FileText(Printed(m[key]))
  }

  function TextAt(files: map<string, string>, key: string): string {
    if key in files then files[key] else ""
  }

  class JSONLBackend {
    const loads: string -> Option<Json>
    var files: map<string, string>

    constructor (loads: string -> Option<Json>)
      ensures this.loads == loads && files == map[]
    {
      this.loads, files := loads, map[];
    }

    method Save(key: string, data: Json) returns (answer: Answer)
      modifies this
      ensures LegalKey(key) ==> answer == Ok && files == old(files)[key := FileText(Printed(LinesOf(data)))]
      ensures !LegalKey(key) ==> answer == StorageError && files == old(files)
    {
      hide LegalKey, FileText;
      if !LegalKey(key) { return StorageError; }
      var records := LinesOf(data);
      var text, i := "", 0;
      assert Printed(records[..0]) == [];
      NothingWritten();
      while i < |records|
        invariant 0 <= i <= |records| && files == old(files)
        invariant text == FileText(Printed(records[..i]))
      {
        assert Printed(records[..i + 1]) == Printed(records[..i]) + [Print(records[i], false)];
        FileTextAppend(Printed(records[..i]), Print(records[i], false));
        text := text + (Print(records[i], false) + "\n");
        i := i + 1;
      }
      assert records[..i] == records;
      files := files[key := text];
      return Ok;
    }

    method Append(key: string, record: Json) returns (answer: Answer)
      modifies this
      ensures LegalKey(key) ==>
              answer == Ok && files == old(files)[key := TextAt(old(files), key) + (Print(record, false) + "\n")]
      ensures !LegalKey(key) ==> answer == StorageError && files == old(files)
    {
      if !LegalKey(key) { return StorageError; }
      files := files[key := TextAt(files, key) + (Print(record, false) + "\n")];
      return Ok;
    }

    method Delete(key: string) returns (answer: Answer)
      modifies this
      ensures if LegalKey(key) then answer == Ok && files == old(files) - {key}
              else answer == StorageError && files == old(files)
    {
      if !LegalKey(key) { return StorageError; }
      files := files - {key};
      return Ok;
    }

    method LoadStream(key: string, limit: Option<int>) returns (answer: Answer)
      ensures answer ==
              if LegalKey(key) then Found(Newest(LoadLines(loads, TextAt(files, key)), limit)) else StorageError
    {
      hide LegalKey, ReadLine, SplitLines;
      if !LegalKey(key) { return StorageError; }
      var lines := SplitLines(TextAt(files, key));
      var records: seq<Json>, i := [], 0;
      while i < |lines|
        invariant 0 <= i <= |lines|
        invariant records == ReadLines(loads, lines[..i])
      {
        assert lines[..i + 1][..i] == lines[..i];
        var record := ReadLine(loads, lines[i]);
        if record.Some? {
          records := records + [record.value];
        }
        i := i + 1;
      }
      assert lines[..i] == lines;
      return Found(Newest(records, limit));
    }

    method Query(key: string, filters: seq<Filter>, equal: Equality) returns (answer: Answer)
      ensures answer ==
              if LegalKey(key) then
                Found(Lists.Filter(LoadLines(loads, TextAt(files, key)), Satisfies(equal, filters)))
              else StorageError
    {
      hide LegalKey, LoadLines;
      var all := LoadStream(key, None);
      if all.StorageError? { return all; }
      return Found(Lists.Filter(all.records, Satisfies(equal, filters)));
    }

    method Do(op: Op, equal: Equality, ghost m: Streams) returns (answer: Answer)
      requires ReadsBack(loads) && HoldsLines(files, m) && AllStreamsStorable(m) && LegalOp(op)
      modifies this
      ensures HoldsLines(files, Perform(m, op, equal).0) && answer == Perform(m, op, equal).1
    {
      hide LegalKey, AllStorable, Storable, Satisfies, LoadLines, ReadsBack, FileText, Print;
      match op {
        case Save(key, records) => answer := Save(key, Arr(records));
        case Append(key, record) =>
          assert Printed(StreamOf(m, key) + [record]) == Printed(StreamOf(m, key)) + [Print(record, false)];
          FileTextAppend(Printed(StreamOf(m, key)), Print(record, false));
          assert Printed([]) == [];
          NothingWritten();
          answer := Append(key, record);
        case Delete(key) => answer := Delete(key);
        case LoadStream(key, limit) =>
          StreamReadsBack(m, key);
          answer := LoadStream(key, limit);
        case Query(key, filters) =>
          StreamReadsBack(m, key);
          answer := Query(key, filters, equal);
      }
    }

    lemma StreamReadsBack(m: Streams, key: string)
      requires ReadsBack(loads) && HoldsLines(files, m) && AllStreamsStorable(m)
      ensures LoadLines(loads, TextAt(files, key)) == StreamOf(m, key)
    {
      hide ReadsBack, LoadLines, FileText, Print, IsRecord, Clean;
      var records := StreamOf(m, key);
      assert AllStorable(records);
      assert forall i :: 0 <= i < |records| ==> Storable(records[i]);
      StreamRoundTrip(loads, records);
      assert Printed([]) == [];
      NothingWritten();
    }
  }

  lemma NothingWritten()
    ensures FileText([]) == ""
  {
  }

  lemma PerformKeepsStorable(m: Streams, op: Op, equal: Equality)
    requires AllStreamsStorable(m) && LegalOp(op)
    ensures AllStreamsStorable(Perform(m, op, equal).0)
  {
    hide Storable, LegalKey;
  }

  /** The same operations on the three backends give the same answers, one by one: those of a map
      from key to records. */
  method DoAll(json: JSONBackend, jsonl: JSONLBackend, memory: InMemoryBackend, ops: seq<Op>, equal: Equality)
    returns (fromJson: seq<Answer>, fromJsonl: seq<Answer>, fromMemory: seq<Answer>)
    requires json.files == map[] && jsonl.files == map[] && memory.data == map[]
    requires ReadsBack(jsonl.loads) && forall i :: 0 <= i < |ops| ==> LegalOp(ops[i])
    modifies json, jsonl, memory
    ensures fromJson == fromJsonl == fromMemory == PerformAll(map[], ops, equal).1
  {
    hide ReadsBack, HoldsLists, HoldsLines, AllStreamsStorable, LegalOp, Perform;
    fromJson, fromJsonl, fromMemory := [], [], [];
    ghost var m: Streams := map[];
    EmptyHolds();
    var i := 0;
    while i < |ops|
      invariant 0 <= i <= |ops|
      invariant (m, fromJson) == PerformAll(map[], ops[..i], equal) && fromJsonl == fromJson && fromMemory == fromJson
      invariant HoldsLists(json.files, m) && HoldsLines(jsonl.files, m) && HoldsLists(memory.data, m)
                && AllStreamsStorable(m)
    {
      assert ops[..i + 1][..i] == ops[..i];
      PerformKeepsStorable(m, ops[i], equal);
      var a := json.Do(ops[i], equal, m);
      var b := jsonl.Do(ops[i], equal, m);
      var c := memory.Do(ops[i], equal, m);
      m := Perform(m, ops[i], equal).0;
      fromJson, fromJsonl, fromMemory := fromJson + [a], fromJsonl + [b], fromMemory + [c];
      i := i + 1;
    }
    assert ops[..i] == ops;
  }

  lemma EmptyHolds()
    ensures HoldsLists(map[], map[]) && HoldsLines(map[], map[]) && AllStreamsStorable(map[])
  {
  }
}
