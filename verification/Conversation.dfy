/** Conversation messages in the OpenAI wire form, and the block grammar that chat APIs
    demand of them: a tool result may only follow the assistant message whose call it answers.
    A missing or null `content` is the empty string. */
module Conversation {
  datatype Call = Call(id: string, name: string, args: string)

  datatype Message =
    | User(content: string)
    | Assistant(content: string, calls: seq<Call>)
    | ToolResult(callId: string, content: string)

  predicate Plain(m: Message) {
    m.Assistant? && m.calls == []
  }

  function CallsOf(m: Message): seq<Call> {
    if m.Assistant? then m.calls else []
  }

  function CallIds(calls: seq<Call>): seq<string> {
    seq(|calls|, i requires 0 <= i < |calls| => calls[i].id)
  }

  function AnsweredIds(ms: seq<Message>): seq<string> {
    seq(|ms|, i requires 0 <= i < |ms| => if ms[i].ToolResult? then ms[i].callId else "")
  }

  /** `results` are tool results, one for each call, in any order. */
  ghost predicate Answers(results: seq<Message>, calls: seq<Call>) {
    && |results| == |calls|
    && (forall m :: m in results ==> m.ToolResult?)
    && multiset(AnsweredIds(results)) == multiset(CallIds(calls))
  }

  function BlockSize(m: Message): nat {
    1 + |CallsOf(m)|
  }

  /** A sequence of blocks: a user message, a plain assistant message, or an assistant message
      with k calls followed at once by exactly its k results. */
  ghost predicate Blocks(ms: seq<Message>)
    decreases |ms|
  {
    ms == [] || (LeadingBlock(ms) && Blocks(ms[BlockSize(ms[0])..]))
  }

  ghost predicate LeadingBlock(ms: seq<Message>) {
    && |ms| > 0
    && !ms[0].ToolResult?
    && BlockSize(ms[0]) <= |ms|
    && Answers(ms[1..BlockSize(ms[0])], CallsOf(ms[0]))
  }

  /** Opens with a user message, or with one plain greeting and then a user message. */
  predicate Opens(ms: seq<Message>) {
    || (|ms| > 0 && ms[0].User?)
    || (|ms| > 1 && Plain(ms[0]) && ms[1].User?)
  }

  ghost predicate History(ms: seq<Message>) {
    Opens(ms) && Blocks(ms)
  }

  predicate NoAdjacentAssistants(ms: seq<Message>) {
    forall i :: 0 <= i < |ms| - 1 ==> !(ms[i].Assistant? && ms[i + 1].Assistant?)
  }

  ghost predicate Subsequence<T>(a: seq<T>, b: seq<T>)
    decreases |b|
  {
    a == [] || (b != [] && ((a[0] == b[0] && Subsequence(a[1..], b[1..])) || Subsequence(a, b[1..])))
  }

  lemma LeadingBlockConcat(a: seq<Message>, b: seq<Message>)
    requires LeadingBlock(a)
    ensures LeadingBlock(a + b)
    ensures (a + b)[0] == a[0]
    ensures (a + b)[BlockSize(a[0])..] == a[BlockSize(a[0])..] + b
  {
    var k := BlockSize(a[0]);
    assert (a + b)[1..k] == a[1..k];
  }

  lemma {:induction false} BlocksConcat(a: seq<Message>, b: seq<Message>)
    requires Blocks(a) && Blocks(b)
    ensures Blocks(a + b)
    decreases |a|
  {
    if a == [] {
      assert a + b == b;
    } else {
      var k := BlockSize(a[0]);
      BlocksConcat(a[k..], b);
      LeadingBlockConcat(a, b);
    }
  }

  lemma {:induction false} SubsequenceRefl<T>(a: seq<T>)
    ensures Subsequence(a, a)
    decreases |a|
  {
    if a != [] {
      SubsequenceRefl(a[1..]);
    }
  }

  lemma {:induction false} SubsequenceSkip<T>(a: seq<T>, skip: seq<T>, b: seq<T>)
    requires Subsequence(a, b)
    ensures Subsequence(a, skip + b)
    decreases |skip|
  {
    if skip == [] {
      assert skip + b == b;
    } else {
      assert (skip + b)[1..] == skip[1..] + b;
      SubsequenceSkip(a, skip[1..], b);
    }
  }

  lemma {:induction false} SubsequenceKeep<T>(p: seq<T>, a: seq<T>, b: seq<T>)
    requires Subsequence(a, b)
    ensures Subsequence(p + a, p + b)
    decreases |p|
  {
    if p == [] {
      assert p + a == a && p + b == b;
    } else {
      assert (p + a)[1..] == p[1..] + a && (p + b)[1..] == p[1..] + b;
      SubsequenceKeep(p[1..], a, b);
    }
  }

  lemma {:induction false} SubsequenceTrans<T>(a: seq<T>, b: seq<T>, c: seq<T>)
    requires Subsequence(a, b) && Subsequence(b, c)
    ensures Subsequence(a, c)
    decreases |c|
  {
    if a != [] {
      if b[0] == c[0] && Subsequence(b[1..], c[1..]) {
        if a[0] == b[0] && Subsequence(a[1..], b[1..]) {
          SubsequenceTrans(a[1..], b[1..], c[1..]);
        } else {
          SubsequenceTrans(a, b[1..], c[1..]);
        }
      } else {
        SubsequenceTrans(a, b, c[1..]);
      }
    }
  }
}
