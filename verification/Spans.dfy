/** The tracer's thread-local span stacks. The top of a stack is its first element, as in a deque used with push,
  * peek and pop. Spans are compared by identity.
  */
module Spans {
  import opened Prelude

  type Thread = nat

  type Stacks = map<Thread, seq<Span>>

  function StackOf(stacks: Stacks, t: Thread): seq<Span> {
    if t in stacks then stacks[t] else []
  }

  // ---------------------------------------------------------------- operations as values

  datatype Op = Start(thread: Thread, span: Span) | End(thread: Thread, span: Span)

  /** A new span takes its trace and its parent from the top of the starting thread's stack. */
  predicate Enabled(stacks: Stacks, op: Op) {
    match op
    case Start(t, s) =>
      var stack := StackOf(stacks, t);
      && (stack != [] ==> s.traceId == stack[0].traceId)
      && s.parentId == (if stack == [] then "" else stack[0].spanId)
      && forall u <- stacks :: s !in stacks[u]
    case End(_, _) => true
  }

  /** What an operation does to the stack of its own thread. */
  function Next(stack: seq<Span>, op: Op): seq<Span> {
    match op
    case Start(_, s) => [s] + stack
    case End(_, s) => if stack != [] && stack[0] == s then stack[1..] else stack
  }

  function Step(stacks: Stacks, op: Op): Stacks {
    var stack := Next(StackOf(stacks, op.thread), op);
    if op.End? && stack == [] then stacks - {op.thread} else stacks[op.thread := stack]
  }

  function Run(stacks: Stacks, ops: seq<Op>): Stacks
    decreases |ops|
  {
    if ops == [] then stacks else Run(Step(stacks, ops[0]), ops[1..])
  }

  predicate Legal(stacks: Stacks, ops: seq<Op>)
    decreases |ops|
  {
    ops == [] || (Enabled(stacks, ops[0]) && Legal(Step(stacks, ops[0]), ops[1..]))
  }

  // ---------------------------------------------------------------- the classes

  class Span {
    const traceId: string
    const spanId: string
    const parentId: string
    const name: string
    const startNanos: int
    var endNanos: int
    var attrs: map<string, string>

    constructor (traceId: string, spanId: string, parentId: string, name: string, startNanos: int)
      ensures this.traceId == traceId && this.spanId == spanId && this.parentId == parentId && this.name == name
      ensures this.startNanos == startNanos && endNanos == 0 && attrs == map[]
    {
      this.traceId, this.spanId, this.parentId := traceId, spanId, parentId;
      this.name, this.startNanos, endNanos, attrs := name, startNanos, 0, map[];
    }

    method SetAttr(k: Option<string>, v: Option<string>)
      modifies this`attrs
      ensures attrs == if k.Some? && v.Some? then old(attrs)[k.value := v.value] else old(attrs)
    {
      if k.Some? && v.Some? {
        attrs := attrs[k.value := v.value];
      }
    }
  }

  class SpanContext {
    var stacks: Stacks

    constructor ()
      ensures stacks == map[]
    {
      stacks := map[];
    }

    /** The thread's stack, created when it is first asked for. */
    method Get(t: Thread) returns (stack: seq<Span>)
      modifies this
      ensures stack == StackOf(old(stacks), t) && stacks == old(stacks)[t := stack]
    {
      if t !in stacks {
        stacks := stacks[t := []];
      }
      stack := stacks[t];
    }

    method Current(t: Thread) returns (top: Span?)
      modifies this
      ensures var stack := StackOf(old(stacks), t);
              stacks == old(stacks)[t := stack] && top == if stack == [] then null else stack[0]
    {
      var stack := Get(t);
      top := if stack == [] then null else stack[0];
    }

    method Push(t: Thread, s: Span)
      modifies this
      ensures stacks == Step(old(stacks), Start(t, s))
    {
      var stack := Get(t);
      stacks := stacks[t := [s] + stack];
    }

    method Pop(t: Thread, s: Span)
      modifies this
      ensures stacks == Step(old(stacks), End(t, s))
    {
      var stack := Get(t);
      if stack != [] && stack[0] == s {
        stack := stack[1..];
        stacks := stacks[t := stack];
      }
      if stack == [] {
        stacks := stacks - {t};
      }
    }
  }

  /** What the exporter has been handed, in order. */
  class Exporter {
    var spans: seq<Span>

    method Export(s: Span)
      modifies this
      ensures spans == old(spans) + [s]
    {
      spans := spans + [s];
    }
  }

  class Tracer {
    const context: SpanContext
    var exporter: Exporter

    constructor (context: SpanContext, exporter: Exporter)
      ensures this.context == context && this.exporter == exporter
    {
      this.context, this.exporter := context, exporter;
    }

    method SetExporter(e: Exporter?)
      modifies this
      ensures exporter == if e == null then old(exporter) else e
    {
      if e != null {
        exporter := e;
      }
    }

    /** `trace` and `id` are the random identifiers this call draws. */
    method StartSpan(t: Thread, name: string, trace: string, id: string, now: int) returns (s: Span)
      modifies context
      ensures fresh(s) && s.name == name && s.spanId == id && s.startNanos == now && s.attrs == map[]
      ensures Enabled(old(context.stacks), Start(t, s))
      ensures context.stacks == Step(old(context.stacks), Start(t, s))
      ensures StackOf(old(context.stacks), t) == [] ==> s.traceId == trace
    {
      var parent := context.Current(t);
      var traceId := if parent != null then parent.traceId else trace;
      var parentId := if parent != null then parent.spanId else "";
      s := new Span(traceId, id, parentId, name, now);
      context.Push(t, s);
    }

    /** Span.end: stamp, pop, export; a second end stamps and exports again. */
    method EndSpan(t: Thread, s: Span, now: int)
      modifies s`endNanos, context, exporter
      ensures s.endNanos == now
      ensures context.stacks == Step(old(context.stacks), End(t, s))
      ensures exporter.spans == old(exporter.spans) + [s]
    {
      s.endNanos := now;
      context.Pop(t, s);
      exporter.Export(s);
    }

    /** `error` is the class name and the message of the exception, if there was one. */
    method EndHttpSpan(t: Thread, s: Span?, error: Option<(string, Option<string>)>, now: int)
      modifies s, context, exporter
      ensures s == null ==> context.stacks == old(context.stacks) && exporter.spans == old(exporter.spans)
      ensures s != null ==>
                && s.endNanos == now
                && context.stacks == Step(old(context.stacks), End(t, s))
                && exporter.spans == old(exporter.spans) + [s]
                && s.attrs == match error {
                     case None => old(s.attrs)
                     case Some((kind, None)) => old(s.attrs)["error" := kind]
                     case Some((kind, Some(msg))) => old(s.attrs)["error" := kind]["error.msg" := msg]
                   }
    {
      if s == null {
        return;
      }
      if error.Some? {
        s.SetAttr(Some("error"), Some(error.value.0));
        if error.value.1.Some? {
          s.SetAttr(Some("error.msg"), error.value.1);
        }
      }
      EndSpan(t, s, now);
    }
  }

  // ---------------------------------------------------------------- laws of the stacks

  /** The spanId under position `k`; "" under the bottom. */
  function Beneath(stack: seq<Span>, k: nat): string {
    if k + 1 < |stack| then stack[k + 1].spanId else ""
  }

  /** One trace on a stack, and every span the child of the one beneath it. */
  predicate Linked(stack: seq<Span>) {
    && (forall k :: 0 <= k < |stack| ==> stack[k].traceId == stack[0].traceId)
    && (forall k :: 0 <= k < |stack| ==> stack[k].parentId == Beneath(stack, k))
  }

  /** Every stack is linked, and no span is on two places. */
  predicate Inv(stacks: Stacks) {
    && (forall t <- stacks :: Linked(stacks[t]))
    && (forall t <- stacks :: NoRepeats(stacks[t]))
    && (forall t <- stacks, u <- stacks, s :: s in stacks[t] && s in stacks[u] ==> t == u)
  }

  lemma LinkedPush(s: Span, stack: seq<Span>)
    requires Linked(stack)
    requires stack != [] ==> s.traceId == stack[0].traceId
    requires s.parentId == if stack == [] then "" else stack[0].spanId
    ensures Linked([s] + stack)
  {
    var pushed := [s] + stack;
    forall k | 0 <= k < |pushed|
      ensures pushed[k].traceId == s.traceId
      ensures pushed[k].parentId == Beneath(pushed, k)
    {
      if k > 0 {
        assert pushed[k] == stack[k - 1];
        assert Beneath(pushed, k) == Beneath(stack, k - 1);
      }
    }
  }

  lemma LinkedPop(stack: seq<Span>)
    requires Linked(stack) && stack != []
    ensures Linked(stack[1..])
  {
    var rest := stack[1..];
    forall k | 0 <= k < |rest|
      ensures rest[k].traceId == rest[0].traceId
      ensures rest[k].parentId == Beneath(rest, k)
    {
      assert rest[k] == stack[k + 1] && rest[0] == stack[1];
      assert Beneath(rest, k) == Beneath(stack, k + 1);
    }
  }

  predicate NoRepeats(stack: seq<Span>) {
    forall i, j :: 0 <= i < j < |stack| ==> stack[i] != stack[j]
  }

  lemma NextStaysLinked(stacks: Stacks, op: Op)
    requires Inv(stacks) && Enabled(stacks, op)
    ensures var stack := StackOf(stacks, op.thread);
            var next := Next(stack, op);
            Linked(next) && NoRepeats(next) && forall s <- next :: s in stack || op == Start(op.thread, s)
  {
    var stack := StackOf(stacks, op.thread);
    var next := Next(stack, op);
    assert Linked(stack) && NoRepeats(stack);
    if op.Start? {
      hide Linked;
      LinkedPush(op.span, stack);
      assert op.span !in stack;
    } else if next != stack {
      hide Linked;
      LinkedPop(stack);
    }
  }

  lemma StepKeepsInv(stacks: Stacks, op: Op)
    requires Inv(stacks) && Enabled(stacks, op)
    ensures Inv(Step(stacks, op))
  {
    NextStaysLinked(stacks, op);
    hide Linked, NoRepeats, Next;
  }

  /** In any run, with ends out of order, repeated or on another thread, every stack stays linked. */
  lemma {:induction false} StacksStayLinked(stacks: Stacks, ops: seq<Op>, t: Thread)
    requires Inv(stacks) && Legal(stacks, ops)
    ensures Inv(Run(stacks, ops)) && Linked(StackOf(Run(stacks, ops), t))
    decreases |ops|
  {
    if ops != [] {
      StepKeepsInv(stacks, ops[0]);
      StacksStayLinked(Step(stacks, ops[0]), ops[1..], t);
    }
  }

  /** The operations of one thread. */
  function On(ops: seq<Op>, t: Thread): seq<Op> {
    if ops == [] then [] else (if ops[0].thread == t then [ops[0]] else []) + On(ops[1..], t)
  }

  /** The effect of one thread's own operations on its stack. */
  function Local(stack: seq<Span>, ops: seq<Op>): seq<Span>
    decreases |ops|
  {
    if ops == [] then stack else Local(Next(stack, ops[0]), ops[1..])
  }

  /** Threads do not disturb each other's stacks, not even by ending each other's spans. */
  lemma {:induction false} ThreadsAreIndependent(stacks: Stacks, ops: seq<Op>, t: Thread)
    ensures StackOf(Run(stacks, ops), t) == Local(StackOf(stacks, t), On(ops, t))
    decreases |ops|
  {
    if ops != [] {
      ThreadsAreIndependent(Step(stacks, ops[0]), ops[1..], t);
      if ops[0].thread == t {
        assert On(ops, t)[1..] == On(ops[1..], t);
      } else {
        assert On(ops, t) == On(ops[1..], t);
      }
    }
  }

  /** Every start is closed by the end of the same span, inside out. */
  datatype Nesting = Done | Nest(span: Span, inner: Nesting, after: Nesting)

  function Flat(n: Nesting, t: Thread): seq<Op> {
    match n
    case Done => []
    case Nest(s, inner, after) => [Start(t, s)] + Flat(inner, t) + [End(t, s)] + Flat(after, t)
  }

  lemma {:induction false} LocalSplits(stack: seq<Span>, a: seq<Op>, b: seq<Op>)
    ensures Local(stack, a + b) == Local(Local(stack, a), b)
    decreases |a|
  {
    if a == [] {
      assert a + b == b;
    } else {
      assert (a + b)[1..] == a[1..] + b;
      LocalSplits(Next(stack, a[0]), a[1..], b);
    }
  }

  lemma {:induction false} NestingRestores(stack: seq<Span>, n: Nesting, t: Thread)
    ensures Local(stack, Flat(n, t)) == stack
    decreases n
  {
    match n
    case Done =>
    case Nest(s, inner, after) => {
      var start, end := [Start(t, s)], [End(t, s)];
      var pushed := [s] + stack;
      assert start[1..] == [] && end[1..] == [];
      assert Local(stack, start) == pushed;
      NestingRestores(pushed, inner, t);
      assert pushed[1..] == stack;
      assert Local(pushed, end) == stack;
      NestingRestores(stack, after, t);
      LocalSplits(stack, start, Flat(inner, t));
      LocalSplits(stack, start + Flat(inner, t), end);
      LocalSplits(stack, start + Flat(inner, t) + end, Flat(after, t));
    }
  }

  /** Whatever the other threads do, a properly nested thread gets back the stack it started from. */
  lemma NestedThreadsRestoreTheirStack(stacks: Stacks, ops: seq<Op>, t: Thread, n: Nesting)
    requires On(ops, t) == Flat(n, t)
    ensures StackOf(Run(stacks, ops), t) == StackOf(stacks, t)
  {
    ThreadsAreIndependent(stacks, ops, t);
    NestingRestores(StackOf(stacks, t), n, t);
  }

  /** Some end of `s` on thread `t` finds it on top. */
  predicate Removed(stacks: Stacks, ops: seq<Op>, t: Thread, s: Span)
    decreases |ops|
  {
    ops != [] && (
      || (ops[0] == End(t, s) && StackOf(stacks, t) != [] && StackOf(stacks, t)[0] == s)
      || Removed(Step(stacks, ops[0]), ops[1..], t, s))
  }

  lemma RemovedMeansGone(stacks: Stacks, op: Op, t: Thread, s: Span)
    requires Inv(stacks) && Enabled(stacks, op) && s in StackOf(stacks, t)
    ensures s in StackOf(Step(stacks, op), t) <==>
            !(op == End(t, s) && StackOf(stacks, t)[0] == s)
  {
    var stack := StackOf(stacks, t);
    var k :| 0 <= k < |stack| && stack[k] == s;
    if op.thread == t {
      if op.End? {
        if stack[0] == op.span {
          assert k > 0 ==> stack[1..][k - 1] == s;
        }
      } else {
        assert ([op.span] + stack)[k + 1] == s;
      }
    }
  }

  predicate NotRestarted(ops: seq<Op>, s: Span) {
    forall k :: 0 <= k < |ops| ==> !(ops[k].Start? && ops[k].span == s)
  }

  lemma {:induction false} GoneStaysGone(stacks: Stacks, ops: seq<Op>, t: Thread, s: Span)
    requires s !in StackOf(stacks, t) && NotRestarted(ops, s)
    ensures s !in StackOf(Run(stacks, ops), t)
    decreases |ops|
  {
    if ops != [] {
      assert ops[0].Start? ==> ops[0].span != s;
      GoneStaysGone(Step(stacks, ops[0]), ops[1..], t, s);
    }
  }

  /** An open span leaves its stack exactly when it is ended on its own thread while on top: an end out of order
    * leaves it there for good, as the ancestor of everything started on the thread afterwards. */
  lemma {:induction false} OnlyAnEndOnTopRemoves(stacks: Stacks, ops: seq<Op>, t: Thread, s: Span)
    requires Inv(stacks) && Legal(stacks, ops) && s in StackOf(stacks, t) && NotRestarted(ops, s)
    ensures s in StackOf(Run(stacks, ops), t) <==> !Removed(stacks, ops, t, s)
    decreases |ops|
  {
    if ops != [] {
      var next := Step(stacks, ops[0]);
      StepKeepsInv(stacks, ops[0]);
      RemovedMeansGone(stacks, ops[0], t, s);
      assert NotRestarted(ops[1..], s);
      if s in StackOf(next, t) {
        OnlyAnEndOnTopRemoves(next, ops[1..], t, s);
      } else {
        GoneStaysGone(next, ops[1..], t, s);
      }
    }
  }

  /** Ending an outer span first leaks it, around anything properly nested. */
  lemma OutOfOrderEndsLeak(stack: seq<Span>, t: Thread, outer: Span, inner: Span, x: Nesting, y: Nesting)
    requires outer != inner
    ensures Local(stack, [Start(t, outer), Start(t, inner)] + Flat(x, t) + [End(t, outer)]
                         + Flat(y, t) + [End(t, inner)])
            == [outer] + stack
  {
    var open, early, late := [Start(t, outer), Start(t, inner)], [End(t, outer)], [End(t, inner)];
    var both := [inner, outer] + stack;
    assert both[1..] == [outer] + stack;
    BothAreOpen(stack, t, outer, inner);
    OneStep(both, early[0]);
    OneStep(both, late[0]);
    NestingRestores(both, x, t);
    NestingRestores(both, y, t);
    hide Local, Flat, Next;
    NothingHappens(stack, open, Flat(x, t), both);
    NothingHappens(stack, open + Flat(x, t), early, both);
    NothingHappens(stack, open + Flat(x, t) + early, Flat(y, t), both);
    LocalSplits(stack, open + Flat(x, t) + early + Flat(y, t), late);
  }

  lemma NothingHappens(stack: seq<Span>, ops: seq<Op>, more: seq<Op>, after: seq<Span>)
    requires Local(stack, ops) == after == Local(after, more)
    ensures Local(stack, ops + more) == after
  {
    LocalSplits(stack, ops, more);
  }

  lemma OneStep(stack: seq<Span>, op: Op)
    ensures Local(stack, [op]) == Next(stack, op)
  {
    assert [op][1..] == [];
  }

  lemma BothAreOpen(stack: seq<Span>, t: Thread, outer: Span, inner: Span)
    ensures Local(stack, [Start(t, outer), Start(t, inner)]) == [inner, outer] + stack
  {
    var open := [Start(t, outer), Start(t, inner)];
    assert open[1..] == [Start(t, inner)] && open[1..][1..] == [];
    assert [inner] + ([outer] + stack) == [inner, outer] + stack;
    assert Local([outer] + stack, open[1..]) == Local([inner, outer] + stack, []);
  }

  /** No thread holds an empty stack. */
  predicate Tidy(stacks: Stacks) {
    forall t <- stacks :: stacks[t] != []
  }

  lemma {:induction false} RunsStayTidy(stacks: Stacks, ops: seq<Op>)
    requires Tidy(stacks)
    ensures Tidy(Run(stacks, ops))
    decreases |ops|
  {
    if ops != [] {
      RunsStayTidy(Step(stacks, ops[0]), ops[1..]);
    }
  }

  /** A thread that works through properly nested spans leaves no thread-local behind that was not there before,
    * whatever the other threads do. */
  lemma NestedThreadsLeaveNothingBehind(stacks: Stacks, ops: seq<Op>, t: Thread, n: Nesting)
    requires Tidy(stacks) && On(ops, t) == Flat(n, t)
    ensures t in Run(stacks, ops) <==> t in stacks
  {
    RunsStayTidy(stacks, ops);
    NestedThreadsRestoreTheirStack(stacks, ops, t, n);
  }
}
