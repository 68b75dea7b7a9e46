// The stub generator's output: a replaceable `out` sink, and the combinators that redirect
// it for the length of an action (`withOutput`), indent it (`indent`, `block`), or buffer it
// so that a failing action leaves no partial text behind (`transaction`).

module StubOutput {

  /**
   * What `out` currently is: the initial sink that throws `IllegalStateException`, the
   * document being generated, the line list of the `k`-th open transaction, or another sink
   * behind a four-space indent.
   */
  datatype Sink = Unset | Document | Buffer(k: nat) | Indented(inner: Sink)

  /** Whether writing to the sink succeeds (it does not end in the throwing sink). */
  predicate Live(sink: Sink)
  {
    match sink
    case Unset => false
    case Document => true
    case Buffer(_) => true
    case Indented(inner) => Live(inner)
  }

  /** Every transaction buffer the sink names is open. */
  predicate SinkOk(sink: Sink, open: nat)
  {
    match sink
    case Unset => true
    case Document => true
    case Buffer(k) => k < open
    case Indented(inner) => SinkOk(inner, open)
  }

  lemma {:induction false} SinkOkMore(sink: Sink, open: nat, more: nat)
    requires SinkOk(sink, open) && open <= more
    ensures SinkOk(sink, more)
  {
    if sink.Indented? {
      SinkOkMore(sink.inner, open, more);
    }
  }

  /** Everything the sinks can write to: the document and the open transaction buffers. */
  datatype Store = Store(document: seq<string>, buffers: seq<seq<string>>)

  const IndentPrefix := "    "

  /** Where one line written to `sink` ends up. */
  function Deliver(sink: Sink, line: string, st: Store): (r: Store)
    ensures |r.buffers| == |st.buffers|
    ensures !Live(sink) ==> r == st
  {
    match sink
    case Unset => st
    case Document => st.(document := st.document + [line])
    case Buffer(k) => if k < |st.buffers| then st.(buffers := st.buffers[k := st.buffers[k] + [line]]) else st
    case Indented(inner) => Deliver(inner, IndentPrefix + line, st)
  }

  /** Lines written to `sink` one after the other. */
  function DeliverAll(sink: Sink, lines: seq<string>, st: Store): (r: Store)
    ensures |r.buffers| == |st.buffers|
    decreases |lines|
  {
    if |lines| == 0 then st
    else
      var n := |lines| - 1;
      Deliver(sink, lines[n], DeliverAll(sink, lines[..n], st))
  }

  /** Each line with four spaces in front. */
  function Prefixed(lines: seq<string>): (r: seq<string>)
    ensures |r| == |lines|
    ensures forall i :: 0 <= i < |lines| ==> r[i] == IndentPrefix + lines[i]
    decreases |lines|
  {
    if |lines| == 0 then [] else Prefixed(lines[..|lines| - 1]) + [IndentPrefix + lines[|lines| - 1]]
  }

  /**
   * What a generating action does with the output: writes a line, throws, runs two
   * actions in turn, or runs an action through `block`, `indent` or `transaction`;
   * `Attempt` is the `try { … } catch (e: Throwable)` each declaration is generated in.
   */
  datatype Action =
    | Out(line: string)
    | Throw
    | Then(first: Action, second: Action)
    | Block(header: string, body: Action)
    | Indent(body: Action)
    | Transaction(body: Action)
    | Attempt(body: Action)

  /** The result of an action: the lines it writes to the sink it starts with, and whether it completes. */
  datatype Outcome = Outcome(lines: seq<string>, completed: bool)

  /**
   * The lines an action writes to the `out` current when it starts, when that sink is
   * `live` or throws, and whether the action completes rather than throws.
   */
  function Emitted(a: Action, live: bool): Outcome
  {
    match a
    case Out(line) => if live then Outcome([line], true) else Outcome([], false)
    case Throw => Outcome([], false)
    case Then(first, second) =>
      var x := Emitted(first, live);
      if !x.completed then x
      else
        var y := Emitted(second, live);
        Outcome(x.lines + y.lines, y.completed)
    case Block(header, body) =>
      if !live then Outcome([], false)
      else
        var b := Emitted(body, live);
        if b.completed then Outcome([header + " {"] + Prefixed(b.lines) + ["}"], true)
        else Outcome([header + " {"] + Prefixed(b.lines), false)
    case Indent(body) =>
      var b := Emitted(body, live);
      Outcome(Prefixed(b.lines), b.completed)
    case Transaction(body) =>
      var b := Emitted(body, true);
      if !b.completed then Outcome([], false)
      else if live then b
      else Outcome([], |b.lines| == 0)
    case Attempt(body) => Outcome(Emitted(body, live).lines, true)
  }

  // ---------------------------------------------------------------------------
  // Properties of the combinators

  /** A throwing sink receives nothing, whatever the action. */
  lemma {:induction false} DeadSinkGetsNothing(a: Action)
    ensures Emitted(a, false).lines == []
  {
    match a
    case Out(_) =>
    case Throw =>
    case Then(first, second) =>
      DeadSinkGetsNothing(first);
      DeadSinkGetsNothing(second);
    case Block(_, _) =>
    case Indent(body) =>
      DeadSinkGetsNothing(body);
    case Transaction(_) =>
    case Attempt(body) =>
      DeadSinkGetsNothing(body);
  }

  /** `transaction` is all or nothing: every line of a completed body, none of a failed one. */
  lemma {:induction false} TransactionAllOrNothing(body: Action)
    ensures Emitted(Transaction(body), true).completed <==> Emitted(body, true).completed
    ensures Emitted(Transaction(body), true).lines == (if Emitted(body, true).completed then Emitted(body, true).lines else [])
  {
  }

  /**
   * A declaration generated as `try { transaction { … } } catch` never stops the
   * generation, and contributes its whole text or nothing.
   */
  lemma {:induction false} AttemptedTransaction(body: Action, live: bool)
    ensures Emitted(Attempt(Transaction(body)), live).completed
    ensures var b := Emitted(body, true);
      Emitted(Attempt(Transaction(body)), live).lines == (if b.completed && live then b.lines else [])
  {
  }

  /** Without a transaction, a failing body leaves what it wrote before failing. */
  lemma {:induction false} PartialOutputWithoutTransaction(line: string)
    ensures Emitted(Attempt(Then(Out(line), Throw)), true).lines == [line]
    ensures Emitted(Attempt(Transaction(Then(Out(line), Throw))), true).lines == []
  {
    assert Emitted(Then(Out(line), Throw), true) == Outcome([line] + [], false);
  }

  /**
   * `block` writes `header {`, then the body's lines four spaces in, then `}`; the closing
   * brace is written exactly when the body completes.
   */
  lemma {:induction false} BlockShape(header: string, body: Action)
    ensures var r, b := Emitted(Block(header, body), true), Emitted(body, true);
      r.completed == b.completed
      && |r.lines| == |b.lines| + (if b.completed then 2 else 1)
      && r.lines[0] == header + " {"
      && (forall i :: 0 <= i < |b.lines| ==> r.lines[i + 1] == IndentPrefix + b.lines[i])
      && (b.completed ==> r.lines[|r.lines| - 1] == "}")
  {
  }

  /** Indenting twice indents by eight spaces. */
  lemma {:induction false} IndentTwice(body: Action, live: bool)
    ensures var r, b := Emitted(Indent(Indent(body)), live), Emitted(body, live);
      r.completed == b.completed && |r.lines| == |b.lines|
      && forall i :: 0 <= i < |b.lines| ==> r.lines[i] == "        " + b.lines[i]
  {
    var r, m, b := Emitted(Indent(Indent(body)), live), Emitted(Indent(body), live), Emitted(body, live);
    assert m.lines == Prefixed(b.lines);
    assert r.lines == Prefixed(m.lines);
    forall i | 0 <= i < |b.lines|
      ensures r.lines[i] == "        " + b.lines[i]
    {
      var x := b.lines[i];
      assert r.lines[i] == IndentPrefix + m.lines[i];
      assert m.lines[i] == IndentPrefix + x;
      assert IndentPrefix + (IndentPrefix + x) == (IndentPrefix + IndentPrefix) + x;
    }
  }

  lemma {:induction false} DeliverAllConcat(sink: Sink, x: seq<string>, y: seq<string>, st: Store)
    ensures DeliverAll(sink, x + y, st) == DeliverAll(sink, y, DeliverAll(sink, x, st))
    decreases |y|
  {
    if |y| == 0 {
      assert x + y == x;
    } else {
      var n := |y| - 1;
      assert (x + y)[..|x + y| - 1] == x + y[..n];
      assert (x + y)[|x + y| - 1] == y[n];
      DeliverAllConcat(sink, x, y[..n], st);
    }
  }

  /** Writing through an indented sink is writing the prefixed lines to the sink behind it. */
  lemma {:induction false} DeliverAllIndented(sink: Sink, lines: seq<string>, st: Store)
    ensures DeliverAll(Indented(sink), lines, st) == DeliverAll(sink, Prefixed(lines), st)
    decreases |lines|
  {
    if |lines| > 0 {
      DeliverAllIndented(sink, lines[..|lines| - 1], st);
    }
  }

  lemma {:induction false} DeadSinkDeliversNothing(sink: Sink, lines: seq<string>, st: Store)
    requires !Live(sink)
    ensures DeliverAll(sink, lines, st) == st
    decreases |lines|
  {
    if |lines| > 0 {
      DeadSinkDeliversNothing(sink, lines[..|lines| - 1], st);
    }
  }

  /** A transaction's buffer collects exactly the lines written to it, and nothing else moves. */
  lemma {:induction false} DeliverAllBuffer(k: nat, lines: seq<string>, st: Store)
    requires k < |st.buffers|
    ensures DeliverAll(Buffer(k), lines, st) == st.(buffers := st.buffers[k := st.buffers[k] + lines])
    decreases |lines|
  {
    if |lines| == 0 {
      assert st.buffers[k] + lines == st.buffers[k];
      assert st.buffers[k := st.buffers[k] + lines] == st.buffers;
    } else {
      var n := |lines| - 1;
      DeliverAllBuffer(k, lines[..n], st);
      assert st.buffers[k] + lines[..n] + [lines[n]] == st.buffers[k] + lines;
    }
  }

  /** The generator's output state. */
  class Emitter {
    /** The output currently used by the generator. */
    var out: Sink
    /** The generated document. */
    var document: seq<string>
    /** The line lists of the transactions in progress, innermost last. */
    var buffers: seq<seq<string>>

    ghost predicate Valid()
      reads this
    {
      SinkOk(out, |buffers|)
    }

    function Contents(): Store
      reads this
    {
      Store(document, buffers)
    }

    /** A generator starts with the throwing sink and nothing written. */
    constructor ()
      ensures Valid() && out == Unset && document == [] && buffers == []
    {
      out := Unset;
      document := [];
      buffers := [];
    }

    /** Writes one line to `sink`, following its indents. */
    method Send(sink: Sink, line: string)
      modifies this
      ensures Contents() == Deliver(sink, line, old(Contents()))
      ensures out == old(out)
    {
      var s, l := sink, line;
      while s.Indented?
        invariant Deliver(s, l, Contents()) == Deliver(sink, line, old(Contents()))
        invariant Contents() == old(Contents()) && out == old(out)
        decreases s
      {
        l := IndentPrefix + l;
        s := s.inner;
      }
      if s.Document? {
        document := document + [l];
      } else if s.Buffer? && s.k < |buffers| {
        buffers := buffers[s.k := buffers[s.k] + [l]];
      }
    }

    /**
     * `withOutput`: runs the action with `out` set to `output`, and puts the previous
     * `out` back whether the action completes or throws.
     */
    method WithOutput(output: Sink, action: Action) returns (completed: bool)
      requires SinkOk(output, |buffers|) && Valid()
      modifies this
      ensures out == old(out) && Valid()
      ensures completed == Emitted(action, Live(output)).completed
      ensures Contents() == DeliverAll(output, Emitted(action, Live(output)).lines, old(Contents()))
      decreases action, 2
    {
      var oldOut := out;
      out := output;
      completed := Run(action);
      out := oldOut;
    }

    /** Runs an action against the current `out`. */
    method Run(action: Action) returns (completed: bool)
      requires Valid()
      modifies this
      ensures out == old(out) && Valid()
      ensures completed == Emitted(action, Live(out)).completed
      ensures Contents() == DeliverAll(out, Emitted(action, Live(out)).lines, old(Contents()))
      decreases action, 1
    {
      match action
      case Out(line) =>
        Send(out, line);
        completed := Live(out);
        if !completed {
          assert Contents() == old(Contents());
        }
      case Throw =>
        completed := false;
      case Then(first, second) =>
        completed := Run(first);
        if completed {
          var mid := Contents();
          completed := Run(second);
          DeliverAllConcat(out, Emitted(first, Live(out)).lines, Emitted(second, Live(out)).lines, old(Contents()));
        }
      case Indent(body) =>
        completed := WithOutput(Indented(out), body);
        DeliverAllIndented(out, Emitted(body, Live(out)).lines, old(Contents()));
      case Block(header, body) =>
        if !Live(out) {
          completed := false;
        } else {
          Send(out, header + " {");
          var b := Emitted(body, true);
          completed := WithOutput(Indented(out), body);
          DeliverAllIndented(out, b.lines, Deliver(out, header + " {", old(Contents())));
          DeliverAllConcat(out, [header + " {"], Prefixed(b.lines), old(Contents()));
          if completed {
            Send(out, "}");
            DeliverAllConcat(out, [header + " {"] + Prefixed(b.lines), ["}"], old(Contents()));
          }
        }
      case Transaction(body) =>
        completed := RunTransaction(body);
      case Attempt(body) =>
        completed := Run(body);
        completed := true;
    }

    /**
     * `transaction`: the action writes into a fresh line list; only when it completes are
     * the lines passed on to `out`, one by one.
     */
    method RunTransaction(body: Action) returns (completed: bool)
      requires Valid()
      modifies this
      ensures out == old(out) && Valid()
      ensures completed == Emitted(Transaction(body), Live(out)).completed
      ensures Contents() == DeliverAll(out, Emitted(Transaction(body), Live(out)).lines, old(Contents()))
      decreases Transaction(body), 0
    {
      var lines;
      completed, lines := Collect(body);
      if completed {
        completed := ForEachOut(lines);
        if !Live(out) {
          DeadSinkDeliversNothing(out, lines, old(Contents()));
        }
      }
    }

    /**
     * The buffered half of `transaction`: a fresh line list is opened, the action runs with
     * it as `out`, and the list is closed again; the result is what the action wrote there.
     */
    method Collect(body: Action) returns (completed: bool, lines: seq<string>)
      requires Valid()
      modifies this
      ensures out == old(out) && Valid() && Contents() == old(Contents())
      ensures completed == Emitted(body, true).completed && lines == Emitted(body, true).lines
      decreases body, 3
    {
      var k := |buffers|;
      ghost var pushed := old(buffers) + [[]];
      buffers := buffers + [[]];
      SinkOkMore(out, k, k + 1);
      ghost var b := Emitted(body, true);
      completed := WithOutput(Buffer(k), body);
      DeliverAllBuffer(k, b.lines, Store(old(document), pushed));
      assert buffers == pushed[k := [] + b.lines] && document == old(document);
      lines := buffers[k];
      assert lines == b.lines;
      buffers := buffers[..k];
      assert buffers == pushed[..k] == old(buffers);
    }

    /** `lines.forEach(out)`: the first line written to a throwing sink ends the loop. */
    method ForEachOut(lines: seq<string>) returns (completed: bool)
      requires Valid()
      modifies this
      ensures out == old(out) && Valid()
      ensures completed <==> Live(out) || |lines| == 0
      ensures Contents() == DeliverAll(out, lines, old(Contents()))
    {
      var i := 0;
      while i < |lines|
        invariant 0 <= i <= |lines| && out == old(out) && Valid()
        invariant Contents() == DeliverAll(out, lines[..i], old(Contents()))
        invariant i > 0 ==> Live(out)
      {
        if !Live(out) {
          assert Contents() == DeliverAll(out, lines, old(Contents())) by {
            DeadSinkDeliversNothing(out, lines, old(Contents()));
          }
          return false;
        }
        Send(out, lines[i]);
        assert lines[..i + 1][..i] == lines[..i];
        i := i + 1;
      }
      assert lines[..|lines|] == lines;
      return true;
    }
  }
}
