/**
 * The dispatch engine of src/core/service_layer/messagebus.py.
 *
 * A handler, together with the Unit of Work drain that follows it, is seen by
 * the bus only through its reply: it raised, or it returned and the drain
 * yielded some events. `Behaviour` gives that reply for the n-th handler call
 * of one `handle` run; since the whole run is deterministic, indexing by the
 * call number expresses any world the handlers act on.
 */
module MessageBus {
  import opened Wrappers
  import opened Messages

  type HandlerName = string

  /** The outcome of one handler call. */
  datatype Reply = Raised | Returned(collected: seq<Event>)

  /** The reply of the named handler to a message, on the n-th handler call of a run. */
  type Behaviour = (HandlerName, Message, nat) -> Reply

  /** One handler call as the bus made it: which handler, on which message, which attempt. */
  datatype Call = Call(handler: HandlerName, message: Message, attempt: nat, reply: Reply)

  /** Why `handle` raised. */
  datatype Failure =
    | NotAMessage(message: Message)
    | NoEventHandlers(eventKind: EventKind)
    | NoCommandHandler(commandKind: CommandKind)
    | CommandRaised(handler: HandlerName)

  /** The two registries the bus is built with (entries reduced to their names). */
  datatype Registry = Registry(events: map<EventKind, seq<HandlerName>>, commands: map<CommandKind, HandlerName>)

  /** stop_after_attempt(3) */
  const MaxAttempts: nat := 3

  // ---------------------------------------------------------------------------
  // Retrying one event handler

  /**
   * The calls of one delivery of `m` to `h` whose first call is the n-th of the
   * run, continuing after the failed attempts `tries`: a call that returns, or
   * the MaxAttempts-th call, is the last.
   */
  function Retry(b: Behaviour, h: HandlerName, m: Message, n: nat, tries: seq<Call>): seq<Call>
    requires |tries| < MaxAttempts
    decreases MaxAttempts - |tries|
  {
    var call := Call(h, m, |tries| + 1, b(h, m, n + |tries|));
    if call.reply.Returned? || |tries| + 1 == MaxAttempts then tries + [call]
    else Retry(b, h, m, n, tries + [call])
  }

  /** Attempts 1, 2, ... of `h` on `m`, numbered from call n, with the behaviour's replies. */
  ghost predicate Attempts(b: Behaviour, h: HandlerName, m: Message, n: nat, calls: seq<Call>)
  {
    forall i :: 0 <= i < |calls| ==> calls[i] == Call(h, m, i + 1, b(h, m, n + i))
  }

  lemma {:induction false} RetryShape(b: Behaviour, h: HandlerName, m: Message, n: nat, tries: seq<Call>)
    requires |tries| < MaxAttempts && Attempts(b, h, m, n, tries)
    requires forall i :: 0 <= i < |tries| ==> tries[i].reply.Raised?
    decreases MaxAttempts - |tries|
    ensures var calls := Retry(b, h, m, n, tries);
      && |tries| < |calls| <= MaxAttempts
      && Attempts(b, h, m, n, calls)
      && (forall i :: 0 <= i < |calls| - 1 ==> calls[i].reply.Raised?)
      && (calls[|calls| - 1].reply.Raised? ==> |calls| == MaxAttempts)
  {
    var call := Call(h, m, |tries| + 1, b(h, m, n + |tries|));
    var more := tries + [call];
    assert forall i :: 0 <= i < |more| ==> more[i] == Call(h, m, i + 1, b(h, m, n + i)) by {
      forall i | 0 <= i < |more| ensures more[i] == Call(h, m, i + 1, b(h, m, n + i)) {
        if i < |tries| {
          assert more[i] == tries[i];
        }
      }
    }
    if !(call.reply.Returned? || |tries| + 1 == MaxAttempts) {
      RetryShape(b, h, m, n, more);
    }
  }

  /**
   * A delivery makes at most MaxAttempts calls, all of `h` on `m` with
   * attempt numbers 1, 2, ...; it stops at the first call that returns, and it
   * gives up only after MaxAttempts calls that all raised.
   */
  lemma RetryBound(b: Behaviour, h: HandlerName, m: Message, n: nat)
    ensures var calls := Retry(b, h, m, n, []);
      && 1 <= |calls| <= MaxAttempts
      && Attempts(b, h, m, n, calls)
      && (forall i :: 0 <= i < |calls| - 1 ==> calls[i].reply.Raised?)
      && (calls[|calls| - 1].reply.Raised? ==> |calls| == MaxAttempts)
  {
    RetryShape(b, h, m, n, []);
  }

  /** The events put on the queue by a sequence of calls: those collected after each call that returned. */
  function Enqueued(calls: seq<Call>): seq<Event>
  {
    if calls == [] then []
    else (if calls[0].reply.Returned? then calls[0].reply.collected else []) + Enqueued(calls[1..])
  }

  lemma EnqueuedSingle(call: Call)
    ensures Enqueued([call]) == if call.reply.Returned? then call.reply.collected else []
  {
    assert [call][1..] == [];
  }

  lemma {:induction false} EnqueuedAppend(a: seq<Call>, b: seq<Call>)
    ensures Enqueued(a + b) == Enqueued(a) + Enqueued(b)
  {
    if a != [] {
      assert (a + b)[0] == a[0] && (a + b)[1..] == a[1..] + b;
      EnqueuedAppend(a[1..], b);
    } else {
      assert a + b == b;
    }
  }

  // ---------------------------------------------------------------------------
  // Running the handlers of one event

  /**
   * The calls made after `done` while delivering `m` to every handler of `hs`,
   * one after another, the first call of `done` being the n-th of the run.
   */
  function Deliveries(b: Behaviour, hs: seq<HandlerName>, m: Message, n: nat, done: seq<Call>): seq<Call>
    decreases |hs|
  {
    if hs == [] then done
    else Deliveries(b, hs[1..], m, n, done + Retry(b, hs[0], m, n + |done|, []))
  }

  /** Delivering from the i-th handler on is delivering to it, then from the next one on. */
  lemma DeliveriesStep(b: Behaviour, hs: seq<HandlerName>, m: Message, n: nat, done: seq<Call>, i: nat)
    requires i < |hs|
    ensures Deliveries(b, hs[i..], m, n, done) == Deliveries(b, hs[i + 1..], m, n, done + Retry(b, hs[i], m, n + |done|, []))
  {
    assert hs[i..][0] == hs[i] && hs[i..][1..] == hs[i + 1..];
  }

  /** The handlers whose delivery began, in the order they began: the calls that were first attempts. */
  function Starts(calls: seq<Call>): seq<HandlerName>
  {
    if calls == [] then []
    else (if calls[0].attempt == 1 then [calls[0].handler] else []) + Starts(calls[1..])
  }

  lemma {:induction false} StartsAppend(a: seq<Call>, b: seq<Call>)
    ensures Starts(a + b) == Starts(a) + Starts(b)
  {
    if a != [] {
      assert (a + b)[0] == a[0] && (a + b)[1..] == a[1..] + b;
      StartsAppend(a[1..], b);
    } else {
      assert a + b == b;
    }
  }

  lemma {:induction false} StartsOfLaterAttempts(calls: seq<Call>)
    requires forall i :: 0 <= i < |calls| ==> calls[i].attempt != 1
    ensures Starts(calls) == []
  {
    if calls != [] {
      StartsOfLaterAttempts(calls[1..]);
    }
  }

  lemma StartsOfRetry(b: Behaviour, h: HandlerName, m: Message, n: nat)
    ensures Starts(Retry(b, h, m, n, [])) == [h]
  {
    var calls := Retry(b, h, m, n, []);
    RetryBound(b, h, m, n);
    assert calls == [calls[0]] + calls[1..];
    StartsAppend([calls[0]], calls[1..]);
    StartsOfLaterAttempts(calls[1..]);
  }

  /**
   * The handlers of an event run one after another in registration order:
   * every handler's delivery begins exactly once, whatever the earlier ones did.
   */
  lemma {:induction false} DeliveriesInOrder(b: Behaviour, hs: seq<HandlerName>, m: Message, n: nat, done: seq<Call>)
    ensures Starts(Deliveries(b, hs, m, n, done)) == Starts(done) + hs
    decreases |hs|
  {
    if hs != [] {
      var first := Retry(b, hs[0], m, n + |done|, []);
      StartsOfRetry(b, hs[0], m, n + |done|);
      StartsAppend(done, first);
      DeliveriesInOrder(b, hs[1..], m, n, done + first);
      assert hs == [hs[0]] + hs[1..];
    }
  }

  /** Delivering an event costs at most MaxAttempts calls per handler, all on that event. */
  lemma {:induction false} DeliveriesBound(b: Behaviour, hs: seq<HandlerName>, m: Message, n: nat, done: seq<Call>)
    requires forall i :: 0 <= i < |done| ==> done[i].message == m
    ensures |Deliveries(b, hs, m, n, done)| <= |done| + MaxAttempts * |hs|
    ensures forall i :: 0 <= i < |Deliveries(b, hs, m, n, done)| ==> Deliveries(b, hs, m, n, done)[i].message == m
    decreases |hs|
  {
    if hs != [] {
      var first := Retry(b, hs[0], m, n + |done|, []);
      RetryBound(b, hs[0], m, n + |done|);
      var all := done + first;
      assert forall i :: 0 <= i < |all| ==> all[i].message == m by {
        forall i | 0 <= i < |all| ensures all[i].message == m {
          if i >= |done| {
            assert all[i] == first[i - |done|];
          }
        }
      }
      DeliveriesBound(b, hs[1..], m, n, all);
    }
  }

  // ---------------------------------------------------------------------------
  // One message

  datatype StepResult = StepResult(calls: seq<Call>, failure: Option<Failure>)

  /** What handling one popped message does: the handler calls it makes and whether `handle` raises. */
  function Step(r: Registry, b: Behaviour, m: Message, n: nat): StepResult
  {
    match m
    case Foreign(_) => StepResult([], Some(NotAMessage(m)))
    case Evt(e) =>
      var kind := EventKindOf(e);
      if kind !in r.events then StepResult([], Some(NoEventHandlers(kind)))
      else StepResult(Deliveries(b, r.events[kind], m, n, []), None)
    case Cmd(c) =>
      var kind := CommandKindOf(c);
      if kind !in r.commands then StepResult([], Some(NoCommandHandler(kind)))
      else
        var h := r.commands[kind];
        var call := Call(h, m, 1, b(h, m, n));
        StepResult([call], if call.reply.Raised? then Some(CommandRaised(h)) else None)
  }

  /**
   * Dispatch by type: anything but an event or a command raises; an event
   * raises only when its type has no registry entry, and otherwise starts
   * every registered handler once, in order; a command makes exactly one call,
   * to its registered handler, and raises when the handler is missing or raised.
   */
  lemma StepDispatch(r: Registry, b: Behaviour, m: Message, n: nat)
    ensures var s := Step(r, b, m, n);
      && (m.Foreign? ==> s == StepResult([], Some(NotAMessage(m))))
      && (m.Evt? ==> (s.failure.None? <==> EventKindOf(m.event) in r.events))
      && (m.Evt? && EventKindOf(m.event) in r.events ==> Starts(s.calls) == r.events[EventKindOf(m.event)])
      && (m.Evt? && EventKindOf(m.event) !in r.events ==> s.calls == [])
      && (m.Cmd? ==> |s.calls| <= 1)
      && (m.Cmd? ==> (|s.calls| == 1 <==> CommandKindOf(m.command) in r.commands))
      && (m.Cmd? && |s.calls| == 1 ==>
           && s.calls[0] == Call(r.commands[CommandKindOf(m.command)], m, 1, b(r.commands[CommandKindOf(m.command)], m, n))
           && (s.failure.None? <==> s.calls[0].reply.Returned?))
  {
    if m.Evt? && EventKindOf(m.event) in r.events {
      DeliveriesInOrder(b, r.events[EventKindOf(m.event)], m, n, []);
    }
  }

  // ---------------------------------------------------------------------------
  // Termination: handlers only ever yield messages of lower rank

  /** Commands outrank DocumentCreated, which outranks the other events. */
  function Rank(m: Message): nat
  {
    match m
    case Cmd(_) => 3
    case Evt(e) => if e.DocumentCreated? then 2 else 1
    case Foreign(_) => 0
  }

  /**
   * The registered handlers only yield events ranked below what they handle: a
   * command's handler yields events, a DocumentCreated handler yields no
   * DocumentCreated, and the logging handlers of the other events yield nothing.
   */
  ghost predicate Ranked(b: Behaviour)
  {
    forall h, m, n, e :: b(h, m, n).Returned? && e in b(h, m, n).collected ==> Rank(Evt(e)) < Rank(m)
  }

  function AsMessages(es: seq<Event>): (ms: seq<Message>)
    ensures |ms| == |es|
  {
    if es == [] then [] else [Evt(es[0])] + AsMessages(es[1..])
  }

  lemma {:induction false} AsMessagesIndex(es: seq<Event>, i: nat)
    requires i < |es|
    ensures AsMessages(es)[i] == Evt(es[i])
  {
    if i > 0 {
      AsMessagesIndex(es[1..], i - 1);
    }
  }

  /** The number of messages of rank k in q. */
  function Count(q: seq<Message>, k: nat): nat
  {
    if q == [] then 0 else (if Rank(q[0]) == k then 1 else 0) + Count(q[1..], k)
  }

  lemma {:induction false} CountAppend(a: seq<Message>, b: seq<Message>, k: nat)
    ensures Count(a + b, k) == Count(a, k) + Count(b, k)
  {
    if a != [] {
      assert (a + b)[0] == a[0] && (a + b)[1..] == a[1..] + b;
      CountAppend(a[1..], b, k);
    } else {
      assert a + b == b;
    }
  }

  lemma {:induction false} CountOfLower(q: seq<Message>, r: nat, k: nat)
    requires forall i :: 0 <= i < |q| ==> Rank(q[i]) < r
    requires r <= k
    ensures Count(q, k) == 0
  {
    if q != [] {
      CountOfLower(q[1..], r, k);
    }
  }

  /** Calls of `m` whose replies are the behaviour's, numbered from n. */
  ghost predicate Numbered(b: Behaviour, calls: seq<Call>, n: nat)
  {
    forall i :: 0 <= i < |calls| ==> calls[i].reply == b(calls[i].handler, calls[i].message, n + i)
  }

  /** Every event that numbered calls on `m` put on the queue ranks below `m`. */
  lemma {:induction false} EnqueuedRanksLower(b: Behaviour, calls: seq<Call>, m: Message, n: nat)
    requires Ranked(b) && Numbered(b, calls, n)
    requires forall i :: 0 <= i < |calls| ==> calls[i].message == m
    ensures forall e :: e in Enqueued(calls) ==> Rank(Evt(e)) < Rank(m)
  {
    if calls != [] {
      assert calls[0].reply == b(calls[0].handler, m, n);
      EnqueuedRanksLower(b, calls[1..], m, n + 1);
    }
  }

  lemma RetryNumbered(b: Behaviour, h: HandlerName, m: Message, n: nat)
    ensures Numbered(b, Retry(b, h, m, n, []), n)
  {
    RetryBound(b, h, m, n);
  }

  lemma {:induction false} DeliveriesNumbered(b: Behaviour, hs: seq<HandlerName>, m: Message, n: nat, done: seq<Call>)
    requires Numbered(b, done, n)
    ensures Numbered(b, Deliveries(b, hs, m, n, done), n)
    decreases |hs|
  {
    if hs != [] {
      RetryNumbered(b, hs[0], m, n + |done|);
      NumberedAppend(b, done, Retry(b, hs[0], m, n + |done|, []), n);
      DeliveriesNumbered(b, hs[1..], m, n, done + Retry(b, hs[0], m, n + |done|, []));
    }
  }

  /** The calls of one step are all on the popped message and are numbered from n. */
  lemma StepNumbered(r: Registry, b: Behaviour, m: Message, n: nat)
    ensures Numbered(b, Step(r, b, m, n).calls, n)
    ensures forall i :: 0 <= i < |Step(r, b, m, n).calls| ==> Step(r, b, m, n).calls[i].message == m
  {
    if m.Evt? && EventKindOf(m.event) in r.events {
      DeliveriesNumbered(b, r.events[EventKindOf(m.event)], m, n, []);
      DeliveriesBound(b, r.events[EventKindOf(m.event)], m, n, []);
    }
  }

  lemma StepRanksLower(r: Registry, b: Behaviour, m: Message, n: nat)
    requires Ranked(b)
    ensures forall e :: e in Enqueued(Step(r, b, m, n).calls) ==> Rank(Evt(e)) < Rank(m)
  {
    StepNumbered(r, b, m, n);
    EnqueuedRanksLower(b, Step(r, b, m, n).calls, m, n);
  }

  /** The queue after a step ranks lexicographically below the queue before it. */
  ghost predicate Below(a: seq<Message>, q: seq<Message>)
  {
    || Count(a, 3) < Count(q, 3)
    || (Count(a, 3) == Count(q, 3) && Count(a, 2) < Count(q, 2))
    || (Count(a, 3) == Count(q, 3) && Count(a, 2) == Count(q, 2) && Count(a, 1) < Count(q, 1))
    || (Count(a, 3) == Count(q, 3) && Count(a, 2) == Count(q, 2) && Count(a, 1) == Count(q, 1) && Count(a, 0) < Count(q, 0))
  }

  lemma StepDecreases(r: Registry, b: Behaviour, q: seq<Message>, n: nat)
    requires Ranked(b) && q != [] && Rank(q[0]) <= 3
    ensures Below(q[1..] + AsMessages(Enqueued(Step(r, b, q[0], n).calls)), q)
  {
    var es := AsMessages(Enqueued(Step(r, b, q[0], n).calls));
    StepRanksLower(r, b, q[0], n);
    var rank := Rank(q[0]);
    assert forall i :: 0 <= i < |es| ==> Rank(es[i]) < rank by {
      forall i | 0 <= i < |es| ensures Rank(es[i]) < rank {
        AsMessagesIndex(Enqueued(Step(r, b, q[0], n).calls), i);
      }
    }
    forall k | rank <= k ensures Count(q[1..] + es, k) == Count(q, k) - (if k == rank then 1 else 0) {
      CountAppend(q[1..], es, k);
      CountOfLower(es, rank, k);
    }
  }

  // ---------------------------------------------------------------------------
  // A whole run of `handle`

  /** The messages popped, the handler calls made, whether `handle` raised, and what was left on the queue. */
  datatype Run = Run(processed: seq<Message>, calls: seq<Call>, failure: Option<Failure>, remaining: seq<Message>)

  /** The loop of `handle` from queue `q`, having popped `processed` and made `calls` so far. */
  ghost function RunFrom(r: Registry, b: Behaviour, q: seq<Message>, processed: seq<Message>, calls: seq<Call>): Run
    requires Ranked(b)
    decreases Count(q, 3), Count(q, 2), Count(q, 1), Count(q, 0)
  {
    if q == [] then Run(processed, calls, None, [])
    else
      var s := Step(r, b, q[0], |calls|);
      if s.failure.Some? then Run(processed + [q[0]], calls + s.calls, s.failure, q[1..])
      else
        StepDecreases(r, b, q, |calls|);
        RunFrom(r, b, q[1..] + AsMessages(Enqueued(s.calls)), processed + [q[0]], calls + s.calls)
  }

  /** What `handle(message)` does, from an empty queue. */
  ghost function HandleRun(r: Registry, b: Behaviour, message: Message): Run
    requires Ranked(b)
  {
    RunFrom(r, b, [message], [], [])
  }

  /**
   * FIFO: the messages waiting at the start are popped in their order before
   * anything enqueued later, or, if `handle` raised first, are still waiting in
   * that order.
   */
  lemma {:induction false} WaitingMessagesFirst(r: Registry, b: Behaviour, q: seq<Message>, processed: seq<Message>, calls: seq<Call>)
    requires Ranked(b)
    ensures var run := RunFrom(r, b, q, processed, calls); processed + q <= run.processed + run.remaining
    decreases Count(q, 3), Count(q, 2), Count(q, 1), Count(q, 0)
  {
    if q == [] {
      assert processed + q == processed;
    } else {
      var s := Step(r, b, q[0], |calls|);
      PopKeepsOrder(processed, q, []);
      if s.failure.None? {
        StepDecreases(r, b, q, |calls|);
        var added := AsMessages(Enqueued(s.calls));
        WaitingMessagesFirst(r, b, q[1..] + added, processed + [q[0]], calls + s.calls);
        PopKeepsOrder(processed, q, added);
      }
    }
  }

  /** Popping the head of the queue and appending to its tail keeps what was waiting in order. */
  lemma PopKeepsOrder(processed: seq<Message>, q: seq<Message>, added: seq<Message>)
    requires q != []
    ensures processed + q <= (processed + [q[0]]) + (q[1..] + added)
    ensures added == [] ==> processed + q == (processed + [q[0]]) + q[1..]
  {
    assert (processed + [q[0]]) + (q[1..] + added) == (processed + q) + added;
  }

  /** Why handling `last` raised `f`, given the calls made so far. */
  predicate Explains(r: Registry, f: Failure, last: Message, calls: seq<Call>)
  {
    match f
    case NotAMessage(x) => last.Foreign? && x == last
    case NoEventHandlers(k) => last.Evt? && EventKindOf(last.event) == k && k !in r.events
    case NoCommandHandler(k) => last.Cmd? && CommandKindOf(last.command) == k && k !in r.commands
    case CommandRaised(h) =>
      && last.Cmd? && CommandKindOf(last.command) in r.commands && r.commands[CommandKindOf(last.command)] == h
      && calls != [] && calls[|calls| - 1] == Call(h, last, 1, Raised)
  }

  /**
   * A run that did not raise emptied the queue; a run that raised stopped at
   * the message it was handling, which is the last one popped. It raised only
   * for a foreign message, an event type with no registry entry, or a command
   * whose handler is missing or raised; never because an event handler failed.
   */
  lemma {:induction false} RunOutcome(r: Registry, b: Behaviour, q: seq<Message>, processed: seq<Message>, calls: seq<Call>)
    requires Ranked(b)
    ensures var run := RunFrom(r, b, q, processed, calls);
      && (run.failure.None? ==> run.remaining == [])
      && (run.failure.Some? ==>
            run.processed != [] && Explains(r, run.failure.value, run.processed[|run.processed| - 1], run.calls))
    decreases Count(q, 3), Count(q, 2), Count(q, 1), Count(q, 0)
  {
    if q != [] {
      var s := Step(r, b, q[0], |calls|);
      StepDispatch(r, b, q[0], |calls|);
      if s.failure.None? {
        StepDecreases(r, b, q, |calls|);
        RunOutcome(r, b, q[1..] + AsMessages(Enqueued(s.calls)), processed + [q[0]], calls + s.calls);
      } else if q[0].Cmd? && |s.calls| == 1 {
        assert (calls + s.calls)[|calls + s.calls| - 1] == s.calls[0];
      }
    }
  }

  /**
   * Every handler call of a run is the behaviour's reply at that call's
   * position: the call log numbers the calls without gaps.
   */
  lemma {:induction false} CallsAreNumbered(r: Registry, b: Behaviour, q: seq<Message>, processed: seq<Message>, calls: seq<Call>)
    requires Ranked(b) && Numbered(b, calls, 0)
    ensures Numbered(b, RunFrom(r, b, q, processed, calls).calls, 0)
    decreases Count(q, 3), Count(q, 2), Count(q, 1), Count(q, 0)
  {
    if q != [] {
      var s := Step(r, b, q[0], |calls|);
      StepNumbered(r, b, q[0], |calls|);
      NumberedAppend(b, calls, s.calls, 0);
      if s.failure.None? {
        StepDecreases(r, b, q, |calls|);
        CallsAreNumbered(r, b, q[1..] + AsMessages(Enqueued(s.calls)), processed + [q[0]], calls + s.calls);
      }
    }
  }

  lemma NumberedAppend(b: Behaviour, calls: seq<Call>, more: seq<Call>, n: nat)
    requires Numbered(b, calls, n) && Numbered(b, more, n + |calls|)
    ensures Numbered(b, calls + more, n)
  {
    var all := calls + more;
    forall i | 0 <= i < |all|
      ensures all[i].reply == b(all[i].handler, all[i].message, n + i)
    {
      if i >= |calls| {
        assert all[i] == more[i - |calls|];
      }
    }
  }

  // ---------------------------------------------------------------------------
  // The bus

  class Bus {
    const registry: Registry
    const behaviour: Behaviour
    /** The work queue of the current `handle` call. */
    var queue: seq<Message>
    /** The handler calls of the current `handle` call, in order (what the log lines report). */
    var calls: seq<Call>
    /** The messages popped so far by the current `handle` call. */
    ghost var processed: seq<Message>

    constructor (registry: Registry, behaviour: Behaviour)
      ensures this.registry == registry && this.behaviour == behaviour
      ensures queue == [] && calls == [] && processed == []
    {
      this.registry := registry;
      this.behaviour := behaviour;
      queue, calls, processed := [], [], [];
    }

    /** handle(message): pop from the front until the queue is empty or something raises. */
    method Handle(message: Message) returns (failure: Option<Failure>)
      requires Ranked(behaviour)
      modifies this
      ensures var run := HandleRun(registry, behaviour, message);
        failure == run.failure && queue == run.remaining && calls == run.calls && processed == run.processed
    {
      queue, calls, processed := [message], [], [];
      while queue != []
        invariant HandleRun(registry, behaviour, message) == RunFrom(registry, behaviour, queue, processed, calls)
        decreases Count(queue, 3), Count(queue, 2), Count(queue, 1), Count(queue, 0)
      {
        ghost var q0, c0 := queue, calls;
        ghost var s := Step(registry, behaviour, q0[0], |c0|);
        var m := queue[0];
        queue := queue[1..];
        processed := processed + [m];
        if m.Evt? {
          failure := HandleEvent(m.event);
        } else if m.Cmd? {
          failure := HandleCommand(m.command);
        } else {
          failure := Some(NotAMessage(m));
        }
        assert failure == s.failure && calls == c0 + s.calls && queue == q0[1..] + AsMessages(Enqueued(s.calls));
        if failure.Some? {
          FailedStepEnqueuesNothing(registry, behaviour, m, |c0|);
          assert queue == q0[1..];
          return;
        }
        StepDecreases(registry, behaviour, q0, |c0|);
      }
      failure := None;
    }

    /** handle_event: the registry lookup raises for an unknown type; each handler is delivered in turn. */
    method HandleEvent(e: Event) returns (failure: Option<Failure>)
      modifies this
      ensures var s := Step(registry, behaviour, Evt(e), |old(calls)|);
        && failure == s.failure && calls == old(calls) + s.calls
        && queue == old(queue) + AsMessages(Enqueued(s.calls))
      ensures processed == old(processed)
    {
      var kind := EventKindOf(e);
      if kind !in registry.events {
        return Some(NoEventHandlers(kind));
      }
      var delivered := DeliverAll(behaviour, registry.events[kind], Evt(e), |calls|);
      calls := calls + delivered;
      queue := queue + AsMessages(Enqueued(delivered));
      return None;
    }

    /** handle_command: exactly one handler; a missing handler or a raising one ends `handle`. */
    method HandleCommand(c: Command) returns (failure: Option<Failure>)
      modifies this
      ensures var s := Step(registry, behaviour, Cmd(c), |old(calls)|);
        && failure == s.failure && calls == old(calls) + s.calls
        && queue == old(queue) + AsMessages(Enqueued(s.calls))
      ensures processed == old(processed)
    {
      var kind := CommandKindOf(c);
      if kind !in registry.commands {
        return Some(NoCommandHandler(kind));
      }
      var h := registry.commands[kind];
      var reply := behaviour(h, Cmd(c), |calls|);
      calls := calls + [Call(h, Cmd(c), 1, reply)];
      EnqueuedSingle(Call(h, Cmd(c), 1, reply));
      if reply.Raised? {
        return Some(CommandRaised(h));
      }
      queue := queue + AsMessages(reply.collected);
      return None;
    }
  }

  /** The handlers of one event, run one after another, as the n-th and following calls. */
  method DeliverAll(behaviour: Behaviour, handlers: seq<HandlerName>, m: Message, n: nat) returns (delivered: seq<Call>)
    ensures delivered == Deliveries(behaviour, handlers, m, n, [])
  {
    delivered := [];
    var i := 0;
    while i < |handlers|
      invariant 0 <= i <= |handlers|
      invariant Deliveries(behaviour, handlers, m, n, []) == Deliveries(behaviour, handlers[i..], m, n, delivered)
    {
      delivered := DeliverNext(behaviour, handlers, m, n, delivered, i);
      i := i + 1;
    }
  }

  /** The delivery to the i-th handler, after the calls `done`. */
  method DeliverNext(behaviour: Behaviour, handlers: seq<HandlerName>, m: Message, n: nat, done: seq<Call>, i: nat)
    returns (delivered: seq<Call>)
    requires i < |handlers|
    ensures Deliveries(behaviour, handlers[i..], m, n, done) == Deliveries(behaviour, handlers[i + 1..], m, n, delivered)
  {
    var tries := Deliver(behaviour, handlers[i], m, n + |done|);
    DeliveriesStep(behaviour, handlers, m, n, done, i);
    delivered := done + tries;
  }

  /**
   * One delivery under Retrying(stop=stop_after_attempt(3)), as the n-th and
   * following calls: the handler is called until it returns; a failure after
   * the last attempt is logged and skipped.
   */
  method Deliver(behaviour: Behaviour, h: HandlerName, m: Message, n: nat) returns (tries: seq<Call>)
    ensures tries == Retry(behaviour, h, m, n, [])
  {
    tries := [];
    while true
      invariant |tries| < MaxAttempts
      invariant Retry(behaviour, h, m, n, []) == Retry(behaviour, h, m, n, tries)
      decreases MaxAttempts - |tries|
    {
      var attempt := |tries| + 1;
      var call := Call(h, m, attempt, behaviour(h, m, n + |tries|));
      if call.reply.Returned? || attempt == MaxAttempts {
        return tries + [call];
      }
      tries := tries + [call];
    }
  }

  lemma {:induction false} AsMessagesAppend(a: seq<Event>, b: seq<Event>)
    ensures AsMessages(a + b) == AsMessages(a) + AsMessages(b)
  {
    if a != [] {
      assert (a + b)[0] == a[0] && (a + b)[1..] == a[1..] + b;
      AsMessagesAppend(a[1..], b);
    } else {
      assert a + b == b;
    }
  }

  /** A step that raises puts nothing on the queue. */
  lemma FailedStepEnqueuesNothing(r: Registry, b: Behaviour, m: Message, n: nat)
    requires Step(r, b, m, n).failure.Some?
    ensures Enqueued(Step(r, b, m, n).calls) == []
  {
    var s := Step(r, b, m, n);
    if m.Cmd? && CommandKindOf(m.command) in r.commands {
      assert s.calls == [s.calls[0]] && s.calls[0].reply.Raised?;
      assert Enqueued(s.calls) == [] + Enqueued([]);
    }
  }
}
