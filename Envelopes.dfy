/** The envelopes in which the async runtime hands work to its Julia thread.
    Each envelope runs user code on a base GC frame and reports the outcome
    on a one-shot sender. The persistent envelope runs `init` once, serves
    the requests of its channel in order, and runs `exit` when the channel
    closes.

    User code (`run`, `init`, `register`, a blocking closure, the bodies that
    include a file or set the error colour) is a parameter: a function from
    the offset of the frame it is given (and its other arguments) to its
    result and the number of roots it leaves in that frame. The GC stack is a
    size counter. */
module Envelopes {
  import opened Common

  /** What user code returns: its result and the roots it left in its frame. */
  datatype Outcome<T> = Outcome(result: JlrsResult<T>, pushed: nat)

  /** What a persistent task's `run` returns: the state it leaves behind,
      its result and the roots it left in its frame. */
  datatype RunOutcome<S, O> = RunOutcome(state: S, result: JlrsResult<O>, pushed: nat)

  /** The code of a persistent task: `init` builds the state, `run` serves
      one request and may change the state. */
  datatype PersistentCode<!S, !I, O> = PersistentCode(
    init: nat -> Outcome<S>,
    run: (nat, S, I) -> RunOutcome<S, O>)

  /** The handle through which other tasks send requests to a persistent task. */
  datatype PersistentHandle = PersistentHandle

  /** The GC stack, of which only the size matters here. */
  class Stack {
    var size: nat

    constructor ()
      ensures size == 0
    {
      size := 0;
    }

    /** User code roots n values in the frame on top. */
    method Push(n: nat)
      modifies this
      ensures size == old(size) + n
    {
      size := size + n;
    }

    /** `owner.reconstruct(offset)`, and dropping a frame's owner: the stack
      is cut back to the given offset. */
    method Truncate(offset: nat)
      modifies this
      ensures size == offset
    {
      size := offset;
    }
  }

  /** A one-shot sender. Sending consumes it, so it sends at most once. */
  class Oneshot<T> {
    var sent: Option<T>

    constructor ()
      ensures sent == None
    {
      sent := None;
    }

    method Send(v: T)
      requires sent.None?
      modifies this
      ensures sent == Some(v)
    {
      sent := Some(v);
    }
  }

  // ---------------------------------------------------------------------
  // Requests to a persistent task

  /** A request: its input, taken once, and the sender of its response. */
  class CallPersistentTask<I, O> {
    var input: Option<I>
    const sender: Oneshot<JlrsResult<O>>

    constructor (input: I, sender: Oneshot<JlrsResult<O>>)
      ensures this.input == Some(input) && this.sender == sender
    {
      this.input := Some(input);
      this.sender := sender;
    }

    /** `input()`: takes the stored input out; a second call would fail. */
    method Input() returns (x: I)
      requires input.Some?
      modifies this
      ensures x == old(input).value && input == None
    {
      x := input.value;
      input := None;
    }

    /** `respond(result)`: forwards the result unchanged to the sender. */
    method Respond(result: JlrsResult<O>)
      requires sender.sent.None?
      modifies sender
      ensures sender.sent == Some(result)
    {
      sender.Send(result);
    }
  }

  /** The receiving end of a persistent task's channel: the requests that
      arrive before the channel closes, in arrival order. */
  class Receiver<T> {
    var queue: seq<T>

    constructor (queue: seq<T>)
      ensures this.queue == queue
    {
      this.queue := queue;
    }

    /** `recv()`: the oldest request, or None once the channel is closed and empty. */
    method Recv() returns (m: Option<T>)
      modifies this
      ensures old(queue) == [] ==> m == None && queue == []
      ensures old(queue) != [] ==> m == Some(old(queue)[0]) && queue == old(queue)[1..]
    {
      if queue == [] {
        return None;
      }
      m := Some(queue[0]);
      queue := queue[1..];
    }
  }

  // ---------------------------------------------------------------------
  // Pending tasks

  /** A task waiting to be run, with the sender of its result. Register
      tasks carry no task value. */
  datatype PendingTask<Snd, A> = PendingTask(task: Option<A>, sender: Snd)

  /** `PendingTask::new` for a task (and for a persistent task with its comms). */
  function NewPending<Snd, A>(task: A, sender: Snd): (p: PendingTask<Snd, A>)
    ensures p.task.Some?
  {
    PendingTask(Some(task), sender)
  }

  /** `PendingTask::new` for the two register kinds. */
  function NewRegister<Snd, A>(sender: Snd): (p: PendingTask<Snd, A>)
    ensures p.task.None?
  {
    PendingTask(None, sender)
  }

  /** `split`: the task and its sender; the task must be present. Building
      a pending task from the two parts gives back the one split. */
  function Split<Snd, A>(p: PendingTask<Snd, A>): (r: (Snd, A))
    requires p.task.Some?
    ensures NewPending(r.1, r.0) == p
  {
    (p.sender, p.task.value)
  }

  /** `sender`: the sender of a register task, from which the register
      task is built again. */
  function SenderOf<Snd, A>(p: PendingTask<Snd, A>): (s: Snd)
    ensures p.task.None? ==> NewRegister(s) == p
  {
    p.sender
  }

  /** Splitting a newly built pending task gives back what it was built
      from, and a register task gives back its sender. */
  lemma SplitNewRoundTrip<Snd, A>(task: A, sender: Snd)
    ensures Split(NewPending(task, sender)) == (sender, task)
    ensures SenderOf(NewRegister<Snd, A>(sender)) == sender
  {
  }

  /** The comms of a persistent task: the sender of its handle. */
  datatype PersistentComms<H> = PersistentComms(sender: H)

  // ---------------------------------------------------------------------
  // One-shot envelopes

  /** Runs user code on a base frame, which starts at offset 0 of an empty
      stack, and drops the frame's owner afterwards. */
  method RunOnBaseFrame<T>(stack: Stack, body: nat -> Outcome<T>) returns (res: JlrsResult<T>)
    requires stack.size == 0
    modifies stack
    ensures res == body(0).result && stack.size == 0
  {
    var base := stack.size;
    var out := body(base);
    stack.Push(out.pushed);
    stack.Truncate(base);
    res := out.result;
  }

  /** `call` of a task envelope: runs the task's `run` on a base frame and
      sends its result, once. */
  method CallTask<T>(stack: Stack, pending: PendingTask<Oneshot<JlrsResult<T>>, nat -> Outcome<T>>)
    requires pending.task.Some? && pending.sender.sent.None? && stack.size == 0
    modifies stack, pending.sender
    ensures pending.sender.sent == Some(pending.task.value(0).result) && stack.size == 0
  {
    var (resultSender, task) := Split(pending);
    var res := RunOnBaseFrame(stack, task);
    resultSender.Send(res);
  }

  /** `call` of the register envelopes of async and persistent tasks: runs
      the task type's `register` on a base frame and sends its result, once. */
  method CallRegister<A>(stack: Stack, pending: PendingTask<Oneshot<JlrsResult<()>>, A>, register: nat -> Outcome<()>)
    requires pending.sender.sent.None? && stack.size == 0
    modifies stack, pending.sender
    ensures pending.sender.sent == Some(register(0).result) && stack.size == 0
  {
    var sender := SenderOf(pending);
    var res := RunOnBaseFrame(stack, register);
    sender.Send(res);
  }

  /** A closure to run on the Julia thread, with the sender of its result. */
  datatype BlockingTask<T> = BlockingTask(func: nat -> Outcome<T>, sender: Oneshot<JlrsResult<T>>)

  /** `call` of a blocking envelope. */
  method CallBlocking<T>(stack: Stack, task: BlockingTask<T>)
    requires task.sender.sent.None? && stack.size == 0
    modifies stack, task.sender
    ensures task.sender.sent == Some(task.func(0).result) && stack.size == 0
  {
    var res := RunOnBaseFrame(stack, task.func);
    task.sender.Send(res);
  }

  /** A file to include, with the sender of the outcome. */
  datatype IncludeTask = IncludeTask(path: string, sender: Oneshot<JlrsResult<()>>)

  /** `call` of an include envelope; `includeFile` stands for the engine work of
      `call_inner` on the frame at the given offset. */
  method CallInclude(stack: Stack, task: IncludeTask, includeFile: (nat, string) -> Outcome<()>)
    requires task.sender.sent.None? && stack.size == 0
    modifies stack, task.sender
    ensures task.sender.sent == Some(includeFile(0, task.path).result) && stack.size == 0
  {
    var res := RunOnBaseFrame(stack, offset => includeFile(offset, task.path));
    task.sender.Send(res);
  }

  /** Whether to colour error messages, with the sender of the outcome. */
  datatype SetErrorColorTask = SetErrorColorTask(enable: bool, sender: Oneshot<JlrsResult<()>>)

  /** `call` of the envelope that sets the error colour; `setColor` stands
      for the engine work of `call_inner`. */
  method CallSetErrorColor(stack: Stack, task: SetErrorColorTask, setColor: (nat, bool) -> Outcome<()>)
    requires task.sender.sent.None? && stack.size == 0
    modifies stack, task.sender
    ensures task.sender.sent == Some(setColor(0, task.enable).result) && stack.size == 0
  {
    var res := RunOnBaseFrame(stack, offset => setColor(offset, task.enable));
    task.sender.Send(res);
  }

  // ---------------------------------------------------------------------
  // The persistent envelope

  /** What the persistent envelope does that user code or other tasks can
      observe, in order. */
  datatype Action<S, I, O> =
    | InitCalled(offset: nat)
    | HandleSent(ok: bool)
    | Received(input: I)
    | RunCalled(offset: nat, state: S, input: I)
    | Responded(result: JlrsResult<O>)
    | ExitCalled(offset: nat, state: S)

  /** The outcome of serving a sequence of requests: the actions, the
      responses in order, and the state left at the end. */
  datatype Served<S, I, O> = Served(actions: seq<Action<S, I, O>>, responses: seq<JlrsResult<O>>, final: S)

  /** Serving the requests from `state` on, each on a frame at `offset`:
      receive the first, run on it, respond, and serve the rest from the
      state that run left. */
  function Serve<S, I, O>(code: PersistentCode<S, I, O>, offset: nat, state: S, inputs: seq<I>): (r: Served<S, I, O>)
    ensures |r.actions| == 3 * |inputs| && |r.responses| == |inputs|
    decreases |inputs|
  {
    if inputs == [] then Served([], [], state)
    else
      var out := code.run(offset, state, inputs[0]);
      var rest := Serve(code, offset, out.state, inputs[1..]);
      Served([Received(inputs[0]), RunCalled(offset, state, inputs[0]), Responded(out.result)] + rest.actions,
             [out.result] + rest.responses, rest.final)
  }

  /** The stack size right after `init`, at which every later frame starts. */
  function PostInitOffset<S, I, O>(code: PersistentCode<S, I, O>): nat
  {
    code.init(0).pushed
  }

  /** Everything the persistent envelope does, given the requests that
      arrive before its channel closes. */
  function PersistentTrace<S, I, O>(code: PersistentCode<S, I, O>, inputs: seq<I>): (t: seq<Action<S, I, O>>)
    ensures |t| >= 2 && t[0] == InitCalled(0) && t[1] == HandleSent(code.init(0).result.Ok?)
    ensures code.init(0).result.Err? <==> |t| == 2
    ensures code.init(0).result.Ok? ==> |t| == 3 * |inputs| + 3 && t[|t| - 1].ExitCalled?
  {
    var init := code.init(0);
    if init.result.Err? then [InitCalled(0), HandleSent(false)]
    else
      var offset := PostInitOffset(code);
      var served := Serve(code, offset, init.result.value, inputs);
      [InitCalled(0), HandleSent(true)] + served.actions + [ExitCalled(offset, served.final)]
  }

  // A reference definition by index: the state after the first k requests
  // and the response to request k.

  function StateAt<S, I, O>(code: PersistentCode<S, I, O>, offset: nat, s0: S, inputs: seq<I>, k: nat): S
    requires k <= |inputs|
  {
    if k == 0 then s0 else code.run(offset, StateAt(code, offset, s0, inputs, k - 1), inputs[k - 1]).state
  }

  function ResponseAt<S, I, O>(code: PersistentCode<S, I, O>, offset: nat, s0: S, inputs: seq<I>, k: nat): JlrsResult<O>
    requires k < |inputs|
  {
    code.run(offset, StateAt(code, offset, s0, inputs, k), inputs[k]).result
  }

  /** Serving the requests after the first starts from the state the first
      one left. */
  lemma {:induction false} StateAtShift<S, I, O>(code: PersistentCode<S, I, O>, offset: nat, s0: S, inputs: seq<I>, k: nat)
    requires k < |inputs|
    ensures StateAt(code, offset, code.run(offset, s0, inputs[0]).state, inputs[1..], k) == StateAt(code, offset, s0, inputs, k + 1)
  {
    if k > 0 {
      StateAtShift(code, offset, s0, inputs, k - 1);
    }
  }

  /** Serving ends in the state the reference gives after all requests. */
  lemma {:induction false} ServeFinal<S, I, O>(code: PersistentCode<S, I, O>, offset: nat, s0: S, inputs: seq<I>)
    ensures Serve(code, offset, s0, inputs).final == StateAt(code, offset, s0, inputs, |inputs|)
    decreases |inputs|
  {
    if inputs != [] {
      var s1 := code.run(offset, s0, inputs[0]).state;
      ServeFinal(code, offset, s1, inputs[1..]);
      StateAtShift(code, offset, s0, inputs, |inputs| - 1);
    }
  }

  /** Request k is served by actions 3k, 3k + 1 and 3k + 2: it is received,
      `run` gets the state the reference gives after the k requests before
      it, and the k-th response, the reference's, goes out. */
  lemma {:induction false} ServeStepAt<S, I, O>(code: PersistentCode<S, I, O>, offset: nat, s0: S, inputs: seq<I>, k: nat)
    requires k < |inputs|
    ensures var r := Serve(code, offset, s0, inputs);
      && r.responses[k] == ResponseAt(code, offset, s0, inputs, k)
      && r.actions[3 * k] == Received(inputs[k])
      && r.actions[3 * k + 1] == RunCalled(offset, StateAt(code, offset, s0, inputs, k), inputs[k])
      && r.actions[3 * k + 2] == Responded(ResponseAt(code, offset, s0, inputs, k))
    decreases k
  {
    if k > 0 {
      var s1 := code.run(offset, s0, inputs[0]).state;
      var rest := inputs[1..];
      ServeStepAt(code, offset, s1, rest, k - 1);
      StateAtShift(code, offset, s0, inputs, k - 1);
      var r := Serve(code, offset, s0, inputs);
      var r1 := Serve(code, offset, s1, rest);
      assert r.actions == [Received(inputs[0]), RunCalled(offset, s0, inputs[0]), Responded(code.run(offset, s0, inputs[0]).result)] + r1.actions;
      assert r.responses == [code.run(offset, s0, inputs[0]).result] + r1.responses;
      assert r.actions[3 * k] == r1.actions[3 * (k - 1)];
      assert r.actions[3 * k + 1] == r1.actions[3 * (k - 1) + 1];
      assert r.actions[3 * k + 2] == r1.actions[3 * (k - 1) + 2];
      assert rest[k - 1] == inputs[k];
    }
  }

  /** Every action of serving requests is a receive, a run at the given
      offset, or a response. */
  lemma {:induction false} ServeActions<S, I, O>(code: PersistentCode<S, I, O>, offset: nat, s0: S, inputs: seq<I>)
    ensures forall a :: a in Serve(code, offset, s0, inputs).actions ==>
      a.Received? || (a.RunCalled? && a.offset == offset) || a.Responded?
    decreases |inputs|
  {
    if inputs != [] {
      ServeActions(code, offset, code.run(offset, s0, inputs[0]).state, inputs[1..]);
    }
  }

  lemma IndexMiddle<T>(a: seq<T>, s: seq<T>, b: seq<T>, j: nat)
    requires j < |s|
    ensures (a + s + b)[|a| + j] == s[j]
  {
  }

  /** `init` runs once, first, on the base frame. When it fails the error
      goes out on the handle sender and neither `run` nor `exit` is called. */
  lemma PersistentInit<S, I, O>(code: PersistentCode<S, I, O>, inputs: seq<I>)
    ensures var t := PersistentTrace(code, inputs);
      t[0] == InitCalled(0) && forall j :: 0 < j < |t| ==> !t[j].InitCalled?
    ensures code.init(0).result.Err? ==>
      forall a :: a in PersistentTrace(code, inputs) ==> !a.RunCalled? && !a.ExitCalled?
  {
    if code.init(0).result.Ok? {
      var offset := PostInitOffset(code);
      var served := Serve(code, offset, code.init(0).result.value, inputs);
      ServeActions(code, offset, code.init(0).result.value, inputs);
      var t := PersistentTrace(code, inputs);
      var exit := [ExitCalled(offset, served.final)];
      forall j | 0 < j < |t|
        ensures !t[j].InitCalled?
      {
        if 2 <= j < |t| - 1 {
          IndexMiddle([InitCalled(0), HandleSent(true)], served.actions, exit, j - 2);
          assert served.actions[j - 2] in served.actions;
        }
      }
    }
  }

  /** The handle is sent exactly once, right after `init` and before any
      request is received. */
  lemma PersistentHandleFirst<S, I, O>(code: PersistentCode<S, I, O>, inputs: seq<I>)
    ensures var t := PersistentTrace(code, inputs);
      |t| >= 2 && t[1] == HandleSent(code.init(0).result.Ok?)
      && forall j :: 0 <= j < |t| && j != 1 ==> !t[j].HandleSent? && (t[j].Received? ==> j > 1)
  {
    if code.init(0).result.Ok? {
      var offset := PostInitOffset(code);
      var served := Serve(code, offset, code.init(0).result.value, inputs);
      ServeActions(code, offset, code.init(0).result.value, inputs);
      var t := PersistentTrace(code, inputs);
      var exit := [ExitCalled(offset, served.final)];
      forall j | 2 <= j < |t| - 1
        ensures !t[j].HandleSent?
      {
        IndexMiddle([InitCalled(0), HandleSent(true)], served.actions, exit, j - 2);
        assert served.actions[j - 2] in served.actions;
      }
    }
  }

  /** Requests are served in arrival order: request k is received, then
      `run` gets the state left by the k requests before it and the k-th
      input, then the k-th response goes out. */
  lemma PersistentServesInOrder<S, I, O>(code: PersistentCode<S, I, O>, inputs: seq<I>, k: nat)
    requires code.init(0).result.Ok? && k < |inputs|
    ensures var t := PersistentTrace(code, inputs);
      var offset, s0 := PostInitOffset(code), code.init(0).result.value;
      && |t| == 3 * |inputs| + 3
      && t[2 + 3 * k] == Received(inputs[k])
      && t[3 + 3 * k] == RunCalled(offset, StateAt(code, offset, s0, inputs, k), inputs[k])
      && t[4 + 3 * k] == Responded(ResponseAt(code, offset, s0, inputs, k))
  {
    var offset, s0 := PostInitOffset(code), code.init(0).result.value;
    var served := Serve(code, offset, s0, inputs);
    var exit := [ExitCalled(offset, served.final)];
    var init := [InitCalled(0), HandleSent(true)];
    ServeStepAt(code, offset, s0, inputs, k);
    IndexMiddle(init, served.actions, exit, 3 * k);
    IndexMiddle(init, served.actions, exit, 3 * k + 1);
    IndexMiddle(init, served.actions, exit, 3 * k + 2);
  }

  /** Every `run` and the `exit` start from a frame at the stack size
      recorded after `init`, and `exit` runs once, last, on the state the
      last request left. */
  lemma PersistentFramesAndExit<S, I, O>(code: PersistentCode<S, I, O>, inputs: seq<I>)
    requires code.init(0).result.Ok?
    ensures var t := PersistentTrace(code, inputs);
      var offset, s0 := PostInitOffset(code), code.init(0).result.value;
      && |t| >= 3
      && (forall j :: 0 <= j < |t| && t[j].RunCalled? ==> t[j].offset == offset)
      && t[|t| - 1] == ExitCalled(offset, StateAt(code, offset, s0, inputs, |inputs|))
      && (forall j :: 0 <= j < |t| - 1 ==> !t[j].ExitCalled?)
  {
    var t := PersistentTrace(code, inputs);
    var offset, s0 := PostInitOffset(code), code.init(0).result.value;
    var served := Serve(code, offset, s0, inputs);
    var exit := [ExitCalled(offset, served.final)];
    ServeActions(code, offset, s0, inputs);
    ServeFinal(code, offset, s0, inputs);
    forall j | 2 <= j < |t| - 1
      ensures !t[j].ExitCalled? && (t[j].RunCalled? ==> t[j].offset == offset)
    {
      IndexMiddle([InitCalled(0), HandleSent(true)], served.actions, exit, j - 2);
      assert served.actions[j - 2] in served.actions;
    }
  }

  /** The requests are distinct objects with distinct senders. */
  predicate DistinctRequests<I, O>(msgs: seq<CallPersistentTask<I, O>>)
  {
    forall j, k :: 0 <= j < k < |msgs| ==> msgs[j] != msgs[k] && msgs[j].sender != msgs[k].sender
  }

  /** A request that still holds its input and has not been answered. */
  ghost predicate Waiting<I, O>(msg: CallPersistentTask<I, O>, x: I)
    reads msg, msg.sender
  {
    msg.input == Some(x) && msg.sender.sent.None?
  }

  /** A request whose input was taken and whose sender sent r. */
  ghost predicate Answered<I, O>(msg: CallPersistentTask<I, O>, r: JlrsResult<O>)
    reads msg, msg.sender
  {
    msg.input == None && msg.sender.sent == Some(r)
  }

  /** The requests of the receiver are distinct, carry the given inputs and
      have not been answered. */
  ghost predicate MessagesReady<I, O>(msgs: seq<CallPersistentTask<I, O>>, inputs: seq<I>)
    reads set m | m in msgs, set m | m in msgs :: m.sender
  {
    && |msgs| == |inputs|
    && DistinctRequests(msgs)
    && (forall k :: 0 <= k < |msgs| ==> Waiting(msgs[k], inputs[k]))
  }

  /** Serving the requests from index i on is serving request i, then the rest. */
  lemma ServeFirst<S, I, O>(code: PersistentCode<S, I, O>, offset: nat, state: S, inputs: seq<I>, i: nat)
    requires i < |inputs|
    ensures var out := code.run(offset, state, inputs[i]);
      var rest := Serve(code, offset, out.state, inputs[i + 1..]);
      Serve(code, offset, state, inputs[i..])
      == Served([Received(inputs[i]), RunCalled(offset, state, inputs[i]), Responded(out.result)] + rest.actions,
                [out.result] + rest.responses, rest.final)
  {
    assert inputs[i..][0] == inputs[i];
    assert inputs[i..][1..] == inputs[i + 1..];
  }

  lemma AppendAssoc<T>(a: seq<T>, b: seq<T>, c: seq<T>)
    ensures (a + b) + c == a + (b + c)
  {
  }

  /** One turn of the request loop: reconstruct the frame at `offset`, take
      the request's input, run on it in a nested frame whose roots are
      popped when its owner is dropped, and respond on the request's sender. */
  method ServeOne<S, I, O>(stack: Stack, msg: CallPersistentTask<I, O>, code: PersistentCode<S, I, O>,
                           offset: nat, state: S, ghost x: I)
    returns (state': S)
    requires Waiting(msg, x)
    modifies stack, msg, msg.sender
    ensures Answered(msg, code.run(offset, state, x).result)
    ensures state' == code.run(offset, state, x).state
    ensures stack.size == offset
  {
    stack.Truncate(offset);
    var frame := stack.size;
    var input := msg.Input();
    var out := code.run(frame, state, input);
    stack.Push(out.pushed);
    stack.Truncate(frame);
    msg.Respond(out.result);
    state' := out.state;
  }

  /** Serving request i of a batch whose earlier requests are answered and
      whose later ones wait: request i is answered and nothing else changes. */
  method ServeAt<S, I, O>(stack: Stack, msg: CallPersistentTask<I, O>, code: PersistentCode<S, I, O>,
                          offset: nat, state: S, ghost msgs: seq<CallPersistentTask<I, O>>, ghost inputs: seq<I>,
                          ghost responses: seq<JlrsResult<O>>, ghost i: nat)
    returns (state': S)
    requires i < |msgs| == |inputs| && msg == msgs[i] && DistinctRequests(msgs) && |responses| == i
    requires forall k :: 0 <= k < i ==> Answered(msgs[k], responses[k])
    requires forall k :: i <= k < |msgs| ==> Waiting(msgs[k], inputs[k])
    modifies stack, msg, msg.sender
    ensures state' == code.run(offset, state, inputs[i]).state
    ensures forall k :: 0 <= k < i ==> Answered(msgs[k], responses[k])
    ensures Answered(msg, code.run(offset, state, inputs[i]).result)
    ensures forall k :: i < k < |msgs| ==> Waiting(msgs[k], inputs[k])
  {
    label Before:
    state' := ServeOne(stack, msg, code, offset, state, inputs[i]);
    forall k | 0 <= k < i
      ensures Answered(msgs[k], responses[k])
    {
      assert msgs[k] != msg && msgs[k].sender != msg.sender;
      assert old@Before(Answered(msgs[k], responses[k]));
    }
    forall k | i < k < |msgs|
      ensures Waiting(msgs[k], inputs[k])
    {
      assert msgs[k] != msg && msgs[k].sender != msg.sender;
      assert old@Before(Waiting(msgs[k], inputs[k]));
    }
  }

  /** How far the request loop has got after serving the first i requests:
      the remaining requests are still queued and waiting, the served ones
      are answered, and what is left to do is serving the rest from the
      current state. */
  ghost predicate Progress<S, I, O>(receiver: Receiver<CallPersistentTask<I, O>>, code: PersistentCode<S, I, O>,
                                    offset: nat, s0: S, msgs: seq<CallPersistentTask<I, O>>, inputs: seq<I>,
                                    i: nat, state: S, served: seq<Action<S, I, O>>, responses: seq<JlrsResult<O>>)
    reads receiver, set m | m in msgs, set m | m in msgs :: m.sender
  {
    && i <= |msgs| == |inputs| && receiver.queue == msgs[i..] && DistinctRequests(msgs)
    && (var whole, rest := Serve(code, offset, s0, inputs), Serve(code, offset, state, inputs[i..]);
        && served + rest.actions == whole.actions
        && responses + rest.responses == whole.responses
        && rest.final == whole.final)
    && |responses| == i && (forall k :: 0 <= k < i ==> Answered(msgs[k], responses[k]))
    && (forall k :: i <= k < |msgs| ==> Waiting(msgs[k], inputs[k]))
  }

  /** One turn of the request loop: receive; when the channel is closed and
      empty report that, otherwise serve the request received. */
  method ServeNext<S, I, O>(stack: Stack, receiver: Receiver<CallPersistentTask<I, O>>, code: PersistentCode<S, I, O>,
                            offset: nat, state: S, ghost s0: S, ghost msgs: seq<CallPersistentTask<I, O>>, ghost inputs: seq<I>,
                            ghost i: nat, ghost served: seq<Action<S, I, O>>, ghost responses: seq<JlrsResult<O>>)
    returns (done: bool, state': S, ghost served': seq<Action<S, I, O>>, ghost responses': seq<JlrsResult<O>>)
    requires Progress(receiver, code, offset, s0, msgs, inputs, i, state, served, responses)
    modifies stack, receiver, set m | m in msgs, set m | m in msgs :: m.sender
    ensures done ==> i == |msgs| && receiver.queue == [] && state' == state && served' == served && responses' == responses
    ensures !done ==> i < |msgs| && Progress(receiver, code, offset, s0, msgs, inputs, i + 1, state', served', responses')
    ensures done ==> Progress(receiver, code, offset, s0, msgs, inputs, i, state', served', responses')
  {
    var m := receiver.Recv();
    if m.None? {
      assert |msgs[i..]| == 0;
      return true, state, served, responses;
    }
    var msg := m.value;
    assert msg == msgs[i];
    ghost var out := code.run(offset, state, inputs[i]);
    ghost var step := [Received(inputs[i]), RunCalled(offset, state, inputs[i]), Responded(out.result)];
    ghost var rest := Serve(code, offset, out.state, inputs[i + 1..]);
    ServeFirst(code, offset, state, inputs, i);
    AppendAssoc(served, step, rest.actions);
    AppendAssoc(responses, [out.result], rest.responses);
    served' := served + step;
    responses' := responses + [out.result];
    state' := ServeAt(stack, msg, code, offset, state, msgs, inputs, responses, i);
    done := false;
  }

  /** The request loop of the persistent envelope: while the receiver
      yields requests it serves each, threading the state from one `run` to
      the next. It ends when the channel reports that it is closed. */
  method ServeRequests<S, I, O>(stack: Stack, receiver: Receiver<CallPersistentTask<I, O>>, code: PersistentCode<S, I, O>,
                                offset: nat, s0: S, ghost inputs: seq<I>)
    returns (state: S, ghost served: seq<Action<S, I, O>>)
    requires MessagesReady(receiver.queue, inputs)
    modifies stack, receiver
    modifies set m | m in receiver.queue, set m | m in receiver.queue :: m.sender
    ensures var whole := Serve(code, offset, s0, inputs);
      state == whole.final && served == whole.actions && receiver.queue == []
      && forall k :: 0 <= k < |inputs| ==> Answered(old(receiver.queue)[k], whole.responses[k])
  {
    ghost var msgs := receiver.queue;
    ghost var responses: seq<JlrsResult<O>> := [];
    ghost var i := 0;
    state := s0;
    served := [];
    assert msgs[0..] == msgs && inputs[0..] == inputs;
    var done := false;
    while !done
      invariant Progress(receiver, code, offset, s0, msgs, inputs, i, state, served, responses)
      invariant done ==> i == |msgs|
      decreases |msgs| - i, !done
    {
      ghost var i0 := i;
      done, state, served, responses := ServeNext(stack, receiver, code, offset, state, s0, msgs, inputs, i, served, responses);
      if !done {
        i := i0 + 1;
      }
    }
    assert inputs[i..] == [];
  }

  /** `call` of the persistent envelope. On a base frame it runs `init`. On
      failure it sends the error on the handle sender and stops. Otherwise
      it sends the handle, records the stack size, serves the requests,
      runs `exit` on a frame at the recorded size once the channel closes,
      and drops the base frame. The returned trace is what it did. */
  method CallPersistent<S, I, O>(stack: Stack, pending: PendingTask<PersistentComms<Oneshot<JlrsResult<PersistentHandle>>>, PersistentCode<S, I, O>>,
                                 receiver: Receiver<CallPersistentTask<I, O>>, ghost inputs: seq<I>)
    returns (ghost trace: seq<Action<S, I, O>>)
    requires pending.task.Some? && pending.sender.sender.sent.None? && stack.size == 0
    requires MessagesReady(receiver.queue, inputs)
    requires forall k :: 0 <= k < |receiver.queue| ==> receiver.queue[k].sender as object != pending.sender.sender
    modifies stack, pending.sender.sender, receiver
    modifies set m | m in receiver.queue, set m | m in receiver.queue :: m.sender
    ensures trace == PersistentTrace(pending.task.value, inputs)
    ensures var init := pending.task.value.init(0).result;
      pending.sender.sender.sent == Some(if init.Ok? then Ok(PersistentHandle) else Err(init.error))
    ensures var code := pending.task.value;
      code.init(0).result.Ok? ==> forall k :: 0 <= k < |inputs| ==>
        Answered(old(receiver.queue)[k], Serve(code, PostInitOffset(code), code.init(0).result.value, inputs).responses[k])
    ensures pending.task.value.init(0).result.Err? ==>
      && receiver.queue == old(receiver.queue)
      && forall k :: 0 <= k < |inputs| ==> Waiting(old(receiver.queue)[k], inputs[k])
    ensures stack.size == 0
  {
    var (comms, code) := Split(pending);
    var handleSender := comms.sender;
    var base := stack.size;
    var init := code.init(base);
    stack.Push(init.pushed);
    trace := [InitCalled(base)];
    if init.result.Err? {
      handleSender.Send(Err(init.result.error));
      trace := trace + [HandleSent(false)];
      stack.Truncate(base);
      return;
    }
    handleSender.Send(Ok(PersistentHandle));
    trace := trace + [HandleSent(true)];
    var offset := stack.size;
    var state, served := ServeRequests(stack, receiver, code, offset, init.result.value, inputs);
    stack.Truncate(offset);
    var exitFrame := stack.size;
    trace := trace + served + [ExitCalled(exitFrame, state)];
    stack.Truncate(base);
  }

  /** Each request gets the response the reference definition gives: the
      `run` of the k-th input on the state the k requests before it left. */
  lemma PersistentResponses<S, I, O>(code: PersistentCode<S, I, O>, inputs: seq<I>, k: nat)
    requires code.init(0).result.Ok? && k < |inputs|
    ensures var offset, s0 := PostInitOffset(code), code.init(0).result.value;
      Serve(code, offset, s0, inputs).responses[k] == ResponseAt(code, offset, s0, inputs, k)
  {
    ServeStepAt(code, PostInitOffset(code), code.init(0).result.value, inputs, k);
  }
}
