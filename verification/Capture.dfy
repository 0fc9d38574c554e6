/** The memory provider of the hermes plugin, its capture queue and its one worker: two threads over
    a shared queue, and the tables they fill. */
module Capture {
  import opened Options
  import opened Conversations

  // -- Vocabulary ----------------------------------------------------------------------------------

  datatype Message = Message(role: string, content: string)

  /** What the agent thread calls on the provider. */
  datatype Hook =
    | SyncTurn(user: string, assistant: string)
    | OnMemoryWrite(content: string)
    | OnDelegation(task: string, result: string)
    | OnPreCompress(messages: seq<Message>)
    | OnSessionSwitch(newId: string)
    | OnSessionEnd

  /** What travels through the queue. */
  datatype Op =
    | Turn(user: string, assistant: string)
    | MemoryWrite(content: string)
    | Delegation(task: string, result: string)
    | Compressed(messages: seq<Message>)
    | Rotate(previous: string, next: string)
    | CloseSession(key: string)

  datatype Item = Do(op: Op) | Stop

  /** A transaction of the client. */
  datatype Write = Append(key: string, entry: Entry) | AppendMany(key: string, entries: seq<Entry>) | Close(key: string)

  /** The agent's name, the session it starts in, its switches, and the calls it makes, in order. */
  datatype Setup = Setup(agent: string, first: string, mirrorMemory: bool, preserveCompressed: bool, program: seq<Hook>)

  function SessionKey(id: string): string { "hermes:" + id }

  // -- What the provider enqueues --------------------------------------------------------------------

  /** The provider after some of its calls: live key, keys rotated away from, everything enqueued. */
  datatype Provider = Provider(key: string, rotated: seq<string>, items: seq<Item>)

  /** Each non-empty key once, in order of first appearance. */
  function Distinct(keys: seq<string>): seq<string> {
    if keys == [] then []
    else
      var before, key := Distinct(keys[..|keys| - 1]), keys[|keys| - 1];
      if key == "" || key in before then before else before + [key]
  }

  function Closes(keys: seq<string>): (items: seq<Item>)
    ensures |items| == |keys|
  {
    seq(|keys|, i requires 0 <= i < |keys| => Do(CloseSession(keys[i])))
  }

  function Stepped(setup: Setup, p: Provider, hook: Hook): Provider {
    match hook
    case SyncTurn(user, assistant) => p.(items := p.items + [Do(Turn(user, assistant))])
    case OnMemoryWrite(content) =>
      if setup.mirrorMemory then p.(items := p.items + [Do(MemoryWrite(content))]) else p
    case OnDelegation(task, result) => p.(items := p.items + [Do(Delegation(task, result))])
    case OnPreCompress(messages) =>
      if setup.preserveCompressed && messages != [] then p.(items := p.items + [Do(Compressed(messages))]) else p
    case OnSessionSwitch(newId) =>
      var key := SessionKey(newId);
      if p.key == "" || p.key == key then p.(key := key)
      else Provider(key, p.rotated + [p.key], p.items + [Do(Rotate(p.key, key))])
    case OnSessionEnd =>
      Provider(p.key, [], p.items + (Closes(Distinct(p.rotated + [p.key])) + [Stop]))
  }

  /** The provider once the first `n` calls of the program have returned. */
  function After(setup: Setup, n: nat): Provider
    requires n <= |setup.program|
  {
    if n == 0 then Provider(SessionKey(setup.first), [], [])
    else Stepped(setup, After(setup, n - 1), setup.program[n - 1])
  }

  /** How many calls come before the first end of the session, among the first `n`. */
  function FirstEnd(setup: Setup, n: nat): (e: nat)
    requires n <= |setup.program|
    ensures e <= n && (e < n ==> setup.program[e].OnSessionEnd?)
    ensures forall i :: 0 <= i < e ==> !setup.program[i].OnSessionEnd?
  {
    if n == 0 then 0
    else
      var e := FirstEnd(setup, n - 1);
      if e < n - 1 || setup.program[n - 1].OnSessionEnd? then e else n
  }

  // -- What the worker writes ------------------------------------------------------------------------

  function ValidOnes(messages: seq<Message>): (entries: seq<Entry>)
    ensures ValidEntries(entries)
  {
    if messages == [] then []
    else
      var before, m := ValidOnes(messages[..|messages| - 1]), messages[|messages| - 1];
      if m.role in VALID_ROLES then before + [Entry(m.role, Text(m.content))] else before
  }

  /** The transactions of one operation, dispatched while `key` is live. */
  function Plan(op: Op, key: string): seq<Write> {
    match op
    case Turn(user, assistant) =>
      (if user == "" then [] else [Append(key, Entry("user", Text(user)))]) +
      (if assistant == "" then [] else [Append(key, Entry("assistant", Text(assistant)))])
    case MemoryWrite(content) => [Append(key, Entry("system", Text(content)))]
    case Delegation(task, result) =>
      [Append(key, Entry("system", Text("[delegation] task:\n" + task + "\n\n[delegation] result:\n" + result)))]
    case Compressed(messages) =>
      var entries := ValidOnes(messages);
      if entries == [] then [] else [AppendMany(key, entries)]
    case Rotate(previous, next) => [Append(next, Entry("system", Rotation(previous, next)))]
    case CloseSession(target) => [Close(target)]
  }

  /** An operation the worker dispatched when `at` calls had begun, `done` of whose transactions
      committed. */
  datatype Served = Served(op: Op, at: nat, done: nat)

  function PlanOf(setup: Setup, s: Served): seq<Write>
    requires s.at <= |setup.program|
  {
    Plan(s.op, After(setup, s.at).key)
  }

  predicate Sound(setup: Setup, s: Served) {
    s.at <= |setup.program| && s.done <= |PlanOf(setup, s)|
  }

  predicate AllSound(setup: Setup, served: seq<Served>) {
    forall i :: 0 <= i < |served| ==> Sound(setup, served[i])
  }

  predicate Complete(setup: Setup, s: Served) {
    Sound(setup, s) && s.done == |PlanOf(setup, s)|
  }

  /** All transactions that committed, in order. */
  function Effects(setup: Setup, served: seq<Served>): seq<Write>
    requires AllSound(setup, served)
  {
    if served == [] then []
    else
      var s := served[|served| - 1];
      Effects(setup, served[..|served| - 1]) + PlanOf(setup, s)[..s.done]
  }

  function OpsOf(served: seq<Served>): (ops: seq<Op>)
    ensures |ops| == |served|
  {
    seq(|served|, i requires 0 <= i < |served| => served[i].op)
  }

  function Items(ops: seq<Op>): (items: seq<Item>)
    ensures |items| == |ops|
  {
    seq(|ops|, i requires 0 <= i < |ops| => Do(ops[i]))
  }

  /** The messages the transactions file. */
  function Messages(agent: string, writes: seq<Write>): seq<Filing> {
    if writes == [] then []
    else
      var before := Messages(agent, writes[..|writes| - 1]);
      match writes[|writes| - 1]
      case Append(key, entry) => before + Filings(key, agent, [entry])
      case AppendMany(key, entries) => before + Filings(key, agent, entries)
      case Close(_) => before
  }

  /** Whether a key is active after the transactions: the last one that names it decides. */
  predicate ActiveAfter(start: bool, writes: seq<Write>, key: string) {
    if writes == [] then start
    else
      var w, before := writes[|writes| - 1], ActiveAfter(start, writes[..|writes| - 1], key);
      if w.key != key then before else !w.Close?
  }

  /** The transactions the last operation still has to commit. */
  function Rest(setup: Setup, served: seq<Served>): seq<Write>
    requires served != [] && AllSound(setup, served)
  {
    var s := served[|served| - 1];
    PlanOf(setup, s)[s.done..]
  }

  /** A committed transaction. */
  ghost predicate Wrote(t: Tables, agent: string, w: Write, t': Tables) {
    match w
    case Append(key, entry) => Appended(t, key, agent, [entry], t')
    case AppendMany(key, entries) => Appended(t, key, agent, entries, t')
    case Close(key) => Closed(t, key, agent, t')
  }

  // -- The threads -----------------------------------------------------------------------------------

  datatype Worker = Idle | Took(op: Op) | Writing(writes: seq<Write>) | Stopped

  /** The whole system at one moment: the agent thread and its provider, waiting for the worker while
      `ending`; the queue and the worker, with a connection while `connected`; the pool and the tables. */
  datatype Outcome = Outcome(
    called: nat, key: string, rotated: seq<string>, pending: seq<Item>, ending: bool, timedOut: bool,
    puts: seq<Item>, queue: seq<Item>, worker: Worker, served: seq<Served>, connected: bool, failed: bool,
    open: bool, tables: Tables)

  /** The agent thread has run the calls begun so far; what it still has to put is `pending`. */
  ghost predicate ProviderOk(setup: Setup, o: Outcome) {
    && o.called <= |setup.program|
    && var p := After(setup, o.called);
       o.key == p.key && o.rotated == p.rotated && o.puts + o.pending == p.items
  }

  /** Nothing is lost, repeated or reordered between the queue and the worker. */
  ghost predicate QueueOk(o: Outcome) {
    o.puts == Items(OpsOf(o.served) + (if o.worker.Took? then [o.worker.op] else []))
            + (if o.worker.Stopped? then [Stop] else []) + o.queue
  }

  /** Each operation was dispatched after it was put, in order; only a failure leaves one unfinished. */
  ghost predicate ServedOk(setup: Setup, o: Outcome) {
    && AllSound(setup, o.served)
    && (forall i :: 0 <= i < |o.served| ==>
          o.served[i].at <= o.called && i < |After(setup, o.served[i].at).items|)
    && (forall i, j :: 0 <= i < j < |o.served| ==> o.served[i].at <= o.served[j].at)
    && (o.worker.Writing? ==> o.served != [] && o.worker.writes != [] && o.worker.writes == Rest(setup, o.served))
    && (!o.failed ==>
          forall i :: 0 <= i < |o.served| - (if o.worker.Writing? then 1 else 0) ==> Complete(setup, o.served[i]))
  }

  /** The tables are what the committed transactions make of the initial ones. */
  ghost predicate TablesOk(agent: string, initial: Tables, writes: seq<Write>, tables: Tables) {
    && Linked(initial) && Linked(tables)
    && (OneActive(initial) ==> OneActive(tables))
    && Filed(tables) == Filed(initial) + Messages(agent, writes)
    && (forall k, a :: HasActive(tables, k, a) <==>
          if a == agent then ActiveAfter(HasActive(initial, k, a), writes, k) else HasActive(initial, k, a))
  }

  /** The call that ends the session returns once the worker has stopped or the wait has timed out, and
      leaves the pool closed; no transaction begins on a closed pool. */
  ghost predicate PoolOk(setup: Setup, o: Outcome) {
    var e := FirstEnd(setup, |setup.program|);
    && (o.open ==> o.called <= e + 1 && (o.called == e + 1 ==> o.ending))
    && (!o.open && !o.timedOut ==> o.worker.Stopped?)
    && (o.connected ==> o.worker.Writing? && o.served != [] && o.served[|o.served| - 1].at <= e + 1)
    && forall i :: 0 <= i < |o.served| && o.served[i].done > 0 ==> o.served[i].at <= e + 1
  }

  ghost predicate Consistent(setup: Setup, initial: Tables, o: Outcome) {
    && ProviderOk(setup, o) && QueueOk(o) && ServedOk(setup, o) && PoolOk(setup, o)
    && TablesOk(setup.agent, initial, Effects(setup, o.served), o.tables)
  }

  datatype Step = Agent | TimeOut | Take | Dispatch | Connect | Commit(ok: bool)

  class Plugin {
    const setup: Setup
    const client: Client
    // the provider
    var called: nat
    var sessionKey: string
    var rotatedKeys: seq<string>
    // the call in progress: what it still puts, and whether it is to wait for the worker
    var pending: seq<Item>
    var ending: bool
    // the capture queue, its worker, and the connection the worker has taken from the pool
    var queue: seq<Item>
    var worker: Worker
    var connected: bool
    var poolOpen: bool
    // what an observer has seen
    var puts: seq<Item>
    var served: seq<Served>
    var failed: bool
    var timedOut: bool

    /** The provider is initialized in its first session. */
    constructor (setup: Setup, client: Client)
      requires Linked(client.tables)
      ensures this.setup == setup && this.client == client
      ensures Valid(client.tables)
      ensures View() == Started(setup, client.tables)
    {
      this.setup, this.client := setup, client;
      called, sessionKey, rotatedKeys, pending := 0, SessionKey(setup.first), [], [];
      queue, worker, puts, served, failed := [], Idle, [], [], false;
      ending, connected, poolOpen, timedOut := false, false, true, false;
      new;
      hide Consistent;
      StartedOk(setup, client.tables);
    }

    ghost function View(): Outcome
      reads this, client
    {
      Outcome(called, sessionKey, rotatedKeys, pending, ending, timedOut, puts, queue, worker, served, connected,
              failed, poolOpen, client.tables)
    }

    ghost predicate Valid(initial: Tables)
      reads this, client
    {
      Consistent(setup, initial, View())
    }

    // -- The agent thread ----------------------------------------------------------------------------

    method IngestTurn(user: string, assistant: string)
      modifies this`pending
      ensures pending == [Do(Turn(user, assistant))]
    {
      pending := [Do(Turn(user, assistant))];
    }

    /** A switch is a rotation: the key moves at once, the breadcrumb follows through the queue. */
    method SessionSwitch(newId: string)
      requires pending == []
      modifies this`sessionKey, this`rotatedKeys, this`pending
      ensures var p := Stepped(setup, Provider(old(sessionKey), old(rotatedKeys), []), OnSessionSwitch(newId));
        sessionKey == p.key && rotatedKeys == p.rotated && pending == p.items
    {
      var oldKey := sessionKey;
      sessionKey := SessionKey(newId);
      if oldKey == "" || oldKey == sessionKey {
        return;
      }
      rotatedKeys := rotatedKeys + [oldKey];
      pending := [Do(Rotate(oldKey, sessionKey))];
    }

    /** Closes the whole chain, then stops the worker, for which it will have to wait. */
    method SessionEnd()
      requires pending == []
      modifies this`rotatedKeys, this`pending, this`ending
      ensures ending
      ensures var p := Stepped(setup, Provider(sessionKey, old(rotatedKeys), []), OnSessionEnd);
        rotatedKeys == p.rotated && pending == p.items
    {
      var keys := rotatedKeys + [sessionKey];
      var seen: seq<string> := [];
      for i := 0 to |keys|
        invariant seen == Distinct(keys[..i])
        invariant pending == Closes(seen)
      {
        assert keys[..i + 1][..i] == keys[..i];
        var key := keys[i];
        if key != "" && key !in seen {
          seen := seen + [key];
          pending := pending + [Do(CloseSession(key))];
        }
      }
      assert keys[..|keys|] == keys;
      rotatedKeys := [];
      pending, ending := pending + [Stop], true;
    }

    /** `shutdown` after the wait: the client closes its pool. */
    method ClosePool()
      modifies this`ending, this`poolOpen
      ensures !ending && !poolOpen
    {
      ending, poolOpen := false, false;
    }

    method Hooked(hook: Hook)
      requires pending == [] && !ending
      modifies this`sessionKey, this`rotatedKeys, this`pending, this`ending
      ensures ending == hook.OnSessionEnd?
      ensures var p := Stepped(setup, Provider(old(sessionKey), old(rotatedKeys), []), hook);
        sessionKey == p.key && rotatedKeys == p.rotated && pending == p.items
    {
      match hook {
        case SyncTurn(user, assistant) => IngestTurn(user, assistant);
        case OnMemoryWrite(content) =>
          if setup.mirrorMemory { pending := [Do(MemoryWrite(content))]; }
        case OnDelegation(task, result) => pending := [Do(Delegation(task, result))];
        case OnPreCompress(messages) =>
          if setup.preserveCompressed && messages != [] { pending := [Do(Compressed(messages))]; }
        case OnSessionSwitch(newId) => SessionSwitch(newId);
        case OnSessionEnd => SessionEnd();
      }
    }

    /** The agent thread moves: the call in progress puts its next item, or finds the worker stopped and
        closes the pool, or the next call begins. */
    method AgentStep(ghost initial: Tables)
      requires Valid(initial)
      modifies this`called, this`sessionKey, this`rotatedKeys, this`pending, this`ending, this`poolOpen, this`queue, this`puts
      ensures Valid(initial)
      ensures View() == AgentMoved(setup, old(View()))
    {
      hide Consistent, Stepped, After;
      ghost var o := View();
      if pending != [] {
        queue, puts, pending := queue + [pending[0]], puts + [pending[0]], pending[1..];
      } else if ending {
        if worker.Stopped? { ClosePool(); }
      } else if called < |setup.program| {
        Hooked(setup.program[called]);
        called := called + 1;
      }
      AgentKeeps(setup, initial, o);
    }

    /** The wait for the worker times out. */
    method TimeOutStep(ghost initial: Tables)
      requires Valid(initial)
      modifies this`ending, this`poolOpen, this`timedOut
      ensures Valid(initial)
      ensures View() == WaitedEnough(old(View()))
    {
      hide Consistent;
      ghost var o := View();
      if ending && pending == [] {
        timedOut := timedOut || !worker.Stopped?;
        ClosePool();
      }
      TimeOutKeeps(setup, initial, o);
    }

    // -- The worker ----------------------------------------------------------------------------------

    /** `queue.get()`, which blocks on an empty queue. */
    method TakeStep(ghost initial: Tables)
      requires Valid(initial)
      modifies this`queue, this`worker
      ensures Valid(initial)
      ensures View() == TookNext(old(View()))
    {
      hide Consistent;
      ghost var o := View();
      if worker.Idle? && queue != [] {
        var item := queue[0];
        queue := queue[1..];
        match item {
          case Stop => worker := Stopped;
          case Do(op) => worker := Took(op);
        }
      }
      TakeKeeps(setup, initial, o);
    }

    method RowsOf(messages: seq<Message>) returns (entries: seq<Entry>)
      ensures entries == ValidOnes(messages)
    {
      entries := [];
      for i := 0 to |messages|
        invariant entries == ValidOnes(messages[..i])
      {
        assert messages[..i + 1][..i] == messages[..i];
        if messages[i].role in VALID_ROLES {
          entries := entries + [Entry(messages[i].role, Text(messages[i].content))];
        }
      }
      assert messages[..|messages|] == messages;
    }

    method Transactions(op: Op, key: string) returns (writes: seq<Write>)
      ensures writes == Plan(op, key)
    {
      match op {
        case Turn(user, assistant) =>
          writes := [];
          if user != "" { writes := writes + [Append(key, Entry("user", Text(user)))]; }
          if assistant != "" { writes := writes + [Append(key, Entry("assistant", Text(assistant)))]; }
        case MemoryWrite(content) =>
          writes := [Append(key, Entry("system", Text(content)))];
        case Delegation(task, result) =>
          var body := "[delegation] task:\n" + task + "\n\n[delegation] result:\n" + result;
          writes := [Append(key, Entry("system", Text(body)))];
        case Compressed(messages) =>
          var entries := RowsOf(messages);
          writes := if entries == [] then [] else [AppendMany(key, entries)];
        case Rotate(previous, next) =>
          writes := [Append(next, Entry("system", Rotation(previous, next)))];
        case CloseSession(target) =>
          writes := [Close(target)];
      }
    }

    /** The live context is read, and the transactions of the operation are laid out. */
    method DispatchStep(ghost initial: Tables)
      requires Valid(initial)
      modifies this`worker, this`served
      ensures Valid(initial)
      ensures View() == Dispatched(old(View()))
    {
      hide Consistent, Plan;
      ghost var o := View();
      if worker.Took? {
        var writes := Transactions(worker.op, sessionKey);
        served := served + [Served(worker.op, called, 0)];
        worker := if writes == [] then Idle else Writing(writes);
      }
      DispatchKeeps(setup, initial, o);
    }

    method Perform(w: Write)
      requires Linked(client.tables) && WellFormed(w)
      modifies client
      ensures Wrote(old(client.tables), setup.agent, w, client.tables)
    {
      match w {
        case Append(key, entry) => var _ := client.AppendMessage(key, setup.agent, entry);
        case AppendMany(key, entries) => var _ := client.AppendMany(key, setup.agent, entries);
        case Close(key) => client.CloseBySessionKey(key, setup.agent);
      }
    }

    /** The next transaction takes a connection; a closed pool has none, and the operation fails. */
    method ConnectStep(ghost initial: Tables)
      requires Valid(initial)
      modifies this`worker, this`connected, this`failed
      ensures Valid(initial)
      ensures View() == TookConnection(old(View()))
    {
      hide Consistent;
      ghost var o := View();
      if worker.Writing? && !connected {
        if poolOpen {
          connected := true;
        } else {
          failed, worker := true, Idle;
        }
      }
      ConnectKeeps(setup, initial, o);
    }

    /** The transaction commits, or fails and takes the rest of its operation with it. */
    method CommitStep(ghost initial: Tables, ok: bool)
      requires Valid(initial)
      modifies this`worker, this`served, this`connected, this`failed, client
      ensures Valid(initial)
      ensures View() == Committed(old(View()), ok, client.tables)
    {
      hide Consistent, Wrote, Linked;
      ghost var o := View();
      if worker.Writing? && connected {
        connected := false;
        if ok {
          NextWrite(setup, initial, o);
          Perform(worker.writes[0]);
          var last := |served| - 1;
          served := served[last := served[last].(done := served[last].done + 1)];
          worker := if |worker.writes| == 1 then Idle else Writing(worker.writes[1..]);
          CommitKeeps(setup, initial, o, client.tables);
        } else {
          failed, worker := true, Idle;
          FailKeeps(setup, initial, o);
        }
      }
    }
  }

  function Started(setup: Setup, tables: Tables): Outcome {
    Outcome(0, SessionKey(setup.first), [], [], false, false, [], [], Idle, [], false, false, true, tables)
  }

  // -- The steps keep the system consistent --------------------------------------------------------

  function AgentMoved(setup: Setup, o: Outcome): Outcome {
    if o.pending != [] then
      o.(queue := o.queue + [o.pending[0]], puts := o.puts + [o.pending[0]], pending := o.pending[1..])
    else if o.ending then
      if o.worker.Stopped? then o.(ending := false, open := false) else o
    else if o.called < |setup.program| then
      var hook := setup.program[o.called];
      var p := Stepped(setup, Provider(o.key, o.rotated, []), hook);
      o.(called := o.called + 1, key := p.key, rotated := p.rotated, pending := p.items, ending := hook.OnSessionEnd?)
    else o
  }

  function WaitedEnough(o: Outcome): Outcome {
    if !o.ending || o.pending != [] then o
    else o.(ending := false, open := false, timedOut := o.timedOut || !o.worker.Stopped?)
  }

  function TookNext(o: Outcome): Outcome {
    if !o.worker.Idle? || o.queue == [] then o
    else o.(queue := o.queue[1..], worker := if o.queue[0].Stop? then Stopped else Took(o.queue[0].op))
  }

  function Dispatched(o: Outcome): Outcome {
    if !o.worker.Took? then o
    else
      var writes := Plan(o.worker.op, o.key);
      o.(served := o.served + [Served(o.worker.op, o.called, 0)],
         worker := if writes == [] then Idle else Writing(writes))
  }

  function TookConnection(o: Outcome): Outcome {
    if !o.worker.Writing? || o.connected then o
    else if o.open then o.(connected := true)
    else o.(failed := true, worker := Idle)
  }

  function Committed(o: Outcome, ok: bool, tables: Tables): Outcome {
    if !o.worker.Writing? || !o.connected then o
    else if !ok then o.(connected := false, failed := true, worker := Idle)
    else
      var last := |o.served| - 1;
      o.(connected := false,
         served := if last < 0 then [] else o.served[last := o.served[last].(done := o.served[last].done + 1)],
         worker := if |o.worker.writes| <= 1 then Idle else Writing(o.worker.writes[1..]),
         tables := tables)
  }

  predicate WellFormed(w: Write) {
    match w
    case Append(_, entry) => entry.role in VALID_ROLES
    case AppendMany(_, entries) => entries != [] && ValidEntries(entries)
    case Close(_) => true
  }

  lemma StartedOk(setup: Setup, tables: Tables)
    requires Linked(tables)
    ensures Consistent(setup, tables, Started(setup, tables))
  {
    assert Filed(tables) == Filed(tables) + Messages(setup.agent, []);
  }

  // -- The steps, one by one -------------------------------------------------------------------------

  /** The calls of a step only add items. */
  lemma StepAppends(setup: Setup, p: Provider, hook: Hook)
    ensures Stepped(setup, p, hook).items == p.items + Stepped(setup, p.(items := []), hook).items
    ensures Stepped(setup, p, hook).key == Stepped(setup, p.(items := []), hook).key
    ensures Stepped(setup, p, hook).rotated == Stepped(setup, p.(items := []), hook).rotated
  {}

  lemma SameService(setup: Setup, o: Outcome, o': Outcome)
    requires ServedOk(setup, o) && o'.served == o.served && o'.failed == o.failed && o'.called >= o.called
    requires o.worker == o'.worker || (!o.worker.Writing? && !o'.worker.Writing?)
    ensures ServedOk(setup, o')
  {}

  lemma AgentKeepsPool(setup: Setup, o: Outcome)
    requires PoolOk(setup, o)
    ensures PoolOk(setup, AgentMoved(setup, o))
  {
    hide Stepped, PlanOf;
  }

  lemma AgentKeeps(setup: Setup, initial: Tables, o: Outcome)
    requires Consistent(setup, initial, o)
    ensures Consistent(setup, initial, AgentMoved(setup, o))
  {
    hide Effects, TablesOk, PoolOk, QueueOk, ServedOk, ProviderOk, Stepped, After;
    AgentKeepsPool(setup, o);
    AgentKeepsQueue(setup, o);
    AgentKeepsProvider(setup, o);
    SameService(setup, o, AgentMoved(setup, o));
  }

  lemma AgentKeepsQueue(setup: Setup, o: Outcome)
    requires QueueOk(o)
    ensures QueueOk(AgentMoved(setup, o))
  {
    hide Stepped, Items, OpsOf;
  }

  lemma AgentKeepsProvider(setup: Setup, o: Outcome)
    requires ProviderOk(setup, o)
    ensures ProviderOk(setup, AgentMoved(setup, o))
  {
    if o.pending == [] && o.called < |setup.program| {
      var p, hook := After(setup, o.called), setup.program[o.called];
      StepAppends(setup, p, hook);
      assert After(setup, o.called + 1) == Stepped(setup, p, hook);
      hide Stepped, After;
    }
  }

  lemma TimeOutKeeps(setup: Setup, initial: Tables, o: Outcome)
    requires Consistent(setup, initial, o)
    ensures Consistent(setup, initial, WaitedEnough(o))
  {
    hide Effects, TablesOk, After, Items, OpsOf;
    SameService(setup, o, WaitedEnough(o));
  }

  lemma TakeKeeps(setup: Setup, initial: Tables, o: Outcome)
    requires Consistent(setup, initial, o)
    ensures Consistent(setup, initial, TookNext(o))
  {
    hide Effects, TablesOk, After, QueueOk, ServedOk, Items, OpsOf;
    TakeKeepsQueue(o);
    SameService(setup, o, TookNext(o));
  }

  lemma TakeKeepsQueue(o: Outcome)
    requires QueueOk(o)
    ensures QueueOk(TookNext(o))
  {
    if o.worker.Idle? && o.queue != [] {
      assert o.queue == [o.queue[0]] + o.queue[1..];
      if o.queue[0].Do? { assert Items(OpsOf(o.served) + [o.queue[0].op]) == Items(OpsOf(o.served)) + [o.queue[0]]; }
      hide Items, OpsOf;
    }
  }

  lemma DispatchKeepsService(setup: Setup, o: Outcome)
    requires ProviderOk(setup, o) && QueueOk(o) && ServedOk(setup, o) && o.worker.Took?
    ensures ServedOk(setup, Dispatched(o))
    ensures Effects(setup, Dispatched(o).served) == Effects(setup, o.served)
  {
    hide After, Plan;
    var o', n := Dispatched(o), |o.served|;
    var s := o'.served[n];
    assert o'.served[..n] == o.served;
    assert PlanOf(setup, s) == Plan(o.worker.op, o.key);
    assert PlanOf(setup, s)[..0] == [] && PlanOf(setup, s)[0..] == PlanOf(setup, s);
    assert n < |After(setup, s.at).items|;
  }

  lemma DispatchKeepsPool(setup: Setup, o: Outcome)
    requires PoolOk(setup, o)
    ensures PoolOk(setup, Dispatched(o))
  {
    hide Plan;
  }

  lemma DispatchKeeps(setup: Setup, initial: Tables, o: Outcome)
    requires Consistent(setup, initial, o)
    ensures Consistent(setup, initial, Dispatched(o))
  {
    hide TablesOk, After, Plan, ServedOk, Effects, PoolOk;
    DispatchKeepsPool(setup, o);
    if o.worker.Took? {
      DispatchKeepsService(setup, o);
      assert OpsOf(Dispatched(o).served) == OpsOf(o.served) + [o.worker.op];
    }
  }

  /** The next transaction is well formed. */
  lemma NextWrite(setup: Setup, initial: Tables, o: Outcome)
    requires Consistent(setup, initial, o) && o.worker.Writing?
    ensures o.worker.writes != [] && o.served != [] && Linked(o.tables) && WellFormed(o.worker.writes[0])
  {
    hide After, Plan, WellFormed;
    var s := o.served[|o.served| - 1];
    PlanIsWellFormed(s.op, After(setup, s.at).key, s.done);
  }

  lemma PlanIsWellFormed(op: Op, key: string, i: nat)
    requires i < |Plan(op, key)|
    ensures WellFormed(Plan(op, key)[i])
  {}

  lemma FailKeeps(setup: Setup, initial: Tables, o: Outcome)
    requires Consistent(setup, initial, o) && o.worker.Writing?
    ensures Consistent(setup, initial, o.(connected := false, failed := true, worker := Idle))
  {
    hide TablesOk, After, Plan, Effects;
  }

  lemma ConnectKeeps(setup: Setup, initial: Tables, o: Outcome)
    requires Consistent(setup, initial, o)
    ensures Consistent(setup, initial, TookConnection(o))
  {
    hide TablesOk, After, Plan, Effects, FirstEnd;
    if o.worker.Writing? && !o.connected && !o.open {
      FailKeeps(setup, initial, o);
      hide ServedOk, PoolOk;
      assert o.(connected := false) == o;
    }
  }

  lemma CommitKeepsPool(setup: Setup, o: Outcome, tables: Tables)
    requires PoolOk(setup, o)
    ensures PoolOk(setup, Committed(o, true, tables))
  {
  }

  lemma CommitKeeps(setup: Setup, initial: Tables, o: Outcome, tables: Tables)
    requires Consistent(setup, initial, o) && o.worker.Writing? && o.connected
    requires Wrote(o.tables, setup.agent, o.worker.writes[0], tables)
    ensures Consistent(setup, initial, Committed(o, true, tables))
  {
    hide TablesOk, After, Plan, Wrote, PoolOk;
    CommitKeepsPool(setup, o, tables);
    var last := |o.served| - 1;
    var o' := Committed(o, true, tables);
    var s := o.served[last];
    assert o'.served[..last] == o.served[..last];
    assert PlanOf(setup, s)[..s.done + 1] == PlanOf(setup, s)[..s.done] + [o.worker.writes[0]];
    assert Effects(setup, o'.served) == Effects(setup, o.served) + [o.worker.writes[0]];
    WroteTables(setup.agent, initial, Effects(setup, o.served), o.tables, o.worker.writes[0], tables);
  }

  lemma WroteTables(agent: string, initial: Tables, writes: seq<Write>, t: Tables, w: Write, t': Tables)
    requires TablesOk(agent, initial, writes, t) && Wrote(t, agent, w, t')
    ensures TablesOk(agent, initial, writes + [w], t')
  {
    hide HasActive, OneActive, Filed, Linked;
    assert (writes + [w])[..|writes|] == writes;
  }

  // -- Every operation once, in order ----------------------------------------------------------------

  /** The operations put before the queue was told to stop. */
  function BeforeStop(items: seq<Item>): seq<Op> {
    if items == [] || items[0].Stop? then [] else [items[0].op] + BeforeStop(items[1..])
  }

  lemma {:induction false} BeforeStopOf(ops: seq<Op>, rest: seq<Item>)
    ensures BeforeStop(Items(ops) + rest) == ops + BeforeStop(rest)
  {
    if ops == [] {
      assert Items(ops) + rest == rest;
    } else {
      BeforeStopOf(ops[1..], rest);
      assert (Items(ops) + rest)[1..] == Items(ops[1..]) + rest;
    }
  }

  /** The worker has nothing left to do. */
  predicate Drained(o: Outcome) {
    o.worker.Stopped? || (o.worker.Idle? && o.queue == [])
  }

  /** The operations dispatched are the first ones put before the stop; once the queue has drained,
      they are all of them. */
  lemma DispatchedInOrder(setup: Setup, initial: Tables, o: Outcome)
    requires Consistent(setup, initial, o)
    ensures OpsOf(o.served) <= BeforeStop(o.puts)
    ensures Drained(o) ==> OpsOf(o.served) == BeforeStop(o.puts)
  {
    hide TablesOk, PoolOk, ServedOk, ProviderOk, OpsOf;
    var taken := OpsOf(o.served) + (if o.worker.Took? then [o.worker.op] else []);
    var rest := (if o.worker.Stopped? then [Stop] else []) + o.queue;
    assert o.puts == Items(taken) + rest;
    BeforeStopOf(taken, rest);
    if o.worker.Stopped? { assert rest[0] == Stop; }
  }

  // -- The rotation chain ----------------------------------------------------------------------------

  /** The items only grow. */
  lemma {:induction false} ItemsGrow(setup: Setup, m: nat, n: nat)
    requires m <= n <= |setup.program|
    ensures After(setup, m).items <= After(setup, n).items
  {
    if m < n { ItemsGrow(setup, m, n - 1); }
  }

  /** The links of a list of operations, in order. */
  function LinksOf(ops: seq<Op>): seq<(string, string)> {
    if ops == [] then []
    else
      var before := LinksOf(ops[..|ops| - 1]);
      match ops[|ops| - 1]
      case Rotate(previous, next) => before + [(previous, next)]
      case _ => before
  }

  /** The links of the rotation rows among the messages. */
  function Breadcrumbs(filed: seq<Filing>): seq<(string, string)> {
    if filed == [] then []
    else
      var before := Breadcrumbs(filed[..|filed| - 1]);
      match filed[|filed| - 1].entry.body
      case Rotation(previous, next) => before + [(previous, next)]
      case Text(_) => before
  }

  /** Where a path that starts at `first` ends. */
  function EndOf(links: seq<(string, string)>, first: string): string {
    if links == [] then first else links[|links| - 1].1
  }

  /** Each link leaves from where the one before arrived, the first from `first`. */
  predicate IsPath(links: seq<(string, string)>, first: string) {
    forall i :: 0 <= i < |links| ==> links[i].0 == EndOf(links[..i], first)
  }

  function CloseOps(keys: seq<string>): (ops: seq<Op>)
    ensures |ops| == |keys|
  {
    seq(|keys|, i requires 0 <= i < |keys| => CloseSession(keys[i]))
  }

  /** The keys the first end of the session closes. */
  function ClosingKeys(setup: Setup, n: nat): seq<string>
    requires n <= |setup.program|
  {
    var p := After(setup, n);
    Distinct(p.rotated + [p.key])
  }

  /** The operations are the calls' own, and their links lead from the first key to the live one. */
  ghost predicate OnPath(p: Provider, first: string) {
    && p.items == Items(BeforeStop(p.items))
    && IsPath(LinksOf(BeforeStop(p.items)), first)
    && EndOf(LinksOf(BeforeStop(p.items)), first) == p.key
  }

  lemma {:induction false} LiveOps(setup: Setup, n: nat)
    requires n <= |setup.program| && forall i :: 0 <= i < n ==> !setup.program[i].OnSessionEnd?
    ensures OnPath(After(setup, n), SessionKey(setup.first))
  {
    hide OnPath, Stepped, BeforeStop, IsPath, LinksOf;
    if n == 0 {
      StartsOnPath(SessionKey(setup.first));
    } else {
      LiveOps(setup, n - 1);
      LiveKey(setup, n - 1);
      var op := LiveStep(setup, After(setup, n - 1), setup.program[n - 1]);
      StaysOnPath(After(setup, n - 1), After(setup, n), op, SessionKey(setup.first));
    }
  }

  lemma StartsOnPath(first: string)
    ensures OnPath(Provider(first, [], []), first)
  {}

  /** A call puts one operation at most; the key moves just when that is a rotation. */
  predicate PutsAtMost(p: Provider, op: Option<Op>, p': Provider) {
    if op.None? then p'.items == p.items && p'.key == p.key
    else
      && p'.items == p.items + [Do(op.value)] && !op.value.CloseSession?
      && if op.value.Rotate? then op.value.previous == p.key && op.value.next == p'.key else p'.key == p.key
  }

  lemma StaysOnPath(p: Provider, p': Provider, op: Option<Op>, first: string)
    requires OnPath(p, first) && PutsAtMost(p, op, p')
    ensures OnPath(p', first)
  {
    hide BeforeStop, IsPath, LinksOf;
    if op.Some? {
      NextOp(BeforeStop(p.items), op.value);
      LinkPath(BeforeStop(p.items), op.value, first);
    }
  }

  lemma LiveKey(setup: Setup, n: nat)
    requires n <= |setup.program|
    ensures After(setup, n).key != ""
  {}

  lemma LiveStep(setup: Setup, p: Provider, hook: Hook) returns (op: Option<Op>)
    requires p.key != "" && !hook.OnSessionEnd?
    ensures PutsAtMost(p, op, Stepped(setup, p, hook))
  {
    var items := Stepped(setup, p.(items := []), hook).items;
    op := if items == [] then None else Some(items[0].op);
  }

  lemma NextOp(ops: seq<Op>, op: Op)
    ensures Items(ops) + [Do(op)] == Items(ops + [op])
    ensures BeforeStop(Items(ops) + [Do(op)]) == ops + [op]
  {
    BeforeStopOf(ops, [Do(op)]);
    assert BeforeStop([Do(op)]) == [op] + BeforeStop([Do(op)][1..]);
  }

  /** A rotation that leaves from the end of the path extends it. */
  lemma LinkPath(ops: seq<Op>, op: Op, first: string)
    requires IsPath(LinksOf(ops), first)
    requires op.Rotate? ==> op.previous == EndOf(LinksOf(ops), first)
    ensures IsPath(LinksOf(ops + [op]), first)
    ensures EndOf(LinksOf(ops + [op]), first) == if op.Rotate? then op.next else EndOf(LinksOf(ops), first)
  {
    assert (ops + [op])[..|ops|] == ops;
    var links, longer := LinksOf(ops), LinksOf(ops + [op]);
    forall i | 0 <= i < |longer| ensures longer[i].0 == EndOf(longer[..i], first) {
      if i < |links| { assert longer[..i] == links[..i]; } else { assert longer[..i] == links; }
    }
  }

  /** What the first end of the session adds is the closing of every key, and nothing after it
      counts. */
  lemma {:induction false} OpsBeforeStop(setup: Setup, n: nat)
    requires n <= |setup.program|
    ensures var e := FirstEnd(setup, n);
      BeforeStop(After(setup, n).items)
      == BeforeStop(After(setup, e).items) + if e < n then CloseOps(ClosingKeys(setup, e)) else []
  {
    var e := FirstEnd(setup, n);
    if e < n {
      LiveOps(setup, e);
      var live := BeforeStop(After(setup, e).items);
      var keys := ClosingKeys(setup, e);
      ItemsGrow(setup, e + 1, n);
      assert After(setup, e + 1).items == Items(live) + (Closes(keys) + [Stop]);
      hide After, ClosingKeys, FirstEnd, BeforeStop, LinksOf, IsPath, EndOf;
      StopCuts(live, keys, After(setup, n).items);
    }
  }

  lemma StopCuts(live: seq<Op>, keys: seq<string>, items: seq<Item>)
    requires Items(live) + (Closes(keys) + [Stop]) <= items
    ensures BeforeStop(items) == live + CloseOps(keys)
  {
    hide BeforeStop;
    var tail := items[|live| + |keys| + 1..];
    assert items == Items(live + CloseOps(keys)) + ([Stop] + tail);
    BeforeStopOf(live + CloseOps(keys), [Stop] + tail);
    StopStops(tail);
  }

  lemma StopStops(tail: seq<Item>)
    ensures BeforeStop([Stop] + tail) == []
  {}

  /** The agent has put all it had to, or the worker was told to stop: every operation put before the
      stop has been dispatched. */
  predicate Settled(o: Outcome) {
    o.worker.Stopped? || (o.worker.Idle? && o.queue == [] && o.pending == [])
  }

  lemma SettledOps(setup: Setup, initial: Tables, o: Outcome)
    requires Consistent(setup, initial, o) && Settled(o)
    ensures OpsOf(o.served) == BeforeStop(After(setup, o.called).items)
  {
    hide TablesOk, PoolOk, ServedOk, OpsOf;
    var rest := (if o.worker.Stopped? then [Stop] else []) + o.queue + o.pending;
    assert o.puts + o.pending == Items(OpsOf(o.served)) + rest;
    BeforeStopOf(OpsOf(o.served), rest);
    if o.worker.Stopped? {
      assert rest == [Stop] + (o.queue + o.pending);
      StopStops(o.queue + o.pending);
    }
  }

  // -- The breadcrumbs in the tables -----------------------------------------------------------------

  lemma {:induction false} MessagesConcat(agent: string, a: seq<Write>, b: seq<Write>)
    ensures Messages(agent, a + b) == Messages(agent, a) + Messages(agent, b)
  {
    if b == [] {
      assert a + b == a;
    } else {
      var n := |b| - 1;
      assert (a + b)[..|a| + n] == a + b[..n] && (a + b)[|a| + n] == b[n];
      MessagesConcat(agent, a, b[..n]);
    }
  }

  lemma {:induction false} BreadcrumbsConcat(a: seq<Filing>, b: seq<Filing>)
    ensures Breadcrumbs(a + b) == Breadcrumbs(a) + Breadcrumbs(b)
  {
    if b == [] {
      assert a + b == a;
    } else {
      var n := |b| - 1;
      assert (a + b)[..|a| + n] == a + b[..n] && (a + b)[|a| + n] == b[n];
      BreadcrumbsConcat(a, b[..n]);
    }
  }

  /** The transaction files no rotation row. */
  predicate TextOnly(w: Write) {
    match w
    case Append(_, entry) => entry.body.Text?
    case AppendMany(_, entries) => forall i :: 0 <= i < |entries| ==> entries[i].body.Text?
    case Close(_) => true
  }

  lemma {:induction false} TextLeavesNone(agent: string, writes: seq<Write>)
    requires forall i :: 0 <= i < |writes| ==> TextOnly(writes[i])
    ensures Breadcrumbs(Messages(agent, writes)) == []
  {
    if writes != [] {
      var n := |writes| - 1;
      TextLeavesNone(agent, writes[..n]);
      match writes[n]
      case Append(key, entry) => TextFilings(key, agent, [entry]);
        BreadcrumbsConcat(Messages(agent, writes[..n]), Filings(key, agent, [entry]));
      case AppendMany(key, entries) => TextFilings(key, agent, entries);
        BreadcrumbsConcat(Messages(agent, writes[..n]), Filings(key, agent, entries));
      case Close(_) =>
    }
  }

  lemma {:induction false} TextFilings(key: string, agent: string, entries: seq<Entry>)
    requires forall i :: 0 <= i < |entries| ==> entries[i].body.Text?
    ensures Breadcrumbs(Filings(key, agent, entries)) == []
  {
    if entries != [] {
      var n := |entries| - 1;
      TextFilings(key, agent, entries[..n]);
      assert Filings(key, agent, entries)[..n] == Filings(key, agent, entries[..n]);
    }
  }

  lemma {:induction false} ValidOnesAreText(messages: seq<Message>)
    ensures forall i :: 0 <= i < |ValidOnes(messages)| ==> ValidOnes(messages)[i].body.Text?
  {
    if messages != [] { ValidOnesAreText(messages[..|messages| - 1]); }
  }

  lemma PlanIsText(op: Op, key: string, i: nat)
    requires !op.Rotate? && i < |Plan(op, key)|
    ensures TextOnly(Plan(op, key)[i])
  {
    if op.Compressed? { ValidOnesAreText(op.messages); }
  }

  /** Of all operations only a rotation leaves a breadcrumb, and it leaves its own. */
  lemma PlanLeaves(agent: string, op: Op, key: string, done: nat)
    requires done <= |Plan(op, key)|
    ensures Breadcrumbs(Messages(agent, Plan(op, key)[..done])) == if done == 0 then [] else LinksOf([op])
  {
    hide Plan, TextOnly, Breadcrumbs, Messages, Filings;
    var writes := Plan(op, key)[..done];
    LinkOfOne(op);
    if op.Rotate? {
      RotationPlan(op, key);
      assert done == 0 || writes == Plan(op, key);
      if done == 0 { NothingLeaves(agent); } else { RotationLeaves(agent, op); }
    } else {
      forall i | 0 <= i < |writes| ensures TextOnly(writes[i]) { PlanIsText(op, key, i); }
      TextLeavesNone(agent, writes);
    }
  }

  lemma LinkOfOne(op: Op)
    ensures LinksOf([op]) == if op.Rotate? then [(op.previous, op.next)] else []
  {
    assert [op][..0] == [];
  }

  lemma RotationPlan(op: Op, key: string)
    requires op.Rotate?
    ensures Plan(op, key) == [Append(op.next, Entry("system", Rotation(op.previous, op.next)))]
  {}

  lemma RotationLeaves(agent: string, op: Op)
    requires op.Rotate?
    ensures Breadcrumbs(Messages(agent, [Append(op.next, Entry("system", Rotation(op.previous, op.next)))]))
         == [(op.previous, op.next)]
  {
    var write := Append(op.next, Entry("system", Rotation(op.previous, op.next)));
    assert [write][..0] == [];
    var filed := Filings(op.next, agent, [write.entry]);
    assert Messages(agent, [write]) == filed && filed[..0] == [];
  }

  /** The breadcrumbs of completed operations are their links. */
  lemma {:induction false} ServedLeave(setup: Setup, served: seq<Served>)
    requires AllSound(setup, served) && forall i :: 0 <= i < |served| ==> Complete(setup, served[i])
    ensures Breadcrumbs(Messages(setup.agent, Effects(setup, served))) == LinksOf(OpsOf(served))
  {
    hide Messages, Breadcrumbs, Plan, After;
    var n := |served| - 1;
    if served == [] {
      NothingLeaves(setup.agent);
    } else {
      var s := served[n];
      ServedLeave(setup, served[..n]);
      assert OpsOf(served)[..n] == OpsOf(served[..n]) && [s.op][..0] == [];
      var plan := PlanOf(setup, s);
      MessagesConcat(setup.agent, Effects(setup, served[..n]), plan[..s.done]);
      BreadcrumbsConcat(Messages(setup.agent, Effects(setup, served[..n])), Messages(setup.agent, plan[..s.done]));
      PlanLeaves(setup.agent, s.op, After(setup, s.at).key, s.done);
      if s.done == 0 { EmptyPlan(s.op, After(setup, s.at).key); }
    }
  }

  lemma NothingLeaves(agent: string)
    ensures Breadcrumbs(Messages(agent, [])) == []
  {}

  lemma EmptyPlan(op: Op, key: string)
    requires Plan(op, key) == []
    ensures !op.Rotate?
  {}

  lemma {:induction false} LinksOfPrefix(ops: seq<Op>, n: nat)
    requires n <= |ops|
    ensures LinksOf(ops[..n]) <= LinksOf(ops)
  {
    if n < |ops| {
      LinksOfPrefix(ops[..|ops| - 1], n);
      assert ops[..|ops| - 1][..n] == ops[..n];
    } else {
      assert ops[..n] == ops;
    }
  }

  lemma {:induction false} ClosesLeaveNone(ops: seq<Op>, keys: seq<string>)
    ensures LinksOf(ops + CloseOps(keys)) == LinksOf(ops)
  {
    if keys == [] {
      assert ops + CloseOps(keys) == ops;
    } else {
      var n := |keys| - 1;
      ClosesLeaveNone(ops, keys[..n]);
      assert (ops + CloseOps(keys))[..|ops| + n] == ops + CloseOps(keys[..n]);
    }
  }

  lemma PathPrefix(links: seq<(string, string)>, longer: seq<(string, string)>, first: string)
    requires links <= longer && IsPath(longer, first)
    ensures IsPath(links, first)
  {
    forall i | 0 <= i < |links| ensures links[i].0 == EndOf(links[..i], first) {
      assert links[..i] == longer[..i] && links[i] == longer[i];
    }
  }

  /** With no failure, the breadcrumbs filed so far are a path that starts at the first key; once all
      is settled it ends at the key that was live when the session ended, or is live now. */
  lemma BreadcrumbsArePath(setup: Setup, initial: Tables, o: Outcome)
    requires Consistent(setup, initial, o) && !o.failed && !o.worker.Writing?
    ensures Filed(initial) <= Filed(o.tables)
    ensures var links := Breadcrumbs(Filed(o.tables)[|Filed(initial)|..]);
      && IsPath(links, SessionKey(setup.first))
      && (Settled(o) ==> EndOf(links, SessionKey(setup.first)) == After(setup, FirstEnd(setup, o.called)).key)
  {
    var e := FirstEnd(setup, o.called);
    var all := After(setup, o.called).items;
    var links := LinksOf(OpsOf(o.served));
    ServedLeave(setup, o.served);
    assert Filed(o.tables)[|Filed(initial)|..] == Messages(setup.agent, Effects(setup, o.served));
    TakenFromAll(setup, initial, o);
    if Settled(o) { SettledOps(setup, initial, o); }
    LiveOps(setup, e);
    hide Consistent, Effects, Messages, Breadcrumbs, After, FirstEnd, IsPath, EndOf, BeforeStop, LinksOf, OpsOf, Settled;
    OpsBeforeStop(setup, o.called);
    ClosesLeaveNone(BeforeStop(After(setup, e).items), ClosingKeys(setup, e));
    assert BeforeStop(After(setup, e).items) + [] == BeforeStop(After(setup, e).items);
    assert LinksOf(BeforeStop(all)) == LinksOf(BeforeStop(After(setup, e).items));
    LinksOfPrefix(BeforeStop(all), |o.served|);
    PathPrefix(links, LinksOf(BeforeStop(all)), SessionKey(setup.first));
  }

  lemma TakenFromAll(setup: Setup, initial: Tables, o: Outcome)
    requires Consistent(setup, initial, o)
    ensures |o.served| <= |BeforeStop(After(setup, o.called).items)|
    ensures OpsOf(o.served) == BeforeStop(After(setup, o.called).items)[..|o.served|]
  {
    hide TablesOk, PoolOk, ServedOk, OpsOf;
    var taken := OpsOf(o.served) + (if o.worker.Took? then [o.worker.op] else []);
    var rest := (if o.worker.Stopped? then [Stop] else []) + o.queue + o.pending;
    assert o.puts + o.pending == Items(taken) + rest;
    BeforeStopOf(taken, rest);
  }

  // -- The rows in the tables ------------------------------------------------------------------------

  /** A part of a turn, left out when it is empty. */
  function Part(role: string, text: string): seq<Entry> {
    if text == "" then [] else [Entry(role, Text(text))]
  }

  /** The messages of a known role. */
  function Preserved(messages: seq<Message>): seq<Entry> {
    if messages == [] then []
    else
      var m := messages[0];
      var known := m.role == "system" || m.role == "user" || m.role == "assistant" || m.role == "tool";
      (if known then [Entry(m.role, Text(m.content))] else []) + Preserved(messages[1..])
  }

  /** What a call asks to be filed while `key` is the live key. */
  function AskedBy(setup: Setup, hook: Hook, key: string): seq<Entry> {
    match hook
    case SyncTurn(user, assistant) => Part("user", user) + Part("assistant", assistant)
    case OnMemoryWrite(content) => if setup.mirrorMemory then [Entry("system", Text(content))] else []
    case OnDelegation(task, result) =>
      [Entry("system", Text("[delegation] task:\n" + task + "\n\n[delegation] result:\n" + result))]
    case OnPreCompress(messages) => if setup.preserveCompressed then Preserved(messages) else []
    case OnSessionSwitch(newId) =>
      var next := "hermes:" + newId;
      if next == key then [] else [Entry("system", Rotation(key, next))]
    case OnSessionEnd => []
  }

  /** The session the agent is in after some of its calls. */
  function LastId(setup: Setup, n: nat): string
    requires n <= |setup.program|
  {
    if n == 0 then setup.first
    else
      match setup.program[n - 1]
      case OnSessionSwitch(newId) => newId
      case _ => LastId(setup, n - 1)
  }

  /** What the first `n` calls ask to be filed, in order. */
  function AskedFor(setup: Setup, n: nat): seq<Entry>
    requires n <= |setup.program|
  {
    if n == 0 then []
    else AskedFor(setup, n - 1) + AskedBy(setup, setup.program[n - 1], "hermes:" + LastId(setup, n - 1))
  }

  /** What an operation files. */
  function Files(op: Op): seq<Entry> {
    match op
    case Turn(user, assistant) => Part("user", user) + Part("assistant", assistant)
    case MemoryWrite(content) => [Entry("system", Text(content))]
    case Delegation(task, result) =>
      [Entry("system", Text("[delegation] task:\n" + task + "\n\n[delegation] result:\n" + result))]
    case Compressed(messages) => Preserved(messages)
    case Rotate(previous, next) => [Entry("system", Rotation(previous, next))]
    case CloseSession(_) => []
  }

  /** Where it files it: a rotation under the new key, all else under the live one. */
  function FilesUnder(op: Op, live: string): string {
    if op.Rotate? then op.next else live
  }

  function AllFiled(ops: seq<Op>): seq<Entry> {
    if ops == [] then [] else AllFiled(ops[..|ops| - 1]) + Files(ops[|ops| - 1])
  }

  /** What the dispatched operations file, each under the key live when the worker came to it. */
  function FiledBy(setup: Setup, served: seq<Served>): seq<Filing>
    requires AllSound(setup, served)
  {
    if served == [] then []
    else
      var s := served[|served| - 1];
      FiledBy(setup, served[..|served| - 1])
        + Filings(FilesUnder(s.op, "hermes:" + LastId(setup, s.at)), setup.agent, Files(s.op))
  }

  function Entries(filed: seq<Filing>): (r: seq<Entry>)
    ensures |r| == |filed|
  {
    seq(|filed|, i requires 0 <= i < |filed| => filed[i].entry)
  }

  lemma {:induction false} PreservedMore(messages: seq<Message>, m: Message)
    ensures Preserved(messages + [m]) == Preserved(messages) + Preserved([m])
  {
    if messages == [] {
      assert messages + [m] == [m];
    } else {
      assert (messages + [m])[1..] == messages[1..] + [m];
      PreservedMore(messages[1..], m);
    }
  }

  lemma {:induction false} ValidOnesArePreserved(messages: seq<Message>)
    ensures ValidOnes(messages) == Preserved(messages)
  {
    if messages != [] {
      var n := |messages| - 1;
      ValidOnesArePreserved(messages[..n]);
      PreservedMore(messages[..n], messages[n]);
      assert messages == messages[..n] + [messages[n]];
      assert [messages[n]][1..] == [];
    }
  }

  lemma OneMessage(agent: string, w: Write)
    ensures Messages(agent, []) == []
    ensures Messages(agent, [w]) == if w.Append? then Filings(w.key, agent, [w.entry])
                                    else if w.AppendMany? then Filings(w.key, agent, w.entries)
                                    else []
  {
    assert [w][..0] == [];
  }

  lemma FilingsConcat(key: string, agent: string, a: seq<Entry>, b: seq<Entry>)
    ensures Filings(key, agent, a + b) == Filings(key, agent, a) + Filings(key, agent, b)
  {}

  lemma PartFiles(agent: string, key: string, role: string, text: string)
    ensures Messages(agent, if text == "" then [] else [Append(key, Entry(role, Text(text)))])
         == Filings(key, agent, Part(role, text))
  {
    OneMessage(agent, Append(key, Entry(role, Text(text))));
  }

  /** The transactions of an operation file what it is to file. */
  lemma PlanFiles(agent: string, op: Op, key: string)
    ensures Messages(agent, Plan(op, key)) == Filings(FilesUnder(op, key), agent, Files(op))
  {
    hide Messages, Part, Preserved, ValidOnes;
    match op
    case Turn(user, assistant) =>
      PartFiles(agent, key, "user", user);
      PartFiles(agent, key, "assistant", assistant);
      FilingsConcat(key, agent, Part("user", user), Part("assistant", assistant));
      MessagesConcat(agent, if user == "" then [] else [Append(key, Entry("user", Text(user)))],
                     if assistant == "" then [] else [Append(key, Entry("assistant", Text(assistant)))]);
    case Compressed(messages) =>
      ValidOnesArePreserved(messages);
      OneMessage(agent, AppendMany(key, ValidOnes(messages)));
    case CloseSession(target) => OneMessage(agent, Close(target));
    case _ => OneMessage(agent, Plan(op, key)[0]);
  }

  lemma {:induction false} KeyIsLastId(setup: Setup, n: nat)
    requires n <= |setup.program|
    ensures After(setup, n).key == "hermes:" + LastId(setup, n)
  {
    if n > 0 { KeyIsLastId(setup, n - 1); }
  }

  lemma {:induction false} ServedFile(setup: Setup, served: seq<Served>)
    requires AllSound(setup, served) && forall i :: 0 <= i < |served| ==> Complete(setup, served[i])
    ensures Messages(setup.agent, Effects(setup, served)) == FiledBy(setup, served)
  {
    hide Messages, Plan, After, Files, LastId;
    if served == [] {
      OneMessage(setup.agent, Close(""));
    } else {
      var n := |served| - 1;
      var s := served[n];
      ServedFile(setup, served[..n]);
      KeyIsLastId(setup, s.at);
      PlanFiles(setup.agent, s.op, After(setup, s.at).key);
      assert PlanOf(setup, s)[..s.done] == PlanOf(setup, s);
      MessagesConcat(setup.agent, Effects(setup, served[..n]), PlanOf(setup, s));
    }
  }

  lemma {:induction false} EntriesFiled(setup: Setup, served: seq<Served>)
    requires AllSound(setup, served)
    ensures Entries(FiledBy(setup, served)) == AllFiled(OpsOf(served))
  {
    if served != [] {
      var n := |served| - 1;
      EntriesFiled(setup, served[..n]);
      assert OpsOf(served)[..n] == OpsOf(served[..n]);
      hide Files, LastId, Plan, After;
      var key := FilesUnder(served[n].op, "hermes:" + LastId(setup, served[n].at));
      assert Entries(Filings(key, setup.agent, Files(served[n].op))) == Files(served[n].op);
    }
  }

  lemma {:induction false} AllFiledPrefix(ops: seq<Op>, n: nat)
    requires n <= |ops|
    ensures AllFiled(ops[..n]) <= AllFiled(ops)
  {
    hide Files;
    if n < |ops| {
      AllFiledPrefix(ops[..|ops| - 1], n);
      assert ops[..|ops| - 1][..n] == ops[..n];
    } else {
      assert ops[..n] == ops;
    }
  }

  lemma OneMoreFiled(ops: seq<Op>, op: Op)
    ensures AllFiled(ops + [op]) == AllFiled(ops) + Files(op)
  {
    assert (ops + [op])[..|ops|] == ops;
  }

  lemma CloseFilesNothing(ops: seq<Op>, key: string)
    ensures AllFiled(ops + [CloseSession(key)]) == AllFiled(ops)
  {
    OneMoreFiled(ops, CloseSession(key));
  }

  lemma {:induction false} ClosesFileNothing(ops: seq<Op>, keys: seq<string>)
    ensures AllFiled(ops + CloseOps(keys)) == AllFiled(ops)
  {
    hide AllFiled;
    if keys == [] {
      assert ops + CloseOps(keys) == ops;
    } else {
      var n := |keys| - 1;
      ClosesFileNothing(ops, keys[..n]);
      CloseFilesNothing(ops + CloseOps(keys[..n]), keys[n]);
      assert ops + CloseOps(keys) == ops + CloseOps(keys[..n]) + [CloseSession(keys[n])];
    }
  }

  /** What all operations put before the stop are to file. */
  lemma AllPutIsAskedFor(setup: Setup, n: nat)
    requires n <= |setup.program|
    ensures AllFiled(BeforeStop(After(setup, n).items)) == AskedFor(setup, FirstEnd(setup, n))
  {
    var e := FirstEnd(setup, n);
    var live := BeforeStop(After(setup, e).items);
    hide AllFiled, After, BeforeStop, AskedFor, FirstEnd;
    OpsBeforeStop(setup, n);
    PutIsAskedFor(setup, e);
    ClosesFileNothing(live, ClosingKeys(setup, e));
    assert live + [] == live;
  }

  lemma StepFiles(setup: Setup, p: Provider, hook: Hook, op: Option<Op>)
    requires p.key != "" && !hook.OnSessionEnd? && PutsAtMost(p, op, Stepped(setup, p, hook))
    ensures AskedBy(setup, hook, p.key) == if op.None? then [] else Files(op.value)
  {
    hide Part;
    var items := Stepped(setup, p, hook).items;
    assert op.Some? ==> items[|p.items|] == Do(op.value);
    assert hook.OnPreCompress? && hook.messages == [] ==> Preserved(hook.messages) == [];
  }

  /** The operations put are those for what the calls ask to be filed. */
  lemma {:induction false} PutIsAskedFor(setup: Setup, n: nat)
    requires n <= |setup.program| && NoEndBefore(setup, n)
    ensures AllFiled(BeforeStop(After(setup, n).items)) == AskedFor(setup, n)
  {
    hide Stepped, Files, AskedBy, IsPath, EndOf, LinksOf, LastId, BeforeStop;
    if n == 0 {
      NothingFiled(setup);
    } else {
      PutIsAskedFor(setup, n - 1);
      LiveOps(setup, n - 1);
      LiveKey(setup, n - 1);
      KeyIsLastId(setup, n - 1);
      var p, hook := After(setup, n - 1), setup.program[n - 1];
      var op := LiveStep(setup, p, hook);
      StepFiles(setup, p, hook, op);
      var ops := BeforeStop(p.items);
      if op.Some? {
        NextOp(ops, op.value);
        OneMoreFiled(ops, op.value);
      }
    }
  }

  lemma NothingFiled(setup: Setup)
    ensures AllFiled(BeforeStop(After(setup, 0).items)) == AskedFor(setup, 0)
  {}

  /** With no failure, the rows filed so far are, in order and with their roles, the first of those that
      the calls before the end of the session ask for; once all is settled they are all of them. */
  lemma RowsAreAskedFor(setup: Setup, initial: Tables, o: Outcome)
    requires Consistent(setup, initial, o) && !o.failed && !o.worker.Writing?
    ensures Filed(initial) <= Filed(o.tables)
    ensures var rows := Entries(Filed(o.tables)[|Filed(initial)|..]);
      && rows <= AskedFor(setup, FirstEnd(setup, o.called))
      && (Settled(o) ==> rows == AskedFor(setup, FirstEnd(setup, o.called)))
  {
    hide Effects, After, FirstEnd, BeforeStop, OpsOf, Settled, AllFiled, AskedFor, FiledBy, Files, PoolOk, QueueOk;
    RowsGo(setup, initial, o);
    hide ProviderOk, TablesOk, AllSound;
    EntriesFiled(setup, o.served);
    AllPutIsAskedFor(setup, o.called);
    TakenFromAll(setup, initial, o);
    if Settled(o) { SettledOps(setup, initial, o); }
    AllFiledPrefix(BeforeStop(After(setup, o.called).items), |o.served|);
  }

  /** Each is filed under the agent and the key that was live when the worker came to it, which is never
      before the call; a rotation row under the new key. */
  lemma RowsGo(setup: Setup, initial: Tables, o: Outcome)
    requires Consistent(setup, initial, o) && !o.failed && !o.worker.Writing?
    ensures Filed(o.tables) == Filed(initial) + FiledBy(setup, o.served)
    ensures forall i :: 0 <= i < |o.served| ==>
      i < |After(setup, o.served[i].at).items| && After(setup, o.served[i].at).items[i] == Do(o.served[i].op)
  {
    ServedFile(setup, o.served);
    hide After, FiledBy, Effects, PoolOk, PlanOf, QueueOk, ProviderOk;
    forall i | 0 <= i < |o.served| ensures After(setup, o.served[i].at).items[i] == Do(o.served[i].op) {
      PutBefore(setup, o, i);
    }
  }

  lemma PutBefore(setup: Setup, o: Outcome, i: nat)
    requires ProviderOk(setup, o) && QueueOk(o) && i < |o.served|
    requires o.served[i].at <= o.called && i < |After(setup, o.served[i].at).items|
    ensures After(setup, o.served[i].at).items[i] == Do(o.served[i].op)
  {
    ItemsGrow(setup, o.served[i].at, o.called);
    hide After;
    assert (o.puts + o.pending)[i] == Do(o.served[i].op);
  }

  // -- The end of the session ------------------------------------------------------------------------

  lemma {:induction false} DistinctHas(keys: seq<string>, key: string)
    requires key in keys && key != ""
    ensures key in Distinct(keys)
  {
    var n := |keys| - 1;
    if keys[n] != key { DistinctHas(keys[..n], key); }
  }

  /** Once a list of keys has been closed, and nothing else done, none of them is active. */
  lemma {:induction false} ClosingDeactivates(
      setup: Setup, served: seq<Served>, live: seq<Op>, keys: seq<string>, start: bool, key: string)
    requires AllSound(setup, served) && forall i :: 0 <= i < |served| ==> Complete(setup, served[i])
    requires OpsOf(served) == live + CloseOps(keys) && key in keys
    ensures !ActiveAfter(start, Effects(setup, served), key)
  {
    hide After, LinksOf;
    var n, last := |served| - 1, |keys| - 1;
    var before := Effects(setup, served[..n]);
    assert OpsOf(served)[n] == CloseOps(keys)[last];
    assert Effects(setup, served) == before + [Close(keys[last])];
    assert (before + [Close(keys[last])])[..|before|] == before;
    if keys[last] != key {
      assert OpsOf(served[..n]) == OpsOf(served)[..n];
      assert (live + CloseOps(keys))[..n] == live + CloseOps(keys[..last]);
      ClosingDeactivates(setup, served[..n], live, keys[..last], start, key);
    }
  }

  /** The keys the provider has been on after some of its calls. */
  function Visited(setup: Setup, n: nat): set<string>
    requires n <= |setup.program|
  {
    (if n == 0 then {} else Visited(setup, n - 1)) + {After(setup, n).key}
  }

  predicate NoEndBefore(setup: Setup, n: nat)
    requires n <= |setup.program|
  {
    forall i :: 0 <= i < n ==> !setup.program[i].OnSessionEnd?
  }

  /** The provider's list and its live key are the keys it has been on. */
  lemma {:induction false} ListedAreVisited(setup: Setup, n: nat)
    requires n <= |setup.program| && NoEndBefore(setup, n)
    ensures forall key :: key in After(setup, n).rotated + [After(setup, n).key] <==> key in Visited(setup, n)
  {
    if n > 0 {
      ListedAreVisited(setup, n - 1);
      LiveKey(setup, n - 1);
    }
  }

  lemma {:induction false} DistinctFrom(keys: seq<string>)
    ensures forall key :: key in Distinct(keys) ==> key in keys
  {
    if keys != [] { DistinctFrom(keys[..|keys| - 1]); }
  }

  /** A rotation leads to a key visited, a close names one, and nothing else names a key of its own. */
  predicate NamesVisited(op: Op, visited: set<string>) {
    && (op.Rotate? ==> op.next in visited)
    && (op.CloseSession? ==> op.key in visited)
  }

  predicate AllNameVisited(ops: seq<Op>, visited: set<string>) {
    forall i :: 0 <= i < |ops| ==> NamesVisited(ops[i], visited)
  }

  lemma NextNamesVisited(p: Provider, p': Provider, op: Option<Op>, visited: set<string>)
    requires p.items == Items(BeforeStop(p.items)) && AllNameVisited(BeforeStop(p.items), visited)
    requires PutsAtMost(p, op, p')
    ensures AllNameVisited(BeforeStop(p'.items), visited + {p'.key})
  {
    hide BeforeStop;
    if op.Some? { NextOp(BeforeStop(p.items), op.value); }
  }

  lemma {:induction false} LiveOpsNameVisited(setup: Setup, n: nat)
    requires n <= |setup.program| && NoEndBefore(setup, n)
    ensures AllNameVisited(BeforeStop(After(setup, n).items), Visited(setup, n))
  {
    hide Stepped, BeforeStop, AllNameVisited, IsPath, LinksOf, EndOf, PutsAtMost;
    if n == 0 {
      NothingNamed(Visited(setup, n));
    } else {
      LiveOpsNameVisited(setup, n - 1);
      LiveOps(setup, n - 1);
      LiveKey(setup, n - 1);
      var p := After(setup, n - 1);
      var op := LiveStep(setup, p, setup.program[n - 1]);
      NextNamesVisited(p, After(setup, n), op, Visited(setup, n - 1));
    }
  }

  lemma NothingNamed(visited: set<string>)
    ensures AllNameVisited(BeforeStop([]), visited)
  {}

  /** The first end among some calls is the first of the program, once it has come. */
  lemma {:induction false} FirstEndStays(setup: Setup, n: nat, m: nat)
    requires n <= m <= |setup.program|
    ensures FirstEnd(setup, n) <= FirstEnd(setup, m)
    ensures FirstEnd(setup, n) < n ==> FirstEnd(setup, n) == FirstEnd(setup, m)
  {
    if n < m { FirstEndStays(setup, n, m - 1); }
  }

  lemma {:induction false} VisitedGrows(setup: Setup, m: nat, n: nat)
    requires m <= n <= |setup.program|
    ensures Visited(setup, m) <= Visited(setup, n) && After(setup, m).key in Visited(setup, n)
  {
    if m < n { VisitedGrows(setup, m, n - 1); }
  }

  /** Every operation dispatched names keys visited before the session ended only. */
  lemma ServedNameVisited(setup: Setup, initial: Tables, o: Outcome, i: nat)
    requires Consistent(setup, initial, o) && i < |o.served|
    ensures NamesVisited(o.served[i].op, Visited(setup, FirstEnd(setup, |setup.program|)))
  {
    var e, n := FirstEnd(setup, o.called), |setup.program|;
    var live, all := BeforeStop(After(setup, e).items), BeforeStop(After(setup, o.called).items);
    TakenFromAll(setup, initial, o);
    OpsBeforeStop(setup, o.called);
    LiveOpsNameVisited(setup, e);
    ListedAreVisited(setup, e);
    DistinctFrom(After(setup, e).rotated + [After(setup, e).key]);
    FirstEndStays(setup, o.called, n);
    VisitedGrows(setup, e, FirstEnd(setup, n));
    hide Consistent, After, BeforeStop, Distinct, FirstEnd, Visited, NamesVisited;
    assert o.served[i].op == OpsOf(o.served)[i] == all[i];
    if i < |live| {
      VisitedWidens(live[i], Visited(setup, e), Visited(setup, FirstEnd(setup, n)));
    } else {
      ClosesName(ClosingKeys(setup, e), i - |live|, Visited(setup, FirstEnd(setup, n)));
    }
  }

  lemma VisitedWidens(op: Op, visited: set<string>, wider: set<string>)
    requires NamesVisited(op, visited) && visited <= wider
    ensures NamesVisited(op, wider)
  {}

  lemma ClosesName(keys: seq<string>, i: nat, visited: set<string>)
    requires i < |keys| && keys[i] in visited
    ensures NamesVisited(CloseOps(keys)[i], visited)
  {
  }

  /** An operation that began a transaction did so with a key visited before the session ended. */
  lemma LiveKeyVisited(setup: Setup, initial: Tables, o: Outcome, i: nat)
    requires Consistent(setup, initial, o) && i < |o.served| && o.served[i].done > 0
    ensures After(setup, o.served[i].at).key in Visited(setup, FirstEnd(setup, |setup.program|))
  {
    var e, at := FirstEnd(setup, |setup.program|), o.served[i].at;
    assert at <= e + 1 && at <= |setup.program|;
    hide Consistent, FirstEnd, Visited;
    if at == e + 1 {
      EndKeepsKey(setup, e);
      VisitedGrows(setup, e, e);
    } else {
      VisitedGrows(setup, at, e);
    }
  }

  lemma EndKeepsKey(setup: Setup, e: nat)
    requires e < |setup.program| && setup.program[e].OnSessionEnd?
    ensures After(setup, e + 1).key == After(setup, e).key
  {}

  lemma PlanNames(op: Op, live: string, visited: set<string>, w: nat)
    requires w < |Plan(op, live)| && NamesVisited(op, visited) && live in visited
    ensures Plan(op, live)[w].key in visited
  {}

  /** Transactions that do not name a key leave it as it was. */
  lemma {:induction false} Unnamed(start: bool, writes: seq<Write>, key: string)
    requires forall w :: 0 <= w < |writes| ==> writes[w].key != key
    ensures ActiveAfter(start, writes, key) == start
  {
    if writes != [] { Unnamed(start, writes[..|writes| - 1], key); }
  }

  /** All transactions of a run so far name keys visited before the session ended. */
  lemma {:induction false} EffectsNameVisited(setup: Setup, initial: Tables, o: Outcome, n: nat)
    requires Consistent(setup, initial, o) && n <= |o.served|
    ensures AllSound(setup, o.served[..n])
    ensures forall w :: 0 <= w < |Effects(setup, o.served[..n])| ==>
      Effects(setup, o.served[..n])[w].key in Visited(setup, FirstEnd(setup, |setup.program|))
  {
    if n > 0 {
      var s := o.served[n - 1];
      EffectsNameVisited(setup, initial, o, n - 1);
      ServedNameVisited(setup, initial, o, n - 1);
      if s.done > 0 { LiveKeyVisited(setup, initial, o, n - 1); }
      assert o.served[..n][..n - 1] == o.served[..n - 1];
      hide TablesOk, PoolOk, QueueOk, ProviderOk, FirstEnd, Visited, After, Plan, NamesVisited;
      forall w | 0 <= w < s.done ensures PlanOf(setup, s)[w].key in Visited(setup, FirstEnd(setup, |setup.program|)) {
        PlanNames(s.op, After(setup, s.at).key, Visited(setup, FirstEnd(setup, |setup.program|)), w);
      }
    }
  }

  /** Whatever fails and however long the agent goes on: a key it came to only after the end of the
      session is as active as it was. */
  lemma LateKeysUntouched(setup: Setup, initial: Tables, o: Outcome, key: string)
    requires Consistent(setup, initial, o)
    requires key !in Visited(setup, FirstEnd(setup, |setup.program|))
    ensures HasActive(o.tables, key, setup.agent) <==> HasActive(initial, key, setup.agent)
  {
    EffectsNameVisited(setup, initial, o, |o.served|);
    assert o.served[..|o.served|] == o.served;
    hide Visited, FirstEnd, HasActive, Effects, Filed, OneActive;
    Unnamed(HasActive(initial, key, setup.agent), Effects(setup, o.served), key);
  }

  /** When the worker has stopped after a run without failures, the keys the agent was on by the end of
      the session are inactive, and every other key is as active as it was. */
  lemma EndClosesEveryKey(setup: Setup, initial: Tables, o: Outcome, key: string)
    requires Consistent(setup, initial, o) && !o.failed && o.worker.Stopped?
    ensures FirstEnd(setup, |setup.program|) < o.called
    ensures HasActive(o.tables, key, setup.agent)
       <==> key !in Visited(setup, FirstEnd(setup, |setup.program|)) && HasActive(initial, key, setup.agent)
  {
    StopWasPut(setup, initial, o);
    FirstEndStays(setup, o.called, |setup.program|);
    var e := FirstEnd(setup, |setup.program|);
    hide FirstEnd, HasActive;
    if key in Visited(setup, e) {
      ClosedAtEnd(setup, initial, o, key);
    } else {
      hide Consistent;
      LateKeysUntouched(setup, initial, o, key);
    }
  }

  lemma {:induction false} VisitedKeyIsSet(setup: Setup, n: nat, key: string)
    requires n <= |setup.program| && key in Visited(setup, n)
    ensures key != ""
  {
    LiveKey(setup, n);
    if n > 0 && key != After(setup, n).key { VisitedKeyIsSet(setup, n - 1, key); }
  }

  lemma ClosedAtEnd(setup: Setup, initial: Tables, o: Outcome, key: string)
    requires Consistent(setup, initial, o) && !o.failed && o.worker.Stopped?
    requires FirstEnd(setup, o.called) < o.called && key in Visited(setup, FirstEnd(setup, o.called))
    ensures !HasActive(o.tables, key, setup.agent)
  {
    var e := FirstEnd(setup, o.called);
    SettledOps(setup, initial, o);
    OpsBeforeStop(setup, o.called);
    ListedAreVisited(setup, e);
    VisitedKeyIsSet(setup, e, key);
    DistinctHas(After(setup, e).rotated + [After(setup, e).key], key);
    hide After, BeforeStop, OpsOf, Effects, HasActive, PoolOk;
    ClosingDeactivates(setup, o.served, BeforeStop(After(setup, e).items), ClosingKeys(setup, e),
                       HasActive(initial, key, setup.agent), key);
  }

  lemma StopWasPut(setup: Setup, initial: Tables, o: Outcome)
    requires Consistent(setup, initial, o) && o.worker.Stopped?
    ensures FirstEnd(setup, o.called) < o.called
  {
    hide TablesOk, PoolOk, ServedOk, OpsOf, BeforeStop, Stepped;
    var i := |o.served|;
    assert o.puts[i] == Stop;
    assert After(setup, o.called).items[i] == Stop;
    if FirstEnd(setup, o.called) == o.called { LiveOps(setup, o.called); }
  }

  // -- All interleavings -----------------------------------------------------------------------------

  /** Runs the two threads in the order a schedule says; a step that must wait changes nothing. */
  method Run(setup: Setup, initial: Tables, schedule: seq<Step>) returns (o: Outcome)
    requires Linked(initial)
    ensures Consistent(setup, initial, o)
    ensures TimeOut !in schedule ==> !o.timedOut
    ensures !o.timedOut && Commit(false) !in schedule ==> !o.failed
  {
    hide Consistent, Stepped, Plan;
    var client := new Client(initial);
    var plugin := new Plugin(setup, client);
    for i := 0 to |schedule|
      invariant plugin.setup == setup
      invariant plugin.Valid(initial)
      invariant TimeOut !in schedule[..i] ==> !plugin.timedOut
      invariant !plugin.timedOut && Commit(false) !in schedule[..i] ==> !plugin.failed
    {
      assert schedule[..i + 1] == schedule[..i] + [schedule[i]];
      OpenWhileWriting(setup, initial, plugin.View());
      match schedule[i] {
        case Agent => plugin.AgentStep(initial);
        case TimeOut => plugin.TimeOutStep(initial);
        case Take => plugin.TakeStep(initial);
        case Dispatch => plugin.DispatchStep(initial);
        case Connect => plugin.ConnectStep(initial);
        case Commit(ok) => plugin.CommitStep(initial, ok);
      }
    }
    assert schedule[..|schedule|] == schedule;
    o := Outcome(plugin.called, plugin.sessionKey, plugin.rotatedKeys, plugin.pending, plugin.ending, plugin.timedOut,
                 plugin.puts, plugin.queue, plugin.worker, plugin.served, plugin.connected, plugin.failed,
                 plugin.poolOpen, plugin.client.tables);
  }

  /** Unless the wait timed out, the pool is open while the worker writes. */
  lemma OpenWhileWriting(setup: Setup, initial: Tables, o: Outcome)
    requires Consistent(setup, initial, o)
    ensures o.worker.Writing? && !o.timedOut ==> o.open
  {}
}
