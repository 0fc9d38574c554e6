/** The turn loop shared by the harness executors: one child process a turn, session ids threaded
    from spawn to spawn, steered messages taken between turns, a kill at any time. */
module TurnLoop {
  import opened Options

  datatype Harness = Kimi | Pi | OpenCode | Qwen

  // -- The world around the loop ---------------------------------------------------------

  /** What a caller may do while the loop is suspended at an `await`. */
  datatype Interrupt = Kill(reason: string) | Steer(message: string)

  datatype TurnError =
    | SpawnFailed
    | Exited(code: Option<int>)
    | NoTerminal
    | NoSession
    | ResumeRefused
    | FatalStop
    | Thrown(message: string)

  /** Only an exception without a message is an empty, hence falsy, error text. */
  predicate IsSet(error: Option<TurnError>) {
    error.Some? && error != Some(Thrown([]))
  }

  /** What one line of the child's output leads to. */
  datatype Output = Den | Warn | SessionId(id: string) | Terminal | Fatal

  datatype Step = Line(output: Output) | Outside(what: Interrupt)

  /** One child process from spawn to exit, as it happens to go. */
  datatype Child =
    | Throws
    | Runs(
        steps: seq<Step>,
        thrown: Option<string>,
        waiting: seq<Interrupt>,
        failure: bool,
        exit: Option<int>,
        refuses: bool,
        text: string,
        recovered: Option<string>,
        input: nat,
        output: nat)

  /** A turn's first child, what happens while its transcript is read again, and the retry. */
  datatype TurnScript = TurnScript(
    child: Child, pin: string, rendering: seq<Interrupt>, retry: Child, retryPin: string)

  /** What a run is given: the harness, the first message (the goal, or the resume message), and
      how its turns will go. Each turn comes with two fresh ids for the children it may pin. */
  datatype Config = Config(harness: Harness, first: string, turns: seq<TurnScript>)

  datatype Usage = Usage(input: nat, output: nat, total: nat, turns: nat)

  // What the lines of a child's output leave behind.

  function Told(steps: seq<Step>): Option<string> {
    if steps == [] then None
    else
      match steps[|steps| - 1]
      case Line(SessionId(id)) => Some(id)
      case _ => Told(steps[..|steps| - 1])
  }

  predicate Says(steps: seq<Step>, output: Output) {
    exists i :: 0 <= i < |steps| && steps[i] == Line(output)
  }

  // -- What a finished child amounts to -----------------------------------------------------

  datatype Outcome = Outcome(
    text: string, session: Option<string>, error: Option<TurnError>, refused: bool, counted: bool)

  /** The outcome of a child that ran, given what its output left behind, and whether the task had
      been killed by then. */
  function Settle(harness: Harness, resume: Option<string>, pin: Option<string>, c: Child,
                  told: Option<string>, terminal: bool, fatal: bool, killed: bool): Outcome
    requires c.Runs?
  {
    var e0 := if fatal then Some(FatalStop) else None;
    var session := SessionAfter(harness, resume, pin, told, c.recovered);
    if c.thrown.Some? then
      Outcome(c.text, session, e0.Or(Some(Thrown(c.thrown.value))), false, true)
    else
      var e1 := e0.Or(if c.failure then Some(SpawnFailed) else None);
      if harness.Qwen? && resume.Some? && c.refuses && !killed then
        Outcome(c.text, None, Some(ResumeRefused), true, false)
      else
        var e2 := e1.Or(if c.exit != Some(0) && !killed then Some(Exited(c.exit)) else None);
        if harness.OpenCode? then
          if c.exit != Some(0) && resume.Some? && c.refuses then
            Outcome(c.text, None, e2, true, false)
          else
            var e := e2.Or(if (session.None? || session.value == "") && !killed then Some(NoSession) else None);
            Outcome(c.text, session, e, false, true)
        else
          var e3 := e2.Or(if !terminal && !killed then Some(NoTerminal) else None);
          if !harness.Qwen? && e3.Some? && c.refuses then
            Outcome(c.text, None, e3, resume.Some?, false)
          else
            Outcome(c.text, session, e3, false, true)
  }

  function SessionAfter(harness: Harness, resume: Option<string>, pin: Option<string>,
                        told: Option<string>, recovered: Option<string>): Option<string>
  {
    match harness
    case OpenCode => told.Or(if resume.None? then recovered else None).Or(resume)
    case Qwen => told.Or(resume).Or(pin).Or(recovered)
    case _ => told.Or(resume).Or(recovered)
  }

  function Conclude(harness: Harness, resume: Option<string>, pin: Option<string>, c: Child, killed: bool): Outcome {
    if c.Throws? then Outcome("", None, Some(SpawnFailed), false, false)
    else Settle(harness, resume, pin, c, Told(c.steps), Says(c.steps, Terminal), Says(c.steps, Fatal), killed)
  }

  /** Only a child that was asked to resume a session, and said it could not, counts as refusing. */
  lemma RefusedOnlyOnResume(harness: Harness, resume: Option<string>, pin: Option<string>, c: Child, killed: bool)
    ensures Conclude(harness, resume, pin, c, killed).refused ==> resume.Some? && c.Runs? && c.refuses
  {
  }

  /** A turn of a task nobody killed passes without an error only if its child ran to a clean exit:
      no exception, exit code 0, and the closing line that the harness is known to write. */
  lemma CleanTurn(harness: Harness, resume: Option<string>, pin: Option<string>, c: Child)
    requires Conclude(harness, resume, pin, c, false).error.None?
    ensures c.Runs? && c.thrown.None? && !c.failure && c.exit == Some(0) && !Says(c.steps, Fatal)
    ensures if harness.OpenCode? then Conclude(harness, resume, pin, c, false).session.Some?
            else Says(c.steps, Terminal)
  {
  }

  // -- What can be seen of a run --------------------------------------------------------------

  datatype Seen =
    | TurnStart(turn: nat, message: string)
    | Spawn(turn: nat, message: string, resume: Option<string>, pin: Option<string>)
    | Active(child: nat, killedAtOnce: bool)
    | Gone
    | Concluded(turn: nat, ran: Child, outcome: Outcome)
    | DenEvent
    | LogEvent
    | Refusal
    | Adopted(id: string)
    | TurnEnd(turn: nat, usage: Usage, session: Option<string>, text: string, error: Option<TurnError>)
    | Killed(reason: string, asked: Option<nat>)
    | Steered(message: string)

  /** What the past of a run says about its present. */
  datatype View = View(
    turn: nat,                   // turns started
    inTurn: bool,
    message: string,           // of the current turn
    attempts: nat,               // spawns in the current turn
    resume: Option<string>,      // the session the last of them resumes
    pin: Option<string>,         // the id it pins
    outcome: Option<Outcome>,    // what it came to, once it has
    refused: bool,               // the first was refused and is to be replaced
    native: Option<string>,    // the last id adopted since the last refusal
    waiting: seq<string>,      // messages not yet given a turn, oldest first
    reason: Option<string>,    // of the first kill
    active: Option<nat>,
    asked: bool,                 // a kill was requested on the active child
    children: nat,
    input: nat,                  // tokens of all children so far
    output: nat,
    usage: Usage,                // as last reported
    failed: Option<TurnError>,
    text: string)

  function Start(first: string): View {
    View(0, false, "", 0, None, None, None, false, None, [first], None, None, false, 0, 0, 0,
         Usage(0, 0, 0, 0), None, "")
  }

  function After(v: View, s: Seen): View {
    match s
    case TurnStart(turn, message) =>
      v.(turn := turn, inTurn := true, message := message, attempts := 0, outcome := None, refused := false,
         waiting := if v.waiting == [] then [] else v.waiting[1..])
    case Spawn(_, _, resume, pin) => v.(attempts := v.attempts + 1, resume := resume, pin := pin, outcome := None)
    case Active(child, killedAtOnce) => v.(active := Some(child), asked := killedAtOnce, children := v.children + 1)
    case Gone => v.(active := None)
    case Concluded(_, c, o) =>
      v.(outcome := Some(o),
         input := v.input + (if c.Runs? && o.counted then c.input else 0),
         output := v.output + (if c.Runs? && o.counted then c.output else 0))
    case Refusal => v.(native := None, outcome := None, refused := true)
    case Adopted(id) => v.(native := Some(id))
    case TurnEnd(_, usage, _, text, error) =>
      v.(inTurn := false, usage := usage, text := if text == "" then v.text else text,
         failed := if IsSet(error) then error else None)
    case Killed(reason, asked) => v.(reason := v.reason.Or(Some(reason)), asked := v.asked || asked.Some?)
    case Steered(message) => v.(waiting := v.waiting + [message])
    case _ => v
  }

  function ViewOf(cfg: Config, history: seq<Seen>): View {
    if history == [] then Start(cfg.first)
    else After(ViewOf(cfg, history[..|history| - 1]), history[|history| - 1])
  }

  /** The protocol: what may come next, given what has been seen. */
  predicate Allowed(cfg: Config, v: View, s: Seen) {
    match s
    case TurnStart(turn, message) =>
      !v.inTurn && turn == v.turn + 1 && turn <= |cfg.turns| && v.reason.None? && v.failed.None?
      && v.waiting != [] && message == v.waiting[0]
    case Spawn(turn, message, resume, pin) =>
      v.inTurn && turn == v.turn && message == v.message
      && (v.attempts == 0 || (v.attempts == 1 && v.refused))
      && resume == v.native
      && (pin.Some? <==> cfg.harness.Qwen? && resume.None?)
    case Active(child, killedAtOnce) =>
      v.inTurn && Spawned(v) && v.active.None? && child == v.children && (killedAtOnce <==> v.reason.Some?)
    case DenEvent => v.active.Some?
    case LogEvent => v.inTurn
    case Gone => v.active.Some?
    case Concluded(turn, c, o) =>
      v.inTurn && turn == v.turn && 1 <= turn <= |cfg.turns| && Spawned(v) && v.active.None?
      && c == (if v.attempts == 1 then cfg.turns[turn - 1].child else cfg.turns[turn - 1].retry)
      && o == Conclude(cfg.harness, v.resume, v.pin, c, v.reason.Some?)
    case Refusal =>
      v.inTurn && v.attempts == 1 && v.outcome.Some? && v.outcome.value.refused && !v.refused && v.reason.None?
    case Adopted(id) =>
      Settled(v) && id != "" && v.outcome.value.session == Some(id)
    case TurnEnd(turn, usage, session, text, error) =>
      Settled(v) && turn == v.turn
      && usage == Usage(v.input, v.output, v.input + v.output, turn)
      && session == v.native && text == v.outcome.value.text && error == v.outcome.value.error
      && (var own := v.outcome.value.session; own.Some? && own.value != "" ==> session == own)
    case Killed(_, asked) => asked == v.active
    case Steered(_) => true
  }

  /** The last spawn of the turn has no outcome yet. */
  predicate Spawned(v: View) {
    v.attempts >= 1 && v.outcome.None? && (v.refused ==> v.attempts == 2)
  }

  /** The turn's last child has come to its outcome, and is not to be replaced. */
  predicate Settled(v: View) {
    && v.inTurn && v.outcome.Some? && v.active.None?
    && (v.outcome.value.refused ==> v.reason.Some?)
  }

  ghost predicate Legal(cfg: Config, history: seq<Seen>) {
    forall i :: 0 <= i < |history| ==> Allowed(cfg, ViewOf(cfg, history[..i]), history[i])
  }

  lemma Extend(cfg: Config, history: seq<Seen>, s: Seen)
    ensures ViewOf(cfg, history + [s]) == After(ViewOf(cfg, history), s)
    ensures Legal(cfg, history) && Allowed(cfg, ViewOf(cfg, history), s)
        ==> Legal(cfg, history + [s])
  {
    var all := history + [s];
    assert all[..|history|] == history;
    assert forall i :: 0 <= i < |history| ==> all[..i] == history[..i];
  }

  lemma LegalAtStart(cfg: Config)
    ensures Legal(cfg, []) && ViewOf(cfg, []) == Start(cfg.first)
  {
  }

  // -- The loop ----------------------------------------------------------------------------------

  datatype Verdict = Killed | Failed(error: TurnError) | Reported

  datatype TaskResult = TaskResult(verdict: Verdict, reason: Option<string>, output: string, usage: Usage)

  /** What is seen of one step while child `active`, if any, is running. */
  function OneSeen(step: Step, active: Option<nat>): seq<Seen> {
    match step
    case Outside(what) =>
      (match what
       case Kill(reason) => [Seen.Killed(reason, active)]
       case Steer(m) => [Steered(m)])
    case Line(output) =>
      (match output
       case Den => [DenEvent]
       case Warn => [LogEvent]
       case _ => [])
  }

  function SeenOf(steps: seq<Step>, active: Option<nat>): seq<Seen> {
    if steps == [] then []
    else SeenOf(steps[..|steps| - 1], active) + OneSeen(steps[|steps| - 1], active)
  }

  function Outsides(whats: seq<Interrupt>): seq<Step> {
    seq(|whats|, i requires 0 <= i < |whats| => Outside(whats[i]))
  }

  lemma SeenNothing(steps: seq<Step>, active: Option<nat>)
    ensures SeenOf(steps[..0], active) == [] && Told(steps[..0]) == None
    ensures forall o :: !Says(steps[..0], o)
  {
  }

  lemma SeenStep(steps: seq<Step>, i: nat, active: Option<nat>)
    requires i < |steps|
    ensures SeenOf(steps[..i + 1], active) == SeenOf(steps[..i], active) + SeenOf([steps[i]], active)
    ensures Told(steps[..i + 1]) == Told([steps[i]]).Or(Told(steps[..i]))
    ensures forall o :: Says(steps[..i + 1], o) <==> Says(steps[..i], o) || steps[i] == Line(o)
  {
    var more := steps[..i + 1];
    assert more[..|more| - 1] == steps[..i] && more[i] == steps[i];
    assert [steps[i]][..0] == [];
    assert forall j :: 0 <= j < i ==> more[j] == steps[..i][j];
  }

  predicate Tells(step: Step) {
    step.Line? && step.output.SessionId?
  }

  /** What a child told is the last id its lines tell. */
  lemma {:induction false} ToldIsLast(steps: seq<Step>)
    ensures forall i :: 0 <= i < |steps| && Tells(steps[i]) && (forall j :: i < j < |steps| ==> !Tells(steps[j])) ==>
      Told(steps) == Some(steps[i].output.id)
    ensures (forall i :: 0 <= i < |steps| ==> !Tells(steps[i])) ==> Told(steps).None?
  {
    if steps != [] && !Tells(steps[|steps| - 1]) {
      var init := steps[..|steps| - 1];
      ToldIsLast(init);
      forall i | 0 <= i < |steps| && Tells(steps[i]) && (forall j :: i < j < |steps| ==> !Tells(steps[j]))
        ensures Told(steps) == Some(steps[i].output.id)
      {
        assert init[i] == steps[i] && forall j :: i < j < |init| ==> init[j] == steps[j];
      }
    }
  }

  lemma SeenOne(step: Step, active: Option<nat>)
    ensures SeenOf([step], active) == OneSeen(step, active)
    ensures Told([step]) == if step.Line? && step.output.SessionId? then Some(step.output.id) else None
  {
    assert [step][..0] == [];
  }

  // -- What was heard, and what was to be heard --------------------------------------------------

  /** The interrupts a history shows, and those of the scripts it has played to the end. */
  datatype Tally = Tally(heard: seq<Interrupt>, given: seq<Interrupt>)

  function Heard(t: Tally, whats: seq<Interrupt>): Tally {
    t.(heard := t.heard + whats)
  }

  function OutsideOf(steps: seq<Step>): seq<Interrupt> {
    if steps == [] then []
    else
      var before, step := OutsideOf(steps[..|steps| - 1]), steps[|steps| - 1];
      if step.Outside? then before + [step.what] else before
  }

  /** What happens from outside while a child runs, up to its exit. */
  function During(c: Child): seq<Interrupt> {
    if c.Throws? then [] else OutsideOf(c.steps) + if c.thrown.Some? then [] else c.waiting
  }

  lemma {:induction false} OutsideHas(steps: seq<Step>, i: nat)
    requires i < |steps| && steps[i].Outside?
    ensures steps[i].what in OutsideOf(steps)
  {
    var n := |steps| - 1;
    if i < n { OutsideHas(steps[..n], i); }
  }

  /** Nothing that happens while a child runs, or until its exit is known, is left out. */
  lemma DuringHas(c: Child, i: nat)
    requires c.Runs?
    ensures i < |c.steps| && c.steps[i].Outside? ==> c.steps[i].what in During(c)
    ensures i < |c.waiting| && c.thrown.None? ==> c.waiting[i] in During(c)
  {
    if i < |c.steps| && c.steps[i].Outside? { OutsideHas(c.steps, i); }
  }

  function HeardBy(s: Seen): seq<Interrupt> {
    match s
    case Killed(reason, _) => [Kill(reason)]
    case Steered(m) => [Steer(m)]
    case _ => []
  }

  /** A finished child and a refusal stand for what their scripts let happen. */
  function GivenBy(cfg: Config, v: View, s: Seen): seq<Interrupt> {
    match s
    case Concluded(_, c, _) => During(c)
    case Refusal => if 1 <= v.turn <= |cfg.turns| then cfg.turns[v.turn - 1].rendering else []
    case _ => []
  }

  function Counted(cfg: Config, v: View, t: Tally, s: Seen): Tally {
    Tally(t.heard + HeardBy(s), t.given + GivenBy(cfg, v, s))
  }

  function TallyOf(cfg: Config, history: seq<Seen>): Tally {
    if history == [] then Tally([], [])
    else
      var init := history[..|history| - 1];
      Counted(cfg, ViewOf(cfg, init), TallyOf(cfg, init), history[|history| - 1])
  }

  function Opening(aborted: Option<string>, rendering: seq<Interrupt>): seq<Interrupt> {
    (if aborted.Some? then [Kill(aborted.value)] else []) + rendering
  }

  lemma ExtendTally(cfg: Config, history: seq<Seen>, s: Seen)
    ensures TallyOf(cfg, history + [s]) == Counted(cfg, ViewOf(cfg, history), TallyOf(cfg, history), s)
  {
    assert (history + [s])[..|history|] == history;
  }

  lemma OutsideStep(steps: seq<Step>, i: nat)
    requires i < |steps|
    ensures OutsideOf(steps[..i + 1]) == OutsideOf(steps[..i]) + OutsideOf([steps[i]])
  {
    assert steps[..i + 1][..i] == steps[..i];
    OutsideOne(steps[i]);
  }

  lemma OutsideOne(step: Step)
    ensures OutsideOf([step]) == if step.Outside? then [step.what] else []
  {
    assert [step][..0] == [];
  }

  lemma {:induction false} OutsideOfOutsides(whats: seq<Interrupt>)
    ensures OutsideOf(Outsides(whats)) == whats
  {
    if whats != [] {
      var n := |whats| - 1;
      OutsideOfOutsides(whats[..n]);
      assert Outsides(whats)[..n] == Outsides(whats[..n]);
    }
  }

  class TaskRun {
    const cfg: Config
    var killReason: Option<string>
    var activeSpawn: Option<nat>
    var spawned: nat
    var steered: seq<string>
    var usage: Usage
    var nativeSessionId: Option<string>
    var message: Option<string>
    var lastText: string
    var lastError: Option<TurnError>
    // what an observer has seen
    var history: seq<Seen>
    ghost var view: View
    /** The interrupts heard, those of the scripts played, and those that came before the first turn. */
    ghost var tally: Tally
    ghost var opening: seq<Interrupt>

    /** `view` is what the history says, and the fields agree with it. */
    ghost predicate Valid()
      reads this
    {
      && Legal(cfg, history)
      && view == ViewOf(cfg, history) && tally == TallyOf(cfg, history)
      && killReason == view.reason
      && activeSpawn == view.active && spawned == view.children
      && nativeSessionId == view.native
      && usage == Usage(view.input, view.output, view.input + view.output, view.turn)
      && lastText == view.text
    }

    /** Every interrupt of the scripts played has been heard, in order, and no other. */
    ghost predicate Even()
      reads this
    {
      tally.heard == opening + tally.given
    }

    /** Between two turns: `message` has been taken out of the queue already. */
    ghost predicate Idle()
      reads this
    {
      && Valid() && Even() && !view.inTurn && view.active.None? && view.usage == usage
      && lastError == view.failed
      && if lastError.Some? then view.waiting == steered
         else match message
           case None => view.waiting == [] && steered == []
           case Some(m) => view.waiting != [] && m == view.waiting[0] && steered == view.waiting[1..]
    }

    /** Inside a turn. */
    ghost predicate Busy()
      reads this
    {
      && Valid() && view.inTurn && view.failed.None? && lastError.None?
      && 1 <= view.turn <= |cfg.turns|
      && message == Some(view.message) && view.waiting == steered
    }

    constructor (cfg: Config)
      ensures this.cfg == cfg
      ensures Idle() && message == Some(cfg.first) && lastError.None? && history == [] && view.turn == 0
      ensures opening == [] && tally == Tally([], []) && killReason.None?
    {
      this.cfg := cfg;
      killReason, activeSpawn, spawned, steered := None, None, 0, [];
      usage, nativeSessionId, message := Usage(0, 0, 0, 0), None, Some(cfg.first);
      lastText, lastError, history, view := "", None, [], Start(cfg.first);
      tally, opening := Tally([], []), [];
      new;
      LegalAtStart(cfg);
    }

    method Note(s: Seen)
      requires Legal(cfg, history) && view == ViewOf(cfg, history) && tally == TallyOf(cfg, history)
      requires Allowed(cfg, view, s)
      modifies this`history, this`view, this`tally
      ensures history == old(history) + [s] && view == After(old(view), s)
      ensures Legal(cfg, history) && view == ViewOf(cfg, history) && tally == TallyOf(cfg, history)
      ensures tally == Counted(cfg, old(view), old(tally), s)
    {
      hide Legal, ViewOf, After, Allowed, TallyOf, Counted;
      Extend(cfg, history, s);
      ExtendTally(cfg, history, s);
      tally := Counted(cfg, view, tally, s);
      history, view := history + [s], After(view, s);
    }

    method KillNow(reason: string)
      requires Valid()
      modifies this`killReason, this`history, this`view, this`tally
      ensures Valid() && history == old(history) + [Seen.Killed(reason, activeSpawn)]
      ensures view == After(old(view), Seen.Killed(reason, activeSpawn))
      ensures tally == Heard(old(tally), [Kill(reason)])
    {
      hide Legal, ViewOf, TallyOf;
      killReason := killReason.Or(Some(reason));
      Note(Seen.Killed(reason, activeSpawn));
    }

    method Interrupted(what: Interrupt)
      requires Valid()
      modifies this`killReason, this`steered, this`history, this`view, this`tally
      ensures Valid() && history == old(history) + SeenOf([Outside(what)], activeSpawn)
      ensures view == After(old(view), if what.Kill? then Seen.Killed(what.reason, activeSpawn) else Steered(what.message))
      ensures tally == Heard(old(tally), [what])
      ensures steered == if what.Kill? then old(steered) else old(steered) + [what.message]
    {
      SeenOne(Outside(what), activeSpawn);
      hide Legal, ViewOf, TallyOf, SeenOf;
      match what {
        case Kill(reason) => KillNow(reason);
        case Steer(m) =>
          steered := steered + [m];
          Note(Steered(m));
      }
    }

    /** All that interrupts change in a view. */
    ghost predicate OnlyInterrupted(before: View)
      reads this
    {
      view == before.(waiting := view.waiting, reason := view.reason, asked := view.asked)
    }

    /** One line of the child's output, or one thing from outside. */
    method Meet(step: Step)
      requires Valid() && view.waiting == steered
      requires step.Line? ==> view.inTurn && view.active.Some?
      modifies this`killReason, this`steered, this`history, this`view, this`tally
      ensures Valid() && view.waiting == steered && OnlyInterrupted(old(view))
      ensures history == old(history) + SeenOf([step], activeSpawn)
      ensures tally == Heard(old(tally), OutsideOf([step]))
    {
      SeenOne(step, activeSpawn);
      OutsideOne(step);
      hide Legal, ViewOf, TallyOf, SeenOf, OutsideOf;
      match step {
        case Outside(what) => Interrupted(what);
        case Line(Den) => Note(DenEvent);
        case Line(Warn) => Note(LogEvent);
        case _ =>
      }
    }

    /** What happens while the child runs, line by line, and what its output leaves behind. */
    method Stream(steps: seq<Step>) returns (told: Option<string>, terminal: bool, fatal: bool)
      requires Valid() && view.waiting == steered
      requires forall i :: 0 <= i < |steps| && steps[i].Line? ==> view.inTurn && view.active.Some?
      modifies this`killReason, this`steered, this`history, this`view, this`tally
      ensures Valid() && view.waiting == steered && OnlyInterrupted(old(view))
      ensures history == old(history) + SeenOf(steps, activeSpawn)
      ensures tally == Heard(old(tally), OutsideOf(steps))
      ensures told == Told(steps) && terminal == Says(steps, Terminal) && fatal == Says(steps, Fatal)
    {
      SeenNothing(steps, activeSpawn);
      hide Legal, ViewOf, TallyOf, Told, Says, SeenOf, After, Allowed;
      told, terminal, fatal := None, false, false;
      for i := 0 to |steps|
        invariant Valid() && view.waiting == steered && OnlyInterrupted(old(view))
        invariant history == old(history) + SeenOf(steps[..i], activeSpawn)
        invariant tally == Heard(old(tally), OutsideOf(steps[..i]))
        invariant told == Told(steps[..i])
        invariant terminal == Says(steps[..i], Terminal) && fatal == Says(steps[..i], Fatal)
      {
        SeenStep(steps, i, activeSpawn);
        SeenOne(steps[i], activeSpawn);
        OutsideStep(steps, i);
        Meet(steps[i]);
        match steps[i] {
          case Line(SessionId(id)) => told := Some(id);
          case Line(Terminal) => terminal := true;
          case Line(Fatal) => fatal := true;
          case _ =>
        }
      }
      assert steps[..|steps|] == steps;
    }

    /** An `await` during which nothing but `whats` happens. */
    method Await(whats: seq<Interrupt>)
      requires Valid() && view.waiting == steered
      modifies this`killReason, this`steered, this`history, this`view, this`tally
      ensures Valid() && view.waiting == steered && OnlyInterrupted(old(view))
      ensures history == old(history) + SeenOf(Outsides(whats), activeSpawn)
      ensures tally == Heard(old(tally), whats)
    {
      OutsideOfOutsides(whats);
      var _, _, _ := Stream(Outsides(whats));
    }

    /** A child's output to its end, then the wait for its exit. */
    method Listen(c: Child) returns (told: Option<string>, terminal: bool, fatal: bool)
      requires c.Runs? && Valid() && view.inTurn && view.active.Some? && view.waiting == steered
      modifies this`killReason, this`steered, this`history, this`view, this`tally
      ensures Valid() && view.waiting == steered && OnlyInterrupted(old(view))
      ensures history == old(history)
              + SeenOf(c.steps, activeSpawn)
              + SeenOf(if c.thrown.Some? then [] else Outsides(c.waiting), activeSpawn)
      ensures told == Told(c.steps) && terminal == Says(c.steps, Terminal) && fatal == Says(c.steps, Fatal)
      ensures tally == Heard(old(tally), During(c))
    {
      hide Legal, ViewOf, TallyOf, Told, Says, SeenOf, OutsideOf, Outsides, After, Allowed;
      SeenNothing(c.steps, activeSpawn);
      assert c.steps[..0] == [];
      told, terminal, fatal := Stream(c.steps);
      if c.thrown.None? {
        Await(c.waiting);
      }
    }

    /** `setActiveSpawn` with a child: one that comes too late is asked to stop at once. */
    method SetActive()
      requires Busy() && Spawned(view) && activeSpawn.None?
      modifies this`history, this`view, this`tally, this`activeSpawn, this`spawned
      ensures Busy() && view == After(old(view), Active(old(spawned), killReason.Some?))
      ensures tally == old(tally)
    {
      hide Legal, ViewOf, TallyOf;
      activeSpawn, spawned := Some(spawned), spawned + 1;
      Note(Active(spawned - 1, killReason.Some?));
    }

    method ClearActive()
      requires Busy() && activeSpawn.Some?
      modifies this`history, this`view, this`tally, this`activeSpawn
      ensures Busy() && view == old(view).(active := None)
      ensures tally == old(tally)
    {
      hide Legal, ViewOf, TallyOf;
      activeSpawn := None;
      Note(Gone);
    }

    /** A child that did start, until it is gone. */
    method RunChild(c: Child, resume: Option<string>, pin: Option<string>) returns (o: Outcome)
      requires c.Runs? && Busy() && Spawned(view) && activeSpawn.None? && view.resume == resume && view.pin == pin
      modifies this`killReason, this`steered, this`history, this`view, this`tally, this`activeSpawn, this`spawned
      ensures Busy() && activeSpawn.None?
      ensures OnlyInterrupted(old(view).(children := view.children))
      ensures o == Conclude(cfg.harness, resume, pin, c, view.reason.Some?)
      ensures tally == Heard(old(tally), During(c))
    {
      hide Legal, ViewOf, TallyOf, Settle, Told, Says, SeenOf;
      SetActive();
      var told, terminal, fatal := Listen(c);
      o := Settle(cfg.harness, resume, pin, c, told, terminal, fatal, killReason.Some?);
      ClearActive();
    }

    /** One spawn of the current turn: the child, its outcome, its tokens. */
    method RunOneSpawn(c: Child, resume: Option<string>, pin: Option<string>) returns (o: Outcome)
      requires Busy() && activeSpawn.None? && resume == nativeSessionId
      requires (view.attempts == 0 && !view.refused) || (view.attempts == 1 && view.refused)
      requires c == if view.attempts == 0 then cfg.turns[view.turn - 1].child else cfg.turns[view.turn - 1].retry
      requires pin.Some? <==> cfg.harness.Qwen? && resume.None?
      modifies this`killReason, this`steered, this`history, this`view, this`tally, this`activeSpawn, this`spawned, this`usage
      ensures Busy() && activeSpawn.None? && view.outcome == Some(o)
      ensures view.attempts == old(view).attempts + 1 && view.refused == old(view).refused && view.turn == old(view).turn
      ensures o == Conclude(cfg.harness, resume, pin, c, view.reason.Some?)
      ensures o.refused ==> resume.Some?
      ensures old(Even()) ==> Even()
    {
      hide Legal, ViewOf, TallyOf, Conclude, After, Allowed;
      Launch(resume, pin);
      if c.Throws? {
        o := Conclude(cfg.harness, resume, pin, c, killReason.Some?);
      } else {
        o := RunChild(c, resume, pin);
      }
      RefusedOnlyOnResume(cfg.harness, resume, pin, c, killReason.Some?);
      Conclusion(c, o);
    }

    /** The child is on its way, with the message of the turn. */
    method Launch(resume: Option<string>, pin: Option<string>)
      requires Busy() && activeSpawn.None? && resume == nativeSessionId
      requires (view.attempts == 0 && !view.refused) || (view.attempts == 1 && view.refused)
      requires pin.Some? <==> cfg.harness.Qwen? && resume.None?
      modifies this`history, this`view, this`tally
      ensures Busy() && history == old(history) + [Spawn(usage.turns, message.value, resume, pin)]
      ensures view == old(view).(attempts := old(view).attempts + 1, resume := resume, pin := pin, outcome := None)
      ensures tally == old(tally)
    {
      hide Legal, ViewOf, TallyOf;
      Note(Spawn(usage.turns, message.value, resume, pin));
    }

    /** The tokens of a finished child are counted, unless its session was refused. */
    method Conclusion(c: Child, o: Outcome)
      requires Busy() && Spawned(view) && activeSpawn.None?
      requires c == if view.attempts == 1 then cfg.turns[view.turn - 1].child else cfg.turns[view.turn - 1].retry
      requires o == Conclude(cfg.harness, view.resume, view.pin, c, view.reason.Some?)
      modifies this`usage, this`history, this`view, this`tally
      ensures Busy() && history == old(history) + [Concluded(old(view).turn, c, o)]
      ensures view == old(view).(outcome := Some(o), input := view.input, output := view.output)
      ensures tally == old(tally).(given := old(tally).given + During(c))
    {
      hide Legal, ViewOf, TallyOf, Conclude;
      if c.Runs? && o.counted {
        var input, output := usage.input + c.input, usage.output + c.output;
        usage := Usage(input, output, input + output, usage.turns);
      }
      Note(Concluded(usage.turns, c, o));
    }

    /** The spawn of a turn, and the fresh one that replaces a refused resume. */
    method Attempt() returns (turn: Outcome)
      requires Busy() && Even() && activeSpawn.None? && view.attempts == 0 && !view.refused
      modifies this`killReason, this`steered, this`history, this`view, this`tally, this`activeSpawn, this`spawned, this`usage, this`nativeSessionId
      ensures Busy() && Even() && Settled(view) && view.outcome == Some(turn) && view.turn == old(view).turn
    {
      hide Legal, ViewOf, TallyOf;
      var t := cfg.turns[usage.turns - 1];
      turn := RunOneSpawn(t.child, nativeSessionId,
                          if cfg.harness.Qwen? && nativeSessionId.None? then Some(t.pin) else None);
      if turn.refused && killReason.None? {
        turn := Retry(t);
      }
    }

    /** The fresh spawn that replaces a refused resume. */
    method Retry(t: TurnScript) returns (turn: Outcome)
      requires Busy() && Even() && activeSpawn.None? && view.attempts == 1 && !view.refused && killReason.None?
      requires view.outcome.Some? && view.outcome.value.refused && t == cfg.turns[view.turn - 1]
      modifies this`killReason, this`steered, this`history, this`view, this`tally, this`activeSpawn, this`spawned, this`usage, this`nativeSessionId
      ensures Busy() && Even() && Settled(view) && view.outcome == Some(turn) && view.turn == old(view).turn
    {
      hide Legal, ViewOf, TallyOf, Conclude;
      Note(LogEvent);
      nativeSessionId := None;
      Note(Refusal);
      Await(t.rendering);
      turn := RunOneSpawn(t.retry, None, if cfg.harness.Qwen? then Some(t.retryPin) else None);
    }

    method Adopt(session: Option<string>)
      requires Busy() && Settled(view) && view.outcome.value.session == session
      modifies this`nativeSessionId, this`history, this`view, this`tally
      ensures Busy() && view == old(view).(native := nativeSessionId)
      ensures tally == old(tally)
      ensures session.Some? && session.value != "" ==> nativeSessionId == session
    {
      hide Legal, ViewOf, TallyOf;
      if session.Some? && session.value != "" {
        nativeSessionId := session;
        Note(Adopted(session.value));
      }
    }

    method ReportTurn(turn: Outcome)
      requires Busy() && Settled(view) && view.outcome == Some(turn)
      requires turn.session.Some? && turn.session.value != "" ==> nativeSessionId == turn.session
      modifies this`history, this`view, this`tally, this`lastText
      ensures Valid() && view == After(old(view), TurnEnd(usage.turns, usage, nativeSessionId, turn.text, turn.error))
      ensures tally == old(tally)
    {
      hide Legal, ViewOf, TallyOf;
      Note(TurnEnd(usage.turns, usage, nativeSessionId, turn.text, turn.error));
      if turn.text != "" {
        lastText := turn.text;
      }
    }

    /** The end of a turn: the id is adopted, the turn reported, the next message taken. */
    method Finish(turn: Outcome)
      requires Busy() && Even() && Settled(view) && view.outcome == Some(turn)
      modifies this`nativeSessionId, this`history, this`view, this`tally, this`lastText, this`lastError, this`message, this`steered
      ensures Idle() && view.turn == old(view).turn
    {
      hide Legal, ViewOf, TallyOf;
      Adopt(turn.session);
      ReportTurn(turn);
      if IsSet(turn.error) {
        lastError := turn.error;
      } else if steered == [] {
        message := None;
      } else {
        message, steered := Some(steered[0]), steered[1..];
      }
    }

    /** One pass of the loop; afterwards the run is idle again. */
    method RunTurn()
      requires Idle() && message.Some? && killReason.None? && lastError.None? && view.turn < |cfg.turns|
      modifies this
      ensures Idle() && view.turn == old(view).turn + 1 && opening == old(opening)
    {
      hide Legal, ViewOf, TallyOf;
      usage := usage.(turns := usage.turns + 1);
      Note(TurnStart(usage.turns, message.value));
      var turn := Attempt();
      Finish(turn);
    }

    /** What comes before the first turn: a signal that was aborted already, and whatever happens while
        a resumed conversation is rendered. */
    method Begin(aborted: Option<string>, rendering: seq<Interrupt>)
      requires Idle() && message.Some? && lastError.None? && view.turn == 0
      requires opening == [] && tally == Tally([], []) && killReason.None?
      modifies this`killReason, this`steered, this`history, this`view, this`tally, this`opening
      ensures Idle() && message.Some? && lastError.None? && view.turn == 0
      ensures opening == Opening(aborted, rendering)
      ensures aborted.Some? ==> killReason == aborted
    {
      hide Legal, ViewOf, TallyOf, After, Allowed;
      if aborted.Some? {
        Preempt(Kill(aborted.value));
      }
      for i := 0 to |rendering|
        invariant Idle() && message.Some? && lastError.None? && view.turn == 0
        invariant tally.given == [] && opening == Opening(aborted, rendering[..i])
        invariant aborted.Some? ==> killReason == aborted
      {
        Preempt(rendering[i]);
        assert rendering[..i + 1] == rendering[..i] + [rendering[i]];
      }
      assert rendering[..|rendering|] == rendering;
    }

    method Preempt(what: Interrupt)
      requires Idle() && message.Some? && lastError.None? && view.turn == 0 && tally.given == []
      modifies this`killReason, this`steered, this`history, this`view, this`tally, this`opening
      ensures Idle() && message.Some? && lastError.None? && view.turn == 0 && tally.given == []
      ensures opening == old(opening) + [what]
      ensures killReason == old(killReason).Or(if what.Kill? then Some(what.reason) else None)
    {
      hide Legal, ViewOf, TallyOf;
      Interrupted(what);
      opening := tally.heard;
    }

    /** The loop and the result it leads to; `None` when the scripts end before the run does. */
    method RunTask(aborted: Option<string>, rendering: seq<Interrupt>) returns (result: Option<TaskResult>)
      requires Idle() && message.Some? && lastError.None? && view.turn == 0
      requires opening == [] && tally == Tally([], []) && killReason.None?
      modifies this
      ensures Idle() && opening == Opening(aborted, rendering)
      ensures aborted.Some? ==> result.Some? && result.value.verdict.Killed? && result.value.reason == aborted
      ensures match result
              case Some(r) => r == ResultOf(view) && (r.verdict.Reported? ==> view.waiting == [])
              case None => view.turn == |cfg.turns| && view.reason.None? && view.failed.None? && view.waiting != []
    {
      hide Legal, ViewOf, TallyOf;
      Begin(aborted, rendering);
      while message.Some? && killReason.None? && lastError.None?
        invariant Idle() && view.turn <= |cfg.turns| && opening == Opening(aborted, rendering)
        invariant aborted.Some? ==> killReason == aborted
        decreases |cfg.turns| - view.turn
      {
        if usage.turns == |cfg.turns| {
          return None;
        }
        RunTurn();
      }
      if killReason.Some? {
        return Some(TaskResult(Verdict.Killed, killReason, lastText, usage));
      } else if lastError.Some? {
        return Some(TaskResult(Failed(lastError.value), None, lastText, usage));
      } else {
        return Some(TaskResult(Reported, None, lastText, usage));
      }
    }
  }

  /** The verdict a history calls for: killed if ever killed, else failed exactly when its last
      turn erred, else as the agent's last text reports. */
  function ResultOf(v: View): TaskResult {
    TaskResult(
      if v.reason.Some? then Verdict.Killed else if v.failed.Some? then Failed(v.failed.value) else Reported,
      v.reason, v.text, v.usage)
  }


  /** Every run: whatever the children do, whenever kills and messages arrive. Its history keeps to
      the protocol; its verdict is killed if it was ever killed, else failed exactly if a turn erred,
      else what the agent reports, and then every message has had its turn. A run without a result
      is one whose scripts ended first. */
  method Run(cfg: Config, aborted: Option<string>, rendering: seq<Interrupt>)
    returns (result: Option<TaskResult>, history: seq<Seen>)
    ensures Legal(cfg, history) && !ViewOf(cfg, history).inTurn
    ensures TallyOf(cfg, history).heard == Opening(aborted, rendering) + TallyOf(cfg, history).given
    ensures aborted.Some? ==> result.Some? && result.value.verdict.Killed? && result.value.reason == aborted
    ensures result.Some? ==> result.value == ResultOf(ViewOf(cfg, history))
    ensures result.Some? ==> result.value.reason == FirstKill(history) && result.value.output == LastText(history)
    ensures result.Some? ==> result.value.usage == LastUsage(history)
    ensures result.Some? && result.value.verdict.Failed? ==> LastError(history) == Some(result.value.verdict.error)
    ensures result.Some? ==> result.value.usage.turns == |Taken(history)|
    ensures result.Some? ==> (result.value.verdict.Killed? <==> exists s :: s in history && s.Killed?)
    ensures result.Some? && !result.value.verdict.Killed? ==>
      (result.value.verdict.Failed? <==> exists s :: s in history && Errs(s))
    ensures result.Some? && result.value.verdict.Reported? ==> Taken(history) == [cfg.first] + Said(history)
    ensures result.None? ==> |Taken(history)| == |cfg.turns| < 1 + |Said(history)|
  {
    hide Legal, ViewOf, TallyOf, Taken, Said, FirstKill, LastText, LastUsage, LastError;
    var run := new TaskRun(cfg);
    result := run.RunTask(aborted, rendering);
    history := run.history;
    MessagesInOrder(cfg, history);
    Endings(cfg, history);
    ResultTells(cfg, history);
  }

  // -- What holds of every legal history --------------------------------------------------------

  /** The events pushed to the task's queue. */
  datatype Event = Started(turn: nat) | Ended(turn: nat) | Inner

  ghost function Emitted(history: seq<Seen>): seq<Event> {
    if history == [] then []
    else Emitted(history[..|history| - 1]) + EventOf(history[|history| - 1])
  }

  function EventOf(s: Seen): seq<Event> {
    match s
    case TurnStart(turn, _) => [Started(turn)]
    case TurnEnd(turn, _, _, _, _) => [Ended(turn)]
    case DenEvent => [Inner]
    case LogEvent => [Inner]
    case _ => []
  }

  /** A turn that has emitted `n` events since its start. */
  function Open(turn: nat, n: nat): seq<Event> {
    [Started(turn)] + seq(n, _ => Inner)
  }

  /** Turns 1 to n one after the other, turn `i` with `bodies[i - 1]` events inside. */
  function Transcript(bodies: seq<nat>): seq<Event> {
    if bodies == [] then []
    else
      var n := |bodies|;
      Transcript(bodies[..n - 1]) + (Open(n, bodies[n - 1]) + [Ended(n)])
  }

  lemma OpenStep(turn: nat, n: nat, done: seq<Event>)
    ensures (done + Open(turn, n)) + [Inner] == done + Open(turn, n + 1)
    ensures (done + Open(turn, n)) + [Ended(turn)] == done + (Open(turn, n) + [Ended(turn)])
  {
  }

  /** The events are whole turns numbered from 1, then perhaps one that is still open. */
  lemma {:induction false} EventsAreBracketed(cfg: Config, history: seq<Seen>)
    returns (bodies: seq<nat>, partial: nat)
    requires Legal(cfg, history)
    ensures var v := ViewOf(cfg, history);
      && |bodies| == (if v.inTurn then v.turn - 1 else v.turn)
      && Emitted(history) == Transcript(bodies) + (if v.inTurn then Open(v.turn, partial) else [])
  {
    hide Legal, ViewOf, Open;
    if history == [] {
      LegalAtStart(cfg);
      return [], 0;
    }
    var before, s := Cut(cfg, history);
    bodies, partial := EventsAreBracketed(cfg, before);
    var turn, done := ViewOf(cfg, before).turn, Transcript(bodies);
    OpenStep(turn, partial, done);
    if s.TurnStart? {
      OpenStart(s.turn);
      partial := 0;
    } else if s.TurnEnd? {
      var more := bodies + [partial];
      assert more[..|more| - 1] == bodies;
      bodies := more;
    } else if s.DenEvent? || s.LogEvent? {
      ActiveInTurn(cfg, before);
      partial := partial + 1;
    } else {
      assert EventOf(s) == [];
    }
  }

  lemma OpenStart(turn: nat)
    ensures Open(turn, 0) == [Started(turn)]
  {
  }

  /** The last observation, and what came before it. */
  lemma Cut(cfg: Config, history: seq<Seen>) returns (before: seq<Seen>, s: Seen)
    requires Legal(cfg, history) && history != []
    ensures history == before + [s] && before == history[..|history| - 1] && s == history[|history| - 1]
    ensures Legal(cfg, before) && Allowed(cfg, ViewOf(cfg, before), s)
    ensures ViewOf(cfg, history) == After(ViewOf(cfg, before), s)
  {
    hide After, Allowed;
    LegalPrefix(cfg, history, |history| - 1);
    before, s := history[..|history| - 1], history[|history| - 1];
  }

  /** A child is active inside a turn only, and has been asked to stop if the task was killed. */
  lemma {:induction false} ActiveInTurn(cfg: Config, history: seq<Seen>)
    requires Legal(cfg, history)
    ensures var v := ViewOf(cfg, history);
      && (v.active.Some? ==> v.inTurn && v.attempts >= 1 && v.active.value + 1 == v.children)
      && (v.active.Some? && v.reason.Some? ==> v.asked)
  {
    hide Legal, ViewOf, TallyOf;
    if history == [] {
      LegalAtStart(cfg);
    } else {
      var before, s := Cut(cfg, history);
      ActiveInTurn(cfg, before);
    }
  }

  // Token use

  predicate UsageGrows(a: Usage, b: Usage) {
    a.input <= b.input && a.output <= b.output && a.total <= b.total && a.turns < b.turns
  }

  function SpentBy(s: Seen): (nat, nat) {
    match s
    case Concluded(_, c, o) => if c.Runs? && o.counted then (c.input, c.output) else (0, 0)
    case _ => (0, 0)
  }

  /** The tokens of the children that finished, those of refused resumes left out. */
  ghost function Spent(history: seq<Seen>): (nat, nat) {
    if history == [] then (0, 0)
    else
      var before, more := Spent(history[..|history| - 1]), SpentBy(history[|history| - 1]);
      (before.0 + more.0, before.1 + more.1)
  }

  lemma SpentStep(v: View, s: Seen)
    ensures After(v, s).input == v.input + SpentBy(s).0 && After(v, s).output == v.output + SpentBy(s).1
  {
  }

  lemma {:induction false} SpentIsCounted(cfg: Config, history: seq<Seen>)
    ensures Spent(history) == (ViewOf(cfg, history).input, ViewOf(cfg, history).output)
  {
    hide After, SpentBy, Allowed;
    if history != [] {
      var n := |history| - 1;
      SpentIsCounted(cfg, history[..n]);
      SpentStep(ViewOf(cfg, history[..n]), history[n]);
    }
  }

  /** Every turn's usage is what its children and those before it spent, with the turn's number. */
  lemma UsageAddsUp(cfg: Config, history: seq<Seen>, j: nat)
    requires Legal(cfg, history) && j < |history| && history[j].TurnEnd?
    ensures var (input, output) := Spent(history[..j]);
      history[j].usage == Usage(input, output, input + output, history[j].turn)
  {
    hide Legal, ViewOf, Spent;
    LegalPrefix(cfg, history, j);
    SpentIsCounted(cfg, history[..j]);
  }

  /** Reported usage never shrinks from one turn to a later one. */
  lemma UsageNeverShrinks(cfg: Config, history: seq<Seen>, i: nat, j: nat)
    requires Legal(cfg, history) && i < j < |history|
    requires history[i].TurnEnd? && history[j].TurnEnd?
    ensures UsageGrows(history[i].usage, history[j].usage)
  {
    hide Legal, ViewOf;
    LegalPrefix(cfg, history, j);
    UsageSoFar(cfg, history[..j], i);
  }

  lemma {:induction false} UsageSoFar(cfg: Config, history: seq<Seen>, i: nat)
    requires Legal(cfg, history) && i < |history| && history[i].TurnEnd?
    ensures AtMost(history[i].usage, ViewOf(cfg, history))
  {
    hide Legal, ViewOf, TallyOf;
    var before, s := Cut(cfg, history);
    if i < |before| {
      UsageSoFar(cfg, before, i);
    }
  }

  predicate AtMost(u: Usage, v: View) {
    && u.input <= v.input && u.output <= v.output && u.total == u.input + u.output
    && u.turns <= v.turn && (v.inTurn ==> u.turns < v.turn)
  }

  // Spawns

  /** How often turn `turn` has spawned a child, or tried to. */
  ghost function SpawnsIn(history: seq<Seen>, turn: nat): nat {
    if history == [] then 0
    else
      var s := history[|history| - 1];
      SpawnsIn(history[..|history| - 1], turn) + if s.Spawn? && s.turn == turn then 1 else 0
  }

  /** In the first turn there is no session to resume, hence none to refuse. */
  predicate OneSpawnOnly(v: View) {
    && !v.refused && v.attempts <= 1
    && (if v.attempts == 0 then v.native.None? else v.resume.None?)
    && (v.outcome.Some? ==> v.attempts == 1 && !v.outcome.value.refused)
  }

  /** A turn makes a second attempt after a refusal only, and the first turn makes no second one. */
  predicate AttemptsOk(v: View) {
    && v.attempts <= 2 && (v.attempts == 2 ==> v.refused)
    && (v.inTurn && v.outcome.Some? ==> v.attempts >= 1)
    && (v.turn == 0 ==> v.native.None? && !v.inTurn)
    && (v.inTurn && v.turn == 1 ==> OneSpawnOnly(v))
  }

  lemma AttemptsStep(cfg: Config, v: View, s: Seen)
    requires AttemptsOk(v) && Allowed(cfg, v, s)
    ensures AttemptsOk(After(v, s))
  {
    if s.Concluded? {
      RefusedOnlyOnResume(cfg.harness, v.resume, v.pin, s.ran, v.reason.Some?);
    }
    hide Conclude;
  }

  lemma {:induction false} AttemptsPerTurn(cfg: Config, history: seq<Seen>)
    requires Legal(cfg, history)
    ensures AttemptsOk(ViewOf(cfg, history))
  {
    hide Legal, ViewOf, AttemptsOk, After, Allowed;
    if history == [] {
      LegalAtStart(cfg);
      NoAttempts(cfg);
    } else {
      var before, s := Cut(cfg, history);
      AttemptsPerTurn(cfg, before);
      AttemptsStep(cfg, ViewOf(cfg, before), s);
    }
  }

  lemma NoAttempts(cfg: Config)
    ensures AttemptsOk(Start(cfg.first))
  {
  }

  /** A turn spawns at most twice, the first turn once, and a finished turn at least once. */
  lemma {:induction false} SpawnsPerTurn(cfg: Config, history: seq<Seen>, turn: nat)
    requires Legal(cfg, history)
    ensures SpawnsIn(history, turn) <= 2
    ensures turn <= 1 ==> SpawnsIn(history, turn) <= 1
    ensures var v := ViewOf(cfg, history);
      && (1 <= turn < v.turn || (turn == v.turn >= 1 && !v.inTurn) ==> SpawnsIn(history, turn) >= 1)
      && (turn == v.turn && v.inTurn ==> SpawnsIn(history, turn) == v.attempts)
      && (turn > v.turn || turn == 0 ==> SpawnsIn(history, turn) == 0)
  {
    hide Legal, ViewOf, TallyOf;
    if history == [] {
      LegalAtStart(cfg);
    } else {
      var before, s := Cut(cfg, history);
      SpawnsPerTurn(cfg, before, turn);
      AttemptsPerTurn(cfg, before);
      AttemptsPerTurn(cfg, history);
    }
  }

  /** The last id adopted, unless a resume of it was refused since. */
  ghost function LastAdopted(history: seq<Seen>): Option<string> {
    if history == [] then None
    else
      match history[|history| - 1]
      case Adopted(id) => Some(id)
      case Refusal => None
      case _ => LastAdopted(history[..|history| - 1])
  }

  lemma {:induction false} NativeIsLastAdopted(cfg: Config, history: seq<Seen>)
    requires Legal(cfg, history)
    ensures var v := ViewOf(cfg, history);
      && v.native == LastAdopted(history)
      && (v.refused ==> v.attempts >= 1 && (v.attempts == 1 ==> v.outcome.None?))
      && (v.inTurn && v.refused && v.attempts == 1 ==> v.native.None?)
  {
    hide Legal, ViewOf, TallyOf;
    if history == [] {
      LegalAtStart(cfg);
    } else {
      var before, s := Cut(cfg, history);
      NativeIsLastAdopted(cfg, before);
    }
  }

  lemma LegalPrefix(cfg: Config, history: seq<Seen>, n: nat)
    requires Legal(cfg, history) && n <= |history|
    ensures Legal(cfg, history[..n])
    ensures n < |history| ==> Allowed(cfg, ViewOf(cfg, history[..n]), history[n])
  {
    assert forall i :: 0 <= i < n ==> history[..n][..i] == history[..i];
  }

  /** A spawn resumes the last id adopted. A turn's second spawn follows a refusal and is fresh, as
      is the one of the first turn; qwen pins an id of its own on every fresh spawn. */
  lemma SpawnsResumeLastAdopted(cfg: Config, history: seq<Seen>, n: nat)
    requires Legal(cfg, history) && n < |history| && history[n].Spawn?
    ensures var s := history[n];
      && s.resume == LastAdopted(history[..n])
      && (SpawnsIn(history[..n], s.turn) > 0 ==> s.resume.None?)
      && (s.turn == 1 ==> s.resume.None?)
      && (s.pin.Some? <==> cfg.harness.Qwen? && s.resume.None?)
  {
    LegalPrefix(cfg, history, n);
    NativeIsLastAdopted(cfg, history[..n]);
    AttemptsPerTurn(cfg, history[..n]);
    SpawnsPerTurn(cfg, history[..n], history[n].turn);
  }

  // Messages

  /** The messages that got a turn, in the order of the turns. */
  ghost function Taken(history: seq<Seen>): seq<string> {
    if history == [] then []
    else
      var before, s := Taken(history[..|history| - 1]), history[|history| - 1];
      if s.TurnStart? then before + [s.message] else before
  }

  /** The messages steered in, in the order of arrival. */
  ghost function Said(history: seq<Seen>): seq<string> {
    if history == [] then []
    else
      var before, s := Said(history[..|history| - 1]), history[|history| - 1];
      if s.Steered? then before + [s.message] else before
  }

  /** Messages are given turns first come, first served, each exactly one. */
  lemma {:induction false} MessagesInOrder(cfg: Config, history: seq<Seen>)
    requires Legal(cfg, history)
    ensures Taken(history) + ViewOf(cfg, history).waiting == [cfg.first] + Said(history)
    ensures |Taken(history)| == ViewOf(cfg, history).turn
  {
    hide Legal, ViewOf, TallyOf;
    if history == [] {
      LegalAtStart(cfg);
    } else {
      var before, s := Cut(cfg, history);
      MessagesInOrder(cfg, before);
      var taken, waiting := Taken(before), ViewOf(cfg, before).waiting;
      if s.TurnStart? {
        assert (taken + [s.message]) + waiting[1..] == taken + waiting;
      } else if s.Steered? {
        assert taken + (waiting + [s.message]) == (taken + waiting) + [s.message];
        assert [cfg.first] + (Said(before) + [s.message]) == ([cfg.first] + Said(before)) + [s.message];
      }
    }
  }

  lemma {:induction false} TakenGrows(history: seq<Seen>, n: nat)
    requires n <= |history|
    ensures Taken(history[..n]) <= Taken(history)
  {
    if n == |history| {
      assert history[..n] == history;
    } else {
      var before := history[..|history| - 1];
      TakenGrows(before, n);
      assert before[..n] == history[..n];
    }
  }

  /** What the current turn is changes when a turn starts. */
  lemma TurnStays(v: View, s: Seen)
    ensures var w := After(v, s);
      if s.TurnStart? then w.turn == s.turn && w.message == s.message
      else w.turn == v.turn && w.message == v.message && (w.inTurn ==> v.inTurn)
  {
  }

  lemma {:induction false} CurrentMessage(cfg: Config, history: seq<Seen>)
    requires Legal(cfg, history)
    ensures var v := ViewOf(cfg, history);
      |Taken(history)| == v.turn && (v.inTurn ==> v.turn >= 1 && Taken(history)[v.turn - 1] == v.message)
  {
    hide Legal, ViewOf, After;
    if history == [] {
      LegalAtStart(cfg);
    } else {
      var before, s := Cut(cfg, history);
      CurrentMessage(cfg, before);
      var taken := Taken(before);
      assert Taken(history) == if s.TurnStart? then taken + [s.message] else taken;
      TurnStays(ViewOf(cfg, before), s);
    }
  }

  /** Every spawn of a turn, the retry included, carries that turn's message. */
  lemma SpawnsCarryTheMessage(cfg: Config, history: seq<Seen>, n: nat)
    requires Legal(cfg, history) && n < |history| && history[n].Spawn?
    ensures 1 <= history[n].turn <= |Taken(history)|
    ensures history[n].message == Taken(history)[history[n].turn - 1]
  {
    hide Legal, ViewOf, Taken;
    var before := history[..n];
    LegalPrefix(cfg, history, n);
    CurrentMessage(cfg, before);
    TakenGrows(history, n);
    assert Taken(before)[history[n].turn - 1] == Taken(history)[history[n].turn - 1];
  }

  // Endings

  /** A turn that ends with an error, other than an exception without a message. */
  predicate Errs(s: Seen) {
    s.TurnEnd? && s.error.Some? && s.error != Some(Thrown(""))
  }

  predicate EndsTheRun(s: Seen) {
    s.Killed? || Errs(s)
  }

  /** A task is killed, or failed, exactly when its history says so. */
  lemma {:induction false} Endings(cfg: Config, history: seq<Seen>)
    requires Legal(cfg, history)
    ensures var v := ViewOf(cfg, history);
      && (v.reason.Some? <==> exists s :: s in history && s.Killed?)
      && (v.failed.Some? <==> exists s :: s in history && Errs(s))
      && (v.failed.Some? ==> !v.inTurn)
  {
    hide Legal, ViewOf, TallyOf;
    if history == [] {
      LegalAtStart(cfg);
    } else {
      var before, s := Cut(cfg, history);
      Endings(cfg, before);
      var v, w := ViewOf(cfg, before), ViewOf(cfg, history);
      assert w.reason.Some? <==> v.reason.Some? || s.Killed?;
      assert w.failed.Some? <==> v.failed.Some? || Errs(s);
      assert forall x :: x in history <==> x in before || x == s;
    }
  }

  /** The reason of the first kill. */
  function FirstKill(history: seq<Seen>): Option<string> {
    if history == [] then None
    else
      var s, before := history[|history| - 1], FirstKill(history[..|history| - 1]);
      if before.None? && s.Killed? then Some(s.reason) else before
  }

  /** The text of the last turn that has one. */
  function LastText(history: seq<Seen>): string {
    if history == [] then ""
    else
      var s := history[|history| - 1];
      if s.TurnEnd? && s.text != "" then s.text else LastText(history[..|history| - 1])
  }

  /** What the last turn that ended reports of usage. */
  function LastUsage(history: seq<Seen>): Usage {
    if history == [] then Usage(0, 0, 0, 0)
    else
      var s := history[|history| - 1];
      if s.TurnEnd? then s.usage else LastUsage(history[..|history| - 1])
  }

  /** Its error, if it erred. */
  function LastError(history: seq<Seen>): Option<TurnError> {
    if history == [] then None
    else
      var s := history[|history| - 1];
      if s.TurnEnd? then if Errs(s) then s.error else None else LastError(history[..|history| - 1])
  }

  lemma ResultStep(v: View, s: Seen)
    ensures var w := After(v, s);
      && w.reason == (if v.reason.None? && s.Killed? then Some(s.reason) else v.reason)
      && w.text == (if s.TurnEnd? && s.text != "" then s.text else v.text)
      && w.usage == (if s.TurnEnd? then s.usage else v.usage)
      && w.failed == if s.TurnEnd? then if Errs(s) then s.error else None else v.failed
  {
  }

  /** What a result is made of: the first reason to kill, the last text, and the last turn's usage and
      error. */
  lemma {:induction false} ResultTells(cfg: Config, history: seq<Seen>)
    ensures var v := ViewOf(cfg, history);
      && v.reason == FirstKill(history) && v.text == LastText(history)
      && v.usage == LastUsage(history) && v.failed == LastError(history)
  {
    if history != [] {
      hide After, Errs;
      var n := |history| - 1;
      ResultTells(cfg, history[..n]);
      ResultStep(ViewOf(cfg, history[..n]), history[n]);
    }
  }

  /** No turn starts after a kill or after a turn that erred. */
  lemma NoTurnAfterTheEnd(cfg: Config, history: seq<Seen>, i: nat, j: nat)
    requires Legal(cfg, history) && i < j < |history| && EndsTheRun(history[i])
    ensures !history[j].TurnStart?
  {
    hide Legal, ViewOf, TallyOf;
    LegalPrefix(cfg, history, j);
    Endings(cfg, history[..j]);
    assert history[..j][i] == history[i] && history[i] in history[..j];
  }

  /** In a killed task the child that is still active has been asked to stop. */
  lemma {:induction false} KillReachesTheChild(cfg: Config, history: seq<Seen>)
    requires Legal(cfg, history)
    ensures var v := ViewOf(cfg, history); v.active.Some? && v.reason.Some? ==>
      exists i :: 0 <= i < |history|
        && (history[i] == Active(v.active.value, true) || (history[i].Killed? && history[i].asked == v.active))
    ensures var v := ViewOf(cfg, history); v.active.Some? && v.asked ==> Asked(history, v.active.value)
  {
    hide Legal, ViewOf, TallyOf;
    if history == [] {
      LegalAtStart(cfg);
    } else {
      var before, s := Cut(cfg, history);
      KillReachesTheChild(cfg, before);
      ActiveInTurn(cfg, before);
      ActiveInTurn(cfg, history);
      assert history[|before|] == s;
      assert forall i :: 0 <= i < |before| ==> history[i] == before[i];
      var v := ViewOf(cfg, history);
      if v.active.Some? && v.asked && Asked(before, v.active.value) {
        assert Asked(history, v.active.value);
      }
    }
  }

  ghost predicate Asked(history: seq<Seen>, child: nat) {
    exists i :: 0 <= i < |history|
      && (history[i] == Active(child, true) || (history[i].Killed? && history[i].asked == Some(child)))
  }

  // What a turn reports

  /** Where the id of a child's session is looked for: its output, the session it resumes, the id qwen
      pinned, and last the files it left behind. */
  function Named(harness: Harness, resume: Option<string>, pin: Option<string>, c: Child): Option<string>
    requires c.Runs?
  {
    if Told(c.steps).Some? then Told(c.steps)
    else if resume.Some? then resume
    else if harness.Qwen? && pin.Some? then pin
    else c.recovered
  }

  /** What can be wrong with a child, the first that applies being its error. An exit code and a missing
      end are held against it only while the task has not been killed. */
  function Complaints(harness: Harness, resume: Option<string>, pin: Option<string>, c: Child, killed: bool)
    : seq<(bool, TurnError)>
    requires c.Runs?
  {
    var session := Named(harness, resume, pin, c);
    [(Says(c.steps, Fatal), FatalStop),
     (c.thrown.Some?, Thrown(if c.thrown.Some? then c.thrown.value else "")),
     (c.failure, SpawnFailed),
     (c.exit != Some(0) && !killed, Exited(c.exit)),
     if harness.OpenCode? then ((session.None? || session.value == "") && !killed, NoSession)
     else (!Says(c.steps, Terminal) && !killed, NoTerminal)]
  }

  function FirstOf(complaints: seq<(bool, TurnError)>): Option<TurnError> {
    if complaints == [] then None
    else if complaints[0].0 then Some(complaints[0].1)
    else FirstOf(complaints[1..])
  }

  /** The child said that its session cannot be resumed, and is believed: by qwen unless killed, by
      opencode if it failed, by kimi and pi if anything is wrong with it. */
  predicate Rejected(harness: Harness, resume: Option<string>, pin: Option<string>, c: Child, killed: bool)
    requires c.Runs?
  {
    && c.refuses && c.thrown.None?
    && if harness.Qwen? then resume.Some? && !killed
       else if harness.OpenCode? then resume.Some? && c.exit != Some(0)
       else FirstOf(Complaints(harness, resume, pin, c, killed)).Some?
  }

  lemma FirstOfFive(complaints: seq<(bool, TurnError)>)
    requires |complaints| == 5
    ensures FirstOf(complaints) ==
      if complaints[0].0 then Some(complaints[0].1)
      else if complaints[1].0 then Some(complaints[1].1)
      else if complaints[2].0 then Some(complaints[2].1)
      else if complaints[3].0 then Some(complaints[3].1)
      else if complaints[4].0 then Some(complaints[4].1)
      else None
  {
    assert complaints[1..][1..] == complaints[2..] && complaints[2..][1..] == complaints[3..];
    assert complaints[3..][1..] == complaints[4..] && complaints[4..][1..] == [];
    assert FirstOf(complaints[4..]) == if complaints[4].0 then Some(complaints[4].1) else None;
    assert FirstOf(complaints[2..]) ==
      if complaints[2].0 then Some(complaints[2].1) else FirstOf(complaints[3..]);
  }

  /** The outcome of a child in one line, for all four harnesses. */
  lemma OutcomeInFull(harness: Harness, resume: Option<string>, pin: Option<string>, c: Child, killed: bool)
    requires pin.Some? ==> harness.Qwen?
    ensures c.Throws? ==> Conclude(harness, resume, pin, c, killed) == Outcome("", None, Some(SpawnFailed), false, false)
    ensures c.Runs? ==>
      var rejected := Rejected(harness, resume, pin, c, killed);
      Conclude(harness, resume, pin, c, killed) == Outcome(
        c.text,
        if rejected then None else Named(harness, resume, pin, c),
        if rejected && harness.Qwen? then Some(ResumeRefused) else FirstOf(Complaints(harness, resume, pin, c, killed)),
        rejected && resume.Some?,
        !rejected)
  {
    if c.Runs? {
      FirstOfFive(Complaints(harness, resume, pin, c, killed));
      hide FirstOf, Told, Says;
    }
  }

  /** The last spawn of a history is event `i`, and its child has come to no outcome. */
  predicate RunsLast(history: seq<Seen>, i: int) {
    && 0 <= i < |history| && history[i].Spawn?
    && forall n :: i < n < |history| ==> !history[n].Spawn? && !history[n].Concluded?
  }

  /** The last spawn is event `i`, and event `k` is the outcome of its child. */
  predicate RanLast(history: seq<Seen>, i: int, k: int) {
    && 0 <= i < k < |history| && history[i].Spawn? && history[k].Concluded?
    && forall n :: i < n < |history| && n != k ==> !history[n].Spawn? && !history[n].Concluded?
  }

  /** From a spawn to the outcome of its child. */
  predicate Awaiting(v: View, s: Seen)
    requires s.Spawn?
  {
    v.outcome.None? && v.resume == s.resume && v.pin == s.pin && v.native == s.resume
  }

  /** From then on, to the next spawn. */
  predicate Awaited(v: View, s: Seen, o: Outcome)
    requires s.Spawn?
  {
    v.outcome.Some? ==>
      && v.outcome.value == o
      && (v.native == s.resume || (v.native.Some? && v.native != Some("") && v.native == o.session))
  }

  lemma AwaitingStep(cfg: Config, v: View, e: Seen, s: Seen)
    requires s.Spawn? && Allowed(cfg, v, e)
    requires e == s || (Awaiting(v, s) && !e.Spawn? && !e.Concluded?)
    ensures Awaiting(After(v, e), s)
  {
    hide Conclude;
  }

  lemma AwaitedStep(cfg: Config, v: View, e: Seen, s: Seen, o: Outcome)
    requires s.Spawn? && Allowed(cfg, v, e)
    requires if e.Concluded? then Awaiting(v, s) && e.outcome == o else Awaited(v, s, o) && !e.Spawn?
    ensures Awaited(After(v, e), s, o)
  {
    hide Conclude;
  }

  lemma {:induction false} StillAwaiting(cfg: Config, history: seq<Seen>, i: nat)
    requires Legal(cfg, history) && RunsLast(history, i)
    ensures Awaiting(ViewOf(cfg, history), history[i])
  {
    hide Legal, ViewOf, After, Allowed, Awaiting;
    var before, e := Cut(cfg, history);
    if i < |before| { StillAwaiting(cfg, before, i); }
    AwaitingStep(cfg, ViewOf(cfg, before), e, history[i]);
  }

  lemma {:induction false} StillAwaited(cfg: Config, history: seq<Seen>, i: nat, k: nat)
    requires Legal(cfg, history) && RanLast(history, i, k)
    ensures Awaited(ViewOf(cfg, history), history[i], history[k].outcome)
  {
    hide Legal, ViewOf, After, Allowed, Awaiting, Awaited;
    var before, e := Cut(cfg, history);
    if k < |before| { StillAwaited(cfg, before, i, k); } else { StillAwaiting(cfg, before, i); }
    AwaitedStep(cfg, ViewOf(cfg, before), e, history[i], history[k].outcome);
  }

  /** The outcome of a child is what it, its spawn and the kills by then make it. */
  lemma OutcomeOfChild(cfg: Config, history: seq<Seen>, i: nat, k: nat)
    requires Legal(cfg, history) && RanLast(history, i, k)
    ensures var s, c := history[i], history[k].ran;
      var killed := exists e :: e in history[..k] && e.Killed?;
      history[k].outcome == Conclude(cfg.harness, s.resume, s.pin, c, killed)
  {
    LegalPrefix(cfg, history, k);
    var before := history[..k];
    assert RunsLast(before, i) && before[i] == history[i];
    StillAwaiting(cfg, before, i);
    Endings(cfg, before);
    hide Legal, ViewOf, Conclude;
  }

  /** A child that is rejected is not counted, and refuses if it was to resume a session; every other
      child that ran is counted. */
  lemma CountedUnlessRejected(cfg: Config, history: seq<Seen>, i: nat, k: nat)
    requires Legal(cfg, history) && RanLast(history, i, k)
    ensures var s, c, o := history[i], history[k].ran, history[k].outcome;
      var rejected := c.Runs? && Rejected(cfg.harness, s.resume, s.pin, c, KilledIn(history[..k]));
      (o.counted <==> c.Runs? && !rejected) && (o.refused <==> rejected && s.resume.Some?)
  {
    PinsAreOfQwen(cfg, history, i);
    OutcomeOfChild(cfg, history, i, k);
    hide Legal, RanLast, FirstOf, Complaints, Rejected, Named, Conclude;
    OutcomeInFull(cfg.harness, history[i].resume, history[i].pin, history[k].ran, KilledIn(history[..k]));
  }

  /** Every turn that ends has had a child. */
  lemma {:induction false} TurnHadAChild(cfg: Config, history: seq<Seen>)
    requires Legal(cfg, history)
    ensures ViewOf(cfg, history).outcome.Some? ==> exists i, k :: RanLast(history, i, k)
    ensures Spawned(ViewOf(cfg, history)) ==> exists i :: RunsLast(history, i)
  {
    hide Legal, ViewOf;
    if history == [] {
      LegalAtStart(cfg);
    } else {
      var before, e := Cut(cfg, history);
      TurnHadAChild(cfg, before);
      hide After, Allowed, Spawned;
      ChildStep(cfg, ViewOf(cfg, before), e);
      var n := |before|;
      if e.Spawn? {
        assert RunsLast(history, n);
      } else if e.Concluded? {
        var i :| RunsLast(before, i);
        assert RanLast(history, i, n);
      } else {
        if i, k :| RanLast(before, i, k) { assert RanLast(history, i, k); }
        if i :| RunsLast(before, i) { assert RunsLast(history, i); }
      }
    }
  }

  lemma ChildStep(cfg: Config, v: View, e: Seen)
    requires Allowed(cfg, v, e)
    ensures e.Concluded? ==> Spawned(v) && !Spawned(After(v, e))
    ensures e.Spawn? ==> After(v, e).outcome.None?
    ensures !e.Spawn? && !e.Concluded? ==>
      (After(v, e).outcome.Some? ==> v.outcome.Some?) && (Spawned(After(v, e)) ==> Spawned(v))
  {
    hide Conclude;
  }

  predicate KilledIn(history: seq<Seen>) {
    exists e :: e in history && e.Killed?
  }

  lemma EndOfTurn(cfg: Config, v: View, end: Seen, s: Seen, o: Outcome)
    requires Allowed(cfg, v, end) && end.TurnEnd? && s.Spawn? && Awaited(v, s, o)
    ensures end.text == o.text && end.error == o.error && (o.refused ==> v.reason.Some?)
    ensures end.session == if o.session.Some? && o.session != Some("") then o.session else s.resume
  {
    hide Conclude;
  }

  lemma EndReports(cfg: Config, history: seq<Seen>, i: nat, k: nat, j: nat)
    requires Legal(cfg, history) && j < |history| && history[j].TurnEnd? && RanLast(history[..j], i, k)
    ensures history[k].Concluded? && history[i].Spawn? && history[i].pin.Some? ==> cfg.harness.Qwen?
    ensures var s, o, end := history[i], history[k].outcome, history[j];
      && o == Conclude(cfg.harness, s.resume, s.pin, history[k].ran, KilledIn(history[..k]))
      && end.text == o.text && end.error == o.error && (o.refused ==> KilledIn(history[..j]))
      && end.session == if o.session.Some? && o.session != Some("") then o.session else s.resume
  {
    var before := history[..j];
    assert before[i] == history[i] && before[k] == history[k] && before[..k] == history[..k];
    LegalPrefix(cfg, history, j);
    PinsAreOfQwen(cfg, history, i);
    hide Legal, ViewOf, Conclude, RanLast, Awaited, Allowed;
    OutcomeOfChild(cfg, before, i, k);
    StillAwaited(cfg, before, i, k);
    Endings(cfg, before);
    EndOfTurn(cfg, ViewOf(cfg, before), history[j], history[i], history[k].outcome);
  }

  /** What a turn reports is what its last child, the spawn of that child and the kills by then make of
      it: its text, the first thing that is wrong with it, and the id it names, or else the id it resumed. */
  lemma TurnReportsItsChild(cfg: Config, history: seq<Seen>, i: nat, k: nat, j: nat)
    requires Legal(cfg, history) && j < |history| && history[j].TurnEnd? && RanLast(history[..j], i, k)
    ensures var s, c, end := history[i], history[k].ran, history[j];
      var killed := KilledIn(history[..k]);
      if c.Throws? then end.text == "" && end.error == Some(SpawnFailed) && end.session == s.resume
      else
        var rejected := Rejected(cfg.harness, s.resume, s.pin, c, killed);
        && end.text == c.text
        && end.error == (if rejected && cfg.harness.Qwen? then Some(ResumeRefused)
                         else FirstOf(Complaints(cfg.harness, s.resume, s.pin, c, killed)))
        && end.session == (if rejected || Named(cfg.harness, s.resume, s.pin, c) == Some("") then s.resume
                           else Named(cfg.harness, s.resume, s.pin, c).Or(s.resume))
        && (rejected && s.resume.Some? ==> KilledIn(history[..j]))
  {
    hide Legal, ViewOf, FirstOf, Complaints, Rejected, Named, Conclude, KilledIn;
    EndReports(cfg, history, i, k, j);
    OutcomeInFull(cfg.harness, history[i].resume, history[i].pin, history[k].ran, KilledIn(history[..k]));
  }

  lemma PinsAreOfQwen(cfg: Config, history: seq<Seen>, i: nat)
    requires Legal(cfg, history) && i < |history| && history[i].Spawn?
    ensures history[i].pin.Some? <==> cfg.harness.Qwen? && history[i].resume.None?
  {
    LegalPrefix(cfg, history, i);
  }

  /** The next spawn resumes the id its predecessor reported. */
  lemma {:induction false} NextSpawnResumes(cfg: Config, history: seq<Seen>, j: nat, n: nat)
    requires Legal(cfg, history) && j < n < |history| && history[j].TurnEnd? && history[n].Spawn?
    requires forall m :: j < m < n ==> !history[m].Spawn?
    ensures history[n].resume == history[j].session
  {
    LegalPrefix(cfg, history, n);
    hide Legal, ViewOf;
    KeptSince(cfg, history[..n], j);
  }

  predicate Keeps(v: View, session: Option<string>) {
    v.native == session && (!v.inTurn || (v.attempts == 0 && v.outcome.None?))
  }

  lemma {:induction false} KeptSince(cfg: Config, history: seq<Seen>, j: nat)
    requires Legal(cfg, history) && j < |history| && history[j].TurnEnd?
    requires forall m :: j < m < |history| ==> !history[m].Spawn?
    ensures Keeps(ViewOf(cfg, history), history[j].session)
  {
    hide Legal, ViewOf, After, Allowed, Keeps;
    var before, e := Cut(cfg, history);
    if j < |before| { KeptSince(cfg, before, j); }
    KeepsStep(cfg, ViewOf(cfg, before), e, history[j].session);
  }

  lemma KeepsStep(cfg: Config, v: View, e: Seen, session: Option<string>)
    requires Allowed(cfg, v, e)
    requires (e.TurnEnd? && e.session == session) || (Keeps(v, session) && !e.Spawn?)
    ensures Keeps(After(v, e), session)
  {
    hide Conclude;
  }

  /** An id that a child tells is reported by its turn and resumed by the next. With none told the
      resumed session stays; a fresh child goes by the id qwen pinned or the one its files give. */
  lemma ToldIsResumed(cfg: Config, history: seq<Seen>, i: nat, k: nat, j: nat)
    requires Legal(cfg, history) && j < |history| && history[j].TurnEnd? && RanLast(history[..j], i, k)
    requires var s, c := history[i], history[k].ran;
      c.Runs? && !Rejected(cfg.harness, s.resume, s.pin, c, KilledIn(history[..k]))
    ensures var s, c, end := history[i], history[k].ran, history[j];
      var told, fallback := Told(c.steps), if cfg.harness.Qwen? then s.pin else c.recovered;
      && (told.Some? && told != Some("") ==> end.session == told)
      && (told.None? && s.resume.Some? ==> end.session == s.resume)
      && (told.None? && s.resume.None? ==> end.session == if fallback == Some("") then None else fallback)
    ensures forall n :: j < n < |history| && history[n].Spawn? && (forall m :: j < m < n ==> !history[m].Spawn?) ==>
      history[n].resume == history[j].session
  {
    TurnReportsItsChild(cfg, history, i, k, j);
    PinsAreOfQwen(cfg, history, i);
    forall n | j < n < |history| && history[n].Spawn? && (forall m :: j < m < n ==> !history[m].Spawn?)
      ensures history[n].resume == history[j].session
    {
      NextSpawnResumes(cfg, history, j, n);
    }
    hide Legal, ViewOf, Rejected, Complaints, FirstOf;
  }

  /** A turn that nobody killed passes without an error exactly if its child ran to a clean exit: no
      exception, no failure, exit code 0, no line that stops it, and its closing line, or for opencode
      an id. */
  lemma CleanExactly(cfg: Config, history: seq<Seen>, i: nat, k: nat, j: nat)
    requires Legal(cfg, history) && j < |history| && history[j].TurnEnd? && RanLast(history[..j], i, k)
    requires !KilledIn(history[..j])
    ensures var s, c := history[i], history[k].ran;
      history[j].error.None? <==>
        && c.Runs? && c.thrown.None? && !c.failure && c.exit == Some(0) && !Says(c.steps, Fatal)
        && if cfg.harness.OpenCode? then history[j].session.Some? && Told(c.steps) != Some("")
           else Says(c.steps, Terminal)
  {
    hide Legal, ViewOf, FirstOf, Told, Says, Complaints, KilledIn;
    KilledStays(history[..j], k);
    assert history[..j][..k] == history[..k];
    TurnReportsItsChild(cfg, history, i, k, j);
    SpawnResumesAnId(cfg, history, i);
    if history[k].ran.Runs? {
      NothingWrong(cfg.harness, history[i], history[k].ran);
    }
  }

  lemma KilledStays(history: seq<Seen>, k: nat)
    requires k <= |history|
    ensures KilledIn(history[..k]) ==> KilledIn(history)
  {
  }

  lemma SpawnResumesAnId(cfg: Config, history: seq<Seen>, i: nat)
    requires Legal(cfg, history) && i < |history| && history[i].Spawn?
    ensures history[i].resume != Some("")
  {
    LegalPrefix(cfg, history, i);
    hide Legal, ViewOf;
    NativeIsAnId(cfg, history[..i]);
  }

  lemma {:induction false} NativeIsAnId(cfg: Config, history: seq<Seen>)
    requires Legal(cfg, history)
    ensures ViewOf(cfg, history).native != Some("")
  {
    hide Legal, ViewOf;
    if history == [] {
      LegalAtStart(cfg);
    } else {
      var before, e := Cut(cfg, history);
      NativeIsAnId(cfg, before);
    }
  }

  /** Nothing is wrong with a child, in a task nobody killed. */
  lemma NothingWrong(harness: Harness, s: Seen, c: Child)
    requires s.Spawn? && c.Runs?
    ensures FirstOf(Complaints(harness, s.resume, s.pin, c, false)).None? <==>
      && !Says(c.steps, Fatal) && c.thrown.None? && !c.failure && c.exit == Some(0)
      && if harness.OpenCode? then Named(harness, s.resume, s.pin, c).Or(Some("")) != Some("")
         else Says(c.steps, Terminal)
  {
    FirstOfFive(Complaints(harness, s.resume, s.pin, c, false));
    hide FirstOf, Told, Says;
  }
}
