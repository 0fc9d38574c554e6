/** The den's room reducer: every session's events folded into its room, its info and the list. */
module DenReducer {
  import opened JsText
  import opened Options
  import opened Sorting

  datatype Activity =
    | Idle | Thinking | SearchingWeb | EditingCode | RunningCommand | WritingPlan | Listening | Speaking | Sleeping

  datatype Body =
    | SessionStart(title: JsString)
    | SessionEnd
    | TurnEnd
    | TaskPlan(labels: seq<JsString>)
    | TaskCheck(index: int)
    | ActivityIs(now: Activity)
    | ToolStart(tool: string, suggested: Option<Activity>)
    | ToolEnd
    | ThinkingDelta(text: JsString)
    | ThinkingEnd
    | SpeechStt(active: bool)
    | MessageUser(text: JsString)
    | MessageAgent(text: JsString)
    | TermLine(text: JsString)
    | Unknown

  datatype Event = Event(
    session: JsString, name: Option<JsString>, harness: Option<JsString>, ts: Option<real>, body: Body)

  datatype Task = Task(name: JsString, done: bool)

  datatype Who = User | Agent

  datatype LogEntry = LogEntry(who: Who, text: JsString)

  datatype Room = Room(
    title: JsString, activity: Activity, tool: Option<string>, tasks: seq<Task>, thought: JsString,
    lastMessage: JsString, log: seq<LogEntry>, term: seq<JsString>, ended: bool)

  const INITIAL_ROOM := Room([], Idle, None, [], [], [], [], [], false)

  const THOUGHT_MAX := 220
  const LOG_MAX := 60
  const TERM_MAX := 6

  // -- Tools -----------------------------------------------------------------------------------------

  /** Lower case as far as an ASCII pattern can tell: the only other character that lowers to an ASCII
      letter is the Kelvin sign. */
  function Lower(s: string): string {
    seq(|s|, i requires 0 <= i < |s| =>
      if 'A' <= s[i] <= 'Z' then s[i] - 'A' + 'a' else if s[i] == '\U{212A}' then 'k' else s[i])
  }

  predicate StandsAt(s: string, part: string, i: int) {
    0 <= i <= |s| - |part| && s[i..i + |part|] == part
  }

  predicate Includes(s: string, part: string) {
    exists i :: 0 <= i <= |s| - |part| && StandsAt(s, part, i)
  }

  predicate SearchesWeb(n: string) {
    || Includes(n, "websearch") || Includes(n, "webfetch") || Includes(n, "web_search")
    || Includes(n, "web_fetch") || Includes(n, "internet_search")
  }

  function ToolActivity(name: string): Activity {
    var n := Lower(name);
    if SearchesWeb(n) then SearchingWeb
    else if n in {"edit", "write", "notebookedit"} || Includes(n, "applypatch") then EditingCode
    else if n in {"taskcreate", "taskupdate", "exitplanmode", "enterplanmode"} then WritingPlan
    else if n in {"read", "grep", "glob"} then Thinking
    else if n in {"bash", "run_terminal_cmd", "shell"} || Includes(n, "terminal") then EditingCode
    else RunningCommand
  }

  /** A string that lacks a character of another does not contain it. */
  lemma NotIncluded(s: string, part: string, c: char)
    requires c in part && c !in s
    ensures !Includes(s, part)
  {
    var k :| 0 <= k < |part| && part[k] == c;
    forall i | 0 <= i <= |s| - |part| ensures !StandsAt(s, part, i) {
      assert s[i..i + |part|][k] == s[i + k];
    }
  }

  const WEB_PARTS: seq<string> := ["websearch", "webfetch", "web_search", "web_fetch", "internet_search"]

  const PLAN_TOOLS: set<string> := {"taskcreate", "taskupdate", "exitplanmode", "enterplanmode"}

  const READING_TOOLS: set<string> := {"read", "grep", "glob"}

  const WRITING_TOOLS: set<string> := {"edit", "write", "notebookedit", "bash", "run_terminal_cmd", "shell"}

  lemma PlanningIsNoSearch(n: string)
    requires n in PLAN_TOOLS + READING_TOOLS
    ensures !SearchesWeb(n)
  {
    NotIncluded(n, "websearch", 'w');
    NotIncluded(n, "webfetch", 'w');
    NotIncluded(n, "web_search", '_');
    NotIncluded(n, "web_fetch", '_');
    NotIncluded(n, "internet_search", '_');
  }

  lemma PlanningIsNoWriting(n: string)
    requires n in PLAN_TOOLS + READING_TOOLS
    ensures !Includes(n, "applypatch") && !Includes(n, "terminal") && n !in WRITING_TOOLS
  {
    NotIncluded(n, "applypatch", 'y');
    if n == "exitplanmode" {
      NotIncluded(n, "terminal", 'r');
    } else {
      NotIncluded(n, "terminal", 'i');
    }
  }

  /** The classes of tools by name, in any case: searching the web goes before writing, planning and
      reading go by whole names only, and what is in no class runs a command. */
  lemma ToolClasses(name: string)
    ensures var n, now := Lower(name), ToolActivity(name);
      && (now == SearchingWeb <==> exists i :: 0 <= i < |WEB_PARTS| && Includes(n, WEB_PARTS[i]))
      && (now == WritingPlan <==> n in PLAN_TOOLS)
      && (now == Thinking <==> n in READING_TOOLS)
      && (now == EditingCode <==>
            now != SearchingWeb && (n in WRITING_TOOLS || Includes(n, "applypatch") || Includes(n, "terminal")))
      && now in {SearchingWeb, WritingPlan, Thinking, EditingCode, RunningCommand}
  {
    var n := Lower(name);
    if n in PLAN_TOOLS + READING_TOOLS {
      PlanningIsNoSearch(n);
      PlanningIsNoWriting(n);
    }
    hide Includes;
    assert forall i :: 0 <= i < |WEB_PARTS| ==> Includes(n, WEB_PARTS[i]) ==> SearchesWeb(n);
    assert SearchesWeb(n) ==>
      || Includes(n, WEB_PARTS[0]) || Includes(n, WEB_PARTS[1]) || Includes(n, WEB_PARTS[2])
      || Includes(n, WEB_PARTS[3]) || Includes(n, WEB_PARTS[4]);
  }

  /** Names are taken in lower case. */
  lemma CaseIsIgnored(name: string)
    ensures ToolActivity(Lower(name)) == ToolActivity(name)
    ensures |Lower(name)| == |name|
    ensures forall i :: 0 <= i < |name| ==>
      && !('A' <= Lower(name)[i] <= 'Z')
      && (Lower(name)[i] != name[i] ==>
            || ('A' <= name[i] <= 'Z' && Lower(name)[i] as int == name[i] as int + 32)
            || (name[i] == '\U{212A}' && Lower(name)[i] == 'k'))
  {
    assert Lower(Lower(name)) == Lower(name);
  }

  // -- The room --------------------------------------------------------------------------------------

  /** The last `n` elements: `slice(-n)`. */
  function Last<T>(s: seq<T>, n: nat): seq<T> {
    if |s| <= n then s else s[|s| - n..]
  }

  const STATUS_MARKS: set<int> := {0x2733, 0x2722, 0x273B, 0x273D, 0xB7}

  /** A spinner-style status line: a mark and a blank. */
  predicate IsStatus(s: JsString) {
    |s| >= 2 && s[0] in STATUS_MARKS && s[1] == 0x20
  }

  predicate HasSpace(s: JsString) {
    exists i :: 0 <= i < |s| && IsSpace(s[i])
  }

  /** `s` without `^\S*\s+`. */
  function SkipWord(s: JsString): JsString
    requires HasSpace(s)
  {
    if IsSpace(s[0]) then TrimStart(s)
    else
      assert forall i :: 0 <= i < |s| && IsSpace(s[i]) ==> s[1..][i - 1] == s[i];
      SkipWord(s[1..])
  }

  function AppendThought(thought: JsString, text: JsString): JsString {
    var window := Last(thought + text, THOUGHT_MAX);
    if |window| == THOUGHT_MAX && HasSpace(window) then SkipWord(window) else window
  }

  function Checked(tasks: seq<Task>, index: int): (r: seq<Task>)
    ensures |r| == |tasks|
  {
    seq(|tasks|, i requires 0 <= i < |tasks| => if i == index then tasks[i].(done := true) else tasks[i])
  }

  function Planned(labels: seq<JsString>): (r: seq<Task>)
    ensures |r| == |labels|
  {
    seq(|labels|, i requires 0 <= i < |labels| => Task(labels[i], false))
  }

  function ReduceRoom(state: Room, body: Body): Room {
    if state.ended && !body.SessionStart? then state
    else
      match body
      case SessionStart(title) => INITIAL_ROOM.(title := title, log := state.log)
      case SessionEnd => state.(activity := Sleeping, tool := None, thought := [], ended := true)
      case TurnEnd => state.(activity := Idle, tool := None, thought := [])
      case TaskPlan(labels) => state.(tasks := Planned(labels), activity := WritingPlan)
      case TaskCheck(index) => state.(tasks := Checked(state.tasks, index))
      case ActivityIs(now) =>
        state.(activity := now, tool := None, thought := if now == Thinking then state.thought else [])
      case ToolStart(tool, suggested) =>
        state.(tool := Some(tool), thought := [],
               activity := if suggested.Some? then suggested.value else ToolActivity(tool))
      case ToolEnd => state.(tool := None, activity := Thinking)
      case ThinkingDelta(text) =>
        state.(activity := Thinking, tool := None,
               thought := if IsStatus(text) then text else AppendThought(state.thought, text))
      case ThinkingEnd => state.(thought := [])
      case SpeechStt(active) =>
        if active then state.(activity := Listening, tool := None, thought := [])
        else state.(activity := Thinking)
      case MessageUser(text) => state.(log := Last(state.log + [LogEntry(User, text)], LOG_MAX))
      case MessageAgent(text) =>
        state.(lastMessage := text, activity := Speaking, tool := None, thought := [],
               log := Last(state.log + [LogEntry(Agent, text)], LOG_MAX))
      case TermLine(text) => state.(term := Last(state.term + [text], TERM_MAX))
      case Unknown => state
  }

  /** The room of a session after its own events. */
  function RoomAfter(events: seq<Event>): Room {
    if events == [] then INITIAL_ROOM
    else ReduceRoom(RoomAfter(events[..|events| - 1]), events[|events| - 1].body)
  }

  // -- The den ---------------------------------------------------------------------------------------

  datatype SessionInfo = SessionInfo(
    id: JsString, name: JsString, harness: Option<JsString>, lastEventTs: Option<real>)

  datatype Den = Den(rooms: map<JsString, Room>, sessions: map<JsString, SessionInfo>)

  const INITIAL_DEN := Den(map[], map[])

  function Max(a: real, b: real): real { if a >= b then a else b }

  /** `name || prev.name || id`, and so on: every field falls back on what was known. */
  function Info(prev: Option<SessionInfo>, ev: Event): SessionInfo {
    var oldName := if prev.Some? then prev.value.name else [];
    var oldTs := if prev.Some? then prev.value.lastEventTs else None;
    SessionInfo(
      ev.session,
      if ev.name.Some? && ev.name.value != [] then ev.name.value else if oldName != [] then oldName else ev.session,
      if ev.harness.Some? then ev.harness else if prev.Some? then prev.value.harness else None,
      if ev.ts.None? then oldTs else Some(Max(ev.ts.value, if oldTs.Some? then oldTs.value else 0.0)))
  }

  function ReduceDen(state: Den, ev: Event): Den {
    var room := if ev.session in state.rooms then state.rooms[ev.session] else INITIAL_ROOM;
    var prev := if ev.session in state.sessions then Some(state.sessions[ev.session]) else None;
    Den(state.rooms[ev.session := ReduceRoom(room, ev.body)], state.sessions[ev.session := Info(prev, ev)])
  }

  function DenAfter(events: seq<Event>): Den {
    if events == [] then INITIAL_DEN
    else ReduceDen(DenAfter(events[..|events| - 1]), events[|events| - 1])
  }

  // -- Sessions do not interfere -----------------------------------------------------------------------

  /** The events of one session, in order. */
  function Own(events: seq<Event>, session: JsString): seq<Event> {
    if events == [] then []
    else
      var before, ev := Own(events[..|events| - 1], session), events[|events| - 1];
      if ev.session == session then before + [ev] else before
  }

  /** The last name that is not empty. */
  function LastName(events: seq<Event>): (r: Option<JsString>)
    ensures r.Some? ==> r.value != []
  {
    if events == [] then None
    else
      var name := events[|events| - 1].name;
      if name.Some? && name.value != [] then name else LastName(events[..|events| - 1])
  }

  function LastHarness(events: seq<Event>): Option<JsString> {
    if events == [] then None
    else events[|events| - 1].harness.Or(LastHarness(events[..|events| - 1]))
  }

  /** The timestamps seen. */
  function Stamps(events: seq<Event>): seq<real> {
    if events == [] then []
    else
      var before, ts := Stamps(events[..|events| - 1]), events[|events| - 1].ts;
      if ts.None? then before else before + [ts.value]
  }

  /** The greatest of 0 and the values. */
  predicate IsMaxWithZero(m: real, values: seq<real>) {
    && (m == 0.0 || m in values)
    && m >= 0.0
    && forall i :: 0 <= i < |values| ==> values[i] <= m
  }

  /** What the events of a session say of it. */
  predicate Describes(info: SessionInfo, session: JsString, own: seq<Event>) {
    && info.id == session
    && info.name == LastName(own).Or(Some(session)).value
    && info.harness == LastHarness(own)
    && (info.lastEventTs.None? <==> Stamps(own) == [])
    && (info.lastEventTs.Some? ==> IsMaxWithZero(info.lastEventTs.value, Stamps(own)))
  }

  lemma InfoDescribes(prev: Option<SessionInfo>, ev: Event, own: seq<Event>)
    requires prev.Some? <==> own != []
    requires prev.Some? ==> Describes(prev.value, ev.session, own)
    ensures Describes(Info(prev, ev), ev.session, own + [ev])
  {
    assert (own + [ev])[..|own|] == own;
    assert LastHarness(own + [ev]) == ev.harness.Or(LastHarness(own));
    assert own == [] ==> LastHarness(own) == None;
    if ev.ts.Some? {
      var m := Info(prev, ev).lastEventTs.value;
      var stamps := Stamps(own + [ev]);
      assert stamps[|stamps| - 1] == ev.ts.value;
      if prev.Some? && prev.value.lastEventTs.Some? && m == prev.value.lastEventTs.value != 0.0 {
        assert m in Stamps(own);
      }
    }
  }

  /** Every room is the fold of its own session's events, and every info speaks only of them. */
  lemma {:induction false} RoomsAreFolds(events: seq<Event>, session: JsString)
    ensures session in DenAfter(events).rooms <==> Own(events, session) != []
    ensures session in DenAfter(events).sessions <==> Own(events, session) != []
    ensures Own(events, session) != [] ==>
      && DenAfter(events).rooms[session] == RoomAfter(Own(events, session))
      && Describes(DenAfter(events).sessions[session], session, Own(events, session))
  {
    if events != [] {
      var n := |events| - 1;
      RoomsAreFolds(events[..n], session);
      hide ReduceRoom, Describes, Info;
      var own, ev := Own(events[..n], session), events[n];
      if ev.session == session {
        assert (own + [ev])[..|own|] == own;
        var den := DenAfter(events[..n]);
        InfoDescribes(if session in den.sessions then Some(den.sessions[session]) else None, ev, own);
      }
    }
  }

  /** The den depends on each session's own events only. */
  lemma ProjectionsDecide(a: seq<Event>, b: seq<Event>)
    requires forall session :: Own(a, session) == Own(b, session)
    ensures DenAfter(a) == DenAfter(b)
  {
    forall session ensures session in DenAfter(a).rooms <==> session in DenAfter(b).rooms {
      RoomsAreFolds(a, session);
      RoomsAreFolds(b, session);
    }
    forall session | session in DenAfter(a).rooms
      ensures DenAfter(a).rooms[session] == DenAfter(b).rooms[session]
    {
      RoomsAreFolds(a, session);
      RoomsAreFolds(b, session);
    }
    forall session ensures session in DenAfter(a).sessions <==> session in DenAfter(b).sessions {
      RoomsAreFolds(a, session);
      RoomsAreFolds(b, session);
    }
    forall session | session in DenAfter(a).sessions
      ensures DenAfter(a).sessions[session] == DenAfter(b).sessions[session]
    {
      RoomsAreFolds(a, session);
      RoomsAreFolds(b, session);
      InfosAgree(DenAfter(a).sessions[session], DenAfter(b).sessions[session], session, Own(a, session));
    }
    assert DenAfter(a).rooms == DenAfter(b).rooms && DenAfter(a).sessions == DenAfter(b).sessions;
  }

  /** The description leaves no room for two different infos. */
  lemma InfosAgree(x: SessionInfo, y: SessionInfo, session: JsString, own: seq<Event>)
    requires Describes(x, session, own) && Describes(y, session, own)
    ensures x == y
  {}

  // -- The windows -----------------------------------------------------------------------------------

  /** The last boundary event among the session's events was its end. */
  predicate IsEnded(events: seq<Event>) {
    if events == [] then false
    else
      match events[|events| - 1].body
      case SessionStart(_) => false
      case SessionEnd => true
      case _ => IsEnded(events[..|events| - 1])
  }

  /** Nothing but a start wakes a room that has ended: late events of a dying harness change nothing. */
  lemma {:induction false} EndedIsAbsorbing(events: seq<Event>, more: seq<Event>)
    requires RoomAfter(events).ended && forall i :: 0 <= i < |more| ==> !more[i].body.SessionStart?
    ensures RoomAfter(events + more) == RoomAfter(events)
  {
    if more == [] {
      assert events + more == events;
    } else {
      var n := |more| - 1;
      EndedIsAbsorbing(events, more[..n]);
      assert (events + more)[..|events| + n] == events + more[..n];
    }
  }

  /** A room that has ended sleeps, with no tool and no thought. */
  lemma {:induction false} EndedRoomSleeps(events: seq<Event>)
    ensures var room := RoomAfter(events);
      room.ended ==> room.activity == Sleeping && room.tool == None && room.thought == []
  {
    if events != [] {
      hide Last, Checked, Planned, AppendThought, ToolActivity, IsStatus;
      EndedRoomSleeps(events[..|events| - 1]);
    }
  }

  /** The title of the last start. */
  function LastTitle(events: seq<Event>): JsString {
    if events == [] then []
    else
      match events[|events| - 1].body
      case SessionStart(title) => title
      case _ => LastTitle(events[..|events| - 1])
  }

  /** The last reply received since the last start, none if none. */
  function LastReply(events: seq<Event>): JsString {
    if events == [] then []
    else
      var init := events[..|events| - 1];
      match events[|events| - 1].body
      case SessionStart(_) => []
      case MessageAgent(text) => if IsEnded(init) then LastReply(init) else text
      case _ => LastReply(init)
  }

  lemma ReduceTitle(state: Room, body: Body)
    ensures ReduceRoom(state, body).title == if body.SessionStart? then body.title else state.title
    ensures ReduceRoom(state, body).lastMessage
         == if body.SessionStart? then []
            else if body.MessageAgent? && !state.ended then body.text
            else state.lastMessage
  {
    hide Last, Checked, Planned, AppendThought, ToolActivity, IsStatus;
  }

  lemma {:induction false} TitleAndReply(events: seq<Event>)
    ensures RoomAfter(events).title == LastTitle(events)
    ensures RoomAfter(events).lastMessage == LastReply(events)
  {
    if events != [] {
      hide ReduceRoom, IsEnded;
      var n := |events| - 1;
      TitleAndReply(events[..n]);
      EndedAgrees(events[..n]);
      ReduceTitle(RoomAfter(events[..n]), events[n].body);
    }
  }

  /** Every message received while the session had not ended. */
  function Received(events: seq<Event>): seq<LogEntry> {
    if events == [] then []
    else
      var init := events[..|events| - 1];
      match events[|events| - 1].body
      case MessageUser(text) => if IsEnded(init) then Received(init) else Received(init) + [LogEntry(User, text)]
      case MessageAgent(text) => if IsEnded(init) then Received(init) else Received(init) + [LogEntry(Agent, text)]
      case _ => Received(init)
  }

  /** The terminal lines since the session last started. */
  function LinesSinceStart(events: seq<Event>): seq<JsString> {
    if events == [] then []
    else
      var init := events[..|events| - 1];
      match events[|events| - 1].body
      case SessionStart(_) => []
      case TermLine(text) => if IsEnded(init) then LinesSinceStart(init) else LinesSinceStart(init) + [text]
      case _ => LinesSinceStart(init)
  }

  /** What an event makes of the thinking text. */
  function ThoughtGrows(full: JsString, ended: bool, body: Body): JsString {
    match body
    case SessionStart(_) => []
    case SessionEnd => []
    case TurnEnd => []
    case ActivityIs(now) => if now == Thinking then full else []
    case ToolStart(_, _) => []
    case ThinkingDelta(text) => if ended then full else if IsStatus(text) then text else full + text
    case ThinkingEnd => []
    case SpeechStt(active) => if active then [] else full
    case MessageAgent(_) => []
    case _ => full
  }

  /** The thinking text since it was last cleared or replaced, in full. */
  function ThoughtInFull(events: seq<Event>): JsString {
    if events == [] then []
    else
      var init := events[..|events| - 1];
      ThoughtGrows(ThoughtInFull(init), IsEnded(init), events[|events| - 1].body)
  }

  lemma LastOfLast<T>(s: seq<T>, x: T, n: nat)
    requires n > 0
    ensures Last(Last(s, n) + [x], n) == Last(s + [x], n)
  {}

  lemma {:induction false} EndedAgrees(events: seq<Event>)
    ensures RoomAfter(events).ended == IsEnded(events)
  {
    if events != [] {
      hide Last, Checked, Planned, AppendThought, ToolActivity, IsStatus;
      EndedAgrees(events[..|events| - 1]);
    }
  }

  /** The log is the last 60 messages received before the end, across restarts; */
  lemma {:induction false} LogIsWindow(events: seq<Event>)
    ensures RoomAfter(events).log == Last(Received(events), 60)
  {
    if events != [] {
      var n := |events| - 1;
      LogIsWindow(events[..n]);
      EndedAgrees(events[..n]);
      hide IsEnded, Last, Checked, Planned, AppendThought, ToolActivity, IsStatus;
      match events[n].body
      case MessageUser(text) => LastOfLast(Received(events[..n]), LogEntry(User, text), LOG_MAX);
      case MessageAgent(text) => LastOfLast(Received(events[..n]), LogEntry(Agent, text), LOG_MAX);
      case _ =>
    } else {
      assert Last<LogEntry>([], LOG_MAX) == [];
    }
  }

  /** the terminal shows the last 6 lines since the last start. */
  lemma {:induction false} TermIsWindow(events: seq<Event>)
    ensures RoomAfter(events).term == Last(LinesSinceStart(events), 6)
  {
    if events != [] {
      var n := |events| - 1;
      TermIsWindow(events[..n]);
      EndedAgrees(events[..n]);
      assert Last<JsString>([], TERM_MAX) == [];
      hide IsEnded, Last, Checked, Planned, AppendThought, ToolActivity, IsStatus;
      if events[n].body.TermLine? { LastOfLast(LinesSinceStart(events[..n]), events[n].body.text, TERM_MAX); }
    } else {
      assert Last<JsString>([], TERM_MAX) == [];
    }
  }

  /** `thought` is the end of `full`: all of it, or from a word boundary on, or a full window without
      a blank. Nothing is cut before the text fills a window. */
  ghost predicate IsTailOf(thought: JsString, full: JsString) {
    && |thought| <= |full|
    && var p := |full| - |thought|;
       && thought == full[p..]
       && (p == 0 || IsSpace(full[p - 1]) || (|thought| == THOUGHT_MAX && !HasSpace(thought)))
       && (|full| < THOUGHT_MAX ==> p == 0)
  }

  lemma {:induction false} SkipWordEnds(s: JsString)
    requires HasSpace(s)
    ensures |SkipWord(s)| < |s|
    ensures var p := |s| - |SkipWord(s)|; SkipWord(s) == s[p..] && IsSpace(s[p - 1])
  {
    if IsSpace(s[0]) {
      TrimStartDropsSpace(s);
    } else {
      assert HasSpace(s[1..]);
      SkipWordEnds(s[1..]);
    }
  }

  lemma {:induction false} TrimStartDropsSpace(s: JsString)
    requires s != [] && IsSpace(s[0])
    ensures |TrimStart(s)| < |s|
    ensures var p := |s| - |TrimStart(s)|; TrimStart(s) == s[p..] && IsSpace(s[p - 1])
  {
    if s[1..] != [] && IsSpace(s[1]) {
      TrimStartDropsSpace(s[1..]);
    } else {
      assert TrimStart(s[1..]) == s[1..];
    }
  }

  lemma LastIsTail(s: JsString, n: nat)
    ensures |Last(s, n)| <= n && |Last(s, n)| <= |s| && Last(s, n) == s[|s| - |Last(s, n)|..]
    ensures |s| <= n ==> Last(s, n) == s
    ensures |s| >= n ==> |Last(s, n)| == n
  {}

  lemma AppendKeepsTail(thought: JsString, full: JsString, text: JsString)
    requires IsTailOf(thought, full)
    ensures IsTailOf(AppendThought(thought, text), full + text)
  {
    var whole, longer := thought + text, full + text;
    assert whole == longer[|longer| - |whole|..];
    LastIsTail(whole, THOUGHT_MAX);
    var window := Last(whole, THOUGHT_MAX);
    hide Last, IsTailOf;
    if |window| == THOUGHT_MAX {
      TailOfTail(longer, whole, window);
      CutTail(longer, window);
    } else {
      KeptTail(thought, full, text);
    }
  }

  lemma CutTail(full: JsString, window: JsString)
    requires |window| == THOUGHT_MAX <= |full| && window == full[|full| - |window|..]
    ensures IsTailOf(if HasSpace(window) then SkipWord(window) else window, full)
  {
    if HasSpace(window) {
      SkipWordEnds(window);
      TailOfTail(full, window, SkipWord(window));
    }
  }

  lemma KeptTail(thought: JsString, full: JsString, text: JsString)
    requires IsTailOf(thought, full) && |thought + text| < THOUGHT_MAX
    ensures IsTailOf(thought + text, full + text)
  {}

  lemma TailOfTail(a: JsString, b: JsString, c: JsString)
    requires |c| <= |b| <= |a| && b == a[|a| - |b|..] && c == b[|b| - |c|..]
    ensures c == a[|a| - |c|..]
    ensures |c| < |b| ==> a[|a| - |c| - 1] == b[|b| - |c| - 1]
  {}

  lemma WholeIsTail(text: JsString)
    ensures IsTailOf(text, text)
  {}

  lemma EmptyTail(thought: JsString)
    requires IsTailOf(thought, [])
    ensures thought == []
  {}

  /** What an event makes of the thought bubble. */
  function ThoughtNext(thought: JsString, body: Body): JsString {
    match body
    case SessionStart(_) => []
    case SessionEnd => []
    case TurnEnd => []
    case ActivityIs(now) => if now == Thinking then thought else []
    case ToolStart(_, _) => []
    case ThinkingDelta(text) => if IsStatus(text) then text else AppendThought(thought, text)
    case ThinkingEnd => []
    case SpeechStt(active) => if active then [] else thought
    case MessageAgent(_) => []
    case _ => thought
  }

  lemma ReduceThought(state: Room, body: Body)
    requires !state.ended || body.SessionStart?
    ensures ReduceRoom(state, body).thought == ThoughtNext(state.thought, body)
  {
    hide Last, Checked, Planned, AppendThought, ToolActivity, IsStatus;
  }

  lemma NextKeepsTail(thought: JsString, full: JsString, body: Body)
    requires IsTailOf(thought, full)
    ensures IsTailOf(ThoughtNext(thought, body), ThoughtGrows(full, false, body))
  {
    hide AppendThought, IsStatus, IsTailOf;
    WholeIsTail([]);
    if body.ThinkingDelta? {
      WholeIsTail(body.text);
      AppendKeepsTail(thought, full, body.text);
    }
  }

  lemma StartForgets(full: JsString, ended: bool, body: Body)
    requires full == [] || body.SessionStart? || body.SessionEnd?
    ensures ended || !body.ThinkingDelta? ==> ThoughtGrows(full, ended, body) == []
  {
    hide IsStatus;
  }

  lemma ReduceKeepsTail(state: Room, full: JsString, body: Body)
    requires IsTailOf(state.thought, full) && (state.ended ==> full == [])
    ensures IsTailOf(ReduceRoom(state, body).thought, ThoughtGrows(full, state.ended, body))
    ensures ReduceRoom(state, body).ended ==> ThoughtGrows(full, state.ended, body) == []
  {
    hide IsTailOf, ThoughtGrows, ThoughtNext, Last, Checked, Planned, AppendThought, ToolActivity, IsStatus;
    WholeIsTail([]);
    if state.ended && !body.SessionStart? {
      EmptyTail(state.thought);
      StartForgets(full, true, body);
    } else {
      ReduceThought(state, body);
      NextKeepsTail(state.thought, full, body);
      if body.SessionStart? || body.SessionEnd? {
        StartForgets(full, true, body);
        StartForgets(full, false, body);
      }
    }
  }

  /** The thought bubble shows the end of the thinking text, never opening inside a word unless a
      single word fills it. */
  lemma {:induction false} ThoughtIsTail(events: seq<Event>)
    ensures IsTailOf(RoomAfter(events).thought, ThoughtInFull(events))
    ensures IsEnded(events) ==> ThoughtInFull(events) == []
  {
    hide IsTailOf, ReduceRoom, ThoughtGrows, IsEnded;
    if events == [] {
      assert !IsEnded(events) by { EndedAgrees(events); }
      WholeIsTail([]);
    } else {
      var n := |events| - 1;
      ThoughtIsTail(events[..n]);
      EndedAgrees(events[..n]);
      EndedAgrees(events);
      ReduceKeepsTail(RoomAfter(events[..n]), ThoughtInFull(events[..n]), events[n].body);
    }
  }

  /** A delta that is appended leaves at most a window. */
  lemma ThoughtFits(events: seq<Event>, delta: Event)
    requires delta.body.ThinkingDelta? && !IsStatus(delta.body.text) && !IsEnded(events)
    ensures |RoomAfter(events + [delta]).thought| <= THOUGHT_MAX
  {
    hide IsEnded, IsStatus, AppendThought, ToolActivity, Last, Checked, Planned;
    assert (events + [delta])[..|events|] == events;
    EndedAgrees(events);
    AppendFits(RoomAfter(events).thought, delta.body.text);
  }

  /** A delta that opens with a spinner's mark and a blank takes the bubble over; any other is appended,
      and the bubble keeps the end, 220 characters at most. */
  lemma DeltaShows(events: seq<Event>, delta: Event)
    requires delta.body.ThinkingDelta? && !IsEnded(events)
    ensures var text, shown := delta.body.text, RoomAfter(events + [delta]).thought;
      if |text| >= 2 && text[0] in [0x2733, 0x2722, 0x273B, 0x273D, 0xB7] && text[1] == 0x20 then shown == text
      else |shown| <= 220 && IsTailOf(shown, RoomAfter(events).thought + text)
  {
    hide IsEnded, AppendThought, ToolActivity, Last, Checked, Planned, IsTailOf;
    assert (events + [delta])[..|events|] == events;
    EndedAgrees(events);
    var thought := RoomAfter(events).thought;
    WholeIsTail(thought);
    AppendKeepsTail(thought, thought, delta.body.text);
    AppendFits(thought, delta.body.text);
  }

  lemma AppendFits(thought: JsString, text: JsString)
    ensures |AppendThought(thought, text)| <= THOUGHT_MAX
  {
    var window := Last(thought + text, THOUGHT_MAX);
    LastIsTail(thought + text, THOUGHT_MAX);
    hide Last;
    if HasSpace(window) { SkipWordEnds(window); }
  }

  // -- Tool and activity -----------------------------------------------------------------------------

  /** An event reaches the room, which only a start does once the session has ended. */
  predicate Heard(events: seq<Event>, i: int)
    requires 0 <= i < |events|
  {
    events[i].body.SessionStart? || !IsEnded(events[..i])
  }

  /** A plan, a check, the end of a thought or of listening, a user's message and a terminal line leave
      the tool where it is. */
  predicate KeepsTool(body: Body) {
    || body.TaskPlan? || body.TaskCheck? || body.ThinkingEnd? || (body.SpeechStt? && !body.active)
    || body.MessageUser? || body.TermLine? || body.Unknown?
  }

  /** Event `i` started the tool, and nothing heard since has cleared or replaced it. */
  predicate StandingTool(events: seq<Event>, i: int, tool: string) {
    && 0 <= i < |events| && Heard(events, i)
    && events[i].body.ToolStart? && events[i].body.tool == tool
    && forall j :: i < j < |events| && Heard(events, j) ==> KeepsTool(events[j].body)
  }

  /** The activity an event calls for. */
  function CallsFor(body: Body): Option<Activity> {
    match body
    case SessionStart(_) => Some(Idle)
    case SessionEnd => Some(Sleeping)
    case TurnEnd => Some(Idle)
    case TaskPlan(_) => Some(WritingPlan)
    case ActivityIs(now) => Some(now)
    case ToolStart(tool, suggested) => suggested.Or(Some(ToolActivity(tool)))
    case ToolEnd => Some(Thinking)
    case ThinkingDelta(_) => Some(Thinking)
    case SpeechStt(active) => Some(if active then Listening else Thinking)
    case MessageAgent(_) => Some(Speaking)
    case _ => None
  }

  /** Event `i` is the last one heard that calls for an activity. */
  predicate LastCall(events: seq<Event>, i: int) {
    && 0 <= i < |events| && Heard(events, i) && CallsFor(events[i].body).Some?
    && forall j :: i < j < |events| && Heard(events, j) ==> CallsFor(events[j].body).None?
  }

  lemma HeardBefore(events: seq<Event>, n: nat)
    requires n <= |events|
    ensures forall i :: 0 <= i < n ==> Heard(events[..n], i) == Heard(events, i)
  {
    forall i | 0 <= i < n ensures Heard(events[..n], i) == Heard(events, i) {
      assert events[..n][..i] == events[..i];
    }
  }

  lemma ReduceTool(state: Room, body: Body)
    ensures ReduceRoom(state, body).tool ==
      if (state.ended && !body.SessionStart?) || KeepsTool(body) then state.tool
      else if body.ToolStart? then Some(body.tool)
      else None
    ensures ReduceRoom(state, body).activity ==
      if (state.ended && !body.SessionStart?) || CallsFor(body).None? then state.activity
      else CallsFor(body).value
  {
    hide Last, Checked, Planned, AppendThought, ToolActivity, IsStatus;
  }

  /** The tool shown is the last one started, unless something has cleared it since. */
  lemma {:induction false} ToolIsStanding(events: seq<Event>)
    ensures forall tool :: RoomAfter(events).tool == Some(tool) <==> exists i :: StandingTool(events, i, tool)
  {
    if events != [] {
      hide ReduceRoom, Heard, KeepsTool, IsEnded;
      var n := |events| - 1;
      ToolIsStanding(events[..n]);
      forall tool
        ensures RoomAfter(events).tool == Some(tool) <==> exists i :: StandingTool(events, i, tool)
      {
        ToolStands(events, tool);
      }
    }
  }

  lemma StandingStep(events: seq<Event>, tool: string)
    requires events != []
    ensures var n, init := |events| - 1, events[..|events| - 1];
      && (forall i :: 0 <= i < n ==> (StandingTool(events, i, tool) <==>
            StandingTool(init, i, tool) && (Heard(events, n) ==> KeepsTool(events[n].body))))
      && (StandingTool(events, n, tool) <==>
            Heard(events, n) && events[n].body.ToolStart? && events[n].body.tool == tool)
  {
    HeardBefore(events, |events| - 1);
    hide Heard, KeepsTool;
  }

  lemma ToolStands(events: seq<Event>, tool: string)
    requires events != []
    requires var init := events[..|events| - 1];
      RoomAfter(init).tool == Some(tool) <==> exists i :: StandingTool(init, i, tool)
    ensures RoomAfter(events).tool == Some(tool) <==> exists i :: StandingTool(events, i, tool)
  {
    var n := |events| - 1;
    var init, body := events[..n], events[n].body;
    StandingStep(events, tool);
    EndedAgrees(init);
    ReduceTool(RoomAfter(init), body);
    assert RoomAfter(events) == ReduceRoom(RoomAfter(init), body);
    assert forall i :: StandingTool(events, i, tool) ==> 0 <= i <= n;
    assert forall i :: StandingTool(init, i, tool) ==> 0 <= i < n;
    hide ReduceRoom, IsEnded, RoomAfter, StandingTool;
  }

  lemma CallStep(events: seq<Event>)
    requires events != []
    ensures var n, init := |events| - 1, events[..|events| - 1];
      && (forall i :: 0 <= i < n ==> (LastCall(events, i) <==>
            LastCall(init, i) && (Heard(events, n) ==> CallsFor(events[n].body).None?)))
      && (LastCall(events, n) <==> Heard(events, n) && CallsFor(events[n].body).Some?)
  {
    HeardBefore(events, |events| - 1);
    hide Heard, CallsFor;
  }

  /** The activity is the one that the last event heard which calls for any calls for. */
  lemma {:induction false} ActivityIsCalledFor(events: seq<Event>)
    ensures forall i :: LastCall(events, i) ==> RoomAfter(events).activity == CallsFor(events[i].body).value
    ensures (forall i :: !LastCall(events, i)) ==> RoomAfter(events).activity == Idle
  {
    if events != [] {
      hide ReduceRoom, Heard, CallsFor, IsEnded, LastCall;
      var init := events[..|events| - 1];
      ActivityIsCalledFor(init);
      CallStep(events);
      CallsInRange(events);
      CallsInRange(init);
      HeardLast(events);
      ReduceTool(RoomAfter(init), events[|events| - 1].body);
    }
  }

  lemma CallsInRange(events: seq<Event>)
    ensures forall i :: LastCall(events, i) ==> 0 <= i < |events|
  {
  }

  lemma HeardLast(events: seq<Event>)
    requires events != []
    ensures var n := |events| - 1;
      Heard(events, n) <==> events[n].body.SessionStart? || !RoomAfter(events[..n]).ended
  {
    EndedAgrees(events[..|events| - 1]);
  }

  // -- Tasks -----------------------------------------------------------------------------------------

  /** The labels of the plan that stands. */
  function PlanStanding(events: seq<Event>): seq<JsString> {
    if events == [] then []
    else
      var init := events[..|events| - 1];
      match events[|events| - 1].body
      case SessionStart(_) => []
      case TaskPlan(labels) => if IsEnded(init) then PlanStanding(init) else labels
      case _ => PlanStanding(init)
  }

  /** Task `i` was checked since the plan that stands was made. */
  predicate WasChecked(events: seq<Event>, i: int) {
    if events == [] then false
    else
      var init := events[..|events| - 1];
      match events[|events| - 1].body
      case SessionStart(_) => false
      case TaskPlan(_) => IsEnded(init) && WasChecked(init, i)
      case TaskCheck(index) => WasChecked(init, i) || (index == i && !IsEnded(init))
      case _ => WasChecked(init, i)
  }

  /** The tasks are those of the standing plan, each done when it was checked since. */
  lemma {:induction false} TasksFollowPlan(events: seq<Event>)
    ensures |RoomAfter(events).tasks| == |PlanStanding(events)|
    ensures forall i :: 0 <= i < |PlanStanding(events)| ==>
      RoomAfter(events).tasks[i] == Task(PlanStanding(events)[i], WasChecked(events, i))
  {
    if events != [] {
      var n := |events| - 1;
      TasksFollowPlan(events[..n]);
      EndedAgrees(events[..n]);
      hide IsEnded, Last, AppendThought, ToolActivity, IsStatus;
    }
  }

  // -- The list --------------------------------------------------------------------------------------

  /** The infos of the sessions in the order the record enumerates its keys. */
  function Infos(state: Den, order: seq<JsString>): (r: seq<SessionInfo>)
    requires forall i :: 0 <= i < |order| ==> order[i] in state.sessions
    ensures |r| == |order|
  {
    seq(|order|, i requires 0 <= i < |order| => state.sessions[order[i]])
  }

  function Recency(): SessionInfo -> real {
    (info: SessionInfo) => info.lastEventTs.Or(Some(0.0)).value
  }

  function ListSessions(state: Den, order: seq<JsString>): seq<SessionInfo>
    requires forall i :: 0 <= i < |order| ==> order[i] in state.sessions
  {
    SortDesc(Infos(state, order), Recency())
  }

  /** The list holds every session once, most recent first, and keeps the record's order among
      sessions as recent. */
  lemma ListIsRanked(state: Den, order: seq<JsString>, recency: real)
    requires forall i :: 0 <= i < |order| ==> order[i] in state.sessions
    ensures multiset(ListSessions(state, order)) == multiset(Infos(state, order))
    ensures Descending(ListSessions(state, order), Recency())
    ensures OfRank(ListSessions(state, order), Recency(), recency) == OfRank(Infos(state, order), Recency(), recency)
  {
    SortDescSorts(Infos(state, order), Recency());
    SortDescIsStable(Infos(state, order), Recency(), recency);
  }
}
