/**
 The browser manager as an allocator of sessions, tabs and page slots. Each stretch of code
 between two awaits is one step; what the browser library answers during a step (is the
 browser connected, is the page closed, did the launch succeed) is part of the step's label.
 */
module Browser {
  import opened Common

  datatype Mode = Headless | HostChromeVisible

  /** A tab id: `tab-n` as the manager makes them, or any other text a caller may ask for. */
  datatype TabId = Tab(number: nat) | Other(text: string)

  /** A session object. `used` is the history of tab ids it has handed out. */
  datatype Session = Session(tabs: map<TabId, int>, active: TabId, counter: nat, mode: Mode, used: set<TabId>)

  /** A call that waits at an await. Session objects are known by reference. */
  datatype Pending =
    | LaunchEvicting(id: string, mode: Mode, again: bool)
    | Starting(id: string, mode: Mode)
    | NewSessionPage(id: string, actual: Mode)
    | AddingPage(ref: nat, forLaunch: bool)
    | GetPageEvicting
    | ClosingOne(id: string)
    | ClosingAll

  datatype Limits = Limits(maxSessions: int, maxTabsPerSession: int, maxTotalPages: int)

  /** `sessions` maps ids to session objects; an object that was dropped from it may still
      be held by a pending call. */
  datatype State = State(sessions: map<string, nat>, heap: map<nat, Session>, reserved: int, ops: map<nat, Pending>)

  datatype Outcome =
    | Suspended
    | Launched(tabId: TabId, reused: bool)
    | PageFound(tabId: TabId)
    | Closed
    | SessionNotFound
    | BrowserDisconnected
    | TabNotFound
    | TooManySessions
    | TooManyTabs
    | TooManyPages
    | Aborted
    | LibraryFailed
    | NotEnabled

  datatype Step =
    | Launch(op: nat, id: string, mode: Mode, connected: bool, activeClosed: bool, aborted: bool)
    | LaunchEvicted(op: nat, aborted: bool)
    | BrowserStarted(op: nat, started: bool, actual: Mode, blank: Option<int>)
    | SessionPageOpened(op: nat, page: Option<int>)
    | GetPage(op: nat, id: string, tabId: Option<TabId>, create: bool, connected: bool, pageClosed: bool, aborted: bool)
    | PageOpened(op: nat, page: Option<int>)
    | GetPageEvicted(op: nat)
    | Close(op: nat, only: Option<string>)
    | CloseFinished(op: nat)

  datatype Next = Next(state: State, outcome: Outcome)

  /** The text of a generated tab id. */
  function TabText(n: nat): string { "tab-" + Decimal(n) }

  /** The text is "tab-" and the number. */
  lemma TabTextMeans(n: nat)
    ensures |TabText(n)| > 4 && TabText(n)[..4] == "tab-" && IsNumeral(TabText(n)[4..]) && ValueOf(TabText(n)[4..]) == n
  {
    DecimalMeans(n);
    assert TabText(n)[4..] == Decimal(n);
  }

  /** Different tab numbers have different texts. */
  lemma TabTextInjective(m: nat, n: nat)
    ensures TabText(m) == TabText(n) ==> m == n
  {
    if TabText(m) == TabText(n) {
      assert TabText(m)[4..] == Decimal(m) && TabText(n)[4..] == Decimal(n);
      DecimalInjective(m, n);
    }
  }

  /** Every reference leads to a session object. */
  ghost predicate Wellformed(s: State) {
    && Linked(s.sessions, s.heap)
    && (forall op :: op in s.ops && s.ops[op].AddingPage? ==> s.ops[op].ref in s.heap)
  }

  ghost predicate Linked(sessions: map<string, nat>, heap: map<nat, Session>) {
    forall id :: id in sessions ==> sessions[id] in heap
  }

  /** The open pages, each named by its session id and tab id. */
  ghost function OpenTabs(sessions: map<string, nat>, heap: map<nat, Session>): set<(string, TabId)>
    requires Linked(sessions, heap)
  {
    set id, tab | id in sessions && tab in heap[sessions[id]].tabs :: (id, tab)
  }

  ghost function OpenPages(s: State): nat
    requires Wellformed(s)
  {
    |OpenTabs(s.sessions, s.heap)|
  }

  function FreshRef(s: State): nat { |s.heap| }

  function NewSession(mode: Mode, page: int): Session {
    Session(map[Tab(1) := page], Tab(1), 1, mode, {Tab(1)})
  }

  function AddTab(x: Session, page: int): Session {
    var name := Tab(x.counter + 1);
    x.(tabs := x.tabs[name := page], active := name, counter := x.counter + 1, used := x.used + {name})
  }

  function Drop(s: State, id: string): State { s.(sessions := s.sessions - {id}) }

  function Await(s: State, op: nat, p: Pending): Next { Next(s.(ops := s.ops[op := p]), Suspended) }

  function Finish(s: State, op: nat): State { s.(ops := s.ops - {op}) }

  /** The tail of `launch` once no session is in the way. */
  function EnterLaunch(l: Limits, s: State, op: nat, id: string, mode: Mode, aborted: bool): Next {
    if |s.sessions| >= l.maxSessions then Next(Finish(s, op), TooManySessions)
    else if aborted then Next(Finish(s, op), Aborted)
    else Await(s, op, Starting(id, mode))
  }

  /** Host Chrome is reached only when asked for, with Playwright as the fallback; a blank page is
      adopted only from host Chrome. */
  predicate CanStartAs(requested: Mode, actual: Mode, blank: Option<int>) {
    && (actual == HostChromeVisible ==> requested == HostChromeVisible)
    && (blank.Some? ==> actual == HostChromeVisible)
  }

  ghost predicate SlotFree(l: Limits, s: State)
    requires Wellformed(s)
  {
    OpenPages(s) + s.reserved < l.maxTotalPages
  }

  function Reserve(s: State): State { s.(reserved := s.reserved + 1) }

  function Release(s: State): State { s.(reserved := s.reserved - 1) }

  function PutSession(s: State, id: string, x: Session): State {
    s.(sessions := s.sessions[id := FreshRef(s)], heap := s.heap[FreshRef(s) := x])
  }

  function SetTabs(s: State, ref: nat, tabs: map<TabId, int>): State
    requires ref in s.heap
  {
    s.(heap := s.heap[ref := s.heap[ref].(tabs := tabs)])
  }

  ghost function ApplyLaunch(l: Limits, s: State, t: Step): Next
    requires t.Launch? && Wellformed(s)
  {
    if t.id !in s.sessions then EnterLaunch(l, s, t.op, t.id, t.mode, t.aborted)
    else
      var ref := s.sessions[t.id];
      var x := s.heap[ref];
      if !t.connected then Await(Drop(s, t.id), t.op, LaunchEvicting(t.id, t.mode, false))
      else if x.mode != t.mode then Await(Drop(s, t.id), t.op, LaunchEvicting(t.id, t.mode, true))
      else if x.active in x.tabs && !t.activeClosed then Next(s, Launched(x.active, true))
      else ReplaceActive(l, s, t.op, ref)
  }

  /** Launch on a session whose active tab is dead: no look at the tab limit. */
  ghost function ReplaceActive(l: Limits, s: State, op: nat, ref: nat): Next
    requires Wellformed(s) && ref in s.heap
  {
    var cleaned := SetTabs(s, ref, s.heap[ref].tabs - {s.heap[ref].active});
    if !SlotFree(l, cleaned) then Next(cleaned, TooManyPages)
    else Await(Reserve(cleaned), op, AddingPage(ref, true))
  }

  ghost function ApplyGetPage(l: Limits, s: State, t: Step): Next
    requires t.GetPage? && Wellformed(s)
  {
    if t.id !in s.sessions then Next(s, SessionNotFound)
    else if !t.connected then Await(Drop(s, t.id), t.op, GetPageEvicting)
    else
      var ref := s.sessions[t.id];
      var x := s.heap[ref];
      var target := if t.tabId.Some? then t.tabId.value else x.active;
      if target in x.tabs && !t.pageClosed then Next(s, PageFound(target))
      else CreateTab(l, s, t.op, ref, target, t.create, t.aborted)
  }

  /** What getPage does when the tab it looks for is missing or dead. */
  ghost function CreateTab(l: Limits, s: State, op: nat, ref: nat, target: TabId, create: bool, aborted: bool): Next
    requires Wellformed(s) && ref in s.heap
  {
    var cleaned := SetTabs(s, ref, s.heap[ref].tabs - {target});
    if !create then Next(cleaned, TabNotFound)
    else if |s.heap[ref].tabs - {target}| >= l.maxTabsPerSession then Next(cleaned, TooManyTabs)
    else if !SlotFree(l, cleaned) then Next(cleaned, TooManyPages)
    else if aborted then Next(cleaned, Aborted)
    else Await(Reserve(cleaned), op, AddingPage(ref, false))
  }

  /** Launch after an eviction: once more when the mode was wrong, and then on to a new browser. */
  function AfterEviction(l: Limits, s: State, op: nat, aborted: bool): Next {
    if op !in s.ops || !s.ops[op].LaunchEvicting? then Next(s, NotEnabled)
    else
      var p := s.ops[op];
      if p.again then Await(Drop(s, p.id), op, LaunchEvicting(p.id, p.mode, false))
      else EnterLaunch(l, s, op, p.id, p.mode, aborted)
  }

  ghost function AfterStart(l: Limits, s: State, op: nat, started: bool, actual: Mode, blank: Option<int>): Next
    requires Wellformed(s)
  {
    if op !in s.ops || !s.ops[op].Starting? || !CanStartAs(s.ops[op].mode, actual, blank) then Next(s, NotEnabled)
    else
      var id := s.ops[op].id;
      if !started then Next(Finish(s, op), LibraryFailed)
      else if !SlotFree(l, s) then Next(Finish(s, op), TooManyPages)
      else if blank.Some?
      then Next(PutSession(Finish(s, op), id, NewSession(actual, blank.value)), Launched(Tab(1), false))
      else Await(Reserve(s), op, NewSessionPage(id, actual))
  }

  function AfterSessionPage(s: State, op: nat, page: Option<int>): Next {
    if op !in s.ops || !s.ops[op].NewSessionPage? then Next(s, NotEnabled)
    else
      var p := s.ops[op];
      var done := Release(Finish(s, op));
      if page.None? then Next(done, LibraryFailed)
      else Next(PutSession(done, p.id, NewSession(p.actual, page.value)), Launched(Tab(1), false))
  }

  ghost function AfterPage(s: State, op: nat, page: Option<int>): Next
    requires Wellformed(s)
  {
    if op !in s.ops || !s.ops[op].AddingPage? then Next(s, NotEnabled)
    else
      var p := s.ops[op];
      var done := Release(Finish(s, op));
      if page.None? then Next(done, LibraryFailed)
      else
        var x := AddTab(s.heap[p.ref], page.value);
        Next(done.(heap := s.heap[p.ref := x]), if p.forLaunch then Launched(x.active, true) else PageFound(x.active))
  }

  function StartClose(s: State, op: nat, only: Option<string>): Next {
    if op in s.ops then Next(s, NotEnabled)
    else if only.None? then Await(s, op, ClosingAll)
    else if only.value in s.sessions then Await(s, op, ClosingOne(only.value))
    else Next(s, Closed)
  }

  function AfterClose(s: State, op: nat): Next {
    if op !in s.ops then Next(s, NotEnabled)
    else if s.ops[op].ClosingOne? then Next(Finish(Drop(s, s.ops[op].id), op), Closed)
    else if s.ops[op].ClosingAll? then Next(Finish(s.(sessions := map[]), op), Closed)
    else Next(s, NotEnabled)
  }

  function AfterGetPageEviction(s: State, op: nat): Next {
    if op !in s.ops || !s.ops[op].GetPageEvicting? then Next(s, NotEnabled)
    else Next(Finish(s, op), BrowserDisconnected)
  }

  /** One step; a step that is not enabled leaves the state alone. */
  ghost function Apply(l: Limits, s: State, t: Step): Next
    requires Wellformed(s)
  {
    match t
    case Launch(op, _, _, _, _, _) => if op in s.ops then Next(s, NotEnabled) else ApplyLaunch(l, s, t)
    case LaunchEvicted(op, aborted) => AfterEviction(l, s, op, aborted)
    case BrowserStarted(op, started, actual, blank) => AfterStart(l, s, op, started, actual, blank)
    case SessionPageOpened(op, page) => AfterSessionPage(s, op, page)
    case GetPage(op, _, _, _, _, _, _) => if op in s.ops then Next(s, NotEnabled) else ApplyGetPage(l, s, t)
    case PageOpened(op, page) => AfterPage(s, op, page)
    case GetPageEvicted(op) => AfterGetPageEviction(s, op)
    case Close(op, only) => StartClose(s, op, only)
    case CloseFinished(op) => AfterClose(s, op)
  }
}
