/**
 The manager object itself. Every method is one stretch of code between two awaits and does
 what the corresponding step of the model says; between them the object is within its bounds.
 */
module BrowserManager {
  import opened Common
  import opened Browser
  import opened BrowserProofs

  class Manager {
    const limits: Limits
    var sessions: map<string, nat>
    var heap: map<nat, Session>
    var reservedPageSlots: int
    var ops: map<nat, Pending>

    ghost function Current(): State
      reads this
    {
      State(sessions, heap, reservedPageSlots, ops)
    }

    /** Open pages and held slots stay within the limit, the counter is the number of calls holding a
        slot, and tab ids are fresh. */
    ghost predicate Valid()
      reads this
    {
      Inv(limits, Current())
    }

    constructor (limits: Limits)
      ensures this.limits == limits && Current() == State(map[], map[], 0, map[]) && Valid()
    {
      this.limits := limits;
      sessions, heap, reservedPageSlots, ops := map[], map[], 0, map[];
      InitialInv(limits);
    }

    /**
     One stretch of code between two awaits, for every call and everything the browser library may
     answer.  The object does what the model's step says and stays within its bounds.
     */
    method Advance(t: Step) returns (outcome: Outcome)
      requires Valid()
      modifies this
      ensures Next(Current(), outcome) == Apply(limits, old(Current()), t)
      ensures Valid()
    {
      StepKeepsInv(limits, Current(), t);
      outcome := Dispatch(t);
    }

    method Dispatch(t: Step) returns (outcome: Outcome)
      requires Wellformed(Current())
      modifies this
      ensures Next(Current(), outcome) == Apply(limits, old(Current()), t)
    {
      outcome := NotEnabled;
      match t
      case Launch(op, id, mode, connected, activeClosed, aborted) =>
        if op !in ops { outcome := BeginLaunch(op, id, mode, connected, activeClosed, aborted); }
      case LaunchEvicted(op, aborted) =>
        if op in ops && ops[op].LaunchEvicting? { outcome := ResumeEviction(op, aborted); }
      case BrowserStarted(op, started, actual, blank) =>
        if op in ops && ops[op].Starting? && CanStartAs(ops[op].mode, actual, blank) {
          outcome := ResumeStart(op, started, actual, blank);
        }
      case SessionPageOpened(op, page) =>
        if op in ops && ops[op].NewSessionPage? { outcome := ResumeSessionPage(op, page); }
      case GetPage(op, id, tabId, create, connected, pageClosed, aborted) =>
        if op !in ops { outcome := BeginGetPage(op, id, tabId, create, connected, pageClosed, aborted); }
      case PageOpened(op, page) =>
        if op in ops && ops[op].AddingPage? { outcome := ResumePage(op, page); }
      case GetPageEvicted(op) =>
        if op in ops && ops[op].GetPageEvicting? {
          ops := ops - {op};
          outcome := BrowserDisconnected;
        }
      case Close(op, only) =>
        if op !in ops { outcome := BeginClose(op, only); }
      case CloseFinished(op) =>
        if op in ops && (ops[op].ClosingOne? || ops[op].ClosingAll?) { outcome := ResumeClose(op); }
    }

    /** Adds up the tabs of all sessions. */
    method TotalOpenPages() returns (total: nat)
      requires Wellformed(Current())
      ensures total == OpenPages(Current())
    {
      total := 0;
      var rest := sessions.Keys;
      ghost var counted: set<(string, TabId)> := {};
      while rest != {}
        invariant rest <= sessions.Keys
        invariant counted == set id, tab | id in sessions.Keys - rest && tab in heap[sessions[id]].tabs :: (id, tab)
        invariant total == |counted|
        decreases rest
      {
        var id :| id in rest;
        ghost var own := set tab | tab in heap[sessions[id]].tabs :: (id, tab);
        OwnTabs(id, heap[sessions[id]].tabs);
        assert counted !! own;
        counted := counted + own;
        total := total + |heap[sessions[id]].tabs|;
        rest := rest - {id};
      }
      assert counted == OpenTabs(sessions, heap);
    }

    method ReservePageSlot() returns (reserved: bool)
      requires Wellformed(Current())
      modifies this`reservedPageSlots
      ensures reserved <==> SlotFree(limits, old(Current()))
      ensures reservedPageSlots == old(reservedPageSlots) + (if reserved then 1 else 0)
    {
      var open := TotalOpenPages();
      reserved := open + reservedPageSlots < limits.maxTotalPages;
      if reserved {
        reservedPageSlots := reservedPageSlots + 1;
      }
    }

    method BeginLaunch(op: nat, id: string, mode: Mode, connected: bool, activeClosed: bool, aborted: bool)
      returns (outcome: Outcome)
      requires Wellformed(Current()) && op !in ops
      modifies this
      ensures Next(Current(), outcome)
              == Apply(limits, old(Current()), Launch(op, id, mode, connected, activeClosed, aborted))
    {
      if id !in sessions {
        outcome := EnterLaunchPath(op, id, mode, aborted);
        return;
      }
      var ref := sessions[id];
      var existing := heap[ref];
      if !connected {
        sessions := sessions - {id};
        ops := ops[op := LaunchEvicting(id, mode, false)];
        return Suspended;
      }
      if existing.mode != mode {
        sessions := sessions - {id};
        ops := ops[op := LaunchEvicting(id, mode, true)];
        return Suspended;
      }
      if existing.active in existing.tabs && !activeClosed {
        return Launched(existing.active, true);
      }
      outcome := ReplaceActiveTab(op, ref);
    }

    /** The active tab is dead: it is cleaned up and a slot reserved for a fresh one. */
    method ReplaceActiveTab(op: nat, ref: nat) returns (outcome: Outcome)
      requires Wellformed(Current()) && ref in heap
      modifies this
      ensures Next(Current(), outcome) == ReplaceActive(limits, old(Current()), op, ref)
    {
      var existing := heap[ref];
      heap := heap[ref := existing.(tabs := existing.tabs - {existing.active})];
      var reserved := ReservePageSlot();
      if !reserved {
        return TooManyPages;
      }
      ops := ops[op := AddingPage(ref, true)];
      return Suspended;
    }

    method EnterLaunchPath(op: nat, id: string, mode: Mode, aborted: bool) returns (outcome: Outcome)
      modifies this`ops
      ensures Next(Current(), outcome) == EnterLaunch(limits, old(Current()), op, id, mode, aborted)
    {
      if |sessions| >= limits.maxSessions {
        ops := ops - {op};
        return TooManySessions;
      }
      if aborted {
        ops := ops - {op};
        return Aborted;
      }
      ops := ops[op := Starting(id, mode)];
      return Suspended;
    }

    method ResumeEviction(op: nat, aborted: bool) returns (outcome: Outcome)
      requires Wellformed(Current()) && op in ops && ops[op].LaunchEvicting?
      modifies this
      ensures Next(Current(), outcome) == Apply(limits, old(Current()), LaunchEvicted(op, aborted))
    {
      var p := ops[op];
      if p.again {
        sessions := sessions - {p.id};
        ops := ops[op := LaunchEvicting(p.id, p.mode, false)];
        return Suspended;
      }
      outcome := EnterLaunchPath(op, p.id, p.mode, aborted);
    }

    method AddSession(id: string, session: Session)
      modifies this`sessions, this`heap
      ensures Current() == PutSession(old(Current()), id, session)
    {
      var ref := |heap|;
      sessions := sessions[id := ref];
      heap := heap[ref := session];
    }

    method ResumeStart(op: nat, started: bool, actual: Mode, blank: Option<int>) returns (outcome: Outcome)
      requires Wellformed(Current()) && op in ops && ops[op].Starting? && CanStartAs(ops[op].mode, actual, blank)
      modifies this
      ensures Next(Current(), outcome) == Apply(limits, old(Current()), BrowserStarted(op, started, actual, blank))
    {
      var id := ops[op].id;
      if !started {
        ops := ops - {op};
        return LibraryFailed;
      }
      var reserved := ReservePageSlot();
      if !reserved {
        ops := ops - {op};
        return TooManyPages;
      }
      if blank.None? {
        ops := ops[op := NewSessionPage(id, actual)];
        return Suspended;
      }
      AddSession(id, NewSession(actual, blank.value));
      reservedPageSlots := reservedPageSlots - 1;
      ops := ops - {op};
      return Launched(Tab(1), false);
    }

    method ResumeSessionPage(op: nat, page: Option<int>) returns (outcome: Outcome)
      requires Wellformed(Current()) && op in ops && ops[op].NewSessionPage?
      modifies this
      ensures Next(Current(), outcome) == Apply(limits, old(Current()), SessionPageOpened(op, page))
    {
      var p := ops[op];
      ops := ops - {op};
      if page.None? {
        reservedPageSlots := reservedPageSlots - 1;
        return LibraryFailed;
      }
      AddSession(p.id, NewSession(p.actual, page.value));
      reservedPageSlots := reservedPageSlots - 1;
      return Launched(Tab(1), false);
    }

    method BeginGetPage(
      op: nat, id: string, tabId: Option<TabId>, create: bool, connected: bool, pageClosed: bool, aborted: bool)
      returns (outcome: Outcome)
      requires Wellformed(Current()) && op !in ops
      modifies this
      ensures Next(Current(), outcome)
              == Apply(limits, old(Current()), GetPage(op, id, tabId, create, connected, pageClosed, aborted))
    {
      if id !in sessions {
        return SessionNotFound;
      }
      if !connected {
        sessions := sessions - {id};
        ops := ops[op := GetPageEvicting];
        return Suspended;
      }
      var ref := sessions[id];
      var session := heap[ref];
      var target := if tabId.Some? then tabId.value else session.active;
      if target in session.tabs && !pageClosed {
        return PageFound(target);
      }
      outcome := CreateMissingTab(op, ref, target, create, aborted);
    }

    /** The tab is missing or dead: it is cleaned up and, if allowed, a slot reserved for a fresh one. */
    method CreateMissingTab(op: nat, ref: nat, target: TabId, create: bool, aborted: bool) returns (outcome: Outcome)
      requires Wellformed(Current()) && ref in heap
      modifies this
      ensures Next(Current(), outcome) == CreateTab(limits, old(Current()), op, ref, target, create, aborted)
    {
      var session := heap[ref];
      var tabs := session.tabs - {target};
      heap := heap[ref := session.(tabs := tabs)];
      if !create {
        return TabNotFound;
      }
      if |tabs| >= limits.maxTabsPerSession {
        return TooManyTabs;
      }
      var reserved := ReservePageSlot();
      if !reserved {
        return TooManyPages;
      }
      if aborted {
        reservedPageSlots := reservedPageSlots - 1;
        return Aborted;
      }
      ops := ops[op := AddingPage(ref, false)];
      return Suspended;
    }

    method ResumePage(op: nat, page: Option<int>) returns (outcome: Outcome)
      requires Wellformed(Current()) && op in ops && ops[op].AddingPage?
      modifies this
      ensures Next(Current(), outcome) == Apply(limits, old(Current()), PageOpened(op, page))
    {
      var p := ops[op];
      ops := ops - {op};
      reservedPageSlots := reservedPageSlots - 1;
      if page.None? {
        return LibraryFailed;
      }
      var session := heap[p.ref];
      var tabId := Tab(session.counter + 1);
      heap := heap[p.ref := session.(counter := session.counter + 1, tabs := session.tabs[tabId := page.value],
                                     active := tabId, used := session.used + {tabId})];
      return if p.forLaunch then Launched(tabId, true) else PageFound(tabId);
    }

    method BeginClose(op: nat, only: Option<string>) returns (outcome: Outcome)
      requires Wellformed(Current()) && op !in ops
      modifies this`ops
      ensures Next(Current(), outcome) == Apply(limits, old(Current()), Close(op, only))
    {
      if only.None? {
        ops := ops[op := ClosingAll];
        return Suspended;
      }
      if only.value !in sessions {
        return Closed;
      }
      ops := ops[op := ClosingOne(only.value)];
      return Suspended;
    }

    method ResumeClose(op: nat) returns (outcome: Outcome)
      requires Wellformed(Current()) && op in ops && (ops[op].ClosingOne? || ops[op].ClosingAll?)
      modifies this
      ensures Next(Current(), outcome) == Apply(limits, old(Current()), CloseFinished(op))
    {
      if ops[op].ClosingOne? {
        sessions := sessions - {ops[op].id};
      } else {
        sessions := map[];
      }
      ops := ops - {op};
      return Closed;
    }
  }

  lemma {:induction false} OwnTabs(id: string, tabs: map<TabId, int>)
    ensures |set tab | tab in tabs :: (id, tab)| == |tabs|
    decreases |tabs|
  {
    var own := set tab | tab in tabs :: (id, tab);
    if tabs == map[] {
      assert own == {};
    } else {
      var t :| t in tabs;
      var fewer := tabs - {t};
      OwnTabs(id, fewer);
      assert tabs.Keys == fewer.Keys + {t};
      assert own == (set tab | tab in fewer :: (id, tab)) + {(id, t)};
    }
  }
}
