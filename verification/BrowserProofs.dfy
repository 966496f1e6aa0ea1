/**
 Bounds that hold in every interleaving of the manager's calls, and the tighter ones that
 hold when calls do not overlap.
 */
module BrowserProofs {
  import opened Common
  import opened Browser

  // ---------- invariant of every interleaving ----------

  predicate Holds(p: Pending) { p.NewSessionPage? || p.AddingPage? }

  /** The calls that hold an unreleased page slot. */
  ghost function Holders(ops: map<nat, Pending>): set<nat> { set op | op in ops && Holds(ops[op]) }

  function Cap(l: Limits): nat { if l.maxTotalPages < 0 then 0 else l.maxTotalPages }

  /** The tab ids handed out are `tab-1` to `tab-counter`, and open tabs are among them. */
  ghost predicate TabsInv(x: Session) {
    && x.counter >= 1 && (forall t :: t in x.used <==> t.Tab? && 1 <= t.number <= x.counter)
    && x.tabs.Keys <= x.used && x.active in x.used
  }

  /** References lead to session objects, no object has two ids, and fresh references are unused. */
  ghost predicate Structure(sessions: map<string, nat>, heap: map<nat, Session>) {
    Linked(sessions, heap) && OwnObjects(sessions) && Dense(heap) && AllTabsInv(heap)
  }

  ghost predicate OwnObjects(sessions: map<string, nat>) {
    forall i, j :: i in sessions && j in sessions && i != j ==> sessions[i] != sessions[j]
  }

  ghost predicate Dense(heap: map<nat, Session>) { forall r :: r in heap ==> r < |heap| }

  ghost predicate AllTabsInv(heap: map<nat, Session>) { forall r :: r in heap ==> TabsInv(heap[r]) }

  ghost predicate Inv(l: Limits, s: State) {
    && Structure(s.sessions, s.heap)
    && Wellformed(s)
    && s.reserved == |Holders(s.ops)|
    && OpenPages(s) + s.reserved <= Cap(l)
    && (s.heap != map[] ==> Cap(l) > 0)
  }

  // What each kind of update does to the slot holders, to the structure and to the open tabs.

  lemma HoldersPut(ops: map<nat, Pending>, op: nat, p: Pending)
    requires op in ops ==> !Holds(ops[op])
    ensures |Holders(ops[op := p])| == |Holders(ops)| + (if Holds(p) then 1 else 0)
  {
    if Holds(p) {
      assert Holders(ops[op := p]) == Holders(ops) + {op};
    } else {
      assert Holders(ops[op := p]) == Holders(ops);
    }
  }

  lemma HoldersRemove(ops: map<nat, Pending>, op: nat)
    ensures |Holders(ops - {op})| == |Holders(ops)| - (if op in ops && Holds(ops[op]) then 1 else 0)
  {
    if op in ops && Holds(ops[op]) {
      assert Holders(ops) == Holders(ops - {op}) + {op};
    } else {
      assert Holders(ops - {op}) == Holders(ops);
    }
  }

  lemma FewerTabs(
    sessions: map<string, nat>, heap: map<nat, Session>, sessions': map<string, nat>, heap': map<nat, Session>)
    requires Linked(sessions, heap) && Linked(sessions', heap') && sessions'.Keys <= sessions.Keys
    requires forall id :: id in sessions' ==> heap'[sessions'[id]].tabs.Keys <= heap[sessions[id]].tabs.Keys
    ensures |OpenTabs(sessions', heap')| <= |OpenTabs(sessions, heap)|
  {
    SubsetSize(OpenTabs(sessions', heap'), OpenTabs(sessions, heap));
  }

  lemma PutStructure(sessions: map<string, nat>, heap: map<nat, Session>, id: string, x: Session)
    requires Structure(sessions, heap) && TabsInv(x)
    ensures |heap| !in heap && Structure(sessions[id := |heap|], heap[|heap| := x])
  {
    PutDense(heap, x);
    PutOwnObjects(sessions, heap, id);
    PutTabsInv(heap, |heap|, x);
  }

  lemma PutDense(heap: map<nat, Session>, x: Session)
    requires Dense(heap)
    ensures |heap| !in heap && Dense(heap[|heap| := x])
  {
    assert heap[|heap| := x].Keys == heap.Keys + {|heap|};
  }

  lemma PutOwnObjects(sessions: map<string, nat>, heap: map<nat, Session>, id: string)
    requires Linked(sessions, heap) && OwnObjects(sessions) && |heap| !in heap
    ensures OwnObjects(sessions[id := |heap|])
  {}

  lemma PutTabsInv(heap: map<nat, Session>, ref: nat, x: Session)
    requires AllTabsInv(heap) && TabsInv(x)
    ensures AllTabsInv(heap[ref := x])
  {}

  lemma PutTabs(sessions: map<string, nat>, heap: map<nat, Session>, id: string, x: Session)
    requires Structure(sessions, heap) && x.tabs.Keys == {Tab(1)}
    requires |heap| !in heap && Linked(sessions[id := |heap|], heap[|heap| := x])
    ensures |OpenTabs(sessions[id := |heap|], heap[|heap| := x])| <= |OpenTabs(sessions, heap)| + 1
  {
    SubsetSize(OpenTabs(sessions[id := |heap|], heap[|heap| := x]), OpenTabs(sessions, heap) + {(id, Tab(1))});
  }

  lemma ReplaceStructure(sessions: map<string, nat>, heap: map<nat, Session>, ref: nat, x: Session)
    requires Structure(sessions, heap) && ref in heap && TabsInv(x)
    ensures Structure(sessions, heap[ref := x])
  {
    assert heap[ref := x].Keys == heap.Keys;
    PutTabsInv(heap, ref, x);
  }

  lemma OpenTabsAfterAdd(sessions: map<string, nat>, heap: map<nat, Session>, ref: nat, x: Session)
    requires Structure(sessions, heap) && ref in heap
    requires x.tabs.Keys == heap[ref].tabs.Keys + {x.active}
    ensures Linked(sessions, heap[ref := x])
    ensures |OpenTabs(sessions, heap[ref := x])| <= |OpenTabs(sessions, heap)| + 1
  {
    var before, after := OpenTabs(sessions, heap), OpenTabs(sessions, heap[ref := x]);
    if ref in sessions.Values {
      var id :| id in sessions && sessions[id] == ref;
      SubsetSize(after, before + {(id, x.active)});
    } else {
      assert forall id :: id in sessions ==> sessions[id] != ref;
      SubsetSize(after, before);
    }
  }

  lemma DropInv(l: Limits, s: State, id: string)
    requires Inv(l, s)
    ensures Inv(l, Drop(s, id))
  {
    FewerTabs(s.sessions, s.heap, s.sessions - {id}, s.heap);
  }

  lemma FinishInv(l: Limits, s: State, op: nat)
    requires Inv(l, s) && (op in s.ops ==> !Holds(s.ops[op]))
    ensures Inv(l, Finish(s, op)) && OpenPages(Finish(s, op)) == OpenPages(s)
  {
    HoldersRemove(s.ops, op);
  }

  lemma AwaitInv(l: Limits, s: State, op: nat, p: Pending)
    requires Inv(l, s) && (op in s.ops ==> !Holds(s.ops[op])) && !Holds(p)
    ensures Inv(l, Await(s, op, p).state)
  {
    HoldersPut(s.ops, op, p);
  }

  lemma ReserveInv(l: Limits, s: State, op: nat, p: Pending)
    requires Inv(l, s) && SlotFree(l, s) && (op in s.ops ==> !Holds(s.ops[op]))
    requires Holds(p) && (p.AddingPage? ==> p.ref in s.heap)
    ensures Inv(l, Await(Reserve(s), op, p).state)
  {
    HoldersPut(s.ops, op, p);
  }

  lemma ReleaseInv(l: Limits, s: State, op: nat)
    requires Inv(l, s) && op in s.ops && Holds(s.ops[op])
    ensures var d := Release(Finish(s, op));
            Inv(l, d) && OpenPages(d) + d.reserved < Cap(l)
  {
    HoldersRemove(s.ops, op);
  }

  lemma SetTabsInv(l: Limits, s: State, ref: nat, tab: TabId)
    requires Inv(l, s) && ref in s.heap
    ensures Inv(l, SetTabs(s, ref, s.heap[ref].tabs - {tab}))
  {
    var x := s.heap[ref].(tabs := s.heap[ref].tabs - {tab});
    ReplaceStructure(s.sessions, s.heap, ref, x);
    FewerTabs(s.sessions, s.heap, s.sessions, s.heap[ref := x]);
  }

  /** A new tab id was never used before in its session. */
  lemma NewTabIsFresh(x: Session, page: int)
    requires TabsInv(x)
    ensures AddTab(x, page).active !in x.used
    ensures TabsInv(AddTab(x, page)) && x.used <= AddTab(x, page).used
    ensures |AddTab(x, page).tabs| == |x.tabs| + 1
    ensures AddTab(x, page).tabs.Keys == x.tabs.Keys + {AddTab(x, page).active}
  {
    var y := AddTab(x, page);
    assert y.tabs.Keys == x.tabs.Keys + {y.active};
  }

  lemma NewSessionInv(mode: Mode, page: int)
    ensures TabsInv(NewSession(mode, page)) && NewSession(mode, page).tabs.Keys == {Tab(1)}
  {}

  lemma PutSessionInv(l: Limits, s: State, id: string, x: Session)
    requires Inv(l, s) && OpenPages(s) + s.reserved < Cap(l) && TabsInv(x) && x.tabs.Keys == {Tab(1)}
    ensures Inv(l, PutSession(s, id, x))
  {
    PutStructure(s.sessions, s.heap, id, x);
    PutTabs(s.sessions, s.heap, id, x);
  }

  lemma AddTabInv(l: Limits, s: State, ref: nat, page: int)
    requires Inv(l, s) && OpenPages(s) + s.reserved < Cap(l) && ref in s.heap
    ensures Inv(l, s.(heap := s.heap[ref := AddTab(s.heap[ref], page)]))
  {
    var x := AddTab(s.heap[ref], page);
    NewTabIsFresh(s.heap[ref], page);
    ReplaceStructure(s.sessions, s.heap, ref, x);
    OpenTabsAfterAdd(s.sessions, s.heap, ref, x);
  }

  lemma EnterLaunchInv(l: Limits, s: State, op: nat, id: string, mode: Mode, aborted: bool)
    requires Inv(l, s) && (op in s.ops ==> !Holds(s.ops[op]))
    ensures Inv(l, EnterLaunch(l, s, op, id, mode, aborted).state)
  {
    FinishInv(l, s, op);
    AwaitInv(l, s, op, Starting(id, mode));
  }

  lemma LaunchInv(l: Limits, s: State, t: Step)
    requires Inv(l, s) && t.Launch? && t.op !in s.ops
    ensures Inv(l, ApplyLaunch(l, s, t).state)
  {
    if t.id !in s.sessions {
      EnterLaunchInv(l, s, t.op, t.id, t.mode, t.aborted);
    } else {
      var ref := s.sessions[t.id];
      var x := s.heap[ref];
      if !t.connected || x.mode != t.mode {
        DropInv(l, s, t.id);
        AwaitInv(l, Drop(s, t.id), t.op, LaunchEvicting(t.id, t.mode, t.connected));
      } else {
        ReplaceActiveInv(l, s, t.op, ref);
      }
    }
  }

  lemma ReplaceActiveInv(l: Limits, s: State, op: nat, ref: nat)
    requires Inv(l, s) && op !in s.ops && ref in s.heap
    ensures Inv(l, ReplaceActive(l, s, op, ref).state)
  {
    CleanAndReserveInv(l, s, op, ref, s.heap[ref].active, true);
  }

  lemma CleanAndReserveInv(l: Limits, s: State, op: nat, ref: nat, tab: TabId, forLaunch: bool)
    requires Inv(l, s) && op !in s.ops && ref in s.heap
    ensures var cleaned := SetTabs(s, ref, s.heap[ref].tabs - {tab});
            && Inv(l, cleaned)
            && (SlotFree(l, cleaned) ==> Inv(l, Await(Reserve(cleaned), op, AddingPage(ref, forLaunch)).state))
  {
    SetTabsInv(l, s, ref, tab);
    var cleaned := SetTabs(s, ref, s.heap[ref].tabs - {tab});
    if SlotFree(l, cleaned) {
      ReserveInv(l, cleaned, op, AddingPage(ref, forLaunch));
    }
  }

  lemma CreateTabInv(l: Limits, s: State, op: nat, ref: nat, target: TabId, create: bool, aborted: bool)
    requires Inv(l, s) && op !in s.ops && ref in s.heap
    ensures Inv(l, CreateTab(l, s, op, ref, target, create, aborted).state)
  {
    CleanAndReserveInv(l, s, op, ref, target, false);
  }

  lemma GetPageInv(l: Limits, s: State, t: Step)
    requires Inv(l, s) && t.GetPage? && t.op !in s.ops
    ensures Inv(l, ApplyGetPage(l, s, t).state)
  {
    if t.id in s.sessions {
      var ref := s.sessions[t.id];
      if t.connected {
        var target := if t.tabId.Some? then t.tabId.value else s.heap[ref].active;
        CreateTabInv(l, s, t.op, ref, target, t.create, t.aborted);
      } else {
        DropInv(l, s, t.id);
        AwaitInv(l, Drop(s, t.id), t.op, GetPageEvicting);
      }
    }
  }

  lemma EvictionInv(l: Limits, s: State, op: nat, aborted: bool)
    requires Inv(l, s)
    ensures Inv(l, AfterEviction(l, s, op, aborted).state)
  {
    if op in s.ops && s.ops[op].LaunchEvicting? {
      var p := s.ops[op];
      if p.again {
        DropInv(l, s, p.id);
        AwaitInv(l, Drop(s, p.id), op, LaunchEvicting(p.id, p.mode, false));
      } else {
        EnterLaunchInv(l, s, op, p.id, p.mode, aborted);
      }
    }
  }

  lemma StartInv(l: Limits, s: State, op: nat, started: bool, actual: Mode, blank: Option<int>)
    requires Inv(l, s)
    ensures Inv(l, AfterStart(l, s, op, started, actual, blank).state)
  {
    if op in s.ops && s.ops[op].Starting? {
      var id := s.ops[op].id;
      FinishInv(l, s, op);
      if SlotFree(l, s) {
        if blank.Some? {
          NewSessionInv(actual, blank.value);
          PutSessionInv(l, Finish(s, op), id, NewSession(actual, blank.value));
        } else {
          ReserveInv(l, s, op, NewSessionPage(id, actual));
        }
      }
    }
  }

  lemma SessionPageInv(l: Limits, s: State, op: nat, page: Option<int>)
    requires Inv(l, s)
    ensures Inv(l, AfterSessionPage(s, op, page).state)
  {
    if op in s.ops && s.ops[op].NewSessionPage? {
      var p := s.ops[op];
      ReleaseInv(l, s, op);
      if page.Some? {
        NewSessionInv(p.actual, page.value);
        PutSessionInv(l, Release(Finish(s, op)), p.id, NewSession(p.actual, page.value));
      }
    }
  }

  lemma PageInv(l: Limits, s: State, op: nat, page: Option<int>)
    requires Inv(l, s)
    ensures Inv(l, AfterPage(s, op, page).state)
  {
    if op in s.ops && s.ops[op].AddingPage? {
      ReleaseInv(l, s, op);
      if page.Some? {
        AddTabInv(l, Release(Finish(s, op)), s.ops[op].ref, page.value);
      }
    }
  }

  lemma ClearInv(l: Limits, s: State)
    requires Inv(l, s)
    ensures Inv(l, s.(sessions := map[]))
  {
    var d := s.(sessions := map[]);
    assert OpenTabs(d.sessions, d.heap) == {};
  }

  lemma CloseInv(l: Limits, s: State, op: nat)
    requires Inv(l, s)
    ensures Inv(l, AfterClose(s, op).state)
  {
    if op in s.ops {
      if s.ops[op].ClosingOne? {
        DropInv(l, s, s.ops[op].id);
        FinishInv(l, Drop(s, s.ops[op].id), op);
      } else if s.ops[op].ClosingAll? {
        ClearInv(l, s);
        FinishInv(l, s.(sessions := map[]), op);
      }
    }
  }

  lemma StartCloseInv(l: Limits, s: State, op: nat, only: Option<string>)
    requires Inv(l, s)
    ensures Inv(l, StartClose(s, op, only).state)
  {
    if op !in s.ops {
      AwaitInv(l, s, op, if only.None? then ClosingAll else ClosingOne(only.value));
    }
  }

  /** Every step of every call keeps the invariant. */
  lemma StepKeepsInv(l: Limits, s: State, t: Step)
    requires Inv(l, s)
    ensures Inv(l, Apply(l, s, t).state)
  {
    match t
    case Launch(op, _, _, _, _, _) => if op !in s.ops { LaunchInv(l, s, t); }
    case LaunchEvicted(op, aborted) => EvictionInv(l, s, op, aborted);
    case BrowserStarted(op, started, actual, blank) => StartInv(l, s, op, started, actual, blank);
    case SessionPageOpened(op, page) => SessionPageInv(l, s, op, page);
    case GetPage(op, _, _, _, _, _, _) => if op !in s.ops { GetPageInv(l, s, t); }
    case PageOpened(op, page) => PageInv(l, s, op, page);
    case GetPageEvicted(op) => if op in s.ops && s.ops[op].GetPageEvicting? { FinishInv(l, s, op); }
    case Close(op, only) => StartCloseInv(l, s, op, only);
    case CloseFinished(op) => CloseInv(l, s, op);
  }

  lemma InitialInv(l: Limits)
    ensures Inv(l, INITIAL)
  {
    assert Holders(INITIAL.ops) == {};
    assert OpenTabs(INITIAL.sessions, INITIAL.heap) == {};
  }

  const INITIAL: State := State(map[], map[], 0, map[])

  /** `s` is the state after the steps `ts` from a fresh manager. */
  ghost predicate Reaches(l: Limits, ts: seq<Step>, s: State) {
    if ts == [] then s == INITIAL
    else exists r :: Reaches(l, ts[..|ts| - 1], r) && Wellformed(r) && s == Apply(l, r, ts[|ts| - 1]).state
  }

  lemma {:induction false} ReachableInv(l: Limits, ts: seq<Step>, s: State)
    requires Reaches(l, ts, s)
    ensures Inv(l, s)
  {
    if ts == [] {
      InitialInv(l);
    } else {
      var r :| Reaches(l, ts[..|ts| - 1], r) && Wellformed(r) && s == Apply(l, r, ts[|ts| - 1]).state;
      ReachableInv(l, ts[..|ts| - 1], r);
      StepKeepsInv(l, r, ts[|ts| - 1]);
    }
  }

  /** In every interleaving: open pages and reserved slots together stay within the limit, the counter
      is the number of calls holding a slot, and a tab id is never handed out twice by a session. */
  lemma PageBoundAlways(l: Limits, ts: seq<Step>, s: State, t: Step)
    requires Reaches(l, ts, s) && Wellformed(s)
    ensures OpenPages(s) + |Holders(s.ops)| <= Cap(l) && s.reserved == |Holders(s.ops)|
    ensures var n := Apply(l, s, t);
            t.PageOpened? && (n.outcome.Launched? || n.outcome.PageFound?) ==>
              var ref := s.ops[t.op].ref;
              && n.outcome.tabId !in s.heap[ref].used && n.outcome.tabId in n.state.heap[ref].tabs
              && n.state.heap[ref].used == s.heap[ref].used + {n.outcome.tabId}
  {
    ReachableInv(l, ts, s);
    if t.PageOpened? {
      OpenedTabIsFresh(s, t.op, t.page);
    }
  }

  lemma OpenedTabIsFresh(s: State, op: nat, page: Option<int>)
    requires Wellformed(s) && AllTabsInv(s.heap)
    ensures var n := AfterPage(s, op, page);
            n.outcome.Launched? || n.outcome.PageFound? ==>
              && op in s.ops && s.ops[op].AddingPage?
              && var ref := s.ops[op].ref;
                 && n.outcome.tabId !in s.heap[ref].used && n.outcome.tabId in n.state.heap[ref].tabs
                 && n.state.heap[ref].used == s.heap[ref].used + {n.outcome.tabId}
  {
    if op in s.ops && s.ops[op].AddingPage? && page.Some? {
      NewTabIsFresh(s.heap[s.ops[op].ref], page.value);
    }
  }

  // ---------- calls that do not overlap ----------

  predicate StartsCall(t: Step) { t.Launch? || t.GetPage? || t.Close? }

  function TabCap(l: Limits): nat { if l.maxTabsPerSession < 1 then 1 else l.maxTabsPerSession }

  /** A missing active tab leaves a free tab place. */
  ghost predicate TabPlaces(l: Limits, x: Session) {
    |x.tabs| <= TabCap(l) && (x.active !in x.tabs ==> |x.tabs| < TabCap(l))
  }

  ghost predicate AllTabPlaces(l: Limits, heap: map<nat, Session>) {
    forall r :: r in heap ==> TabPlaces(l, heap[r])
  }

  ghost predicate SessionPlaces(l: Limits, sessions: map<string, nat>) {
    sessions == map[] || |sessions| <= l.maxSessions
  }

  ghost predicate PendingPlaces(l: Limits, sessions: map<string, nat>, heap: map<nat, Session>, p: Pending) {
    match p
    case LaunchEvicting(id, _, _) => id !in sessions
    case Starting(id, _) => id !in sessions && |sessions| < l.maxSessions
    case NewSessionPage(id, _) => id !in sessions && |sessions| < l.maxSessions
    case AddingPage(ref, _) => ref in heap && |heap[ref].tabs| < TabCap(l)
    case _ => true
  }

  /** At most one call is pending, and the place it is about to fill is free. */
  ghost predicate OnePending(
    l: Limits, sessions: map<string, nat>, heap: map<nat, Session>, ops: map<nat, Pending>)
  {
    && (forall a, b :: a in ops && b in ops ==> a == b)
    && (forall op :: op in ops ==> PendingPlaces(l, sessions, heap, ops[op]))
  }

  ghost predicate Places(l: Limits, s: State) {
    SessionPlaces(l, s.sessions) && AllTabPlaces(l, s.heap) && OnePending(l, s.sessions, s.heap, s.ops)
  }

  ghost predicate SequentialInv(l: Limits, s: State) { Inv(l, s) && Places(l, s) }

  lemma FewerSessions(l: Limits, sessions: map<string, nat>, id: string)
    requires SessionPlaces(l, sessions)
    ensures SessionPlaces(l, sessions - {id}) && |sessions - {id}| <= |sessions|
  {
    SubsetSize((sessions - {id}).Keys, sessions.Keys);
  }

  lemma OneMoreSession(l: Limits, sessions: map<string, nat>, id: string, ref: nat)
    requires id !in sessions && |sessions| < l.maxSessions
    ensures SessionPlaces(l, sessions[id := ref])
  {
    assert sessions[id := ref].Keys == sessions.Keys + {id};
  }

  lemma WithoutTab(l: Limits, x: Session, tab: TabId)
    requires TabPlaces(l, x)
    ensures var y := x.(tabs := x.tabs - {tab});
            TabPlaces(l, y) && (tab == x.active ==> |y.tabs| < TabCap(l))
  {
    SubsetSize((x.tabs - {tab}).Keys, x.tabs.Keys);
    if tab in x.tabs {
      assert x.tabs.Keys == (x.tabs - {tab}).Keys + {tab};
    } else {
      assert x.tabs - {tab} == x.tabs;
    }
  }

  lemma ReplacePlaces(l: Limits, heap: map<nat, Session>, ref: nat, x: Session)
    requires AllTabPlaces(l, heap) && TabPlaces(l, x)
    ensures AllTabPlaces(l, heap[ref := x])
  {}

  lemma AwaitPlaces(l: Limits, s: State, op: nat, p: Pending)
    requires SessionPlaces(l, s.sessions) && AllTabPlaces(l, s.heap)
    requires s.ops.Keys <= {op} && PendingPlaces(l, s.sessions, s.heap, p)
    ensures Places(l, Await(s, op, p).state)
  {}

  lemma FinishPlaces(l: Limits, s: State, op: nat)
    requires SessionPlaces(l, s.sessions) && AllTabPlaces(l, s.heap) && s.ops.Keys <= {op}
    ensures Places(l, Finish(s, op))
  {}

  lemma EnterLaunchPlaces(l: Limits, s: State, op: nat, id: string, mode: Mode, aborted: bool)
    requires SessionPlaces(l, s.sessions) && AllTabPlaces(l, s.heap) && s.ops.Keys <= {op} && id !in s.sessions
    ensures Places(l, EnterLaunch(l, s, op, id, mode, aborted).state)
  {
    FinishPlaces(l, s, op);
    if |s.sessions| < l.maxSessions {
      AwaitPlaces(l, s, op, Starting(id, mode));
    }
  }

  /** Cleaning a dead tab and going on to open a new one. */
  lemma CleanPlaces(l: Limits, s: State, op: nat, ref: nat, tab: TabId, forLaunch: bool)
    requires Places(l, s) && s.ops == map[] && ref in s.heap
    ensures var cleaned := SetTabs(s, ref, s.heap[ref].tabs - {tab});
            && Places(l, cleaned)
            && (tab == s.heap[ref].active || |s.heap[ref].tabs - {tab}| < l.maxTabsPerSession ==>
                Places(l, Await(Reserve(cleaned), op, AddingPage(ref, forLaunch)).state))
  {
    var x := s.heap[ref].(tabs := s.heap[ref].tabs - {tab});
    WithoutTab(l, s.heap[ref], tab);
    ReplacePlaces(l, s.heap, ref, x);
    var cleaned := SetTabs(s, ref, s.heap[ref].tabs - {tab});
    if tab == s.heap[ref].active || |x.tabs| < l.maxTabsPerSession {
      AwaitPlaces(l, Reserve(cleaned), op, AddingPage(ref, forLaunch));
    }
  }

  lemma LaunchKeepsPlaces(l: Limits, s: State, t: Step)
    requires Wellformed(s) && Places(l, s) && t.Launch? && s.ops == map[]
    ensures Places(l, ApplyLaunch(l, s, t).state)
  {
    if t.id !in s.sessions {
      EnterLaunchPlaces(l, s, t.op, t.id, t.mode, t.aborted);
    } else {
      var ref := s.sessions[t.id];
      FewerSessions(l, s.sessions, t.id);
      AwaitPlaces(l, Drop(s, t.id), t.op, LaunchEvicting(t.id, t.mode, false));
      AwaitPlaces(l, Drop(s, t.id), t.op, LaunchEvicting(t.id, t.mode, true));
      CleanPlaces(l, s, t.op, ref, s.heap[ref].active, true);
    }
  }

  lemma CreateTabPlaces(l: Limits, s: State, op: nat, ref: nat, target: TabId, create: bool, aborted: bool)
    requires Wellformed(s) && Places(l, s) && s.ops == map[] && ref in s.heap
    ensures Places(l, CreateTab(l, s, op, ref, target, create, aborted).state)
  {
    CleanPlaces(l, s, op, ref, target, false);
  }

  lemma GetPageKeepsPlaces(l: Limits, s: State, t: Step)
    requires Wellformed(s) && Places(l, s) && t.GetPage? && s.ops == map[]
    ensures Places(l, ApplyGetPage(l, s, t).state)
  {
    if t.id in s.sessions {
      if t.connected {
        var ref := s.sessions[t.id];
        var target := if t.tabId.Some? then t.tabId.value else s.heap[ref].active;
        CreateTabPlaces(l, s, t.op, ref, target, t.create, t.aborted);
      } else {
        FewerSessions(l, s.sessions, t.id);
        AwaitPlaces(l, Drop(s, t.id), t.op, GetPageEvicting);
      }
    }
  }

  lemma StartClosePlaces(l: Limits, s: State, op: nat, only: Option<string>)
    requires Places(l, s) && s.ops == map[]
    ensures Places(l, StartClose(s, op, only).state)
  {
    AwaitPlaces(l, s, op, if only.None? then ClosingAll else ClosingOne(only.value));
  }

  lemma StartKeepsPlaces(l: Limits, s: State, t: Step)
    requires Wellformed(s) && Places(l, s) && StartsCall(t) && s.ops == map[]
    ensures Places(l, Apply(l, s, t).state)
  {
    match t
    case Launch(_, _, _, _, _, _) => LaunchKeepsPlaces(l, s, t);
    case GetPage(_, _, _, _, _, _, _) => GetPageKeepsPlaces(l, s, t);
    case Close(op, only) => StartClosePlaces(l, s, op, only);
  }

  lemma NewSessionPlaces(l: Limits, s: State, id: string, mode: Mode, page: int)
    requires Places(l, s) && s.ops == map[] && id !in s.sessions && |s.sessions| < l.maxSessions
    ensures Places(l, PutSession(s, id, NewSession(mode, page)))
  {
    OneMoreSession(l, s.sessions, id, FreshRef(s));
    ReplacePlaces(l, s.heap, FreshRef(s), NewSession(mode, page));
  }

  lemma AddTabPlaces(l: Limits, s: State, ref: nat, page: int)
    requires Places(l, s) && s.ops == map[] && ref in s.heap && TabsInv(s.heap[ref])
    requires |s.heap[ref].tabs| < TabCap(l)
    ensures Places(l, s.(heap := s.heap[ref := AddTab(s.heap[ref], page)]))
  {
    NewTabIsFresh(s.heap[ref], page);
    ReplacePlaces(l, s.heap, ref, AddTab(s.heap[ref], page));
  }

  /** The one pending call, and that nothing is pending once it is finished. */
  lemma OnlyPending(l: Limits, s: State, op: nat)
    requires Places(l, s) && op in s.ops
    ensures s.ops.Keys <= {op} && s.ops - {op} == map[] && PendingPlaces(l, s.sessions, s.heap, s.ops[op])
  {}

  lemma EvictionPlaces(l: Limits, s: State, op: nat, aborted: bool)
    requires Places(l, s)
    ensures Places(l, AfterEviction(l, s, op, aborted).state)
  {
    if op in s.ops && s.ops[op].LaunchEvicting? {
      var p := s.ops[op];
      OnlyPending(l, s, op);
      if p.again {
        FewerSessions(l, s.sessions, p.id);
        AwaitPlaces(l, Drop(s, p.id), op, LaunchEvicting(p.id, p.mode, false));
      } else {
        EnterLaunchPlaces(l, s, op, p.id, p.mode, aborted);
      }
    }
  }

  lemma StartPlaces(l: Limits, s: State, op: nat, started: bool, actual: Mode, blank: Option<int>)
    requires Wellformed(s) && Places(l, s)
    ensures Places(l, AfterStart(l, s, op, started, actual, blank).state)
  {
    if op in s.ops && s.ops[op].Starting? {
      var id := s.ops[op].id;
      OnlyPending(l, s, op);
      FinishPlaces(l, s, op);
      if blank.Some? {
        NewSessionPlaces(l, Finish(s, op), id, actual, blank.value);
      } else {
        AwaitPlaces(l, Reserve(s), op, NewSessionPage(id, actual));
      }
    }
  }

  lemma SessionPagePlaces(l: Limits, s: State, op: nat, page: Option<int>)
    requires Places(l, s)
    ensures Places(l, AfterSessionPage(s, op, page).state)
  {
    if op in s.ops && s.ops[op].NewSessionPage? {
      var p := s.ops[op];
      OnlyPending(l, s, op);
      FinishPlaces(l, s, op);
      if page.Some? {
        NewSessionPlaces(l, Release(Finish(s, op)), p.id, p.actual, page.value);
      }
    }
  }

  lemma PagePlaces(l: Limits, s: State, op: nat, page: Option<int>)
    requires Wellformed(s) && Places(l, s) && AllTabsInv(s.heap)
    ensures Places(l, AfterPage(s, op, page).state)
  {
    if op in s.ops && s.ops[op].AddingPage? {
      OnlyPending(l, s, op);
      FinishPlaces(l, s, op);
      if page.Some? {
        AddTabPlaces(l, Release(Finish(s, op)), s.ops[op].ref, page.value);
      }
    }
  }

  lemma ClosePlaces(l: Limits, s: State, op: nat)
    requires Places(l, s)
    ensures Places(l, AfterClose(s, op).state)
  {
    if op in s.ops {
      OnlyPending(l, s, op);
      if s.ops[op].ClosingOne? {
        FewerSessions(l, s.sessions, s.ops[op].id);
        FinishPlaces(l, Drop(s, s.ops[op].id), op);
      } else {
        FinishPlaces(l, s.(sessions := map[]), op);
      }
    }
  }

  lemma GetPageEvictionPlaces(l: Limits, s: State, op: nat)
    requires Places(l, s)
    ensures Places(l, AfterGetPageEviction(s, op).state)
  {
    if op in s.ops {
      OnlyPending(l, s, op);
      FinishPlaces(l, s, op);
    }
  }

  lemma ResumeKeepsPlaces(l: Limits, s: State, t: Step)
    requires Wellformed(s) && Places(l, s) && AllTabsInv(s.heap) && !StartsCall(t)
    ensures Places(l, Apply(l, s, t).state)
  {
    match t
    case LaunchEvicted(op, aborted) => EvictionPlaces(l, s, op, aborted);
    case BrowserStarted(op, started, actual, blank) => StartPlaces(l, s, op, started, actual, blank);
    case SessionPageOpened(op, page) => SessionPagePlaces(l, s, op, page);
    case PageOpened(op, page) => PagePlaces(l, s, op, page);
    case GetPageEvicted(op) => GetPageEvictionPlaces(l, s, op);
    case CloseFinished(op) => ClosePlaces(l, s, op);
  }

  /** A run in which a call starts only when no other call is pending. */
  ghost predicate ReachesSequentially(l: Limits, ts: seq<Step>, s: State) {
    if ts == [] then s == INITIAL
    else
      var t := ts[|ts| - 1];
      exists r :: ReachesSequentially(l, ts[..|ts| - 1], r) && Wellformed(r)
                  && (StartsCall(t) ==> r.ops == map[]) && s == Apply(l, r, t).state
  }

  /** Without overlap, sessions and tabs stay within their limits, although the reuse path of launch
      never checks the tab limit. */
  lemma {:induction false} SequentialBounds(l: Limits, ts: seq<Step>, s: State)
    requires ReachesSequentially(l, ts, s)
    ensures SequentialInv(l, s)
    ensures s.sessions == map[] || |s.sessions| <= l.maxSessions
    ensures forall id :: id in s.sessions ==> s.sessions[id] in s.heap && |s.heap[s.sessions[id]].tabs| <= TabCap(l)
  {
    if ts == [] {
      InitialInv(l);
    } else {
      var t := ts[|ts| - 1];
      var r :| ReachesSequentially(l, ts[..|ts| - 1], r) && Wellformed(r)
               && (StartsCall(t) ==> r.ops == map[]) && s == Apply(l, r, t).state;
      SequentialBounds(l, ts[..|ts| - 1], r);
      StepKeepsInv(l, r, t);
      if StartsCall(t) {
        StartKeepsPlaces(l, r, t);
      } else {
        ResumeKeepsPlaces(l, r, t);
      }
    }
  }

  const LAUNCH: seq<Step> :=
    [Launch(0, "a", HostChromeVisible, true, false, false), BrowserStarted(0, true, HostChromeVisible, Some(7))]

  /** A launch that connects to host Chrome and finds a blank page there: one session with one tab. */
  lemma OneLaunch(l: Limits)
    requires l.maxSessions >= 1 && l.maxTotalPages >= 1
    ensures var s := State(map["a" := 0], map[0 := NewSession(HostChromeVisible, 7)], 0, map[]);
            ReachesSequentially(l, LAUNCH, s)
  {
    var launch, started := LAUNCH[0], LAUNCH[1];
    var waiting := State(map[], map[], 0, map[0 := Starting("a", HostChromeVisible)]);
    var s := State(map["a" := 0], map[0 := NewSession(HostChromeVisible, 7)], 0, map[]);
    assert [launch][..0] == [] && ReachesSequentially(l, [], INITIAL);
    assert waiting == Apply(l, INITIAL, launch).state;
    assert ReachesSequentially(l, [launch], waiting);
    assert OpenTabs(waiting.sessions, waiting.heap) == {};
    assert waiting.ops - {0} == map[];
    assert s == Apply(l, waiting, started).state;
    assert LAUNCH[..1] == [launch];
  }

  ghost predicate WithinTabLimit(l: Limits, s: State) {
    && Linked(s.sessions, s.heap)
    && forall id :: id in s.sessions ==> |s.heap[s.sessions[id]].tabs| <= l.maxTabsPerSession
  }

  lemma TabLimitKept(l: Limits, ts: seq<Step>, s: State)
    requires l.maxTabsPerSession >= 1 || l.maxSessions < 1 || l.maxTotalPages < 1
    requires ReachesSequentially(l, ts, s)
    ensures WithinTabLimit(l, s)
  {
    SequentialBounds(l, ts, s);
  }

  lemma TabLimitBroken(l: Limits) returns (ts: seq<Step>, s: State)
    requires l.maxTabsPerSession < 1 && l.maxSessions >= 1 && l.maxTotalPages >= 1
    ensures ReachesSequentially(l, ts, s) && !WithinTabLimit(l, s)
  {
    ts := LAUNCH;
    s := State(map["a" := 0], map[0 := NewSession(HostChromeVisible, 7)], 0, map[]);
    OneLaunch(l);
    assert "a" in s.sessions && |s.heap[s.sessions["a"]].tabs| == 1;
  }

  ghost predicate TabLimitAlwaysMet(l: Limits) {
    forall ts, s :: ReachesSequentially(l, ts, s) ==> WithinTabLimit(l, s)
  }

  lemma TabLimitMet(l: Limits)
    requires l.maxTabsPerSession >= 1 || l.maxSessions < 1 || l.maxTotalPages < 1
    ensures TabLimitAlwaysMet(l)
  {
    forall ts, s | ReachesSequentially(l, ts, s) ensures WithinTabLimit(l, s) {
      TabLimitKept(l, ts, s);
    }
  }

  /** The tab limit holds in all runs without overlap exactly when it allows the first tab of a session,
      or when no session can be opened at all. */
  lemma TabLimitExactly(l: Limits)
    ensures TabLimitAlwaysMet(l) <==> l.maxTabsPerSession >= 1 || l.maxSessions < 1 || l.maxTotalPages < 1
  {
    if l.maxTabsPerSession >= 1 || l.maxSessions < 1 || l.maxTotalPages < 1 {
      TabLimitMet(l);
    } else {
      var ts, s := TabLimitBroken(l);
    }
  }
}
