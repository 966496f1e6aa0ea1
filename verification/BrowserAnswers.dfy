/**
 What the manager's calls answer and what they leave behind, call by call.  The statements hold in
 every state in which references lead to session objects, and so in every reachable one.
 */
module BrowserAnswers {
  import opened Common
  import opened Browser
  import opened BrowserProofs

  ghost predicate NoSlot(l: Limits, s: State)
    requires Wellformed(s)
  {
    |OpenTabs(s.sessions, s.heap)| + s.reserved >= l.maxTotalPages
  }

  /** The state without tab `tab` in session object `ref`. */
  ghost function WithoutTab(s: State, ref: nat, tab: TabId): State
    requires ref in s.heap
  {
    s.(heap := s.heap[ref := s.heap[ref].(tabs := s.heap[ref].tabs - {tab})])
  }

  // ---------- getPage ----------

  /** The tab that a call asks for: the one it names, or the active one. */
  ghost function Asked(t: Step, x: Session): TabId
    requires t.GetPage?
  {
    match t.tabId
    case Some(tab) => tab
    case None => x.active
  }

  /** The session is there and connected, and the tab is there and alive. */
  ghost predicate TabIsLive(s: State, t: Step)
    requires t.GetPage? && Wellformed(s)
  {
    && t.id in s.sessions && t.connected && !t.pageClosed
    && Asked(t, s.heap[s.sessions[t.id]]) in s.heap[s.sessions[t.id]].tabs
  }

  /** The session is there and connected, but the tab is missing or dead. */
  ghost predicate TabIsGone(s: State, t: Step)
    requires t.GetPage? && Wellformed(s)
  {
    t.id in s.sessions && t.connected && !TabIsLive(s, t)
  }

  /** The state behind the clean-up of a missing or dead tab. */
  ghost function Cleaned(s: State, t: Step): State
    requires t.GetPage? && Wellformed(s) && TabIsGone(s, t)
  {
    WithoutTab(s, s.sessions[t.id], Asked(t, s.heap[s.sessions[t.id]]))
  }

  ghost predicate TabsAreFull(l: Limits, s: State, t: Step)
    requires t.GetPage? && Wellformed(s) && TabIsGone(s, t)
  {
    |Cleaned(s, t).heap[s.sessions[t.id]].tabs| >= l.maxTabsPerSession
  }

  lemma CleanedIsWellformed(s: State, t: Step)
    requires t.GetPage? && Wellformed(s) && TabIsGone(s, t)
    ensures var ref := s.sessions[t.id];
            && Wellformed(Cleaned(s, t))
            && Cleaned(s, t) == SetTabs(s, ref, s.heap[ref].tabs - {Asked(t, s.heap[ref])})
  {}

  /** A page is found exactly when the asked tab is live; it is the asked one, and nothing changes. */
  lemma FoundPage(l: Limits, s: State, t: Step)
    requires Wellformed(s) && t.GetPage? && t.op !in s.ops
    ensures var n := Apply(l, s, t);
            && (n.outcome.PageFound? <==> TabIsLive(s, t))
            && (TabIsLive(s, t) ==> n == Next(s, PageFound(Asked(t, s.heap[s.sessions[t.id]]))))
  {}

  lemma NoSession(l: Limits, s: State, t: Step)
    requires Wellformed(s) && t.GetPage? && t.op !in s.ops
    ensures var n := Apply(l, s, t);
            && (n.outcome == SessionNotFound <==> t.id !in s.sessions)
            && (t.id !in s.sessions ==> n.state == s)
  {}

  /** A dead browser's session is forgotten, and the call fails once it is closed. */
  lemma DeadBrowser(l: Limits, s: State, t: Step)
    requires Wellformed(s) && t.GetPage? && t.op !in s.ops && t.id in s.sessions && !t.connected
    ensures Apply(l, s, t)
            == Next(s.(sessions := s.sessions - {t.id}, ops := s.ops[t.op := GetPageEvicting]), Suspended)
  {}

  /** A missing or dead tab: refused when it is not to be created, when the session has its tabs or when there is
      no slot, and otherwise a slot is held until the page is there. */
  lemma GonePage(l: Limits, s: State, t: Step)
    requires Wellformed(s) && t.GetPage? && t.op !in s.ops && TabIsGone(s, t)
    ensures Wellformed(Cleaned(s, t))
    ensures var n, c := Apply(l, s, t), Cleaned(s, t);
            var adding := AddingPage(s.sessions[t.id], false);
            && (!t.create ==> n == Next(c, TabNotFound))
            && (t.create && TabsAreFull(l, s, t) ==> n == Next(c, TooManyTabs))
            && (t.create && !TabsAreFull(l, s, t) && NoSlot(l, c) ==> n == Next(c, TooManyPages))
            && (t.create && !TabsAreFull(l, s, t) && !NoSlot(l, c) && t.aborted ==> n == Next(c, Aborted))
            && (t.create && !TabsAreFull(l, s, t) && !NoSlot(l, c) && !t.aborted ==>
                n == Next(c.(reserved := c.reserved + 1, ops := c.ops[t.op := adding]), Suspended))
  {
    CleanedIsWellformed(s, t);
  }

  // ---------- launch ----------

  /** The session is there, connected and in the requested mode. */
  ghost predicate Reusable(s: State, t: Step)
    requires t.Launch? && Wellformed(s)
  {
    t.id in s.sessions && t.connected && s.heap[s.sessions[t.id]].mode == t.mode
  }

  /** A session is given back at once exactly when it is reusable and its active tab is live; nothing changes. */
  lemma ReusedAtOnce(l: Limits, s: State, t: Step)
    requires Wellformed(s) && t.Launch? && t.op !in s.ops
    ensures var n := Apply(l, s, t);
            && (n.outcome.Launched? <==>
                && Reusable(s, t) && !t.activeClosed
                && s.heap[s.sessions[t.id]].active in s.heap[s.sessions[t.id]].tabs)
            && (n.outcome.Launched? ==> n == Next(s, Launched(s.heap[s.sessions[t.id]].active, true)))
  {}

  /** A reusable session whose active tab is missing or dead gets a fresh one, if there is a slot. */
  lemma ReusedWithFreshTab(l: Limits, s: State, t: Step)
    requires Wellformed(s) && t.Launch? && t.op !in s.ops && Reusable(s, t)
    requires s.heap[s.sessions[t.id]].active !in s.heap[s.sessions[t.id]].tabs || t.activeClosed
    ensures var ref := s.sessions[t.id];
            var n, c := Apply(l, s, t), WithoutTab(s, ref, s.heap[ref].active);
            && Wellformed(c)
            && (NoSlot(l, c) ==> n == Next(c, TooManyPages))
            && (!NoSlot(l, c) ==>
                n == Next(c.(reserved := c.reserved + 1, ops := c.ops[t.op := AddingPage(ref, true)]), Suspended))
  {
    var ref := s.sessions[t.id];
    assert WithoutTab(s, ref, s.heap[ref].active) == SetTabs(s, ref, s.heap[ref].tabs - {s.heap[ref].active});
  }

  /** A session that is dead or in another mode is forgotten and never reused; in another mode it is closed twice. */
  lemma NotReused(l: Limits, s: State, t: Step)
    requires Wellformed(s) && t.Launch? && t.op !in s.ops && t.id in s.sessions && !Reusable(s, t)
    ensures var evicting := LaunchEvicting(t.id, t.mode, t.connected);
            Apply(l, s, t)
            == Next(s.(sessions := s.sessions - {t.id}, ops := s.ops[t.op := evicting]), Suspended)
  {}

  /** Without a session in the way, and after the old one is closed: refused when there are too many sessions,
      and otherwise on to a browser of the requested mode. */
  lemma NewSessionAsked(l: Limits, s: State, t: Step)
    requires Wellformed(s) && t.Launch? && t.op !in s.ops && t.id !in s.sessions
    ensures var n, rest := Apply(l, s, t), s.ops - {t.op};
            && (n.outcome == TooManySessions <==> |s.sessions| >= l.maxSessions)
            && (n.outcome == Aborted <==> |s.sessions| < l.maxSessions && t.aborted)
            && (|s.sessions| >= l.maxSessions || t.aborted ==> n.state == s.(ops := rest))
            && (|s.sessions| < l.maxSessions && !t.aborted ==>
                n == Next(s.(ops := s.ops[t.op := Starting(t.id, t.mode)]), Suspended))
  {}

  lemma AfterEvictionAsked(l: Limits, s: State, op: nat, aborted: bool)
    requires Wellformed(s) && op in s.ops && s.ops[op].LaunchEvicting?
    ensures var n, p := Apply(l, s, LaunchEvicted(op, aborted)), s.ops[op];
            var evicting := LaunchEvicting(p.id, p.mode, false);
            && (p.again ==>
                n == Next(s.(sessions := s.sessions - {p.id}, ops := s.ops[op := evicting]), Suspended))
            && (!p.again && |s.sessions| >= l.maxSessions ==> n == Next(s.(ops := s.ops - {op}), TooManySessions))
            && (!p.again && |s.sessions| < l.maxSessions && aborted ==> n == Next(s.(ops := s.ops - {op}), Aborted))
            && (!p.again && |s.sessions| < l.maxSessions && !aborted ==>
                n == Next(s.(ops := s.ops[op := Starting(p.id, p.mode)]), Suspended))
  {}

  /** The session a launch opens: one tab, `tab-1`, which is active. */
  ghost predicate IsOpened(s: State, n: State, id: string, mode: Mode, page: int) {
    && id in n.sessions && n.sessions - {id} == s.sessions - {id} && n.sessions[id] in n.heap
    && n.heap[n.sessions[id]] == Session(map[Tab(1) := page], Tab(1), 1, mode, {Tab(1)})
  }

  /** A browser that did not start, or for which there is no slot, fails the launch; an adopted blank page makes
      the session at once, and otherwise a slot is held until its first page is there. */
  lemma BrowserAnswered(l: Limits, s: State, op: nat, started: bool, actual: Mode, blank: Option<int>)
    requires Wellformed(s) && op in s.ops && s.ops[op].Starting?
    requires actual == HostChromeVisible ==> s.ops[op].mode == HostChromeVisible
    requires blank.Some? ==> actual == HostChromeVisible
    ensures var n := Apply(l, s, BrowserStarted(op, started, actual, blank));
            var rest, opening := s.(ops := s.ops - {op}), NewSessionPage(s.ops[op].id, actual);
            && (!started ==> n == Next(rest, LibraryFailed))
            && (started && NoSlot(l, s) ==> n == Next(rest, TooManyPages))
            && (started && !NoSlot(l, s) && blank.Some? ==>
                && n.outcome == Launched(Tab(1), false) && n.state.ops == rest.ops && n.state.reserved == s.reserved
                && IsOpened(s, n.state, s.ops[op].id, actual, blank.value))
            && (started && !NoSlot(l, s) && blank.None? ==>
                n == Next(s.(reserved := s.reserved + 1, ops := s.ops[op := opening]), Suspended))
  {
    if started && !NoSlot(l, s) && blank.Some? {
      PutIsOpened(s.(ops := s.ops - {op}), s.ops[op].id, actual, blank.value);
    }
  }

  lemma PutIsOpened(s: State, id: string, mode: Mode, page: int)
    ensures IsOpened(s, PutSession(s, id, NewSession(mode, page)), id, mode, page)
  {}

  /** The first page of a session, or its failure, gives the slot back. */
  lemma FirstPageAnswered(l: Limits, s: State, op: nat, page: Option<int>)
    requires Wellformed(s) && op in s.ops && s.ops[op].NewSessionPage?
    ensures var n, p := Apply(l, s, SessionPageOpened(op, page)), s.ops[op];
            && n.state.ops == s.ops - {op} && n.state.reserved == s.reserved - 1
            && (page.None? ==> n.outcome == LibraryFailed && n.state.sessions == s.sessions && n.state.heap == s.heap)
            && (page.Some? ==> n.outcome == Launched(Tab(1), false) && IsOpened(s, n.state, p.id, p.actual, page.value))
  {
    if page.Some? {
      PutIsOpened(s.(ops := s.ops - {op}, reserved := s.reserved - 1), s.ops[op].id, s.ops[op].actual, page.value);
    }
  }

  /** A page that opens becomes the tab behind the last one ever opened, and the active one. */
  lemma PageAnswered(l: Limits, s: State, op: nat, page: Option<int>)
    requires Wellformed(s) && op in s.ops && s.ops[op].AddingPage?
    ensures var n, p := Apply(l, s, PageOpened(op, page)), s.ops[op];
            && n.state.ops == s.ops - {op} && n.state.reserved == s.reserved - 1 && n.state.sessions == s.sessions
            && (page.None? ==> n.outcome == LibraryFailed && n.state.heap == s.heap)
            && (page.Some? ==>
                var x := s.heap[p.ref];
                var tab := Tab(x.counter + 1);
                && n.outcome == (if p.forLaunch then Launched(tab, true) else PageFound(tab))
                && n.state.heap
                   == s.heap[p.ref := Session(x.tabs[tab := page.value], tab, x.counter + 1, x.mode, x.used + {tab})])
  {}

  // ---------- close ----------

  lemma CloseAsked(l: Limits, s: State, op: nat, only: Option<string>)
    requires Wellformed(s) && op !in s.ops
    ensures var n := Apply(l, s, Close(op, only));
            && (only.Some? && only.value !in s.sessions ==> n == Next(s, Closed))
            && (only.Some? && only.value in s.sessions ==>
                n == Next(s.(ops := s.ops[op := ClosingOne(only.value)]), Suspended))
            && (only.None? ==> n == Next(s.(ops := s.ops[op := ClosingAll]), Suspended))
  {}

  /** After a close the closed session, or every one, is gone, and no other. */
  lemma CloseAnswered(l: Limits, s: State, op: nat)
    requires Wellformed(s) && op in s.ops && (s.ops[op].ClosingOne? || s.ops[op].ClosingAll?)
    ensures var n := Apply(l, s, CloseFinished(op));
            && n.outcome == Closed && n.state.ops == s.ops - {op}
            && n.state.heap == s.heap && n.state.reserved == s.reserved
            && (forall id :: id in n.state.sessions <==>
                  id in s.sessions && s.ops[op].ClosingOne? && id != s.ops[op].id)
            && forall id :: id in n.state.sessions ==> n.state.sessions[id] == s.sessions[id]
  {}

  lemma EvictionAnswered(l: Limits, s: State, op: nat)
    requires Wellformed(s) && op in s.ops && s.ops[op].GetPageEvicting?
    ensures Apply(l, s, GetPageEvicted(op)) == Next(s.(ops := s.ops - {op}), BrowserDisconnected)
  {}
}
