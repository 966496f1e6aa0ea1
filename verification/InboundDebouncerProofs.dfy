/**
 Debouncing loses, duplicates and reorders nothing within a key.
 */
module InboundDebouncerProofs {
  import opened Common
  import opened InboundDebouncer

  /** The messages of `ms` that belong to `k`. */
  ghost function OfKey(ms: seq<Message>, k: Key): seq<Message> {
    if ms == [] then [] else (if KeyOf(ms[0]) == k then [ms[0]] else []) + OfKey(ms[1..], k)
  }

  lemma {:induction false} OfKeyConcat(a: seq<Message>, b: seq<Message>, k: Key)
    ensures OfKey(a + b, k) == OfKey(a, k) + OfKey(b, k)
  {
    if a == [] {
      assert a + b == b;
    } else {
      OfKeyConcat(a[1..], b, k);
      assert (a + b)[0] == a[0] && (a + b)[1..] == a[1..] + b;
      Regroup(if KeyOf(a[0]) == k then [a[0]] else [], OfKey(a[1..], k), OfKey(b, k));
    }
  }

  ghost predicate AllOfKey(ms: seq<Message>, k: Key) { forall i :: 0 <= i < |ms| ==> KeyOf(ms[i]) == k }

  lemma {:induction false} OfKeyWhole(ms: seq<Message>, k: Key, j: Key)
    requires AllOfKey(ms, k)
    ensures OfKey(ms, j) == if j == k then ms else []
  {
    if ms != [] {
      assert KeyOf(ms[0]) == k;
      OfKeyWhole(ms[1..], k, j);
      assert ms == [ms[0]] + ms[1..];
    }
  }

  /** All messages that left the buffers, in order. */
  ghost function Flatten(log: seq<Event>): seq<Message> {
    if log == [] then [] else Flatten(log[..|log| - 1]) + log[|log| - 1].group
  }

  ghost function BufferOf(s: State, k: Key): seq<Message> { if k in s.buffers then s.buffers[k].messages else [] }

  /** What of key `k` left the buffers, followed by what is still there. */
  ghost function Accounted(s: State, k: Key): seq<Message> { OfKey(Flatten(s.log), k) + BufferOf(s, k) }

  /** One armed timer for each buffered key, and no other. */
  ghost predicate TimersInv(s: State) {
    && (forall k :: k in s.buffers ==> s.buffers[k].timer in s.timers && s.timers[s.buffers[k].timer] == k)
    && (forall t :: t in s.timers ==> t < s.nextTimer && s.timers[t] in s.buffers && s.buffers[s.timers[t]].timer == t)
  }

  ghost predicate BuffersInv(s: State) {
    forall k :: k in s.buffers ==> s.buffers[k].messages != [] && AllOfKey(s.buffers[k].messages, k)
  }

  ghost predicate OrderInv(s: State) {
    && (forall k :: k in s.buffers <==> k in s.order)
    && forall i, j :: 0 <= i < j < |s.order| ==> s.order[i] != s.order[j]
  }

  /** The handler was called with the combination of each delivered group, in order. */
  ghost function Combined(log: seq<Event>): seq<Message> {
    if log == [] then []
    else
      var e := log[|log| - 1];
      Combined(log[..|log| - 1]) + (if e.Delivered? && e.group != [] then [Combine(e.group)] else [])
  }

  ghost predicate Inv(s: State) {
    TimersInv(s) && BuffersInv(s) && OrderInv(s) && s.handled == Combined(s.log)
  }

  lemma FlattenOne(log: seq<Event>, e: Event)
    ensures Flatten(log + [e]) == Flatten(log) + e.group
    ensures Combined(log + [e]) == Combined(log) + (if e.Delivered? && e.group != [] then [Combine(e.group)] else [])
  {
    assert (log + [e])[..|log|] == log;
  }

  lemma {:induction false} WithoutKeeps(order: seq<Key>, k: Key)
    requires forall i, j :: 0 <= i < j < |order| ==> order[i] != order[j]
    ensures forall j :: j in Without(order, k) <==> j in order && j != k
    ensures forall i, j :: 0 <= i < j < |Without(order, k)| ==> Without(order, k)[i] != Without(order, k)[j]
  {
    if order != [] {
      WithoutKeeps(order[1..], k);
      assert forall j :: j in order <==> j == order[0] || j in order[1..];
      assert order[0] !in order[1..];
    }
  }

  lemma ForgetInv(s: State, k: Key)
    requires TimersInv(s) && BuffersInv(s) && OrderInv(s) && k in s.buffers
    ensures TimersInv(Forget(s, k)) && BuffersInv(Forget(s, k)) && OrderInv(Forget(s, k))
  {
    WithoutKeeps(s.order, k);
  }

  /** Moving a buffer into the log changes no account. */
  lemma MoveKeepsAccounts(s: State, k: Key, e: Event, j: Key)
    requires BuffersInv(s) && k in s.buffers && e.group == s.buffers[k].messages
    ensures Accounted(Forget(s, k).(log := s.log + [e]), j) == Accounted(s, j)
  {
    var d := Forget(s, k).(log := s.log + [e]);
    FlattenOne(s.log, e);
    OfKeyConcat(Flatten(s.log), e.group, j);
    OfKeyWhole(e.group, k, j);
    var before := OfKey(Flatten(s.log), j);
    assert OfKey(Flatten(d.log), j) == before + OfKey(e.group, j);
    if j == k {
      assert BufferOf(d, j) == [];
      assert before + e.group + [] == before + e.group;
    } else {
      assert BufferOf(d, j) == BufferOf(s, j);
      assert before + [] == before;
    }
  }

  lemma FlushKeyInv(s: State, k: Key)
    requires Inv(s)
    ensures Inv(FlushKey(s, k)) && k !in FlushKey(s, k).buffers && FlushKey(s, k).buffers.Keys <= s.buffers.Keys
  {
    if k in s.buffers {
      ForgetInv(s, k);
      FlattenOne(s.log, Delivered(s.buffers[k].messages));
    }
  }

  lemma FlushKeyAccounts(s: State, k: Key, j: Key)
    requires BuffersInv(s)
    ensures Accounted(FlushKey(s, k), j) == Accounted(s, j)
  {
    if k in s.buffers {
      var e := Delivered(s.buffers[k].messages);
      MoveKeepsAccounts(s, k, e, j);
      assert Accounted(FlushKey(s, k), j) == Accounted(Forget(s, k).(log := s.log + [e]), j);
    }
  }

  lemma HandleInv(s: State, m: Message)
    requires Inv(s)
    ensures Inv(Handle(s, [m]))
  {
    FlattenOne(s.log, Delivered([m]));
  }

  /** A message handed on directly is accounted for behind everything of its key. */
  lemma HandleAccounts(s: State, m: Message, j: Key)
    requires KeyOf(m) !in s.buffers
    ensures Accounted(Handle(s, [m]), j) == Accounted(s, j) + OfKey([m], j)
  {
    FlattenOne(s.log, Delivered([m]));
    OfKeyConcat(Flatten(s.log), [m], j);
    OfKeyWhole([m], KeyOf(m), j);
    SwapWithNothing(OfKey(Flatten(s.log), j), OfKey([m], j), BufferOf(s, j));
  }

  lemma SwapWithNothing<T>(a: seq<T>, b: seq<T>, c: seq<T>)
    requires b == [] || c == []
    ensures (a + b) + c == (a + c) + b
  {}

  lemma BufferKeepsTimers(s: State, m: Message)
    requires TimersInv(s)
    ensures TimersInv(Buffer(s, m))
  {
    assert s.nextTimer !in s.timers;
  }

  lemma BufferKeepsBuffers(s: State, m: Message)
    requires BuffersInv(s) && OrderInv(s)
    ensures BuffersInv(Buffer(s, m)) && OrderInv(Buffer(s, m))
  {}

  lemma BufferGrows(s: State, m: Message, j: Key)
    ensures BufferOf(Buffer(s, m), j) == BufferOf(s, j) + (if j == KeyOf(m) then [m] else [])
    ensures Buffer(s, m).log == s.log
  {}

  lemma BufferAccounts(s: State, m: Message, j: Key)
    ensures Accounted(Buffer(s, m), j) == Accounted(s, j) + OfKey([m], j)
  {
    BufferGrows(s, m, j);
    OfKeyWhole([m], KeyOf(m), j);
    Regroup(OfKey(Flatten(s.log), j), BufferOf(s, j), OfKey([m], j));
  }

  lemma BufferInv(s: State, m: Message)
    requires Inv(s)
    ensures Inv(Buffer(s, m))
  {
    BufferKeepsTimers(s, m);
    BufferKeepsBuffers(s, m);
  }

  lemma SubmitInv(o: Options, s: State, m: Message)
    requires Inv(s)
    ensures Inv(Submit(o, s, m))
  {
    if o.windowMs <= 0 {
      HandleInv(s, m);
    } else if ShouldBypass(o, m) {
      FlushKeyInv(s, KeyOf(m));
      HandleInv(FlushKey(s, KeyOf(m)), m);
    } else {
      BufferInv(s, m);
    }
  }

  lemma SubmitAccounts(o: Options, s: State, m: Message, j: Key)
    requires Inv(s) && PassThrough(o, s)
    ensures Accounted(Submit(o, s, m), j) == Accounted(s, j) + OfKey([m], j)
  {
    if o.windowMs <= 0 {
      HandleAccounts(s, m, j);
    } else if ShouldBypass(o, m) {
      FlushKeyInv(s, KeyOf(m));
      FlushKeyAccounts(s, KeyOf(m), j);
      HandleAccounts(FlushKey(s, KeyOf(m)), m, j);
    } else {
      BufferAccounts(s, m, j);
    }
  }

  lemma {:induction false} FlushAllInv(s: State, keys: seq<Key>)
    requires Inv(s)
    ensures Inv(FlushAll(s, keys))
    decreases |keys|
  {
    if keys != [] {
      FlushKeyInv(s, keys[0]);
      FlushAllInv(FlushKey(s, keys[0]), keys[1..]);
    }
  }

  lemma {:induction false} FlushAllAccounts(s: State, keys: seq<Key>, j: Key)
    requires Inv(s)
    ensures Accounted(FlushAll(s, keys), j) == Accounted(s, j)
    ensures j in FlushAll(s, keys).buffers ==> j in s.buffers && j !in keys
    decreases |keys|
  {
    if keys != [] {
      FlushKeyInv(s, keys[0]);
      FlushKeyAccounts(s, keys[0], j);
      FlushAllAccounts(FlushKey(s, keys[0]), keys[1..], j);
    }
  }

  lemma DiscardKeyInv(s: State, k: Key)
    requires Inv(s)
    ensures Inv(DiscardKey(s, k)) && DiscardKey(s, k).buffers.Keys <= s.buffers.Keys
  {
    if k in s.buffers {
      ForgetInv(s, k);
      FlattenOne(s.log, Discarded(s.buffers[k].messages));
    }
  }

  lemma DiscardKeyAccounts(s: State, k: Key, j: Key)
    requires BuffersInv(s)
    ensures Accounted(DiscardKey(s, k), j) == Accounted(s, j)
  {
    if k in s.buffers {
      MoveKeepsAccounts(s, k, Discarded(s.buffers[k].messages), j);
    }
  }

  lemma {:induction false} DiscardAllInv(s: State, keys: seq<Key>)
    requires Inv(s)
    ensures Inv(DiscardAll(s, keys))
    decreases |keys|
  {
    if keys != [] {
      DiscardKeyInv(s, keys[0]);
      DiscardAllInv(DiscardKey(s, keys[0]), keys[1..]);
    }
  }

  lemma {:induction false} DiscardAllAccounts(s: State, keys: seq<Key>, j: Key)
    requires Inv(s)
    ensures Accounted(DiscardAll(s, keys), j) == Accounted(s, j)
    decreases |keys|
  {
    if keys != [] {
      DiscardKeyInv(s, keys[0]);
      DiscardKeyAccounts(s, keys[0], j);
      DiscardAllAccounts(DiscardKey(s, keys[0]), keys[1..], j);
    }
  }

  // Without a window nothing is ever buffered.

  ghost predicate PassThrough(o: Options, s: State) { o.windowMs <= 0 ==> s.buffers == map[] }

  lemma {:induction false} NothingToFlush(s: State, keys: seq<Key>)
    requires s.buffers == map[]
    ensures FlushAll(s, keys) == s && DiscardAll(s, keys) == s
    decreases |keys|
  {
    if keys != [] {
      NothingToFlush(s, keys[1..]);
    }
  }

  lemma StepPassesThrough(o: Options, s: State, t: Step)
    requires Buffered(s) && PassThrough(o, s)
    ensures PassThrough(o, Apply(o, s, t))
  {
    if o.windowMs <= 0 {
      NothingToFlush(s, s.order);
    }
  }

  // ---------- runs ----------

  ghost function Submitted(ts: seq<Step>): seq<Message> {
    if ts == [] then []
    else
      var t := ts[|ts| - 1];
      Submitted(ts[..|ts| - 1]) + (if t.SubmitMessage? then [t.message] else [])
  }

  ghost function Run(o: Options, ts: seq<Step>): (s: State)
    ensures Buffered(s)
  {
    if ts == [] then INITIAL else Apply(o, Run(o, ts[..|ts| - 1]), ts[|ts| - 1])
  }

  lemma StepInv(o: Options, s: State, t: Step)
    requires Inv(s)
    ensures Inv(Apply(o, s, t))
  {
    match t
    case SubmitMessage(m) => SubmitInv(o, s, m);
    case TimerFires(timer) => if timer in s.timers { FlushKeyInv(s, s.timers[timer]); }
    case Flush => FlushAllInv(s, s.order);
    case Destroy => DiscardAllInv(s, s.order);
  }

  lemma StepAccounts(o: Options, s: State, t: Step, j: Key)
    requires Inv(s) && PassThrough(o, s)
    ensures Accounted(Apply(o, s, t), j)
            == if t.SubmitMessage? then Accounted(s, j) + OfKey([t.message], j) else Accounted(s, j)
  {
    match t
    case SubmitMessage(m) => SubmitAccounts(o, s, m, j);
    case TimerFires(timer) => if timer in s.timers { FlushKeyAccounts(s, s.timers[timer], j); }
    case Flush => FlushAllAccounts(s, s.order, j);
    case Destroy => DiscardAllAccounts(s, s.order, j);
  }

  lemma SubmittedStep(ts: seq<Step>, j: Key)
    requires ts != []
    ensures var n := |ts| - 1;
            OfKey(Submitted(ts), j)
            == if ts[n].SubmitMessage? then OfKey(Submitted(ts[..n]), j) + OfKey([ts[n].message], j)
               else OfKey(Submitted(ts[..n]), j)
  {
    var n := |ts| - 1;
    if ts[n].SubmitMessage? {
      OfKeyConcat(Submitted(ts[..n]), [ts[n].message], j);
    } else {
      assert Submitted(ts[..n]) + [] == Submitted(ts[..n]);
    }
  }

  lemma {:induction false} RunKeeps(o: Options, ts: seq<Step>, j: Key)
    ensures Inv(Run(o, ts)) && PassThrough(o, Run(o, ts))
    ensures Accounted(Run(o, ts), j) == OfKey(Submitted(ts), j)
  {
    if ts == [] {
      assert Accounted(INITIAL, j) == [];
    } else {
      var n := |ts| - 1;
      RunKeeps(o, ts[..n], j);
      StepInv(o, Run(o, ts[..n]), ts[n]);
      StepPassesThrough(o, Run(o, ts[..n]), ts[n]);
      StepAccounts(o, Run(o, ts[..n]), ts[n], j);
      SubmittedStep(ts, j);
    }
  }

  /** Over every run and for every key: the groups that left the buffers, flattened in order, followed by
      the buffer, are the submitted messages; the handler saw the combination of each delivered group;
      and the armed timers stand one to one for the buffered keys. */
  lemma NothingLostOrReordered(o: Options, ts: seq<Step>, k: Key)
    ensures var s := Run(o, ts);
            && OfKey(Flatten(s.log), k) + BufferOf(s, k) == OfKey(Submitted(ts), k)
            && s.handled == Combined(s.log)
            && TimersInv(s)
  {
    RunKeeps(o, ts, k);
  }

  ghost predicate NoDiscard(log: seq<Event>) { forall i :: 0 <= i < |log| ==> log[i].Delivered? }

  lemma {:induction false} FlushAllDelivers(s: State, keys: seq<Key>)
    requires Buffered(s) && NoDiscard(s.log)
    ensures NoDiscard(FlushAll(s, keys).log)
    decreases |keys|
  {
    if keys != [] {
      FlushAllDelivers(FlushKey(s, keys[0]), keys[1..]);
    }
  }

  lemma {:induction false} OnlyDestroyDiscards(o: Options, ts: seq<Step>)
    requires forall i :: 0 <= i < |ts| ==> !ts[i].Destroy?
    ensures NoDiscard(Run(o, ts).log)
  {
    if ts != [] {
      var n := |ts| - 1;
      OnlyDestroyDiscards(o, ts[..n]);
      if ts[n].Flush? {
        FlushAllDelivers(Run(o, ts[..n]), Run(o, ts[..n]).order);
      }
    }
  }

  lemma FlushEmpties(s: State)
    requires Inv(s)
    ensures var r := FlushAll(s, s.order);
            r.buffers == map[] && r.timers == map[]
  {
    var r := FlushAll(s, s.order);
    FlushAllInv(s, s.order);
    forall j ensures j !in r.buffers {
      FlushAllAccounts(s, s.order, j);
    }
    assert forall t :: t !in r.timers;
  }

  /** Without `destroy`, a final flush delivers every submitted message of every key, once and in order. */
  lemma FlushDeliversEverything(o: Options, ts: seq<Step>, k: Key)
    requires forall i :: 0 <= i < |ts| ==> !ts[i].Destroy?
    ensures var s := Run(o, ts + [Flush]);
            && NoDiscard(s.log) && s.buffers == map[] && s.timers == map[]
            && OfKey(Flatten(s.log), k) == OfKey(Submitted(ts), k)
  {
    var all, r := ts + [Flush], Run(o, ts);
    assert all[..|ts|] == ts;
    OnlyDestroyDiscards(o, all);
    RunKeeps(o, ts, k);
    RunKeeps(o, all, k);
    FlushEmpties(r);
    SubmittedStep(all, k);
    assert Run(o, all) == FlushAll(r, r.order);
    assert OfKey(Flatten(Run(o, all).log), k) + [] == OfKey(Flatten(Run(o, all).log), k);
  }

  // ---------- combined messages ----------

  /** A combined message carries the joined texts and all images of its group, whatever its size. */
  lemma CombineCarries(ms: seq<Message>)
    requires ms != []
    ensures Combine(ms).text == JoinTexts(ms) && ImagesOf(Combine(ms)) == AllImages(ms)
    ensures var last := ms[|ms| - 1];
            var c := Combine(ms);
            c == last.(text := c.text, images := c.images, timezone := c.timezone)
  {
    if |ms| == 1 {
      assert AllImages(ms) == ImagesOf(ms[0]) + AllImages(ms[1..]);
    }
  }

  // ---------- keys ----------

  predicate SameAuthor(m: Message, n: Message) {
    m.channelKind == n.channelKind && m.senderId == n.senderId && m.chatId == n.chatId
  }

  /** Two keys are told apart by where their separating colons stand. */
  lemma SameSplit(m: Message, n: Message)
    requires KeyOf(m) == KeyOf(n) && |m.channelKind| == |n.channelKind| && |m.senderId| == |n.senderId|
    ensures SameAuthor(m, n)
  {
    var i, j := |m.channelKind|, |m.channelKind| + 1 + |m.senderId|;
    KeyParts(m);
    KeyParts(n);
    var k := KeyOf(m);
    assert k[..i] == KeyOf(n)[..i] && k[i + 1..j] == KeyOf(n)[i + 1..j] && k[j + 1..] == KeyOf(n)[j + 1..];
  }

  lemma KeyParts(m: Message)
    ensures var k, i, j := KeyOf(m), |m.channelKind|, |m.channelKind| + 1 + |m.senderId|;
            && i < j < |k| && k[i] == ':' && k[j] == ':'
            && k[..i] == m.channelKind && k[i + 1..j] == m.senderId && k[j + 1..] == m.chatId
  {}

  /** In a key whose parts have no colon, only the two separators are colons. */
  lemma OnlyTwoColons(m: Message, at: nat)
    requires ':' !in m.channelKind && ':' !in m.senderId && ':' !in m.chatId && at < |KeyOf(m)|
    ensures KeyOf(m)[at] == ':' <==> at == |m.channelKind| || at == |m.channelKind| + 1 + |m.senderId|
  {
    var k, i, j := KeyOf(m), |m.channelKind|, |m.channelKind| + 1 + |m.senderId|;
    assert at < i ==> k[at] == m.channelKind[at];
    assert i < at < j ==> k[at] == m.senderId[at - i - 1];
    assert j < at ==> k[at] == m.chatId[at - j - 1];
  }

  lemma ColonFreeKey(m: Message, n: Message)
    requires ':' !in m.channelKind && ':' !in m.senderId && ':' !in m.chatId && KeyOf(m) == KeyOf(n)
    ensures SameAuthor(m, n)
  {
    var i, j := |n.channelKind|, |n.channelKind| + 1 + |n.senderId|;
    KeyParts(n);
    OnlyTwoColons(m, i);
    OnlyTwoColons(m, j);
    SameSplit(m, n);
  }

  /** A text cut in two at one of its colons. */
  lemma CutAtColon(t: string) returns (before: string, behind: string)
    requires ':' in t
    ensures t == before + ":" + behind
  {
    var i :| 0 <= i < |t| && t[i] == ':';
    before, behind := t[..i], t[i + 1..];
  }

  /** Sender "a:b" in chat "c" and sender "a" in chat "b:c". */
  lemma KeysClash(m: Message)
    ensures var one, other := m.(senderId := "a:b", chatId := "c"), m.(senderId := "a", chatId := "b:c");
            KeyOf(one) == KeyOf(other) && !SameAuthor(one, other)
  {
    assert "a:b" + ":" + "c" == "a" + ":" + "b:c";
    var one, other := m.(senderId := "a:b", chatId := "c"), m.(senderId := "a", chatId := "b:c");
    assert KeyOf(one) == m.channelKind + ":" + ("a:b" + ":" + "c");
    assert KeyOf(other) == m.channelKind + ":" + ("a" + ":" + "b:c");
    assert |one.senderId| != |other.senderId|;
  }

  /** With a colon in one of its parts, a message shares its key with another author's. */
  lemma SharedKey(m: Message) returns (n: Message)
    requires ':' in m.channelKind || ':' in m.senderId || ':' in m.chatId
    ensures KeyOf(n) == KeyOf(m) && !SameAuthor(m, n)
  {
    if ':' in m.channelKind {
      var a, b := CutAtColon(m.channelKind);
      n := m.(channelKind := a, senderId := b, chatId := m.senderId + ":" + m.chatId);
    } else if ':' in m.senderId {
      var a, b := CutAtColon(m.senderId);
      n := m.(senderId := a, chatId := b + ":" + m.chatId);
    } else {
      var a, b := CutAtColon(m.chatId);
      n := m.(senderId := m.senderId + ":" + a, chatId := b);
    }
  }

  /** A message can be combined with one of another author or chat exactly when a part of its key has a colon. */
  lemma KeyIsSharedExactly(m: Message)
    ensures (exists n :: KeyOf(n) == KeyOf(m) && !SameAuthor(m, n))
            <==> ':' in m.channelKind || ':' in m.senderId || ':' in m.chatId
  {
    if ':' in m.channelKind || ':' in m.senderId || ':' in m.chatId {
      var n := SharedKey(m);
    } else {
      forall n | KeyOf(n) == KeyOf(m) ensures SameAuthor(m, n) {
        ColonFreeKey(m, n);
      }
    }
  }

  /** Where kinds and senders have no colon, the key stands for the author and the chat, whatever chat ids
      contain. */
  lemma KeyUnambiguous(m: Message, n: Message)
    requires ':' !in m.channelKind && ':' !in m.senderId && ':' !in n.channelKind && ':' !in n.senderId
    ensures KeyOf(m) == KeyOf(n) <==> SameAuthor(m, n)
  {
    if KeyOf(m) == KeyOf(n) {
      FirstColon(m);
      FirstColon(n);
      SameSplit(m, n);
    }
  }

  /** The first two colons of such a key are its separators. */
  lemma FirstColon(m: Message)
    requires ':' !in m.channelKind && ':' !in m.senderId
    ensures var k, i, j := KeyOf(m), |m.channelKind|, |m.channelKind| + 1 + |m.senderId|;
            && i < j < |k| && k[i] == ':' && k[j] == ':'
            && forall at :: 0 <= at < j && at != i ==> k[at] != ':'
  {
    var k, i, j := KeyOf(m), |m.channelKind|, |m.channelKind| + 1 + |m.senderId|;
    forall at | 0 <= at < j && at != i ensures k[at] != ':' {
      assert at < i ==> k[at] == m.channelKind[at];
      assert i < at ==> k[at] == m.senderId[at - i - 1];
    }
  }
}
