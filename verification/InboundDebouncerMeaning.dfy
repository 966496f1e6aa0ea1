/**
 What becomes of a message: which messages wait and which are handed on at once, what a timer, a
 flush and `destroy` do, and what a combined message says.
 */
module InboundDebouncerMeaning {
  import opened Common
  import opened Blanks
  import opened InboundDebouncer
  import opened InboundDebouncerProofs

  // ---------- combined messages ----------

  ghost predicate BlankZone(m: Message) {
    m.timezone.None? || forall i :: 0 <= i < |m.timezone.value| ==> IsBlankChar(m.timezone.value[i])
  }

  lemma BlankZoneMeans(m: Message)
    ensures BlankZone(m) <==> m.timezone.None? || TrimString(m.timezone.value) == ""
  {
    if m.timezone.Some? {
      var z := m.timezone.value;
      TrimMeans(z);
      var before, behind :| IsPaddedText(z, before, TrimString(z), behind);
      if TrimString(z) == "" {
        forall i | 0 <= i < |z| ensures IsBlankChar(z[i]) {
          assert z[i] == if i < |before| then before[i] else behind[i - |before|];
        }
      } else {
        assert z[|before|] == TrimString(z)[0];
      }
    }
  }

  lemma {:induction false} TextsOfBoth(a: seq<Message>, b: seq<Message>)
    requires a != [] && b != []
    ensures JoinTexts(a + b) == JoinTexts(a) + "\n" + JoinTexts(b)
  {
    assert (a + b)[0] == a[0] && (a + b)[1..] == a[1..] + b;
    if |a| == 1 {
      assert a[1..] + b == b;
    } else {
      TextsOfBoth(a[1..], b);
      JoinedInTurn(a[0].text, JoinTexts(a[1..]), JoinTexts(b));
    }
  }

  lemma JoinedInTurn(a: string, b: string, c: string)
    ensures a + "\n" + (b + "\n" + c) == (a + "\n" + b) + "\n" + c
  {
    Regroup(a + "\n", b + "\n", c);
    Regroup(a + "\n", b, "\n");
  }

  lemma {:induction false} ImagesOfBoth(a: seq<Message>, b: seq<Message>)
    ensures AllImages(a + b) == AllImages(a) + AllImages(b)
  {
    if a == [] {
      assert a + b == b;
    } else {
      assert (a + b)[0] == a[0] && (a + b)[1..] == a[1..] + b;
      ImagesOfBoth(a[1..], b);
      Regroup(ImagesOf(a[0]), AllImages(a[1..]), AllImages(b));
    }
  }

  lemma {:induction false} ZoneOfBoth(a: seq<Message>, b: seq<Message>)
    ensures LastTimezone(a + b) == if LastTimezone(b).Some? then LastTimezone(b) else LastTimezone(a)
    decreases |b|
  {
    if b == [] {
      assert a + b == a;
    } else {
      var n := |b| - 1;
      assert (a + b)[|a + b| - 1] == b[n] && (a + b)[..|a + b| - 1] == a + b[..n];
      ZoneOfBoth(a, b[..n]);
    }
  }

  lemma {:induction false} LastZoneIsNotBlank(ms: seq<Message>, m: Message)
    requires LastTimezone(ms) == m.timezone
    ensures m.timezone.Some? ==> !BlankZone(m)
  {
    if ms != [] {
      var last := ms[|ms| - 1];
      BlankZoneMeans(m);
      if last.timezone.None? || TrimString(last.timezone.value) == "" {
        LastZoneIsNotBlank(ms[..|ms| - 1], m);
      }
    }
  }

  /** The timezone a combined message passes on when it is combined again. */
  lemma ZoneOfCombined(ms: seq<Message>)
    requires ms != []
    ensures LastTimezone(ms) == if BlankZone(Combine(ms)) then None else Combine(ms).timezone
  {
    BlankZoneMeans(Combine(ms));
    if |ms| == 1 {
      assert LastTimezone(ms[..0]) == None;
    } else {
      LastZoneIsNotBlank(ms, Combine(ms));
    }
  }

  lemma ImagesOfCombined(ms: seq<Message>)
    requires ms != []
    ensures ImagesOf(Combine(ms)) == AllImages(ms)
  {
    if |ms| == 1 {
      assert AllImages(ms) == ImagesOf(ms[0]) + AllImages(ms[1..]);
    }
  }

  function Pictures(m: Message): seq<string> { match m.images case None => [] case Some(images) => images }

  /** One message is combined to itself. Two groups are combined like their combinations: the texts with a line
      end between them, the images of the first and then of the second, the later timezone that is not blank,
      and all else from the second. */
  lemma CombineMeans(m: Message, a: seq<Message>, b: seq<Message>)
    requires a != [] && b != []
    ensures Combine([m]) == m
    ensures var c, x, y := Combine(a + b), Combine(a), Combine(b);
            && c == y.(text := c.text, images := c.images, timezone := c.timezone)
            && c.text == x.text + "\n" + y.text
            && Pictures(c) == Pictures(x) + Pictures(y) && c.images != Some([])
            && c.timezone == if !BlankZone(y) then y.timezone else if !BlankZone(x) then x.timezone else None
  {
    CombineTexts(a, b);
    CombineImages(a, b);
    CombineZones(a, b);
    CombineLast(a + b);
    CombineLast(b);
    assert (a + b)[|a + b| - 1] == b[|b| - 1];
  }

  lemma CombineLast(ms: seq<Message>)
    requires ms != []
    ensures var c := Combine(ms);
            c == ms[|ms| - 1].(text := c.text, images := c.images, timezone := c.timezone) && c.text == JoinTexts(ms)
  {}

  lemma CombineTexts(a: seq<Message>, b: seq<Message>)
    requires a != [] && b != []
    ensures Combine(a + b).text == Combine(a).text + "\n" + Combine(b).text
  {
    CombineLast(a);
    CombineLast(b);
    CombineLast(a + b);
    TextsOfBoth(a, b);
  }

  lemma CombineImages(a: seq<Message>, b: seq<Message>)
    requires a != [] && b != []
    ensures Pictures(Combine(a + b)) == Pictures(Combine(a)) + Pictures(Combine(b))
    ensures Combine(a + b).images != Some([])
  {
    ImagesOfCombined(a);
    ImagesOfCombined(b);
    ImagesOfCombined(a + b);
    ImagesOfBoth(a, b);
  }

  lemma CombineZones(a: seq<Message>, b: seq<Message>)
    requires a != [] && b != []
    ensures var x, y := Combine(a), Combine(b);
            Combine(a + b).timezone
            == if !BlankZone(y) then y.timezone else if !BlankZone(x) then x.timezone else None
  {
    ZoneOfCombined(a);
    ZoneOfCombined(b);
    ZoneOfBoth(a, b);
  }

  // ---------- what a message and a timer do ----------

  /** There is no window, or the message has images or is a command and the options let those pass. */
  predicate GoesAtOnce(o: Options, m: Message) {
    || o.windowMs <= 0
    || (o.bypassForAttachments && m.images.Some? && |m.images.value| > 0)
    || (o.bypassForCommands && "/" <= m.text)
  }

  function AuthorAndChat(m: Message): Key { m.channelKind + (":" + (m.senderId + (":" + m.chatId))) }

  lemma KeyMeans(m: Message)
    ensures KeyOf(m) == AuthorAndChat(m)
  {
    Regroup(m.senderId, ":", m.chatId);
    Regroup(m.channelKind, ":", m.senderId + ":" + m.chatId);
    Regroup(m.channelKind + ":", m.senderId, ":" + m.chatId);
    assert KeyOf(m) == AuthorAndChat(m);
  }

  /** `r` is `order` without its one `k`. */
  ghost predicate TakenOut(order: seq<Key>, r: seq<Key>, k: Key) {
    exists i :: 0 <= i < |order| && order[i] == k && r == order[..i] + order[i + 1..]
  }

  lemma {:induction false} WithoutNothing(order: seq<Key>, k: Key)
    requires k !in order
    ensures Without(order, k) == order
  {
    if order != [] {
      WithoutNothing(order[1..], k);
      assert order == [order[0]] + order[1..];
    }
  }

  lemma TakenOutCons(first: Key, order: seq<Key>, r: seq<Key>, k: Key)
    requires TakenOut(order, r, k)
    ensures TakenOut([first] + order, [first] + r, k)
  {
    var i :| 0 <= i < |order| && order[i] == k && r == order[..i] + order[i + 1..];
    var all := [first] + order;
    assert all[..i + 1] == [first] + order[..i] && all[i + 1 + 1..] == order[i + 1..] && all[i + 1] == k;
    Regroup([first], order[..i], order[i + 1..]);
  }

  lemma {:induction false} WithoutMeans(order: seq<Key>, k: Key)
    requires k in order && forall i, j :: 0 <= i < j < |order| ==> order[i] != order[j]
    ensures TakenOut(order, Without(order, k), k)
  {
    var first, rest := order[0], order[1..];
    assert order == [first] + rest;
    if first == k {
      WithoutNothing(rest, k);
      assert order[..0] + order[0 + 1..] == rest && Without(order, k) == rest;
    } else {
      WithoutMeans(rest, k);
      TakenOutCons(first, rest, Without(rest, k), k);
    }
  }

  /** The buffer of `k` is handed on as one message, and `k` and its timer are gone. */
  ghost predicate Emptied(s: State, n: State, k: Key) {
    && k in s.buffers && s.buffers[k].messages != []
    && n.buffers == s.buffers - {k} && n.timers == s.timers - {s.buffers[k].timer} && n.nextTimer == s.nextTimer
    && n.log == s.log + [Delivered(s.buffers[k].messages)]
    && n.handled == s.handled + [Combine(s.buffers[k].messages)] && TakenOut(s.order, n.order, k)
  }

  /** `m` is handed on as it is. */
  ghost predicate HandedOn(s: State, n: State, m: Message) {
    n == s.(handled := s.handled + [m], log := s.log + [Delivered([m])])
  }

  /** `m` waits behind the messages of its key, with `timer` instead of the one before. */
  ghost predicate WaitsFor(s: State, n: State, m: Message, k: Key, timer: nat) {
    && timer !in s.timers && n.log == s.log && n.handled == s.handled
    && n.buffers == s.buffers[k := Entry(BufferOf(s, k) + [m], timer)]
    && n.timers == (s.timers - (if k in s.buffers then {s.buffers[k].timer} else {}))[timer := k]
    && n.order == if k in s.buffers then s.order else s.order + [k]
  }

  ghost predicate Waits(s: State, n: State, m: Message, k: Key) { exists timer :: WaitsFor(s, n, m, k, timer) }

  /** What waits under the key of `m` is handed on, and then `m`. */
  ghost predicate Passes(s: State, n: State, m: Message, k: Key) {
    if k in s.buffers then exists between :: Emptied(s, between, k) && HandedOn(between, n, m)
    else HandedOn(s, n, m)
  }

  lemma BufferedWaits(s: State, m: Message)
    requires TimersInv(s)
    ensures Waits(s, Buffer(s, m), m, KeyOf(m))
  {
    var k, n := KeyOf(m), Buffer(s, m);
    assert s.nextTimer !in s.timers;
    assert BufferOf(s, k) + [m] == if k in s.buffers then s.buffers[k].messages + [m] else [m];
    assert s.timers - {} == s.timers;
    assert WaitsFor(s, n, m, k, s.nextTimer);
  }

  lemma BypassPasses(s: State, m: Message)
    requires Inv(s)
    ensures Passes(s, Handle(FlushKey(s, KeyOf(m)), [m]), m, KeyOf(m))
  {
    var k := KeyOf(m);
    if k in s.buffers {
      WithoutMeans(s.order, k);
      assert Emptied(s, FlushKey(s, k), k);
    }
    assert HandedOn(FlushKey(s, k), Handle(FlushKey(s, k), [m]), m);
  }

  /** In every reachable state a message is handed on at once exactly when there is no window, or it has images
      or is a command and those pass; what waits under its key goes first. Every other message waits, with a
      new timer, and nothing is handed on. */
  lemma SubmitMeans(o: Options, ts: seq<Step>, m: Message)
    ensures var s, n, k := Run(o, ts), Run(o, ts + [SubmitMessage(m)]), AuthorAndChat(m);
            if GoesAtOnce(o, m) then Passes(s, n, m, k) else Waits(s, n, m, k)
  {
    var s, all := Run(o, ts), ts + [SubmitMessage(m)];
    assert all[..|ts|] == ts;
    RunKeeps(o, ts, KeyOf(m));
    KeyMeans(m);
    BypassPasses(s, m);
    if m.text != "" && m.text[0] == '/' {
      assert "/" <= m.text;
    }
    if !GoesAtOnce(o, m) {
      BufferedWaits(s, m);
      assert Run(o, all) == Buffer(s, m);
    }
  }

  /** An armed timer hands on the buffer of its key; another does nothing. */
  lemma TimerMeans(o: Options, ts: seq<Step>, timer: nat)
    ensures var s, n := Run(o, ts), Run(o, ts + [TimerFires(timer)]);
            if timer in s.timers then Emptied(s, n, s.timers[timer]) else n == s
  {
    var s, all := Run(o, ts), ts + [TimerFires(timer)];
    assert all[..|ts|] == ts;
    RunKeeps(o, ts, "");
    if timer in s.timers {
      WithoutMeans(s.order, s.timers[timer]);
    }
  }

  // ---------- flush and destroy ----------

  ghost predicate AllBuffered(s: State, keys: seq<Key>) { forall i :: 0 <= i < |keys| ==> keys[i] in s.buffers }

  ghost predicate Different(keys: seq<Key>) { forall i, j :: 0 <= i < j < |keys| ==> keys[i] != keys[j] }

  ghost predicate InTurn(s: State, n: State, keys: seq<Key>)
    requires AllBuffered(s, keys)
  {
    && |n.log| == |s.log| + |keys| && n.log[..|s.log|] == s.log
    && forall i :: 0 <= i < |keys| ==> n.log[|s.log| + i] == Delivered(s.buffers[keys[i]].messages)
  }

  lemma InTurnCons(s: State, between: State, n: State, k: Key, rest: seq<Key>)
    requires k in s.buffers && between.log == s.log + [Delivered(s.buffers[k].messages)]
    requires between.buffers == s.buffers - {k}
    requires AllBuffered(between, rest) && InTurn(between, n, rest)
    ensures InTurn(s, n, [k] + rest)
  {
    var keys, at := [k] + rest, |s.log|;
    assert n.log[..at] == n.log[..at + 1][..at] == s.log;
    assert n.log[at] == n.log[..at + 1][at];
    forall i | 0 <= i < |keys| ensures n.log[at + i] == Delivered(s.buffers[keys[i]].messages) {
      if i > 0 {
        assert n.log[|between.log| + (i - 1)] == Delivered(between.buffers[rest[i - 1]].messages);
      }
    }
  }

  lemma RestBuffered(s: State, keys: seq<Key>)
    requires Buffered(s) && keys != [] && AllBuffered(s, keys) && Different(keys)
    ensures AllBuffered(FlushKey(s, keys[0]), keys[1..]) && Different(keys[1..])
  {
    var rest := keys[1..];
    assert forall i :: 0 <= i < |rest| ==> rest[i] == keys[i + 1];
  }

  lemma {:induction false} FlushAllInTurn(s: State, keys: seq<Key>)
    requires Buffered(s) && AllBuffered(s, keys) && Different(keys)
    ensures InTurn(s, FlushAll(s, keys), keys)
    decreases |keys|
  {
    if keys != [] {
      var k, rest := keys[0], keys[1..];
      RestBuffered(s, keys);
      FlushAllInTurn(FlushKey(s, k), rest);
      InTurnCons(s, FlushKey(s, k), FlushAll(s, keys), k, rest);
      assert keys == [k] + rest;
    }
  }

  /** A flush hands on every buffer, in the order in which their keys began to wait. */
  lemma FlushMeans(o: Options, ts: seq<Step>)
    ensures var s, n := Run(o, ts), Run(o, ts + [Flush]);
            && (forall k :: k in s.order <==> k in s.buffers) && InTurn(s, n, s.order)
            && n.handled == Combined(n.log) && n.buffers == map[] && n.timers == map[]
  {
    var s, all := Run(o, ts), ts + [Flush];
    assert all[..|ts|] == ts;
    RunKeeps(o, ts, "");
    RunKeeps(o, all, "");
    FlushAllInTurn(s, s.order);
    FlushEmpties(s);
  }

  lemma {:induction false} DiscardAllEmpties(s: State, keys: seq<Key>, k: Key)
    requires Inv(s)
    ensures DiscardAll(s, keys).handled == s.handled
    ensures k in DiscardAll(s, keys).buffers ==> k in s.buffers && k !in keys
    decreases |keys|
  {
    if keys != [] {
      DiscardKeyInv(s, keys[0]);
      DiscardAllEmpties(DiscardKey(s, keys[0]), keys[1..], k);
    }
  }

  /** `destroy` hands nothing on and leaves neither a buffer nor a timer behind. */
  lemma DestroyMeans(o: Options, ts: seq<Step>)
    ensures var s, n := Run(o, ts), Run(o, ts + [Destroy]);
            n.handled == s.handled && n.buffers == map[] && n.timers == map[]
  {
    var s, all := Run(o, ts), ts + [Destroy];
    var n := Run(o, all);
    assert all[..|ts|] == ts;
    RunKeeps(o, ts, "");
    RunKeeps(o, all, "");
    forall k ensures k !in n.buffers {
      DiscardAllEmpties(s, s.order, k);
    }
    DiscardAllEmpties(s, s.order, "");
    assert forall t :: t !in n.timers;
  }
}
