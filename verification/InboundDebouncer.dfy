/**
 The inbound debouncer: messages with one key (channel kind, sender and chat joined by colons) are
 buffered, combined and handed on when their timer fires. `log` is the history of groups that left
 the buffers.
 */
module InboundDebouncer {
  import opened Common

  type Key = string

  datatype Message = Message(
    channelKind: string, senderId: string, chatId: string, text: string, images: Option<seq<string>>,
    timezone: Option<string>, messageId: string)

  datatype Entry = Entry(messages: seq<Message>, timer: nat)

  /** A group handed to the handler, or thrown away by `destroy`. */
  datatype Event = Delivered(group: seq<Message>) | Discarded(group: seq<Message>)

  datatype Options = Options(windowMs: int, bypassForAttachments: bool, bypassForCommands: bool)

  /** `order` lists the buffered keys as the map enumerates them; `timers` holds the armed timers. */
  datatype State = State(
    buffers: map<Key, Entry>, order: seq<Key>, timers: map<nat, Key>, nextTimer: nat, handled: seq<Message>,
    log: seq<Event>)

  const INITIAL: State := State(map[], [], map[], 0, [], [])

  function KeyOf(m: Message): Key { m.channelKind + ":" + m.senderId + ":" + m.chatId }

  predicate ShouldBypass(o: Options, m: Message) {
    || (o.bypassForAttachments && m.images.Some? && m.images.value != [])
    || (o.bypassForCommands && m.text != "" && m.text[0] == '/')
  }

  function JoinTexts(ms: seq<Message>): string {
    if ms == [] then "" else if |ms| == 1 then ms[0].text else ms[0].text + "\n" + JoinTexts(ms[1..])
  }

  function ImagesOf(m: Message): seq<string> { if m.images.Some? then m.images.value else [] }

  function AllImages(ms: seq<Message>): seq<string> {
    if ms == [] then [] else ImagesOf(ms[0]) + AllImages(ms[1..])
  }

  /** The last timezone that is not blank. */
  function LastTimezone(ms: seq<Message>): Option<string> {
    if ms == [] then None
    else
      var last := ms[|ms| - 1];
      if last.timezone.Some? && TrimString(last.timezone.value) != "" then last.timezone
      else LastTimezone(ms[..|ms| - 1])
  }

  function Combine(ms: seq<Message>): Message
    requires ms != []
  {
    if |ms| == 1 then ms[0]
    else
      var images := AllImages(ms);
      ms[|ms| - 1].(text := JoinTexts(ms), images := if images == [] then None else Some(images),
                    timezone := LastTimezone(ms))
  }

  function Without(order: seq<Key>, k: Key): seq<Key> {
    if order == [] then [] else (if order[0] == k then [] else [order[0]]) + Without(order[1..], k)
  }

  ghost predicate Buffered(s: State) { forall k :: k in s.buffers ==> s.buffers[k].messages != [] }

  function Handle(s: State, group: seq<Message>): State
    requires group != []
  {
    s.(handled := s.handled + [Combine(group)], log := s.log + [Delivered(group)])
  }

  function Forget(s: State, k: Key): State
    requires k in s.buffers
  {
    s.(timers := s.timers - {s.buffers[k].timer}, buffers := s.buffers - {k}, order := Without(s.order, k))
  }

  function FlushKey(s: State, k: Key): State
    requires Buffered(s)
  {
    if k !in s.buffers then s else Handle(Forget(s, k), s.buffers[k].messages)
  }

  function Buffer(s: State, m: Message): State {
    var k := KeyOf(m);
    if k in s.buffers then
      s.(buffers := s.buffers[k := Entry(s.buffers[k].messages + [m], s.nextTimer)],
         timers := (s.timers - {s.buffers[k].timer})[s.nextTimer := k], nextTimer := s.nextTimer + 1)
    else
      s.(buffers := s.buffers[k := Entry([m], s.nextTimer)], order := s.order + [k],
         timers := s.timers[s.nextTimer := k], nextTimer := s.nextTimer + 1)
  }

  function Submit(o: Options, s: State, m: Message): State
    requires Buffered(s)
  {
    if o.windowMs <= 0 then Handle(s, [m])
    else if ShouldBypass(o, m) then Handle(FlushKey(s, KeyOf(m)), [m])
    else Buffer(s, m)
  }

  function FlushAll(s: State, keys: seq<Key>): (r: State)
    requires Buffered(s)
    ensures Buffered(r)
    decreases |keys|
  {
    if keys == [] then s else FlushAll(FlushKey(s, keys[0]), keys[1..])
  }

  function DiscardKey(s: State, k: Key): State
    requires Buffered(s)
  {
    if k !in s.buffers then s else Forget(s, k).(log := s.log + [Discarded(s.buffers[k].messages)])
  }

  /** Throws the buffers away, in their order. */
  function DiscardAll(s: State, keys: seq<Key>): (r: State)
    requires Buffered(s)
    ensures Buffered(r)
    decreases |keys|
  {
    if keys == [] then s else DiscardAll(DiscardKey(s, keys[0]), keys[1..])
  }

  datatype Step = SubmitMessage(message: Message) | TimerFires(timer: nat) | Flush | Destroy

  /** One step; a timer that is not armed does not fire. */
  function Apply(o: Options, s: State, t: Step): (r: State)
    requires Buffered(s)
    ensures Buffered(r)
  {
    match t
    case SubmitMessage(m) => Submit(o, s, m)
    case TimerFires(timer) => if timer in s.timers then FlushKey(s, s.timers[timer]) else s
    case Flush => FlushAll(s, s.order)
    case Destroy => DiscardAll(s, s.order)
  }

  class Debouncer {
    const options: Options
    var buffers: map<Key, Entry>
    var order: seq<Key>
    var timers: map<nat, Key>
    var nextTimer: nat
    var handled: seq<Message>
    ghost var log: seq<Event>

    ghost function Current(): State
      reads this
    {
      State(buffers, order, timers, nextTimer, handled, log)
    }

    constructor (options: Options)
      ensures this.options == options && Current() == INITIAL
    {
      this.options := options;
      buffers, order, timers, nextTimer, handled, log := map[], [], map[], 0, [], [];
    }

    method FlushOne(key: Key)
      requires Buffered(Current())
      modifies this
      ensures Current() == FlushKey(old(Current()), key) && Buffered(Current())
    {
      if key !in buffers {
        return;
      }
      var entry := buffers[key];
      timers := timers - {entry.timer};
      buffers := buffers - {key};
      order := Without(order, key);
      handled := handled + [Combine(entry.messages)];
      log := log + [Delivered(entry.messages)];
    }

    method Receive(msg: Message)
      requires Buffered(Current())
      modifies this
      ensures Current() == Apply(options, old(Current()), SubmitMessage(msg))
      ensures Buffered(Current())
    {
      if options.windowMs <= 0 {
        handled := handled + [msg];
        log := log + [Delivered([msg])];
        return;
      }
      var key := KeyOf(msg);
      if ShouldBypass(options, msg) {
        if key in buffers {
          FlushOne(key);
        }
        handled := handled + [msg];
        log := log + [Delivered([msg])];
        return;
      }
      if key in buffers {
        var existing := buffers[key];
        timers := timers - {existing.timer};
        timers := timers[nextTimer := key];
        buffers := buffers[key := Entry(existing.messages + [msg], nextTimer)];
      } else {
        timers := timers[nextTimer := key];
        buffers := buffers[key := Entry([msg], nextTimer)];
        order := order + [key];
      }
      nextTimer := nextTimer + 1;
    }

    method OnTimer(timer: nat)
      requires Buffered(Current()) && timer in timers
      modifies this
      ensures Current() == Apply(options, old(Current()), TimerFires(timer))
      ensures Buffered(Current())
    {
      FlushOne(timers[timer]);
    }

    method FlushPending()
      requires Buffered(Current())
      modifies this
      ensures Current() == Apply(options, old(Current()), Flush)
      ensures Buffered(Current())
    {
      var keys := order;
      var i := 0;
      while i < |keys|
        invariant 0 <= i <= |keys| && Buffered(Current())
        invariant FlushAll(Current(), keys[i..]) == FlushAll(old(Current()), keys)
      {
        assert keys[i..][0] == keys[i] && keys[i..][1..] == keys[i + 1..];
        FlushOne(keys[i]);
        i := i + 1;
      }
    }

    method CancelAll()
      requires Buffered(Current())
      modifies this
      ensures Current() == Apply(options, old(Current()), Destroy)
      ensures Buffered(Current())
    {
      var keys := order;
      var i := 0;
      while i < |keys|
        invariant 0 <= i <= |keys| && Buffered(Current())
        invariant DiscardAll(Current(), keys[i..]) == DiscardAll(old(Current()), keys)
      {
        var key := keys[i];
        assert keys[i..][0] == key && keys[i..][1..] == keys[i + 1..];
        if key in buffers {
          var entry := buffers[key];
          timers := timers - {entry.timer};
          buffers := buffers - {key};
          order := Without(order, key);
          log := log + [Discarded(entry.messages)];
        }
        i := i + 1;
      }
    }
  }
}
