/**
 * The message bus the agents talk through: named channels holding the
 * messages published on them, and subscribers holding one callback per
 * channel. The bus is a value; each operation returns the new bus with its
 * boolean outcome. JavaScript `Map`s iterate in insertion order, so the
 * order in which channels and subscribers were first added is kept beside
 * each map. Callbacks are named by handler numbers, and publishing returns
 * the list of callback invocations instead of performing them.
 */
module MessageBus {
  import opened Sequences

  /** A subscriber's callback: a function, or some other value that `publish` skips. */
  datatype Callback = Handler(id: nat) | NotCallable

  /** A published message: the caller's fields and the `_metadata` the bus adds. */
  datatype Message = Message(body: map<string, string>, timestamp: string, sender: string, channel: string)

  /** One callback invocation made by `publish`. */
  datatype Delivery = Delivery(subscriber: string, handler: nat)

  datatype Bus = Bus(channels: map<string, seq<Message>>, channelOrder: seq<string>,
                     subscribers: map<string, map<string, Callback>>, subscriberOrder: seq<string>)

  const DefaultLimit: int := 100

  const Empty: Bus := Bus(map[], [], map[], [])

  /**
   * The shape every operation keeps: each order lists its map's keys once,
   * and every subscription names an existing channel.
   */
  ghost predicate Valid(b: Bus) {
    && Distinct(b.channelOrder) && (forall c :: c in b.channels <==> c in b.channelOrder)
    && Distinct(b.subscriberOrder) && (forall s :: s in b.subscribers <==> s in b.subscriberOrder)
    && (forall s, c :: s in b.subscribers && c in b.subscribers[s] ==> c in b.channels)
  }

  predicate Subscribed(b: Bus, s: string, c: string) {
    s in b.subscribers && c in b.subscribers[s]
  }

  lemma EmptyIsValid()
    ensures Valid(Empty)
  {
  }

  /** `s` without the occurrences of `x`. */
  function Without(s: seq<string>, x: string): (r: seq<string>)
    ensures forall y :: y in r <==> y in s && y != x
    ensures Distinct(s) ==> Distinct(r)
    ensures IsSubsequence(r, s)
  {
    if s == [] then []
    else
      var rest := Without(s[1..], x);
      if s[0] == x then rest
      else
        assert Distinct(s) ==> s[0] !in s[1..] && Distinct(s[1..]) by {
          if Distinct(s) {
            DistinctTail(s);
          }
        }
        var r := [s[0]] + rest;
        assert r[1..] == rest;
        assert Distinct(s) ==> Distinct(r) by {
          if Distinct(s) {
            forall i, j | 0 <= i < j < |r| ensures r[i] != r[j] {
              if i == 0 {
                assert r[j] in rest;
              } else {
                assert r[i] == rest[i - 1] && r[j] == rest[j - 1];
              }
            }
          }
        }
        r
  }

  /** `createChannel(name)`: refused for an existing name, otherwise adds an empty channel. */
  function CreateChannel(b: Bus, name: string): (r: (Bus, bool))
    ensures r.1 <==> name !in b.channels
    ensures !r.1 ==> r.0 == b
    ensures r.1 ==> r.0.channels.Keys == b.channels.Keys + {name} && r.0.channels[name] == []
    ensures forall c :: c in b.channels ==> c in r.0.channels && r.0.channels[c] == b.channels[c]
    ensures r.0.subscribers == b.subscribers && r.0.subscriberOrder == b.subscriberOrder
  {
    if name in b.channels then (b, false)
    else (b.(channels := b.channels[name := []], channelOrder := b.channelOrder + [name]), true)
  }

  /**
   * `subscribe(channel, subscriber, callback)`: creates the channel when it is
   * missing and records the callback, replacing any earlier one for the pair.
   */
  function Subscribe(b: Bus, channel: string, subscriber: string, callback: Callback): (r: (Bus, bool))
    ensures r.1
    ensures channel in r.0.channels && Subscribed(r.0, subscriber, channel)
    ensures r.0.subscribers[subscriber][channel] == callback
    ensures forall s, c :: Subscribed(r.0, s, c) <==> Subscribed(b, s, c) || (s == subscriber && c == channel)
    ensures forall s, c :: Subscribed(b, s, c) && !(s == subscriber && c == channel) ==>
              Subscribed(r.0, s, c) && r.0.subscribers[s][c] == b.subscribers[s][c]
    ensures forall c :: c in b.channels ==> c in r.0.channels && r.0.channels[c] == b.channels[c]
    ensures channel !in b.channels ==> r.0.channels[channel] == []
  {
    var b1 := CreateChannel(b, channel).0;
    var known := subscriber in b1.subscribers;
    var callbacks := if known then b1.subscribers[subscriber] else map[];
    var order := if known then b1.subscriberOrder else b1.subscriberOrder + [subscriber];
    (b1.(subscribers := b1.subscribers[subscriber := callbacks[channel := callback]], subscriberOrder := order), true)
  }

  /** `unsubscribe(channel, subscriber)`: refused unless the pair is subscribed; otherwise removes that pair only. */
  function Unsubscribe(b: Bus, channel: string, subscriber: string): (r: (Bus, bool))
    ensures r.1 <==> Subscribed(b, subscriber, channel)
    ensures !r.1 ==> r.0 == b
    ensures forall s, c :: Subscribed(r.0, s, c) <==> Subscribed(b, s, c) && !(s == subscriber && c == channel)
    ensures forall s, c :: Subscribed(r.0, s, c) ==> Subscribed(b, s, c) && r.0.subscribers[s][c] == b.subscribers[s][c]
    ensures r.0.channels == b.channels && r.0.channelOrder == b.channelOrder
    ensures r.0.subscriberOrder == b.subscriberOrder && r.0.subscribers.Keys == b.subscribers.Keys
  {
    if !Subscribed(b, subscriber, channel) then (b, false)
    else
      var callbacks := b.subscribers[subscriber] - {channel};
      (b.(subscribers := b.subscribers[subscriber := callbacks]), true)
  }

  /** The callbacks of `channel` that `publish` invokes, walking subscribers in `order`. */
  function Notify(order: seq<string>, subscribers: map<string, map<string, Callback>>,
                  channel: string, sender: string): (r: seq<Delivery>)
    ensures forall i :: 0 <= i < |r| ==>
              r[i].subscriber in order && r[i].subscriber != sender && r[i].subscriber in subscribers
              && channel in subscribers[r[i].subscriber]
              && subscribers[r[i].subscriber][channel] == Handler(r[i].handler)
    ensures forall s :: (s in order && s in subscribers && channel in subscribers[s]
                         && subscribers[s][channel].Handler? && s != sender) ==>
              exists i :: 0 <= i < |r| && r[i].subscriber == s
    ensures IsSubsequence(Recipients(r), order)
  {
    if order == [] then []
    else
      var rest := Notify(order[1..], subscribers, channel, sender);
      var s := order[0];
      if s in subscribers && channel in subscribers[s] && s != sender && subscribers[s][channel].Handler? then
        var r := [Delivery(s, subscribers[s][channel].id)] + rest;
        assert forall i :: 1 <= i < |r| ==> r[i] == rest[i - 1];
        assert r[0].subscriber == s;
        assert Recipients(r)[1..] == Recipients(rest);
        r
      else
        rest
  }

  function Recipients(ds: seq<Delivery>): (r: seq<string>)
    ensures |r| == |ds| && forall i :: 0 <= i < |ds| ==> r[i] == ds[i].subscriber
  {
    if ds == [] then [] else [ds[0].subscriber] + Recipients(ds[1..])
  }

  /**
   * `publish(channel, message, sender)`: refused for an unknown channel;
   * otherwise appends one message carrying the metadata and invokes the
   * channel's callbacks, skipping the sender.
   */
  function Publish(b: Bus, channel: string, body: map<string, string>, sender: string, timestamp: string)
    : (r: (Bus, bool, seq<Delivery>))
    ensures r.1 <==> channel in b.channels
    ensures !r.1 ==> r.0 == b && r.2 == []
    ensures r.1 ==> channel in r.0.channels
                    && r.0.channels[channel] == b.channels[channel] + [Message(body, timestamp, sender, channel)]
    ensures forall c :: c in b.channels && c != channel ==> c in r.0.channels && r.0.channels[c] == b.channels[c]
    ensures r.0.channels.Keys == b.channels.Keys && r.0.subscribers == b.subscribers
    ensures r.0.channelOrder == b.channelOrder && r.0.subscriberOrder == b.subscriberOrder
  {
    if channel !in b.channels then (b, false, [])
    else
      var message := Message(body, timestamp, sender, channel);
      var next := b.(channels := b.channels[channel := b.channels[channel] + [message]]);
      (next, true, Notify(b.subscriberOrder, b.subscribers, channel, sender))
  }

  /**
   * On a valid bus `publish` invokes exactly the callable subscribers of the
   * channel other than the sender, each once, in the order `getSubscribers` lists them.
   */
  lemma PublishNotifiesSubscribersOnce(b: Bus, channel: string, body: map<string, string>, sender: string, timestamp: string)
    requires Valid(b) && channel in b.channels
    ensures var ds := Publish(b, channel, body, sender, timestamp).2;
      && (forall s :: s in Recipients(ds) <==>
            Subscribed(b, s, channel) && s != sender && b.subscribers[s][channel].Handler?)
      && Distinct(Recipients(ds))
      && IsSubsequence(Recipients(ds), GetSubscribers(b, channel))
  {
    var ds := Publish(b, channel, body, sender, timestamp).2;
    NotifyWithin(b.subscriberOrder, b.subscribers, channel, sender);
    SubsequenceDistinct(Recipients(ds), b.subscriberOrder);
    forall s | Subscribed(b, s, channel) && s != sender && b.subscribers[s][channel].Handler?
      ensures s in Recipients(ds)
    {
      var i :| 0 <= i < |ds| && ds[i].subscriber == s;
      assert Recipients(ds)[i] == s;
    }
  }

  /** The invoked subscribers also form a subsequence of the subscribers of the channel. */
  lemma {:induction false} NotifyWithin(order: seq<string>, subscribers: map<string, map<string, Callback>>,
                                        channel: string, sender: string)
    ensures IsSubsequence(Recipients(Notify(order, subscribers, channel, sender)),
                          SubscribersIn(order, subscribers, channel))
    decreases |order|
  {
    if order != [] {
      NotifyWithin(order[1..], subscribers, channel, sender);
      var rest := Notify(order[1..], subscribers, channel, sender);
      var r := Notify(order, subscribers, channel, sender);
      var s := order[0];
      var subs := SubscribersIn(order, subscribers, channel);
      if s in subscribers && channel in subscribers[s] {
        assert subs[1..] == SubscribersIn(order[1..], subscribers, channel);
        if s != sender && subscribers[s][channel].Handler? {
          assert Recipients(r)[1..] == Recipients(rest);
        } else {
          assert r == rest;
        }
      } else {
        assert subs == SubscribersIn(order[1..], subscribers, channel);
        assert r == rest;
      }
    }
  }

  /** A subsequence of a sequence without repetitions has none either. */
  lemma {:induction false} SubsequenceDistinct(s: seq<string>, t: seq<string>)
    requires IsSubsequence(s, t) && Distinct(t)
    ensures Distinct(s)
    decreases |t|
  {
    if t != [] {
      DistinctTail(t);
      if s != [] && s[0] == t[0] && IsSubsequence(s[1..], t[1..]) {
        SubsequenceDistinct(s[1..], t[1..]);
        SubsequenceWithin(s[1..], t[1..]);
        forall i, j | 0 <= i < j < |s| ensures s[i] != s[j] {
          if i == 0 {
            assert s[j] == s[1..][j - 1] && s[j] in s[1..];
          } else {
            assert s[i] == s[1..][i - 1] && s[j] == s[1..][j - 1];
          }
        }
      } else {
        SubsequenceDistinct(s, t[1..]);
      }
    }
  }

  /** Every element of a subsequence is an element of the whole. */
  lemma {:induction false} SubsequenceWithin<T>(s: seq<T>, t: seq<T>)
    requires IsSubsequence(s, t)
    ensures forall x :: x in s ==> x in t
    decreases |t|
  {
    if t != [] {
      if s != [] && s[0] == t[0] && IsSubsequence(s[1..], t[1..]) {
        SubsequenceWithin(s[1..], t[1..]);
        assert forall x :: x in s ==> x == s[0] || x in s[1..];
      } else {
        SubsequenceWithin(s, t[1..]);
      }
    }
  }

  /** The subscribers in `order` holding `channel`. */
  function SubscribersIn(order: seq<string>, subscribers: map<string, map<string, Callback>>, channel: string)
    : (r: seq<string>)
    ensures forall s :: s in r <==> s in order && s in subscribers && channel in subscribers[s]
    ensures IsSubsequence(r, order)
  {
    if order == [] then []
    else
      var rest := SubscribersIn(order[1..], subscribers, channel);
      var s := order[0];
      if s in subscribers && channel in subscribers[s] then
        assert ([s] + rest)[1..] == rest;
        [s] + rest
      else rest
  }

  /** `getSubscribers(channel)`: the subscribers holding the channel, in the order they first subscribed to anything. */
  function GetSubscribers(b: Bus, channel: string): (r: seq<string>)
    ensures Valid(b) ==> forall s :: s in r <==> Subscribed(b, s, channel)
    ensures Valid(b) ==> Distinct(r)
  {
    var r := SubscribersIn(b.subscriberOrder, b.subscribers, channel);
    assert Valid(b) ==> Distinct(r) by {
      if Valid(b) {
        SubsequenceDistinct(r, b.subscriberOrder);
      }
    }
    r
  }

  /** `getChannels()`: the channel names in creation order. */
  function GetChannels(b: Bus): (r: seq<string>)
    ensures Valid(b) ==> Distinct(r) && forall c :: c in r <==> c in b.channels
  {
    b.channelOrder
  }

  /** Where JavaScript's `slice(start)` starts on a list of `n` elements. */
  function SliceStart(n: nat, start: int): (k: nat)
    ensures k <= n
  {
    if start < 0 then (if n + start < 0 then 0 else n + start)
    else if start < n then start else n
  }

  /**
   * `getMessages(channel, limit)` as written: `slice(-limit)`. For a positive
   * limit this is the last `limit` messages, but `-0` is `0`, so a limit of
   * 0 returns the whole channel, and a negative limit drops messages from the front.
   */
  function GetMessagesAsWritten(b: Bus, channel: string, limit: int): (r: seq<Message>)
    ensures channel !in b.channels ==> r == []
    ensures channel in b.channels ==> r == b.channels[channel][SliceStart(|b.channels[channel]|, -limit)..]
  {
    if channel !in b.channels then []
    else b.channels[channel][SliceStart(|b.channels[channel]|, -limit)..]
  }

  /** A channel holding one message yields that message when asked for at most zero. */
  lemma ZeroLimitReturnsEverything(m: Message)
    ensures var b := Bus(map["c" := [m]], ["c"], map[], []);
      |GetMessagesAsWritten(b, "c", 0)| == 1
  {
  }

  /** `getMessages(channel, limit)`: the last `min(limit, n)` messages of the channel, oldest first. */
  function GetMessages(b: Bus, channel: string, limit: int): (r: seq<Message>)
    ensures channel !in b.channels ==> r == []
    ensures channel in b.channels ==>
              var all := b.channels[channel];
              |r| == (if limit <= 0 then 0 else if limit < |all| then limit else |all|)
              && r == all[|all| - |r|..]
  {
    if channel !in b.channels || limit <= 0 then []
    else
      var all := b.channels[channel];
      all[if limit < |all| then |all| - limit else 0..]
  }

  /** For a positive limit the corrected reading agrees with the code. */
  lemma GetMessagesAgreeOnPositiveLimits(b: Bus, channel: string, limit: int)
    requires limit > 0
    ensures GetMessages(b, channel, limit) == GetMessagesAsWritten(b, channel, limit)
  {
  }

  /**
   * `getMessages(channel)` with the default limit of 100: the code's `slice`
   * then keeps at most the last 100 messages, oldest first.
   */
  function GetRecentMessages(b: Bus, channel: string): (r: seq<Message>)
    ensures channel !in b.channels ==> r == []
    ensures channel in b.channels ==>
              var all := b.channels[channel];
              |r| == (if |all| < DefaultLimit then |all| else DefaultLimit) && r == all[|all| - |r|..]
  {
    GetMessagesAgreeOnPositiveLimits(b, channel, DefaultLimit);
    GetMessagesAsWritten(b, channel, DefaultLimit)
  }

  /** `removeChannel(name)`: refused for an unknown channel; otherwise deletes it and every subscription to it. */
  function RemoveChannel(b: Bus, name: string): (r: (Bus, bool))
    ensures r.1 <==> name in b.channels
    ensures !r.1 ==> r.0 == b
    ensures r.1 ==> r.0.channels == b.channels - {name}
    ensures r.1 ==> forall s, c :: Subscribed(r.0, s, c) <==> Subscribed(b, s, c) && c != name
    ensures forall s, c :: Subscribed(r.0, s, c) ==> Subscribed(b, s, c) && r.0.subscribers[s][c] == b.subscribers[s][c]
    ensures r.0.subscriberOrder == b.subscriberOrder && r.0.subscribers.Keys == b.subscribers.Keys
  {
    if name !in b.channels then (b, false)
    else
      var subscribers := map s | s in b.subscribers :: b.subscribers[s] - {name};
      (b.(channels := b.channels - {name}, channelOrder := Without(b.channelOrder, name),
          subscribers := subscribers), true)
  }

  /** After `removeChannel` nobody is listed as a subscriber of the removed channel. */
  lemma RemovedChannelHasNoSubscribers(b: Bus, name: string)
    requires Valid(b)
    ensures GetSubscribers(RemoveChannel(b, name).0, name) == []
  {
    var r := RemoveChannel(b, name).0;
    RemoveKeepsValid(b, name);
    assert forall s :: !Subscribed(r, s, name);
    var subs := GetSubscribers(r, name);
    assert forall i :: 0 <= i < |subs| ==> subs[i] in subs;
  }

  // ---------------------------------------------------------------------------
  // Every operation keeps the bus valid
  // ---------------------------------------------------------------------------

  lemma CreateKeepsValid(b: Bus, name: string)
    requires Valid(b)
    ensures Valid(CreateChannel(b, name).0)
  {
    if name !in b.channels {
      DistinctAppend(b.channelOrder, name);
    }
  }

  lemma SubscribeKeepsValid(b: Bus, channel: string, subscriber: string, callback: Callback)
    requires Valid(b)
    ensures Valid(Subscribe(b, channel, subscriber, callback).0)
  {
    CreateKeepsValid(b, channel);
    var b1 := CreateChannel(b, channel).0;
    if subscriber !in b1.subscribers {
      DistinctAppend(b1.subscriberOrder, subscriber);
    }
  }

  lemma UnsubscribeKeepsValid(b: Bus, channel: string, subscriber: string)
    requires Valid(b)
    ensures Valid(Unsubscribe(b, channel, subscriber).0)
  {
  }

  lemma PublishKeepsValid(b: Bus, channel: string, body: map<string, string>, sender: string, timestamp: string)
    requires Valid(b)
    ensures Valid(Publish(b, channel, body, sender, timestamp).0)
  {
  }

  lemma RemoveKeepsValid(b: Bus, name: string)
    requires Valid(b)
    ensures Valid(RemoveChannel(b, name).0)
  {
  }
}
