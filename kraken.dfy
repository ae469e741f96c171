/** The Kraken adapter: one subscribe command per channel name listing its pairs, the
    classification of inbound frames (answering server heartbeats with a ping), and channel names. */
module Kraken {
  import opened Wrappers
  import opened Text
  import opened Json
  import opened Classify
  import OpCommand

  // ---------------------------------------------------------------------------
  // Command encoder

  function EventPrefix(subscribe: bool): string {
    "{\"event\":\"" + OpCommand.OpName(subscribe) + "\",\"pair\":"
  }

  const SubscriptionPrefix: string := ",\"subscription\":{\"name\":\""

  /** The command for one channel name and its pairs. The pairs are serialised as a JSON array
      (modelled for pairs that need no escaping); the name is written between quotes as it is.
      When the pairs need no escaping and the name holds no quote, the command reads back as
      its flag, its pairs in order, and its name. */
  function NamePairsToCommand(name: string, pairs: seq<string>, subscribe: bool): (r: string)
    ensures (forall i | 0 <= i < |pairs| :: Plain(pairs[i])) && '"' !in name
        ==> DecodeCommand(r) == Some((subscribe, pairs, name))
  {
    Associative5(EventPrefix(subscribe), StringArray(pairs), SubscriptionPrefix, name, "\"}}");
    CommandBodyDecodes(name, pairs, subscribe);
    EventPrefix(subscribe) + StringArray(pairs) + SubscriptionPrefix + name + "\"}}"
  }

  /** The tail of a command after its pair array: the subscription name, then the closing braces. */
  function NameOf(tail: string): Option<string> {
    match StripPrefix(tail, SubscriptionPrefix)
    case None => None
    case Some(rest) =>
      match SplitAtFirst(rest, '"')
      case None => None
      case Some(parts) => if parts.1 == "}}" then Some(parts.0) else None
  }

  function DecodeBody(body: string, subscribe: bool): Option<(bool, seq<string>, string)> {
    match ParseStringArray(body)
    case None => None
    case Some(parsed) =>
      match NameOf(parsed.1)
      case None => None
      case Some(name) => Some((subscribe, parsed.0, name))
  }

  /** Reads a command back: whether it subscribes, its pairs and its channel name. */
  function DecodeCommand(cmd: string): Option<(bool, seq<string>, string)> {
    match StripPrefix(cmd, EventPrefix(true))
    case Some(body) => DecodeBody(body, true)
    case None =>
      match StripPrefix(cmd, EventPrefix(false))
      case Some(body) => DecodeBody(body, false)
      case None => None
  }

  /** The prefix of the requested operation, a serialised array and the subscription tail read
      back as that operation, the array's items and the name. */
  lemma CommandBodyDecodes(name: string, pairs: seq<string>, subscribe: bool)
    ensures (forall i | 0 <= i < |pairs| :: Plain(pairs[i])) && '"' !in name
        ==> (DecodeCommand(EventPrefix(subscribe) + (StringArray(pairs) + (SubscriptionPrefix + name + "\"}}")))
             == Some((subscribe, pairs, name)))
  {
    if (forall i | 0 <= i < |pairs| :: Plain(pairs[i])) && '"' !in name {
      var tail := SubscriptionPrefix + name + "\"}}";
      var body := StringArray(pairs) + tail;
      StripPrefixConcat(EventPrefix(subscribe), body);
      if !subscribe {
        UnsubscribeIsNotSubscribe(body);
      }
      NameOfTail(name);
      StringArrayRoundTrip(pairs, tail);
      assert DecodeBody(body, subscribe) == Some((subscribe, pairs, name));
    }
  }

  lemma UnsubscribeIsNotSubscribe(body: string)
    ensures StripPrefix(EventPrefix(false) + body, EventPrefix(true)) == None
  {
    var cmd := EventPrefix(false) + body;
    assert cmd[10] == EventPrefix(false)[10] == 'u';
    StripPrefixMismatch(cmd, EventPrefix(true), 10);
  }

  lemma NameOfTail(name: string)
    requires '"' !in name
    ensures NameOf(SubscriptionPrefix + name + "\"}}") == Some(name)
  {
    var tail := SubscriptionPrefix + name + "\"}}";
    assert tail == SubscriptionPrefix + (name + ['"'] + "}}");
    SplitAtFirstJoin(name, '"', "}}");
  }

  /** The command for one pair, as the source's `test_one_pair` spells it out. */
  lemma OnePairCommand(name: string, pair: string, subscribe: bool)
    requires Plain(pair)
    ensures NamePairsToCommand(name, [pair], subscribe)
         == "{\"event\":\"" + OpCommand.OpName(subscribe) + "\",\"pair\":[\"" + pair + "\"],\"subscription\":{\"name\":\"" + name + "\"}}"
  {
    OnePairPieces(name, pair, subscribe);
    RegroupOne(OpCommand.OpName(subscribe), name, pair);
  }

  lemma OnePairPieces(name: string, pair: string, subscribe: bool)
    requires Plain(pair)
    ensures NamePairsToCommand(name, [pair], subscribe)
         == "{\"event\":\"" + OpCommand.OpName(subscribe) + "\",\"pair\":" + ("[" + ("\"" + pair + "\"") + "]")
          + ",\"subscription\":{\"name\":\"" + name + "\"}}"
  {
    assert Items([pair]) == Quote(pair);
  }

  lemma RegroupOne(event: string, name: string, pair: string)
    ensures "{\"event\":\"" + event + "\",\"pair\":" + ("[" + ("\"" + pair + "\"") + "]")
          + ",\"subscription\":{\"name\":\"" + name + "\"}}"
         == "{\"event\":\"" + event + "\",\"pair\":[\"" + pair + "\"],\"subscription\":{\"name\":\"" + name + "\"}}"
  {
  }

  /** The command for two pairs, as the source's `test_two_pairs` spells it out. */
  lemma TwoPairsCommand(name: string, p: string, q: string, subscribe: bool)
    requires Plain(p) && Plain(q)
    ensures NamePairsToCommand(name, [p, q], subscribe)
         == "{\"event\":\"" + OpCommand.OpName(subscribe) + "\",\"pair\":[\"" + p + "\",\"" + q
          + "\"],\"subscription\":{\"name\":\"" + name + "\"}}"
  {
    TwoPairsPieces(name, p, q, subscribe);
    RegroupTwo(OpCommand.OpName(subscribe), name, p, q);
  }

  lemma TwoPairsPieces(name: string, p: string, q: string, subscribe: bool)
    requires Plain(p) && Plain(q)
    ensures NamePairsToCommand(name, [p, q], subscribe)
         == "{\"event\":\"" + OpCommand.OpName(subscribe) + "\",\"pair\":"
          + ("[" + (("\"" + p + "\"") + "," + ("\"" + q + "\"")) + "]")
          + ",\"subscription\":{\"name\":\"" + name + "\"}}"
  {
    assert [p, q][1..] == [q];
    assert Items([q]) == Quote(q);
  }

  lemma RegroupTwo(event: string, name: string, p: string, q: string)
    ensures "{\"event\":\"" + event + "\",\"pair\":"
          + ("[" + (("\"" + p + "\"") + "," + ("\"" + q + "\"")) + "]")
          + ",\"subscription\":{\"name\":\"" + name + "\"}}"
         == "{\"event\":\"" + event + "\",\"pair\":[\"" + p + "\",\"" + q
          + "\"],\"subscription\":{\"name\":\"" + name + "\"}}"
  {
  }

  // ---------------------------------------------------------------------------
  // Grouping channels by name

  /** A raw channel the source can split: it holds the delimiter, so `v[1]` exists. */
  predicate Delimited(channel: string) {
    ChannelPairDelimiter in channel
  }

  predicate AllDelimited(channels: seq<string>) {
    forall i | 0 <= i < |channels| :: Delimited(channels[i])
  }

  /** The channel name: the first `:`-separated segment. */
  function NameOfChannel(channel: string): string {
    FirstSegment(channel, ChannelPairDelimiter)
  }

  /** The pair: the second `:`-separated segment (anything after a second `:` is dropped). */
  function PairOfChannel(channel: string): string
    requires Delimited(channel)
  {
    SecondSegment(channel, ChannelPairDelimiter).value
  }

  /** The channel names occurring in `channels`. */
  function Names(channels: seq<string>): set<string> {
    if channels == [] then {}
    else Names(channels[..|channels| - 1]) + {NameOfChannel(channels[|channels| - 1])}
  }

  /** The pairs of the channels named `name`, in input order. */
  function PairsOf(channels: seq<string>, name: string): seq<string>
    requires AllDelimited(channels)
  {
    if channels == [] then []
    else
      var last := channels[|channels| - 1];
      PairsOf(channels[..|channels| - 1], name) + (if NameOfChannel(last) == name then [PairOfChannel(last)] else [])
  }

  /** The map the first loop of `channels_to_commands` builds, one channel at a time. */
  function Grouped(channels: seq<string>): map<string, seq<string>>
    requires AllDelimited(channels)
  {
    if channels == [] then map[]
    else
      var m := Grouped(channels[..|channels| - 1]);
      var last := channels[|channels| - 1];
      var name := NameOfChannel(last);
      m[name := (if name in m then m[name] else []) + [PairOfChannel(last)]]
  }

  /** A name is among the names exactly when some channel carries it. */
  lemma {:induction false} NamesMeaning(channels: seq<string>, name: string)
    ensures name in Names(channels) <==> exists i | 0 <= i < |channels| :: NameOfChannel(channels[i]) == name
  {
    if channels != [] {
      var init := channels[..|channels| - 1];
      NamesMeaning(init, name);
      if name in Names(init) {
        var i :| 0 <= i < |init| && NameOfChannel(init[i]) == name;
        assert channels[i] == init[i];
      }
      if exists i | 0 <= i < |channels| :: NameOfChannel(channels[i]) == name {
        var i :| 0 <= i < |channels| && NameOfChannel(channels[i]) == name;
        if i < |init| {
          assert channels[i] == init[i];
        }
      }
    }
  }

  /** Every listed pair comes from a channel carrying that name and that pair. */
  lemma {:induction false} PairsOfSound(channels: seq<string>, name: string, pair: string)
    requires AllDelimited(channels)
    requires pair in PairsOf(channels, name)
    ensures exists i | 0 <= i < |channels| :: NameOfChannel(channels[i]) == name && PairOfChannel(channels[i]) == pair
  {
    var init := channels[..|channels| - 1];
    if pair in PairsOf(init, name) {
      PairsOfSound(init, name, pair);
      var i :| 0 <= i < |init| && NameOfChannel(init[i]) == name && PairOfChannel(init[i]) == pair;
      assert channels[i] == init[i];
    } else {
      assert NameOfChannel(channels[|channels| - 1]) == name;
    }
  }

  /** No channel's pair is lost: it is listed under the channel's name. */
  lemma {:induction false} PairsOfComplete(channels: seq<string>, i: nat)
    requires AllDelimited(channels)
    requires i < |channels|
    ensures PairOfChannel(channels[i]) in PairsOf(channels, NameOfChannel(channels[i]))
  {
    var init := channels[..|channels| - 1];
    if i < |init| {
      assert channels[i] == init[i];
      PairsOfComplete(init, i);
    }
  }

  /** The grouping holds exactly the channel names, each with its pairs in input order. */
  lemma {:induction false} GroupedMeaning(channels: seq<string>)
    requires AllDelimited(channels)
    ensures Grouped(channels).Keys == Names(channels)
    ensures forall name | name in Grouped(channels) :: Grouped(channels)[name] == PairsOf(channels, name)
  {
    if channels != [] {
      var init := channels[..|channels| - 1];
      GroupedMeaning(init);
      var last := channels[|channels| - 1];
      var name := NameOfChannel(last);
      if name !in Grouped(init) {
        NotNamedNoPairs(init, name);
      }
    }
  }

  lemma {:induction false} NotNamedNoPairs(channels: seq<string>, name: string)
    requires AllDelimited(channels)
    requires name !in Names(channels)
    ensures PairsOf(channels, name) == []
  {
    if channels != [] {
      NotNamedNoPairs(channels[..|channels| - 1], name);
    }
  }

  predicate NoDuplicates(names: seq<string>) {
    forall i, j | 0 <= i < j < |names| :: names[i] != names[j]
  }

  /** Builds one command per channel name, or panics (None) at a channel without the delimiter.
      The names come in whatever order the map yields them; `names` records the order chosen. */
  method ChannelsToCommands(channels: seq<string>, subscribe: bool)
    returns (commands: Option<seq<string>>, ghost names: seq<string>)
    ensures commands.None? <==> !AllDelimited(channels)
    ensures commands.Some? ==>
      && NoDuplicates(names) && (set n | n in names) == Names(channels)
      && |commands.value| == |names| == |Names(channels)|
      && forall k | 0 <= k < |names| ::
           commands.value[k] == NamePairsToCommand(names[k], PairsOf(channels, names[k]), subscribe)
    ensures commands.Some? ==> AllDelimited(channels) && PairCount(channels, names) == |channels|
  {
    var grouped := GroupByName(channels);
    if grouped.None? {
      return None, [];
    }
    GroupedMeaning(channels);
    var built;
    built, names := CommandsOf(grouped.value, subscribe);
    commands := Some(built);
    TotalPairs(channels, names);
  }

  /** The first loop of `channels_to_commands`: the pairs of each channel name, in input order. */
  method GroupByName(channels: seq<string>) returns (namePairs: Option<map<string, seq<string>>>)
    ensures namePairs.None? <==> !AllDelimited(channels)
    ensures namePairs.Some? ==> AllDelimited(channels) && namePairs.value == Grouped(channels)
  {
    var m: map<string, seq<string>> := map[];
    for i := 0 to |channels|
      invariant AllDelimited(channels[..i])
      invariant m == Grouped(channels[..i])
    {
      if !Delimited(channels[i]) {
        return None;
      }
      var name := NameOfChannel(channels[i]);
      var pair := PairOfChannel(channels[i]);
      GroupedStep(channels, i);
      if name in m {
        m := m[name := m[name] + [pair]];
      } else {
        assert [] + [pair] == [pair];
        m := m[name := [pair]];
      }
    }
    assert channels[..|channels|] == channels;
    namePairs := Some(m);
  }

  /** Adding one channel at the end updates the entry of its name only. */
  lemma GroupedSnoc(channels: seq<string>, channel: string)
    requires AllDelimited(channels) && Delimited(channel)
    ensures AllDelimited(channels + [channel])
    ensures var m, name := Grouped(channels), NameOfChannel(channel);
      Grouped(channels + [channel]) == m[name := (if name in m then m[name] else []) + [PairOfChannel(channel)]]
  {
    assert (channels + [channel])[..|channels|] == channels;
  }

  /** One step of the first loop: the grouping of one more channel of the input. */
  lemma GroupedStep(channels: seq<string>, i: nat)
    requires i < |channels| && AllDelimited(channels[..i]) && Delimited(channels[i])
    ensures AllDelimited(channels[..i + 1])
    ensures var m, name := Grouped(channels[..i]), NameOfChannel(channels[i]);
      Grouped(channels[..i + 1]) == m[name := (if name in m then m[name] else []) + [PairOfChannel(channels[i])]]
  {
    assert channels[..i + 1] == channels[..i] + [channels[i]];
    GroupedSnoc(channels[..i], channels[i]);
  }

  /** The second loop of `channels_to_commands`: one command per entry of the map. */
  method CommandsOf(namePairs: map<string, seq<string>>, subscribe: bool)
    returns (commands: seq<string>, ghost names: seq<string>)
    ensures NoDuplicates(names) && (set n | n in names) == namePairs.Keys
    ensures |commands| == |names| == |namePairs.Keys|
    ensures forall k | 0 <= k < |names| ::
      names[k] in namePairs && commands[k] == NamePairsToCommand(names[k], namePairs[names[k]], subscribe)
  {
    commands, names := [], [];
    var remaining := namePairs.Keys;
    while remaining != {}
      invariant Visiting(names, remaining, namePairs.Keys)
      invariant Built(commands, names, namePairs, subscribe)
      decreases remaining
    {
      var name :| name in remaining;
      VisitStep(names, remaining, namePairs.Keys, name);
      var command := NamePairsToCommand(name, namePairs[name], subscribe);
      BuiltStep(commands, names, namePairs, subscribe, name);
      commands := commands + [command];
      names := names + [name];
      remaining := remaining - {name};
    }
    VisitedAll(names, namePairs.Keys);
  }

  /** Command k is the one for the k-th visited name and its pairs. */
  ghost predicate Built(commands: seq<string>, names: seq<string>, namePairs: map<string, seq<string>>, subscribe: bool) {
    && |commands| == |names|
    && forall k | 0 <= k < |names| ::
         names[k] in namePairs && commands[k] == NamePairsToCommand(names[k], namePairs[names[k]], subscribe)
  }

  lemma BuiltStep(commands: seq<string>, names: seq<string>, namePairs: map<string, seq<string>>, subscribe: bool, name: string)
    requires Built(commands, names, namePairs, subscribe) && name in namePairs
    ensures Built(commands + [NamePairsToCommand(name, namePairs[name], subscribe)], names + [name], namePairs, subscribe)
  {
    var cs, ns := commands + [NamePairsToCommand(name, namePairs[name], subscribe)], names + [name];
    assert forall k | 0 <= k < |names| :: cs[k] == commands[k] && ns[k] == names[k];
  }

  /** The loop's progress over the keys: `names` are the keys visited, each once, and
      `remaining` are the keys still to visit. */
  ghost predicate Visiting(names: seq<string>, remaining: set<string>, keys: set<string>) {
    && remaining <= keys
    && NoDuplicates(names)
    && (forall n :: n in names <==> n in keys && n !in remaining)
    && |names| + |remaining| == |keys|
  }

  lemma VisitStep(names: seq<string>, remaining: set<string>, keys: set<string>, name: string)
    requires Visiting(names, remaining, keys) && name in remaining
    ensures Visiting(names + [name], remaining - {name}, keys)
  {
    assert forall n :: n in names + [name] <==> n in names || n == name;
  }

  lemma VisitedAll(names: seq<string>, keys: set<string>)
    requires Visiting(names, {}, keys)
    ensures NoDuplicates(names) && (set n | n in names) == keys && |names| == |keys|
  {
  }

  // ---------------------------------------------------------------------------
  // What the commands say

  /** The pairs grouped under any name are Plain when the channels are. */
  lemma {:induction false} PairsOfPlain(channels: seq<string>, name: string)
    requires AllDelimited(channels)
    requires forall i | 0 <= i < |channels| :: Plain(channels[i])
    ensures forall k | 0 <= k < |PairsOf(channels, name)| :: Plain(PairsOf(channels, name)[k])
  {
    if channels != [] {
      var last := channels[|channels| - 1];
      PairsOfPlain(channels[..|channels| - 1], name);
      PlainWithin(last, PairOfChannel(last));
    }
  }

  /** The command built for a channel name reads back as that name with all of its pairs. */
  lemma CommandDecodes(channels: seq<string>, name: string, subscribe: bool)
    requires AllDelimited(channels)
    requires forall i | 0 <= i < |channels| :: Plain(channels[i])
    requires name in Names(channels)
    ensures DecodeCommand(NamePairsToCommand(name, PairsOf(channels, name), subscribe))
         == Some((subscribe, PairsOf(channels, name), name))
  {
    NamesMeaning(channels, name);
    var i :| 0 <= i < |channels| && NameOfChannel(channels[i]) == name;
    PlainWithin(channels[i], name);
    PairsOfPlain(channels, name);
  }

  /** Different channel names never produce the same command. */
  lemma CommandsDistinct(channels: seq<string>, a: string, b: string, subscribe: bool)
    requires AllDelimited(channels)
    requires forall i | 0 <= i < |channels| :: Plain(channels[i])
    requires a in Names(channels) && b in Names(channels) && a != b
    ensures NamePairsToCommand(a, PairsOf(channels, a), subscribe) != NamePairsToCommand(b, PairsOf(channels, b), subscribe)
  {
    CommandDecodes(channels, a, subscribe);
    CommandDecodes(channels, b, subscribe);
  }

  /** The number of pairs in the commands for `names`. */
  function PairCount(channels: seq<string>, names: seq<string>): nat
    requires AllDelimited(channels)
  {
    if names == [] then 0 else |PairsOf(channels, names[0])| + PairCount(channels, names[1..])
  }

  /** How often `name` occurs in `names`. */
  function Occurrences(names: seq<string>, name: string): nat {
    if names == [] then 0 else (if names[0] == name then 1 else 0) + Occurrences(names[1..], name)
  }

  /** No pair is lost or merged: over a duplicate-free list covering every channel name, the
      commands hold exactly as many pairs as there are channels. */
  lemma {:induction false} TotalPairs(channels: seq<string>, names: seq<string>)
    requires AllDelimited(channels)
    requires NoDuplicates(names)
    requires forall n | n in Names(channels) :: n in names
    ensures PairCount(channels, names) == |channels|
  {
    if channels != [] {
      var init := channels[..|channels| - 1];
      var name := NameOfChannel(channels[|channels| - 1]);
      assert AllDelimited(init) by {
        assert forall i | 0 <= i < |init| :: init[i] == channels[i];
      }
      assert name in Names(channels);
      TotalPairs(init, names);
      PairCountSnoc(channels, names);
      OccursOnce(names, name);
    } else {
      NoChannelsNoPairs(names);
    }
  }

  lemma {:induction false} NoChannelsNoPairs(names: seq<string>)
    ensures PairCount([], names) == 0
  {
    if names != [] {
      NoChannelsNoPairs(names[1..]);
    }
  }

  lemma {:induction false} PairCountSnoc(channels: seq<string>, names: seq<string>)
    requires AllDelimited(channels) && channels != []
    ensures PairCount(channels, names)
         == PairCount(channels[..|channels| - 1], names) + Occurrences(names, NameOfChannel(channels[|channels| - 1]))
  {
    if names != [] {
      PairCountSnoc(channels, names[1..]);
    }
  }

  lemma {:induction false} OccursOnce(names: seq<string>, name: string)
    requires NoDuplicates(names) && name in names
    ensures Occurrences(names, name) == 1
  {
    if names[0] == name {
      NotOccurring(names[1..], name);
    } else {
      OccursOnce(names[1..], name);
    }
  }

  lemma {:induction false} NotOccurring(names: seq<string>, name: string)
    requires name !in names
    ensures Occurrences(names, name) == 0
  {
    if names != [] {
      NotOccurring(names[1..], name);
    }
  }

  // ---------------------------------------------------------------------------
  // Inbound frames

  /** The text frame sent back in answer to a server heartbeat, spaces and line breaks included. */
  const HeartbeatPing: string :=
    "{\n                    \"event\": \"ping\",\n                    \"reqid\": 9527\n                }"

  /** Classifies a frame that is not market data by its `event` field. Text that is not JSON is
      dropped; JSON that is not an object is data; an object must carry a string `event`. */
  function OnMiscMsg(msg: Frame): (r: Outcome)
    ensures msg.parsed.None? ==> r == Classified(Misc)
    ensures r == Classified(Normal) <==> msg.parsed.Some? && !msg.parsed.value.JObject?
    ensures r.Panicked? <==> msg.IsObject() && ("event" !in msg.Fields() || !msg.Fields()["event"].JString?)
    ensures r.Panicked? ==> r.cause == Unwrapped("event")
    ensures r == Classified(WebSocketText(HeartbeatPing)) <==>
      msg.IsObject() && "event" in msg.Fields() && msg.Fields()["event"] == JString("heartbeat")
    ensures r.Classified? && r.message.WebSocketText? ==> r.message.payload == HeartbeatPing
    ensures r.Classified? ==> !r.message.Pong?
  {
    match msg.parsed
    case None => Classified(Misc)
    case Some(v) =>
      if !v.JObject? then Classified(Normal)
      else
        match if "event" in v.fields then AsStr(v.fields["event"]) else None
        case None => Panicked(Unwrapped("event"))
        case Some(event) =>
          // "pong" and every other event are informational.
          if event == "heartbeat" then Classified(WebSocketText(HeartbeatPing)) else Classified(Misc)
  }

  /** A server `pong` is dropped, not reported as a reply to a client ping. */
  lemma PongIsMisc(msg: Frame)
    requires msg.IsObject() && "event" in msg.Fields() && msg.Fields()["event"] == JString("pong")
    ensures OnMiscMsg(msg) == Classified(Misc)
  {
  }

  // ---------------------------------------------------------------------------
  // Channel names

  /** The raw channel for a channel name and a pair. */
  function ToRawChannel(channel: string, pair: string): (r: string)
    ensures |r| == |channel| + 1 + |pair|
    ensures Delimited(r)
  {
    channel + [ChannelPairDelimiter] + pair
  }

  /** Splitting a raw channel, as `channels_to_commands` does, gives back its name and its pair. */
  lemma RawChannelSplits(channel: string, pair: string)
    requires ChannelPairDelimiter !in channel && ChannelPairDelimiter !in pair
    ensures NameOfChannel(ToRawChannel(channel, pair)) == channel
    ensures PairOfChannel(ToRawChannel(channel, pair)) == pair
  {
    SplitAtFirstJoin(channel, ChannelPairDelimiter, pair);
  }
}
