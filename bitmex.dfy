/** The BitMEX adapter: how channels become subscribe commands, how inbound frames are
    classified, and how channel names are built. */
module Bitmex {
  import opened Wrappers
  import opened Text
  import opened Json
  import opened Classify
  import OpCommand

  /** BitMEX refuses a command with more than 20 arguments. */
  const MaxChannelsPerCommand: nat := 20

  // ---------------------------------------------------------------------------
  // Command encoder

  /** A channel that is already a JSON command and is sent as it is. */
  predicate IsJsonCommand(channel: string) {
    |channel| > 0 && channel[0] == '{'
  }

  /** The channels that are JSON commands, in input order. */
  function JsonCommands(channels: seq<string>): (r: seq<string>)
    ensures forall i | 0 <= i < |r| :: IsJsonCommand(r[i])
  {
    if channels == [] then []
    else (if IsJsonCommand(channels[0]) then [channels[0]] else []) + JsonCommands(channels[1..])
  }

  /** The channels that are plain channel names, in input order. */
  function RawChannels(channels: seq<string>): (r: seq<string>)
    ensures forall i | 0 <= i < |r| :: !IsJsonCommand(r[i])
  {
    if channels == [] then []
    else (if IsJsonCommand(channels[0]) then [] else [channels[0]]) + RawChannels(channels[1..])
  }

  /** Every channel goes to exactly one of the two filters. */
  lemma {:induction false} FiltersPartition(channels: seq<string>)
    ensures multiset(JsonCommands(channels)) + multiset(RawChannels(channels)) == multiset(channels)
    ensures |JsonCommands(channels)| + |RawChannels(channels)| == |channels|
  {
    if channels != [] {
      FiltersPartition(channels[1..]);
      assert channels == [channels[0]] + channels[1..];
    }
  }

  function Min(a: int, b: int): int {
    if a <= b then a else b
  }

  /** `s` cut, front to back, into consecutive pieces of 20 elements; the last may be shorter. */
  function Chunks<T>(s: seq<T>): seq<seq<T>>
    decreases |s|
  {
    if s == [] then [] else [s[..Min(MaxChannelsPerCommand, |s|)]] + Chunks(s[Min(MaxChannelsPerCommand, |s|)..])
  }

  function Flatten<T>(ss: seq<seq<T>>): seq<T> {
    if ss == [] then [] else ss[0] + Flatten(ss[1..])
  }

  /** The chunks, joined back together, are the original sequence: nothing lost, repeated or reordered. */
  lemma {:induction false} ChunksFlatten<T>(s: seq<T>)
    ensures Flatten(Chunks(s)) == s
    decreases |s|
  {
    if s != [] {
      var n := Min(MaxChannelsPerCommand, |s|);
      ChunksFlatten(s[n..]);
      assert Chunks(s)[1..] == Chunks(s[n..]);
      assert s == s[..n] + s[n..];
    }
  }

  /** Every chunk holds between one and 20 elements, and all but the last hold exactly 20. */
  lemma {:induction false} ChunksSizes<T>(s: seq<T>)
    ensures forall i | 0 <= i < |Chunks(s)| :: 0 < |Chunks(s)[i]| <= MaxChannelsPerCommand
    ensures forall i | 0 <= i < |Chunks(s)| - 1 :: |Chunks(s)[i]| == MaxChannelsPerCommand
    decreases |s|
  {
    if s != [] {
      var n := Min(MaxChannelsPerCommand, |s|);
      ChunksSizes(s[n..]);
      var cs := Chunks(s);
      assert cs[1..] == Chunks(s[n..]);
      forall i | 1 <= i < |cs| ensures cs[i] == Chunks(s[n..])[i - 1] {
      }
      if |cs| > 1 {
        assert s[n..] != [];
        assert n == MaxChannelsPerCommand;
      }
    }
  }

  /** There are ceil(|s| / 20) chunks; none at all for an empty sequence. */
  lemma {:induction false} ChunksCount<T>(s: seq<T>)
    ensures |Chunks(s)| == (|s| + MaxChannelsPerCommand - 1) / MaxChannelsPerCommand
    decreases |s|
  {
    if s != [] {
      var n := Min(MaxChannelsPerCommand, |s|);
      ChunksCount(s[n..]);
    }
  }

  /** Cutting the rest of `s` from position `i` on: the first chunk ends at `i + 20` or at the end. */
  lemma ChunksFrom<T>(s: seq<T>, i: nat)
    requires i < |s|
    ensures Chunks(s[i..])
         == [s[i..Min(i + MaxChannelsPerCommand, |s|)]] + Chunks(s[Min(i + MaxChannelsPerCommand, |s|)..])
  {
    var rest := s[i..];
    assert rest[..Min(MaxChannelsPerCommand, |rest|)] == s[i..Min(i + MaxChannelsPerCommand, |s|)];
    assert rest[Min(MaxChannelsPerCommand, |rest|)..] == s[Min(i + MaxChannelsPerCommand, |s|)..];
  }

  /** One command per chunk, in chunk order. */
  function EncodeChunks(chunks: seq<seq<string>>, subscribe: bool): (r: seq<string>)
    ensures |r| == |chunks|
  {
    if chunks == [] then [] else [OpCommand.Encode(chunks[0], subscribe)] + EncodeChunks(chunks[1..], subscribe)
  }

  /** What `channels_to_commands` returns: the JSON commands unchanged, then the plain channels
      in commands of at most 20 channels each. */
  function Commands(channels: seq<string>, subscribe: bool): seq<string> {
    JsonCommands(channels) + EncodeChunks(Chunks(RawChannels(channels)), subscribe)
  }

  /** Builds the subscribe (or unsubscribe) commands for `channels`. */
  method ChannelsToCommands(channels: seq<string>, subscribe: bool) returns (allCommands: seq<string>)
    ensures allCommands == Commands(channels, subscribe)
  {
    var rawChannels := RawChannels(channels);
    allCommands := JsonCommands(channels);
    ghost var passThrough := allCommands;
    if rawChannels != [] {
      var n := |rawChannels|;
      var i := 0;
      assert rawChannels[0..] == rawChannels;
      while i < n
        invariant 0 <= i
        invariant allCommands + EncodeChunks(Chunks(rawChannels[Min(i, n)..]), subscribe)
               == passThrough + EncodeChunks(Chunks(rawChannels), subscribe)
        decreases n - i
      {
        var chunk := rawChannels[i..Min(i + MaxChannelsPerCommand, n)];
        EncodeChunksFrom(rawChannels, i, subscribe);
        var command := OpCommand.Encode(chunk, subscribe);
        ghost var later := EncodeChunks(Chunks(rawChannels[Min(i + MaxChannelsPerCommand, n)..]), subscribe);
        SeqAssociative(allCommands, [command], later);
        allCommands := allCommands + [command];
        i := i + MaxChannelsPerCommand;
      }
      assert rawChannels[n..] == [];
    }
  }

  lemma SeqAssociative<T>(a: seq<T>, b: seq<T>, c: seq<T>)
    ensures a + b + c == a + (b + c)
  {
  }

  /** One step of the loop in `ChannelsToCommands`: the commands still to come from position `i`
      are the one for the chunk starting at `i`, then those from `i + 20`. */
  lemma EncodeChunksFrom(s: seq<string>, i: nat, subscribe: bool)
    requires i < |s|
    ensures EncodeChunks(Chunks(s[i..]), subscribe)
         == [OpCommand.Encode(s[i..Min(i + MaxChannelsPerCommand, |s|)], subscribe)]
          + EncodeChunks(Chunks(s[Min(i + MaxChannelsPerCommand, |s|)..]), subscribe)
  {
    ChunksFrom(s, i);
  }

  /** The channel list each command carries (empty for one that does not decode). */
  function DecodedArgs(commands: seq<string>): seq<seq<string>> {
    if commands == [] then []
    else
      var d := OpCommand.Decode(commands[0]);
      [if d.Some? then d.value.1 else []] + DecodedArgs(commands[1..])
  }

  lemma {:induction false} EncodeChunksAt(chunks: seq<seq<string>>, subscribe: bool, i: nat)
    requires i < |chunks|
    ensures EncodeChunks(chunks, subscribe)[i] == OpCommand.Encode(chunks[i], subscribe)
  {
    if i > 0 {
      EncodeChunksAt(chunks[1..], subscribe, i - 1);
    }
  }

  lemma {:induction false} EncodeChunksDecode(chunks: seq<seq<string>>, subscribe: bool)
    requires forall i, j | 0 <= i < |chunks| && 0 <= j < |chunks[i]| :: Plain(chunks[i][j])
    ensures DecodedArgs(EncodeChunks(chunks, subscribe)) == chunks
  {
    if chunks != [] {
      EncodeChunksDecode(chunks[1..], subscribe);
      OpCommand.DecodeEncode(chunks[0], subscribe);
      var cs := EncodeChunks(chunks, subscribe);
      assert cs[1..] == EncodeChunks(chunks[1..], subscribe);
      assert [chunks[0]] + chunks[1..] == chunks;
    }
  }

  lemma {:induction false} ChunksPlain(s: seq<string>)
    requires forall k | 0 <= k < |s| :: Plain(s[k])
    ensures forall i, j | 0 <= i < |Chunks(s)| && 0 <= j < |Chunks(s)[i]| :: Plain(Chunks(s)[i][j])
    decreases |s|
  {
    if s != [] {
      var n := Min(MaxChannelsPerCommand, |s|);
      ChunksPlain(s[n..]);
      var cs := Chunks(s);
      assert cs[1..] == Chunks(s[n..]);
      forall i, j | 0 <= i < |cs| && 0 <= j < |cs[i]| ensures Plain(cs[i][j]) {
        if i > 0 {
          assert cs[i] == Chunks(s[n..])[i - 1];
        }
      }
    }
  }

  /** What the commands for `channels` say, read back from their text:
      the JSON commands come first, unchanged and in input order; then come ceil(n / 20) commands
      for the n plain channels, each with the requested operation and one to 20 channels, whose
      channel lists joined together are exactly the plain channels in input order. */
  lemma CommandsMeaning(channels: seq<string>, subscribe: bool)
    requires forall i | 0 <= i < |channels| :: !IsJsonCommand(channels[i]) ==> Plain(channels[i])
    ensures var cmds, json, raw := Commands(channels, subscribe), JsonCommands(channels), RawChannels(channels);
      && |cmds| == |json| + (|raw| + MaxChannelsPerCommand - 1) / MaxChannelsPerCommand
      && cmds[..|json|] == json
      && (forall j | |json| <= j < |cmds| ::
            OpCommand.Decode(cmds[j]).Some?
            && OpCommand.Decode(cmds[j]).value.0 == subscribe
            && 0 < |OpCommand.Decode(cmds[j]).value.1| <= MaxChannelsPerCommand)
      && Flatten(DecodedArgs(cmds[|json|..])) == raw
  {
    var json, raw := JsonCommands(channels), RawChannels(channels);
    var batched := EncodeChunks(Chunks(raw), subscribe);
    var cmds := Commands(channels, subscribe);
    CommandsSplit(json, batched);
    RawChannelsPlain(channels);
    BatchedMeaning(raw, subscribe);
    forall j | |json| <= j < |cmds|
      ensures OpCommand.Decode(cmds[j]).Some?
      ensures OpCommand.Decode(cmds[j]).value.0 == subscribe
      ensures 0 < |OpCommand.Decode(cmds[j]).value.1| <= MaxChannelsPerCommand
    {
      assert cmds[j] == batched[j - |json|];
    }
  }

  lemma CommandsSplit(json: seq<string>, batched: seq<string>)
    ensures (json + batched)[..|json|] == json
    ensures (json + batched)[|json|..] == batched
    ensures forall j | |json| <= j < |json| + |batched| :: (json + batched)[j] == batched[j - |json|]
  {
  }

  /** The batched part of the commands, read back: one command per chunk of at most 20 channels. */
  lemma BatchedMeaning(raw: seq<string>, subscribe: bool)
    requires forall k | 0 <= k < |raw| :: Plain(raw[k])
    ensures var batched := EncodeChunks(Chunks(raw), subscribe);
      && |batched| == (|raw| + MaxChannelsPerCommand - 1) / MaxChannelsPerCommand
      && (forall j | 0 <= j < |batched| ::
            OpCommand.Decode(batched[j]).Some?
            && OpCommand.Decode(batched[j]).value.0 == subscribe
            && 0 < |OpCommand.Decode(batched[j]).value.1| <= MaxChannelsPerCommand)
      && Flatten(DecodedArgs(batched)) == raw
  {
    var chunks := Chunks(raw);
    var batched := EncodeChunks(chunks, subscribe);
    ChunksPlain(raw);
    EncodeChunksDecode(chunks, subscribe);
    ChunksSizes(raw);
    ChunksCount(raw);
    ChunksFlatten(raw);
    forall j | 0 <= j < |batched|
      ensures OpCommand.Decode(batched[j]) == Some((subscribe, chunks[j]))
    {
      EncodeChunksAt(chunks, subscribe, j);
      OpCommand.DecodeEncode(chunks[j], subscribe);
    }
  }

  lemma {:induction false} RawChannelsPlain(channels: seq<string>)
    requires forall i | 0 <= i < |channels| :: !IsJsonCommand(channels[i]) ==> Plain(channels[i])
    ensures forall k | 0 <= k < |RawChannels(channels)| :: Plain(RawChannels(channels)[k])
  {
    if channels != [] {
      RawChannelsPlain(channels[1..]);
    }
  }

  /** With no plain channels there is no `op` command at all. */
  lemma NoRawChannelsNoOpCommand(channels: seq<string>, subscribe: bool)
    requires RawChannels(channels) == []
    ensures Commands(channels, subscribe) == JsonCommands(channels)
  {
  }

  /** Up to 20 plain channels give a single command carrying all of them. */
  lemma {:induction false} FewChannelsOneCommand(channels: seq<string>, subscribe: bool)
    requires 0 < |channels| <= MaxChannelsPerCommand
    requires forall i | 0 <= i < |channels| :: !IsJsonCommand(channels[i])
    ensures Commands(channels, subscribe) == [OpCommand.Encode(channels, subscribe)]
  {
    AllRaw(channels);
    assert channels[..|channels|] == channels;
    assert Chunks(channels) == [channels] + Chunks(channels[|channels|..]);
    assert channels[|channels|..] == [];
    assert EncodeChunks([channels], subscribe) == [OpCommand.Encode(channels, subscribe)] + EncodeChunks([], subscribe);
  }

  lemma {:induction false} AllRaw(channels: seq<string>)
    requires forall i | 0 <= i < |channels| :: !IsJsonCommand(channels[i])
    ensures JsonCommands(channels) == [] && RawChannels(channels) == channels
  {
    if channels != [] {
      AllRaw(channels[1..]);
      assert [channels[0]] + channels[1..] == channels;
    }
  }

  /** One channel gives one subscribe command (the source's `test_one_channel`). */
  lemma OneChannel()
    ensures Commands(["trade:XBTUSD"], true) == ["{\"op\":\"subscribe\",\"args\":[\"trade:XBTUSD\"]}"]
  {
    SingleChannelCommand("trade:XBTUSD");
    OneChannelSpelled();
  }

  lemma OneChannelSpelled()
    ensures "{\"op\":\"subscribe\",\"args\":[\"" + "trade:XBTUSD" + "\"]}"
         == "{\"op\":\"subscribe\",\"args\":[\"trade:XBTUSD\"]}"
  {
    assert "{\"op\":\"subscribe\",\"args\":[\"" + "trade:XBTUSD" == "{\"op\":\"subscribe\",\"args\":[\"trade:XBTUSD";
  }

  lemma SingleChannelCommand(channel: string)
    requires !IsJsonCommand(channel) && Plain(channel)
    ensures Commands([channel], true) == ["{\"op\":\"subscribe\",\"args\":[\"" + channel + "\"]}"]
  {
    FewChannelsOneCommand([channel], true);
    SingleChannelEncode(channel);
    Regroup1(channel);
  }

  lemma SingleChannelEncode(channel: string)
    ensures OpCommand.Encode([channel], true)
         == "{\"op\":\"subscribe\",\"args\":" + "[" + ("\"" + channel + "\"") + "]" + "}"
  {
    assert Json.Items([channel]) == Json.Quote(channel);
    SubscribePrefix();
  }

  lemma SubscribePrefix()
    ensures OpCommand.Prefix(true) == "{\"op\":\"subscribe\",\"args\":"
  {
  }

  lemma Regroup1(x: string)
    ensures "{\"op\":\"subscribe\",\"args\":" + "[" + ("\"" + x + "\"") + "]" + "}"
         == "{\"op\":\"subscribe\",\"args\":[\"" + x + "\"]}"
  {
  }

  /** Four channels fit in one command, formatted as the source's `test_multiple_channels` expects. */
  lemma FourChannelCommand(a: string, b: string, c: string, d: string)
    requires !IsJsonCommand(a) && !IsJsonCommand(b) && !IsJsonCommand(c) && !IsJsonCommand(d)
    requires Plain(a) && Plain(b) && Plain(c) && Plain(d)
    ensures Commands([a, b, c, d], true)
         == ["{\"op\":\"subscribe\",\"args\":[\"" + a + "\",\"" + b + "\",\"" + c + "\",\"" + d + "\"]}"]
  {
    FewChannelsOneCommand([a, b, c, d], true);
    FourChannelEncode(a, b, c, d);
    Regroup4(a, b, c, d);
  }

  lemma FourChannelEncode(a: string, b: string, c: string, d: string)
    ensures OpCommand.Encode([a, b, c, d], true)
         == "{\"op\":\"subscribe\",\"args\":" + "["
          + (Json.Quote(a) + "," + Json.Quote(b) + "," + Json.Quote(c) + "," + Json.Quote(d)) + "]" + "}"
  {
    FourItems(a, b, c, d);
    SubscribePrefix();
  }

  lemma FourItems(a: string, b: string, c: string, d: string)
    ensures Json.Items([a, b, c, d]) == Json.Quote(a) + "," + Json.Quote(b) + "," + Json.Quote(c) + "," + Json.Quote(d)
  {
    var chs := [a, b, c, d];
    assert chs[1..] == [b, c, d] && [b, c, d][1..] == [c, d] && [c, d][1..] == [d];
    assert Json.Items([d]) == Json.Quote(d);
    assert Json.Items([c, d]) == Json.Quote(c) + "," + Json.Quote(d);
    assert Json.Items([b, c, d]) == Json.Quote(b) + "," + Json.Items([c, d]);
  }

  lemma Regroup4(a: string, b: string, c: string, d: string)
    ensures "{\"op\":\"subscribe\",\"args\":" + "["
          + (Json.Quote(a) + "," + Json.Quote(b) + "," + Json.Quote(c) + "," + Json.Quote(d)) + "]" + "}"
         == "{\"op\":\"subscribe\",\"args\":[\"" + a + "\",\"" + b + "\",\"" + c + "\",\"" + d + "\"]}"
  {
  }

  // ---------------------------------------------------------------------------
  // Inbound-frame classifier

  /** How a reply carrying an `error` key is classified: both `error` (a string) and `status`
      (a 64-bit integer) are read with `unwrap`; a 400 whose message starts with "Unknown" is fatal,
      every other error (a 429 rate limit, an "already subscribed" 400, ...) is informational. */
  function ClassifyError(obj: map<string, Value>): (r: Outcome)
    requires "error" in obj
    ensures r == Panicked(Unwrapped("error")) <==> !obj["error"].JString?
    ensures r == Panicked(Unwrapped("status")) <==>
      obj["error"].JString? && ("status" !in obj || AsI64(obj["status"]).None?)
    ensures r == Panicked(ErrorReply) <==>
      obj["error"].JString? && "status" in obj && obj["status"] == JInt(400) && StartsWith(obj["error"].s, "Unknown")
    ensures r.Panicked? ==> r.cause in {Unwrapped("error"), Unwrapped("status"), ErrorReply}
    ensures r.Classified? ==> r.message == Misc
  {
    match AsStr(obj["error"])
    case None => Panicked(Unwrapped("error"))
    case Some(errorMsg) =>
      if "status" !in obj || AsI64(obj["status"]).None? then Panicked(Unwrapped("status"))
      else
        match AsI64(obj["status"]).value
        case 429 => Classified(Misc)
        case 400 => if StartsWith(errorMsg, "Unknown") then Panicked(ErrorReply) else Classified(Misc)
        case _ => Classified(Misc)
  }

  /** Classifies one inbound frame. */
  function OnMiscMsg(msg: Frame): (r: Outcome)
    ensures r == Classified(Pong) <==> msg.text == "pong"
    ensures msg.text != "pong" && !msg.IsObject() ==> r == Classified(Misc)
    ensures r == Classified(Normal) <==>
      && msg.text != "pong" && msg.IsObject()
      && "error" !in msg.Fields() && "success" !in msg.Fields() && "info" !in msg.Fields()
      && "table" in msg.Fields() && "action" in msg.Fields() && "data" in msg.Fields()
    ensures r.Panicked? <==>
      && msg.text != "pong" && msg.IsObject() && "error" in msg.Fields()
      && var obj := msg.Fields();
         || !obj["error"].JString?
         || "status" !in obj
         || AsI64(obj["status"]).None?
         || (obj["status"] == JInt(400) && StartsWith(obj["error"].s, "Unknown"))
    ensures r.Classified? ==> !r.message.WebSocketText?
  {
    if msg.text == "pong" then Classified(Pong)
    else if !msg.IsObject() then Classified(Misc)
    else
      var obj := msg.Fields();
      if "error" in obj then ClassifyError(obj)
      else if "success" in obj || "info" in obj then Classified(Misc)
      else if "table" in obj && "action" in obj && "data" in obj then Classified(Normal)
      else Classified(Misc)
  }

  /** A rate-limit reply (status 429) is only informational, whatever its message. */
  lemma RateLimitIsMisc(msg: Frame)
    requires msg.text != "pong" && msg.IsObject()
    requires "error" in msg.Fields() && msg.Fields()["error"].JString?
    requires "status" in msg.Fields() && msg.Fields()["status"] == JInt(429)
    ensures OnMiscMsg(msg) == Classified(Misc)
  {
  }

  /** An `error` key wins over data keys: an error reply is never forwarded as data. */
  lemma ErrorNeverNormal(msg: Frame)
    requires msg.IsObject() && "error" in msg.Fields()
    ensures OnMiscMsg(msg) != Classified(Normal)
  {
  }

  // ---------------------------------------------------------------------------
  // Channel names

  /** The raw channel for a channel name and a pair. */
  function ToRawChannel(channel: string, pair: string): (r: string)
    ensures ChannelPairDelimiter !in channel ==> SplitAtFirst(r, ChannelPairDelimiter) == Some((channel, pair))
    ensures |r| == |channel| + 1 + |pair|
  {
    var r := channel + [ChannelPairDelimiter] + pair;
    if ChannelPairDelimiter in channel then r else SplitAtFirstJoin(channel, ChannelPairDelimiter, pair); r
  }

  /** The candlestick intervals BitMEX offers, in seconds, and their names. */
  function IntervalName(interval: nat): (r: Option<string>)
    ensures r.Some? <==> interval in {60, 300, 3600, 86400}
  {
    match interval
    case 60 => Some("1m")
    case 300 => Some("5m")
    case 3600 => Some("1h")
    case 86400 => Some("1d")
    case _ => None
  }

  /** The number of seconds an interval name such as "5m" or "1d" stands for. */
  function IntervalSeconds(name: string): Option<nat> {
    if |name| < 2 || !IsDigits(name[..|name| - 1]) then None
    else
      var count := DecimalValue(name[..|name| - 1]);
      match name[|name| - 1]
      case 'm' => Some(count * 60)
      case 'h' => Some(count * 3600)
      case 'd' => Some(count * 86400)
      case _ => None
  }

  /** The candlestick channel for a pair; None (a panic in the source) for an interval BitMEX lacks. */
  function ToCandlestickRawChannel(pair: string, interval: nat): (r: Option<string>)
    ensures r.Some? <==> interval in {60, 300, 3600, 86400}
    ensures r.Some? ==>
      exists name :: IntervalSeconds(name) == Some(interval) && r.value == ToRawChannel("tradeBin" + name, pair)
  {
    match IntervalName(interval)
    case None => None
    case Some(name) =>
      IntervalNameRoundTrip(interval);
      Some("tradeBin" + name + ":" + pair)
  }

  /** Each interval's name reads back as the same number of seconds. */
  lemma IntervalNameRoundTrip(interval: nat)
    requires IntervalName(interval).Some?
    ensures IntervalSeconds(IntervalName(interval).value) == Some(interval)
  {
    var name := IntervalName(interval).value;
    assert |name| == 2 && name[..1] == [name[0]];
    assert [name[0]][..0] == [];
    assert DecimalValue([name[0]]) == name[0] as int - '0' as int;
  }

  /** Different intervals give different candlestick channels for the same pair. */
  lemma CandlestickChannelsDistinct(pair: string, i: nat, j: nat)
    requires ToCandlestickRawChannel(pair, i).Some? && ToCandlestickRawChannel(pair, j).Some?
    requires i != j
    ensures ToCandlestickRawChannel(pair, i) != ToCandlestickRawChannel(pair, j)
  {
    var a, b := IntervalName(i).value, IntervalName(j).value;
    var ca, cb := "tradeBin" + a + ":" + pair, "tradeBin" + b + ":" + pair;
    assert ca[8..10] == a && cb[8..10] == b;
    IntervalNameRoundTrip(i);
    IntervalNameRoundTrip(j);
  }

  /** The four candlestick channels, spelled out: `tradeBin1m`, `tradeBin5m`, `tradeBin1h` and
      `tradeBin1d`, each followed by `:` and the pair. */
  lemma CandlestickNames(pair: string)
    ensures ToCandlestickRawChannel(pair, 60) == Some("tradeBin1m:" + pair)
    ensures ToCandlestickRawChannel(pair, 300) == Some("tradeBin5m:" + pair)
    ensures ToCandlestickRawChannel(pair, 3600) == Some("tradeBin1h:" + pair)
    ensures ToCandlestickRawChannel(pair, 86400) == Some("tradeBin1d:" + pair)
  {
    CandleSpelled(pair, 60, "tradeBin1m:");
    CandleSpelled(pair, 300, "tradeBin5m:");
    CandleSpelled(pair, 3600, "tradeBin1h:");
    CandleSpelled(pair, 86400, "tradeBin1d:");
  }

  lemma CandleSpelled(pair: string, interval: nat, spelled: string)
    requires IntervalName(interval).Some? && "tradeBin" + IntervalName(interval).value + ":" == spelled
    ensures ToCandlestickRawChannel(pair, interval) == Some(spelled + pair)
  {
  }
}
