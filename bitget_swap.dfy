/** The Bitget swap adapter: `op` commands bounded by the exchange's frame size, the
    classification of inbound frames, and channel names. */
module BitgetSwap {
  import opened Wrappers
  import opened Text
  import opened Json
  import opened Classify
  import OpCommand

  /** The most bytes the exchange accepts in one subscription frame. */
  const WsFrameSize: nat := 4096

  // ---------------------------------------------------------------------------
  // Command encoder

  /** The command for one chunk of channels: `{"op":"subscribe","args":[...]}`, or
      `"unsubscribe"`. Its size in bytes follows from the shape: 28 bytes of frame (30 to
      unsubscribe), each channel's bytes plus two quotes, and one comma between neighbours.
      When the channels need no escaping, it reads back as its flag and its chunk, in order. */
  function TopicsToCommand(chunk: seq<string>, subscribe: bool): (r: string)
    ensures ByteLen(r) == (if subscribe then 28 else 30) + QuotedBytes(chunk) + (if chunk == [] then 0 else |chunk| - 1)
    ensures (forall i | 0 <= i < |chunk| :: Plain(chunk[i])) ==> OpCommand.Decode(r) == Some((subscribe, chunk))
  {
    OpCommand.EncodeByteLen(chunk, subscribe);
    OpCommand.DecodeEncodeWhenPlain(chunk, subscribe);
    OpCommand.Encode(chunk, subscribe)
  }

  /** The connection engine's frame-size helper, which is not part of this model. It is handed
      the channels, the flag, the encoder for one chunk and the byte limit, and returns the
      commands to send. (Its last argument, `None` here, is not modelled.) */
  type FrameSizeHelper = (seq<string>, bool, (seq<string>, bool) -> string, nat) -> seq<string>

  predicate WithinFrame(commands: seq<string>, limit: nat) {
    forall k | 0 <= k < |commands| :: ByteLen(commands[k]) <= limit
  }

  /** What the frame-size helper promises: whenever each channel fits a frame on its own, every
      command it returns fits the frame. */
  ghost predicate KeepsFrames(ensureFrameSize: FrameSizeHelper) {
    forall cs: seq<string>, subscribe: bool, limit: nat
      | forall k | 0 <= k < |cs| :: ByteLen(TopicsToCommand([cs[k]], subscribe)) <= limit
      :: WithinFrame(ensureFrameSize(cs, subscribe, TopicsToCommand, limit), limit)
  }

  /** Delegates to the frame-size helper with `TopicsToCommand` and the 4096-byte limit. For a
      helper that keeps its promise, every command fits the frame as long as no channel takes more
      than 4066 bytes (4064 to unsubscribe). */
  function ChannelsToCommands(channels: seq<string>, subscribe: bool, ensureFrameSize: FrameSizeHelper): (r: seq<string>)
    requires KeepsFrames(ensureFrameSize)
    ensures (forall k | 0 <= k < |channels| :: ByteLen(channels[k]) <= (if subscribe then 4066 else 4064))
        ==> forall k | 0 <= k < |r| :: ByteLen(r[k]) <= WsFrameSize
  {
    EachChannelFits(channels, subscribe);
    ensureFrameSize(channels, subscribe, TopicsToCommand, WsFrameSize)
  }

  lemma EachChannelFits(channels: seq<string>, subscribe: bool)
    ensures (forall k | 0 <= k < |channels| :: ByteLen(channels[k]) <= (if subscribe then 4066 else 4064))
        ==> forall k | 0 <= k < |channels| :: ByteLen(TopicsToCommand([channels[k]], subscribe)) <= WsFrameSize
  {
    forall k | 0 <= k < |channels| {
      SingleChannelFits(channels[k], subscribe);
    }
  }

  /** The simplest helper, one command per channel, keeps the promise. */
  function OneCommandPerChannel(cs: seq<string>, subscribe: bool, encode: (seq<string>, bool) -> string): (r: seq<string>)
    ensures |r| == |cs|
    ensures forall k | 0 <= k < |r| :: r[k] == encode([cs[k]], subscribe)
  {
    if cs == [] then [] else [encode([cs[0]], subscribe)] + OneCommandPerChannel(cs[1..], subscribe, encode)
  }

  lemma OneCommandPerChannelKeepsFrames()
    ensures KeepsFrames((cs: seq<string>, subscribe: bool, encode: (seq<string>, bool) -> string, limit: nat)
      => OneCommandPerChannel(cs, subscribe, encode))
  {
  }

  /** A channel can be sent on its own exactly when its bytes leave room for the frame:
      at most 4066 bytes to subscribe, 4064 to unsubscribe. */
  lemma SingleChannelFits(channel: string, subscribe: bool)
    ensures ByteLen(TopicsToCommand([channel], subscribe)) <= WsFrameSize
        <==> ByteLen(channel) <= (if subscribe then 4066 else 4064)
  {
    assert QuotedBytes([channel]) == ByteLen(channel) + 2 by {
      assert [channel][1..] == [];
    }
  }

  /** With channels of six ASCII bytes each, a subscribe command fits a 40-byte frame exactly
      when it holds at most one channel (36 bytes; two channels take 45). */
  lemma FortyByteFrames(chunk: seq<string>)
    requires forall i | 0 <= i < |chunk| :: ByteLen(chunk[i]) == 6
    ensures ByteLen(TopicsToCommand(chunk, true)) <= 40 <==> |chunk| <= 1
    ensures |chunk| == 1 ==> ByteLen(TopicsToCommand(chunk, true)) == 36
    ensures |chunk| == 2 ==> ByteLen(TopicsToCommand(chunk, true)) == 45
  {
    UniformQuotedBytes(chunk, 6);
  }

  lemma {:induction false} UniformQuotedBytes(chunk: seq<string>, size: nat)
    requires forall i | 0 <= i < |chunk| :: ByteLen(chunk[i]) == size
    ensures QuotedBytes(chunk) == (size + 2) * |chunk|
  {
    if chunk != [] {
      UniformQuotedBytes(chunk[1..], size);
    }
  }

  // ---------------------------------------------------------------------------
  // Inbound frames

  /** Classifies a frame that is not market data. Any text other than `pong` must parse as a
      JSON object (the source unwraps the parse), then the keys decide, in this order:
      `event`, then `table` with `data`, then `action`. */
  function OnMiscMsg(msg: Frame): (r: Outcome)
    ensures r == Classified(Pong) <==> msg.text == "pong"
    ensures r == Panicked(NotJsonObject) <==> msg.text != "pong" && !msg.IsObject()
    ensures r == Panicked(ErrorReply) <==>
      msg.text != "pong" && msg.IsObject() && "event" in msg.Fields() && msg.Fields()["event"] == JString("error")
    ensures r == Classified(Normal) <==>
      && msg.text != "pong" && msg.IsObject()
      && var obj := msg.Fields();
         && "event" !in obj && "table" in obj && "data" in obj
         && (obj["data"].JArray? ==> obj["data"].items != [])
    ensures r == Panicked(Unwrapped("event")) <==>
      msg.text != "pong" && msg.IsObject() && "event" in msg.Fields() && !msg.Fields()["event"].JString?
    ensures r == Panicked(Unwrapped("action")) <==>
      && msg.text != "pong" && msg.IsObject()
      && var obj := msg.Fields();
         && "event" !in obj && !("table" in obj && "data" in obj)
         && "action" in obj && !obj["action"].JString?
    ensures r.Panicked? && r.cause.Unwrapped? ==> r.cause.key in {"event", "action"}
    ensures r.Classified? ==> !r.message.WebSocketText?
  {
    if msg.text == "pong" then Classified(Pong)
    else if !msg.IsObject() then Panicked(NotJsonObject)
    else
      var obj := msg.Fields();
      if "event" in obj then
        match AsStr(obj["event"])
        case None => Panicked(Unwrapped("event"))
        case Some(event) => if event == "error" then Panicked(ErrorReply) else Classified(Misc)
      else if "table" in obj && "data" in obj then
        match obj["data"]
        case JArray(items) => if items == [] then Classified(Misc) else Classified(Normal)
        case _ => Classified(Normal)
      else if "action" in obj then
        match AsStr(obj["action"])
        case None => Panicked(Unwrapped("action"))
        case Some(_) => Classified(Misc)
      else Classified(Misc)
  }

  /** An `event` other than `error`, given as a string, is informational. */
  lemma OtherEventIsMisc(msg: Frame)
    requires msg.text != "pong" && msg.IsObject()
    requires "event" in msg.Fields() && msg.Fields()["event"].JString? && msg.Fields()["event"].s != "error"
    ensures OnMiscMsg(msg) == Classified(Misc)
  {
  }

  /** An object with none of the recognised keys is informational. */
  lemma UnrecognisedIsMisc(msg: Frame)
    requires msg.text != "pong" && msg.IsObject()
    requires "event" !in msg.Fields() && "action" !in msg.Fields()
    requires "table" !in msg.Fields() || "data" !in msg.Fields()
    ensures OnMiscMsg(msg) == Classified(Misc)
  {
  }

  /** An `action` frame with a string action, such as the server's ping, is informational. */
  lemma ActionIsMisc(msg: Frame)
    requires msg.text != "pong" && msg.IsObject()
    requires "event" !in msg.Fields() && ("table" !in msg.Fields() || "data" !in msg.Fields())
    requires "action" in msg.Fields() && msg.Fields()["action"].JString?
    ensures OnMiscMsg(msg) == Classified(Misc)
  {
  }

  // ---------------------------------------------------------------------------
  // Channel names

  const SwapPrefix: string := "swap/"

  /** The raw channel for a channel and a symbol: `swap/<channel>:<symbol>`. */
  function ToRawChannel(channel: string, symbol: string): (r: string)
    ensures StripPrefix(r, SwapPrefix) == Some(channel + [':'] + symbol)
    ensures ':' !in channel ==> SplitAtFirst(r[|SwapPrefix|..], ':') == Some((channel, symbol))
  {
    var rest := channel + [':'] + symbol;
    StripPrefixConcat(SwapPrefix, rest);
    if ':' in channel then SwapPrefix + rest
    else
      SplitAtFirstJoin(channel, ':', symbol);
      assert (SwapPrefix + rest)[|SwapPrefix|..] == rest;
      SwapPrefix + rest
  }

  /** The candlestick intervals Bitget offers, in seconds. */
  const CandleIntervals: seq<nat> := [60, 300, 900, 1800, 3600, 14400, 43200, 86400, 604800]

  /** The candlestick channel `swap/candle<seconds>s:<symbol>`, or None (a panic in the source)
      for an interval Bitget does not offer. */
  function ToCandlestickRawChannel(symbol: string, interval: nat): (r: Option<string>)
    ensures r.Some? <==> interval in {60, 300, 900, 1800, 3600, 14400, 43200, 86400, 604800}
    ensures r.Some? ==> r.value == ToRawChannel("candle" + NatToDecimal(interval) + "s", symbol)
  {
    if interval !in CandleIntervals then None
    else Some(ToRawChannel("candle" + NatToDecimal(interval) + "s", symbol))
  }

  /** Reads a candlestick channel back: its interval in seconds and its symbol. */
  function CandleOf(raw: string): Option<(nat, string)> {
    match StripPrefix(raw, SwapPrefix + "candle")
    case None => None
    case Some(rest) =>
      match SplitAtFirst(rest, ':')
      case None => None
      case Some(parts) =>
        var name := parts.0;
        if |name| >= 2 && name[|name| - 1] == 's' && IsDigits(name[..|name| - 1])
        then Some((DecimalValue(name[..|name| - 1]), parts.1))
        else None
  }

  /** A candlestick channel reads back as its interval and its symbol. */
  lemma CandlestickRoundTrip(symbol: string, interval: nat)
    requires ToCandlestickRawChannel(symbol, interval).Some?
    ensures CandleOf(ToCandlestickRawChannel(symbol, interval).value) == Some((interval, symbol))
  {
    var digits := NatToDecimal(interval);
    var name := digits + "s";
    CandleRawSplits(digits, symbol);
    assert name[..|name| - 1] == digits;
    DecimalRoundTrip(interval);
  }

  lemma CandleRawSplits(digits: string, symbol: string)
    requires IsDigits(digits)
    ensures StripPrefix(ToRawChannel("candle" + digits + "s", symbol), SwapPrefix + "candle")
         == Some(digits + "s" + [':'] + symbol)
    ensures SplitAtFirst(digits + "s" + [':'] + symbol, ':') == Some((digits + "s", symbol))
  {
    CandleRawRegroup(digits, symbol);
    StripPrefixConcat(SwapPrefix + "candle", digits + "s" + [':'] + symbol);
    assert ':' !in digits + "s";
    SplitAtFirstJoin(digits + "s", ':', symbol);
  }

  lemma CandleRawRegroup(digits: string, symbol: string)
    ensures ToRawChannel("candle" + digits + "s", symbol) == (SwapPrefix + "candle") + (digits + "s" + [':'] + symbol)
  {
  }

  /** Different intervals give different candlestick channels. */
  lemma CandlestickChannelsDistinct(symbol: string, i: nat, j: nat)
    requires ToCandlestickRawChannel(symbol, i).Some? && ToCandlestickRawChannel(symbol, j).Some?
    requires i != j
    ensures ToCandlestickRawChannel(symbol, i).value != ToCandlestickRawChannel(symbol, j).value
  {
    CandlestickRoundTrip(symbol, i);
    CandlestickRoundTrip(symbol, j);
  }
}
