# Exchange adapters of crypto-ws-client, in Dafny

This project models three per-exchange adapters of the `crypto-ws-client` crate: BitMEX, Kraken and Bitget swap. Each adapter is a small piece of policy in three parts:

- **Command encoder** (`channels_to_commands`): turns a list of channel names into the text commands sent to the exchange.
  - BitMEX sends a channel that is already a JSON command (it starts with `{`) unchanged. It batches the remaining channels into `{"op":"subscribe","args":[...]}` commands of at most 20 channels each.
  - Kraken groups the channels by name. It sends one `{"event":"subscribe","pair":[...],"subscription":{"name":"..."}}` command per name.
  - Bitget builds `op` commands through the connection engine's frame-size helper, under a 4096-byte limit.
- **Frame classifier** (`on_misc_msg`): tells the connection engine what one inbound text frame is:
  - a pong;
  - market data (Normal);
  - informational (Misc);
  - a text frame to send back;
  - or fatal (a panic in the source).
- **Channel-name builders** (`to_raw_channel`, `to_candlestick_raw_channel`): build the channel string for a channel and a pair or symbol. The candlestick builder only accepts intervals the exchange offers.

Modules, one per file:

| file | module | contents |
|---|---|---|
| wrappers.dfy | `Wrappers` | `Option` |
| text.dfy | `Text` | prefixes, splitting at a delimiter, decimal rendering of numbers, UTF-8 byte length (`str::len`) |
| json.dfy | `Json` | JSON values as data; an inbound `Frame` (its text plus the value `serde_json` would read from it); serialisation of a string array and a reader that inverts it |
| misc_message.dfy | `Classify` | `MiscMessage` and `Outcome` (a classification, or the cause of a panic) |
| op_command.dfy | `OpCommand` | the `{"op":...,"args":[...]}` shape shared by BitMEX and Bitget; its reader, round trip and byte length |
| bitmex.dfy | `Bitmex` | the BitMEX adapter |
| kraken.dfy | `Kraken` | the Kraken adapter |
| bitget_swap.dfy | `BitgetSwap` | the Bitget swap adapter |

The command loops of BitMEX and Kraken are imperative in the source, so they are methods with loop invariants:

- `Bitmex.ChannelsToCommands` is proved equal to the specification function `Bitmex.Commands`.
- `Kraken.ChannelsToCommands` is proved against the grouping functions `Kraken.Names`, `Kraken.PairsOf` and `Kraken.Grouped`.

The lemmas then state what those functions mean. Everything else in the adapters is pure and modelled as functions. A panic becomes an explicit outcome:

- `Outcome.Panicked` in a classifier;
- `None` in a builder or encoder.

## Model

| member | source | states |
|---|---|---|
| Bitmex.JsonCommands | crypto-ws-client/src/clients/bitmex.rs:34-38 | every channel kept by the pass-through filter starts with `{` |
| Bitmex.RawChannels | crypto-ws-client/src/clients/bitmex.rs:33 | no channel kept by the batching filter starts with `{` |
| Bitmex.FiltersPartition | crypto-ws-client/src/clients/bitmex.rs:33-38 | the two filters split the input: their multisets add up to the input's, and so do their lengths |
| Bitmex.ChunksFlatten | crypto-ws-client/src/clients/bitmex.rs:41-44 | the chunks joined back give exactly the plain channels, in order: none lost, repeated or reordered |
| Bitmex.ChunksSizes | crypto-ws-client/src/clients/bitmex.rs:20 | every chunk holds 1 to 20 channels; every chunk but the last holds exactly 20 |
| Bitmex.ChunksCount | crypto-ws-client/src/clients/bitmex.rs:42-44 | there are ceil(n / 20) chunks for n plain channels |
| Bitmex.ChunksFrom | crypto-ws-client/src/clients/bitmex.rs:42-44 | from position i, the next chunk is `raw[i..min(i + 20, n)]` and the rest are the chunks from i + 20 |
| Bitmex.EncodeChunks | crypto-ws-client/src/clients/bitmex.rs:45-53 | one command per chunk |
| Bitmex.EncodeChunksAt | crypto-ws-client/src/clients/bitmex.rs:45-53 | the k-th command is the `op` command for the k-th chunk |
| Bitmex.EncodeChunksFrom | crypto-ws-client/src/clients/bitmex.rs:42-54 | one loop step: the commands from position i are this chunk's command followed by those from i + 20 |
| Bitmex.ChannelsToCommands | crypto-ws-client/src/clients/bitmex.rs:32-58 | the `step_by(20)` loop returns exactly the pass-through commands followed by one command per chunk of the plain channels |
| Bitmex.CommandsMeaning | crypto-ws-client/src/clients/bitmex.rs:32-58 | read back from their text, the commands are: the JSON commands first, unchanged and in order; then ceil(n / 20) commands, each with the requested operation and 1 to 20 channels, whose channel lists joined are the plain channels in input order |
| Bitmex.BatchedMeaning | crypto-ws-client/src/clients/bitmex.rs:40-54 | the batched commands number ceil(n / 20); each decodes to the requested operation and its chunk; their channel lists joined are the plain channels |
| Bitmex.EncodeChunksDecode | crypto-ws-client/src/clients/bitmex.rs:45-53 | decoding the commands gives back the chunks they were built from |
| Bitmex.NoRawChannelsNoOpCommand | crypto-ws-client/src/clients/bitmex.rs:40-57 | with no plain channels, only the pass-through commands are returned |
| Bitmex.FewChannelsOneCommand | crypto-ws-client/src/clients/bitmex.rs:40-57 | 1 to 20 plain channels give a single command carrying all of them |
| Bitmex.OneChannel | crypto-ws-client/src/clients/bitmex.rs:153-157 | `trade:XBTUSD` gives exactly `{"op":"subscribe","args":["trade:XBTUSD"]}` |
| Bitmex.SingleChannelCommand | crypto-ws-client/src/clients/bitmex.rs:153-157 | any single plain channel needing no escaping gives one command, spelled out character for character |
| Bitmex.FourChannelCommand | crypto-ws-client/src/clients/bitmex.rs:159-175 | four plain channels needing no escaping give one command listing them in order, spelled out as the test expects |
| Bitmex.ClassifyError | crypto-ws-client/src/clients/bitmex.rs:72-93 | an `error` reply is fatal for exactly three reasons:<br>• `error` is not a string<br>• `status` is missing or not an i64<br>• status 400 with a message starting `Unknown`<br>Every other error reply (429, other 400s, any other status) is Misc |
| Bitmex.OnMiscMsg | crypto-ws-client/src/clients/bitmex.rs:61-103 | the classification:<br>• `pong` iff the text is `pong`<br>• Misc when the text is not a JSON object<br>• Normal iff none of `error`, `success` and `info` is present and all of `table`, `action` and `data` are<br>• fatal iff an `error` reply has a non-string `error`, a missing or non-i64 `status`, or status 400 with a message starting `Unknown`<br>• never a text reply |
| Bitmex.RateLimitIsMisc | crypto-ws-client/src/clients/bitmex.rs:76-81 | a status-429 error reply is informational |
| Bitmex.ErrorNeverNormal | crypto-ws-client/src/clients/bitmex.rs:72-98 | an object with an `error` key is never forwarded as data |
| Bitmex.ToRawChannel | crypto-ws-client/src/clients/bitmex.rs:105-107 | the raw channel is one character longer than the channel and the pair together; for a channel without `:` (every channel constant the adapter passes), it splits back at the first `:` into the channel and the pair |
| Bitmex.IntervalName | crypto-ws-client/src/clients/bitmex.rs:125-131 | an interval has a name iff it is one of 60, 300, 3600, 86400 |
| Bitmex.IntervalNameRoundTrip | crypto-ws-client/src/clients/bitmex.rs:125-131 | each name (`1m`, `5m`, `1h`, `1d`) stands for its own interval in seconds |
| Bitmex.ToCandlestickRawChannel | crypto-ws-client/src/clients/bitmex.rs:124-133 | a channel exists iff the interval is one of the four; it is `tradeBin<name>:<pair>`, where the name reads back as the interval |
| Bitmex.CandlestickNames | crypto-ws-client/src/clients/bitmex.rs:124-133 | the four channels are exactly `tradeBin1m:<pair>`, `tradeBin5m:<pair>`, `tradeBin1h:<pair>` and `tradeBin1d:<pair>` for 60, 300, 3600 and 86400 |
| Bitmex.CandlestickChannelsDistinct | crypto-ws-client/src/clients/bitmex.rs:124-133 | different intervals give different channels |
| OpCommand.DecodeEncode | crypto-ws-client/src/clients/bitmex.rs:45-53 | an `op` command reads back as its operation and its channels, in order |
| OpCommand.EncodeInjective | crypto-ws-client/src/clients/bitget/bitget_swap.rs:32-42 | two `op` commands are equal only when their operations and channel lists are |
| OpCommand.EncodeByteLen | crypto-ws-client/src/clients/bitget/bitget_swap.rs:32-42 | an `op` command's byte length: 28 (30 to unsubscribe), plus each channel's bytes and two quotes, plus one comma between neighbours |
| Json.AsStr | crypto-ws-client/src/clients/bitmex.rs:73 | `as_str` succeeds exactly on a string, and then gives that string |
| Json.AsI64 | crypto-ws-client/src/clients/bitmex.rs:74 | `as_i64` succeeds exactly on an integer within 64 signed bits, giving its value |
| Json.StringArrayRoundTrip | crypto-ws-client/src/clients/bitmex.rs:52 | a serialised array of strings needing no escape reads back as the same strings, leaving what follows |
| Json.StringArray | crypto-ws-client/src/clients/bitget/bitget_swap.rs:40 | `serde_json::to_string` of the channels; its byte length is 2 brackets, each item's bytes plus two quotes, and the commas between items |
| Text.StripPrefix | crypto-ws-client/src/clients/bitmex.rs:83 | succeeds iff the text starts with the prefix, and then gives what follows it |
| Text.FirstSegment | crypto-ws-client/src/clients/kraken.rs:45-46 | `v[0]` of a split: free of the delimiter, and all of the text when there is no delimiter, otherwise the text up to the first delimiter |
| Text.SecondSegment | crypto-ws-client/src/clients/kraken.rs:45-47 | `v[1]` of a split: it exists iff the text holds the delimiter, and it is free of the delimiter |
| Text.SecondSegmentValue | crypto-ws-client/src/clients/kraken.rs:45-47 | which text `v[1]` is: the text starts with `v[0]`, the delimiter and `v[1]`, after which comes the end of the text or the next delimiter |
| Text.SplitAtFirstJoin | crypto-ws-client/src/clients/kraken.rs:99-101 | joining a delimiter-free head and any tail, then splitting at the first delimiter, gives back the two parts |
| Text.NatToDecimal | crypto-ws-client/src/clients/bitget/bitget_swap.rs:117 | `{}` of an integer gives decimal digits with no leading zero |
| Text.DecimalRoundTrip | crypto-ws-client/src/clients/bitget/bitget_swap.rs:117 | the decimal rendering reads back as the number |
| Text.CharBytes | crypto-ws-client/src/clients/bitget/bitget_swap.rs:21-22 | each character takes 1 to 4 UTF-8 bytes, and 1 exactly for ASCII |
| Text.ByteLenConcat | crypto-ws-client/src/clients/bitget/bitget_swap.rs:21-22 | byte lengths add up over concatenation |
| Kraken.NamePairsToCommand | crypto-ws-client/src/clients/kraken.rs:29-40 | when the pairs need no escaping and the name holds no quote, the command reads back as its operation, its pairs in order, and its channel name |
| Kraken.OnePairCommand | crypto-ws-client/src/clients/kraken.rs:117-127 | the one-pair command spelled out character for character, for either operation |
| Kraken.TwoPairsCommand | crypto-ws-client/src/clients/kraken.rs:129-148 | the two-pair command spelled out, pairs in order, for either operation |
| Kraken.NamesMeaning | crypto-ws-client/src/clients/kraken.rs:44-54 | a name is grouped iff some channel carries it |
| Kraken.PairsOfSound | crypto-ws-client/src/clients/kraken.rs:44-54 | every pair listed under a name comes from a channel with that name and that pair |
| Kraken.PairsOfComplete | crypto-ws-client/src/clients/kraken.rs:44-54 | every channel's pair is listed under the channel's name |
| Kraken.GroupedSnoc | crypto-ws-client/src/clients/kraken.rs:48-53 | one more channel appends its pair under its name (or starts the entry) and leaves every other entry alone |
| Kraken.GroupedMeaning | crypto-ws-client/src/clients/kraken.rs:43-54 | the map's keys are exactly the channel names, each mapped to its pairs in input order |
| Kraken.NotNamedNoPairs | crypto-ws-client/src/clients/kraken.rs:44-54 | a name no channel carries has no pairs |
| Kraken.GroupByName | crypto-ws-client/src/clients/kraken.rs:43-54 | the first loop aborts iff some channel lacks the delimiter; otherwise it builds exactly the grouping |
| Kraken.CommandsOf | crypto-ws-client/src/clients/kraken.rs:56-62 | the second loop makes one command per key, visiting each key once: the visited names have no duplicates, cover the keys, and command k is built from name k and its pairs |
| Kraken.ChannelsToCommands | crypto-ws-client/src/clients/kraken.rs:42-63 | aborts iff some channel lacks the delimiter; otherwise gives exactly one command per distinct name (as a set, in whatever order the map yields), each naming its pairs in input order, and the pairs total the number of channels |
| Kraken.TotalPairs | crypto-ws-client/src/clients/kraken.rs:44-54 | over the distinct names, the commands hold exactly as many pairs as there are channels: none lost or merged |
| Kraken.CommandDecodes | crypto-ws-client/src/clients/kraken.rs:56-60 | the command for a name reads back as that name with all of its pairs |
| Kraken.CommandsDistinct | crypto-ws-client/src/clients/kraken.rs:56-60 | different names never give the same command |
| Kraken.OnMiscMsg | crypto-ws-client/src/clients/kraken.rs:65-97 | classifies a frame:<br>• Misc for non-JSON text<br>• Normal iff the JSON is not an object<br>• fatal iff the object's `event` is missing or not a string<br>• a text reply iff the event is `heartbeat`, and that reply is the ping with `reqid` 9527<br>• never `pong` |
| Kraken.PongIsMisc | crypto-ws-client/src/clients/kraken.rs:85-88 | a `pong` event is informational |
| Kraken.ToRawChannel | crypto-ws-client/src/clients/kraken.rs:99-101 | `channel:pair` has the right length and holds the delimiter |
| Kraken.RawChannelSplits | crypto-ws-client/src/clients/kraken.rs:45-47 | splitting `channel:pair` as `channels_to_commands` does gives back the channel and the pair |
| BitgetSwap.TopicsToCommand | crypto-ws-client/src/clients/bitget/bitget_swap.rs:32-42 | the command's byte length is 28 (30 to unsubscribe), plus the quoted channels, plus the commas; for channels needing no escaping, it reads back as its operation and its chunk in order |
| BitgetSwap.ChannelsToCommands | crypto-ws-client/src/clients/bitget/bitget_swap.rs:44-46 | the helper is handed `TopicsToCommand` and the 4096-byte limit; for a helper that keeps each command within the limit whenever each channel fits alone, every command is at most 4096 bytes when no channel takes more than 4066 bytes (4064 to unsubscribe) |
| BitgetSwap.SingleChannelFits | crypto-ws-client/src/clients/bitget/bitget_swap.rs:21-22 | one channel fits a 4096-byte frame iff it takes at most 4066 bytes (4064 to unsubscribe) |
| BitgetSwap.FortyByteFrames | crypto-ws-client/src/clients/bitget/bitget_swap.rs:32-42 | with six-byte channels, a subscribe command fits 40 bytes iff it carries at most one channel (36 bytes; two channels take 45) |
| BitgetSwap.OnMiscMsg | crypto-ws-client/src/clients/bitget/bitget_swap.rs:48-86 | each outcome by an iff, so Misc is everything else:<br>• `pong` iff the text is `pong`<br>• fatal (not an object) iff any other text is not a JSON object<br>• fatal (error reply) iff `event` is `error`<br>• fatal (`event` unwrap) iff `event` is present and not a string<br>• Normal iff there is no `event`, both `table` and `data` are present, and `data` is not an empty array<br>• fatal (`action` unwrap) iff no `event`, not both `table` and `data`, and `action` is present and not a string<br>• never a text reply |
| BitgetSwap.OtherEventIsMisc | crypto-ws-client/src/clients/bitget/bitget_swap.rs:54-62 | a string `event` other than `error` is informational |
| BitgetSwap.UnrecognisedIsMisc | crypto-ws-client/src/clients/bitget/bitget_swap.rs:82-85 | an object with none of the recognised keys is informational |
| BitgetSwap.ActionIsMisc | crypto-ws-client/src/clients/bitget/bitget_swap.rs:74-81 | an `action` frame with a string action is informational |
| BitgetSwap.ToRawChannel | crypto-ws-client/src/clients/bitget/bitget_swap.rs:88-90 | the channel is `swap/` followed by `channel:symbol`, which splits back into the channel and the symbol |
| BitgetSwap.ToCandlestickRawChannel | crypto-ws-client/src/clients/bitget/bitget_swap.rs:107-119 | a channel exists iff the interval is one of the nine offered; it is `swap/candle<interval>s:<symbol>` |
| BitgetSwap.CandlestickRoundTrip | crypto-ws-client/src/clients/bitget/bitget_swap.rs:117-118 | a candlestick channel reads back as its interval and its symbol |
| BitgetSwap.CandlestickChannelsDistinct | crypto-ws-client/src/clients/bitget/bitget_swap.rs:107-119 | different intervals give different channels |

## Left out

- Logging (`error!`, `warn!`, `info!`, `debug!`) has no effect on results and is not modelled.
- The three-second sleep after a BitMEX 429 reply is a timing effect. That branch just returns Misc.
- `serde_json` parsing is not modelled. A frame is given together with the JSON value it would parse to.
- Numbers other than integers carry no value.
- Serialisation of string arrays that need escaping is not modelled.
  - The encoders write every string between quotes as it is.
  - The read-back lemmas require strings with no quote, backslash or control character (`Json.Plain`).
  - Kraken's channel name is written unescaped by the source too.
- BitgetSwap.ChannelsToCommands: it states only the frame-size helper's 4096-byte bound.
  - `ensure_frame_size` is not part of this model, so the helper enters as a function parameter. It receives the channels, the flag, `TopicsToCommand` and the limit.
  - Its last argument (`None`) is not modelled.
  - How it batches channels, and whether it loses any, is not stated.
  - Its promise (`BitgetSwap.KeepsFrames`) is taken as a precondition: whenever each channel fits a frame on its own, every command fits. It is guarded because no frame can hold a channel over 4066 bytes (`BitgetSwap.SingleChannelFits`). A helper sending one command per channel keeps it (`BitgetSwap.OneCommandPerChannelKeepsFrames`).
- `CHANNEL_PAIR_DELIMITER` is not part of this model. It is taken to be `:`, which is what the adapters' tests and the candlestick channels use.
- Kraken.ChannelsToCommands: the source iterates a `HashMap`, so the order of its commands is unspecified. The model commits to no order: the ghost out-parameter `names` records the order chosen, and the contract holds for any duplicate-free order covering the names.
- Kraken.PairOfChannel: a channel with a second `:` contributes only the text between its first and second `:`, as `v[1]` does. Text after a second `:` is dropped.
- Kraken.OnePairCommand and Kraken.TwoPairsCommand are stated for any channel name and pairs. The test literals (`trade`, `XBT/USD`, `ETH/USD`) are instances of them. The universally quantified form is proved in place of the literal comparison.
- The macros are glue whose definitions are not part of this model:
  - `impl_trait!`, `impl_candlestick!` and `impl_new_constructor!`;
  - `define_client!`, `panic_l3_orderbook!` and `impl_ws_client_trait!`;
  - the constant channel names they receive;
  - `subscribe_ticker` and `subscribe_bbo`, which only panic.
- The connection engine (`WSClientInternal`), the WebSocket URLs, the client ping intervals and the output `Sender` are not part of this model.
- crypto-ws-client/src/clients/gate/gate_swap.rs is glue around gate utilities that are not part of this model.
- The integration tests in crypto-ws-client/tests/ need the network and are not modelled.
- Panics are modelled as outcomes, not aborts:
  - `Outcome.Panicked` in the classifiers;
  - `None` for a candlestick interval an exchange does not offer;
  - `None` for a Kraken channel without the delimiter, which is the failed `v[1]`.

## Notes on the code

- The BitMEX and Kraken classifiers return Misc for text that is not JSON. Bitget's `on_misc_msg` unwraps the parse instead, so any text other than `pong` that is not a JSON object aborts. The model gives `Panicked(NotJsonObject)`.
- Bitget reads `action` with `as_str().unwrap()`, so a non-string `action` aborts. The model follows the code: `Panicked(Unwrapped("action"))`.
- BitMEX reads `error` and `status` of an error reply with `unwrap`. A missing or mistyped field aborts, and the model gives `Panicked(Unwrapped(...))`.
