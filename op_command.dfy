/** The command shape `{"op":"<op>","args":[...]}` that BitMEX and Bitget both use
    to subscribe to, or unsubscribe from, a list of channels. */
module OpCommand {
  import opened Wrappers
  import opened Text
  import opened Json

  function OpName(subscribe: bool): string {
    if subscribe then "subscribe" else "unsubscribe"
  }

  /** Everything of a command that precedes its argument array. */
  function Prefix(subscribe: bool): string {
    "{\"op\":\"" + OpName(subscribe) + "\",\"args\":"
  }

  /** The command for `args`, formatted as the source's `format!` does. */
  function Encode(args: seq<string>, subscribe: bool): string {
    Prefix(subscribe) + StringArray(args) + "}"
  }

  /** The argument array of a command body, provided nothing but the closing brace follows it. */
  function ArgsOf(body: string, subscribe: bool): Option<(bool, seq<string>)> {
    match ParseStringArray(body)
    case None => None
    case Some(parsed) => if parsed.1 == "}" then Some((subscribe, parsed.0)) else None
  }

  /** Reads a command back: whether it subscribes, and its channels. */
  function Decode(cmd: string): Option<(bool, seq<string>)> {
    match StripPrefix(cmd, Prefix(true))
    case Some(body) => ArgsOf(body, true)
    case None =>
      match StripPrefix(cmd, Prefix(false))
      case Some(body) => ArgsOf(body, false)
      case None => None
  }

  /** Decoding an encoded command gives back its flag and its channels, in order. */
  lemma DecodeEncode(args: seq<string>, subscribe: bool)
    requires forall i | 0 <= i < |args| :: Plain(args[i])
    ensures Decode(Encode(args, subscribe)) == Some((subscribe, args))
  {
    var body := StringArray(args) + "}";
    EncodeIsPrefixed(args, subscribe);
    StripPrefixConcat(Prefix(subscribe), body);
    StringArrayRoundTrip(args, "}");
    if !subscribe {
      UnsubscribeIsNotSubscribe(body);
    }
  }

  lemma DecodeEncodeWhenPlain(args: seq<string>, subscribe: bool)
    ensures (forall i | 0 <= i < |args| :: Plain(args[i])) ==> Decode(Encode(args, subscribe)) == Some((subscribe, args))
  {
    if forall i | 0 <= i < |args| :: Plain(args[i]) {
      DecodeEncode(args, subscribe);
    }
  }

  lemma EncodeIsPrefixed(args: seq<string>, subscribe: bool)
    ensures Encode(args, subscribe) == Prefix(subscribe) + (StringArray(args) + "}")
  {
    Associative3(Prefix(subscribe), StringArray(args), "}");
  }

  lemma UnsubscribeIsNotSubscribe(body: string)
    ensures StripPrefix(Prefix(false) + body, Prefix(true)) == None
  {
    var cmd := Prefix(false) + body;
    assert cmd[7] == Prefix(false)[7] == 'u';
    StripPrefixMismatch(cmd, Prefix(true), 7);
  }

  /** Two commands are equal only when their flags and channel lists are. */
  lemma EncodeInjective(a: seq<string>, sa: bool, b: seq<string>, sb: bool)
    requires forall i | 0 <= i < |a| :: Plain(a[i])
    requires forall i | 0 <= i < |b| :: Plain(b[i])
    requires Encode(a, sa) == Encode(b, sb)
    ensures a == b && sa == sb
  {
    DecodeEncode(a, sa);
    DecodeEncode(b, sb);
  }

  /** The size of a command in bytes: 28 bytes for the empty command (30 to unsubscribe),
      two quotes per channel, one comma between neighbouring channels, and the channels themselves. */
  lemma EncodeByteLen(args: seq<string>, subscribe: bool)
    ensures ByteLen(Encode(args, subscribe))
         == (if subscribe then 28 else 30) + QuotedBytes(args) + (if args == [] then 0 else |args| - 1)
  {
    EncodeByteLenParts(args, subscribe);
    PrefixByteLen(subscribe);
  }

  lemma EncodeByteLenParts(args: seq<string>, subscribe: bool)
    ensures ByteLen(Encode(args, subscribe)) == ByteLen(Prefix(subscribe)) + ByteLen(StringArray(args)) + 1
  {
    var p, a := Prefix(subscribe), StringArray(args);
    assert Encode(args, subscribe) == p + a + "}";
    ByteLenConcat(p + a, "}");
    ByteLenConcat(p, a);
    ClosingBraceByteLen();
  }

  lemma ClosingBraceByteLen()
    ensures ByteLen("}") == 1
  {
    assert "}"[1..] == [];
  }

  lemma PrefixByteLen(subscribe: bool)
    ensures ByteLen(Prefix(subscribe)) == if subscribe then 25 else 27
  {
    var p := Prefix(subscribe);
    assert |p| == if subscribe then 25 else 27;
    assert forall i | 0 <= i < |p| :: p[i] as int < 0x80;
    ByteLenAscii(p);
  }
}
