/** The JSON the adapters read and write, as values rather than text.

    Inbound frames are not parsed here: a frame is its text together with the JSON
    value `serde_json` would read from it, or None when the text is not JSON.
    Outbound commands are built by string formatting; the only serialisation they
    use is that of an array of strings, modelled for strings that need no escaping. */
module Json {
  import opened Wrappers
  import opened Text

  /** A JSON value. Integers are kept exactly; other numbers carry no payload. */
  datatype Value =
    | JNull
    | JBool(b: bool)
    | JInt(i: int)
    | JFloat
    | JString(s: string)
    | JArray(items: seq<Value>)
    | JObject(fields: map<string, Value>)

  /** `Value::as_str`. */
  function AsStr(v: Value): (r: Option<string>)
    ensures r.Some? <==> v.JString?
    ensures r.Some? ==> r.value == v.s
  {
    if v.JString? then Some(v.s) else None
  }

  const I64Min: int := -0x8000_0000_0000_0000
  const I64Max: int := 0x7fff_ffff_ffff_ffff

  /** `Value::as_i64`: an integer that fits in 64 signed bits. */
  function AsI64(v: Value): (r: Option<int>)
    ensures r.Some? <==> v.JInt? && I64Min <= v.i <= I64Max
    ensures r.Some? ==> r.value == v.i
  {
    if v.JInt? && I64Min <= v.i <= I64Max then Some(v.i) else None
  }

  /** One inbound text frame: its text, and the JSON value it parses to (None if it is not JSON). */
  datatype Frame = Frame(text: string, parsed: Option<Value>)
  {
    /** Parsing into `HashMap<String, Value>` succeeds exactly for an object. */
    predicate IsObject() {
      parsed.Some? && parsed.value.JObject?
    }

    function Fields(): map<string, Value>
      requires IsObject()
    {
      parsed.value.fields
    }
  }

  /** A string that `serde_json` writes between quotes unchanged: no quote, no backslash, no control character. */
  predicate Plain(s: string) {
    forall i | 0 <= i < |s| :: s[i] != '"' && s[i] != '\\' && s[i] >= ' '
  }

  /** Every string made of characters of a Plain string is Plain. */
  lemma PlainWithin(s: string, r: string)
    requires Plain(s)
    requires forall i | 0 <= i < |r| :: r[i] in s
    ensures Plain(r)
  {
  }

  function Quote(s: string): string {
    "\"" + s + "\""
  }

  /** The comma-separated quoted items of a non-empty array. */
  function Items(xs: seq<string>): string
    requires |xs| > 0
  {
    if |xs| == 1 then Quote(xs[0]) else Quote(xs[0]) + "," + Items(xs[1..])
  }

  /** `serde_json::to_string` of a `Vec<String>` whose items are Plain. It takes its brackets,
      one comma between neighbours, and each item's bytes with two quotes. */
  function StringArray(xs: seq<string>): (r: string)
    ensures ByteLen(r) == 2 + QuotedBytes(xs) + (if xs == [] then 0 else |xs| - 1)
  {
    if xs == [] then
      assert ByteLen("[]") == 2;
      "[]"
    else
      ItemsByteLen(xs);
      ByteLenConcat("[" + Items(xs), "]");
      ByteLenConcat("[", Items(xs));
      "[" + Items(xs) + "]"
  }

  /** A quoted string at the front of `s`, and what follows it. */
  function ParseQuoted(s: string): (r: Option<(string, string)>)
    ensures r.Some? ==> |r.value.1| < |s|
  {
    if |s| > 0 && s[0] == '"' then SplitAtFirst(s[1..], '"') else None
  }

  /** The items of an array after its opening bracket, up to and including the closing bracket. */
  function ParseItems(s: string): (r: Option<(seq<string>, string)>)
    ensures r.Some? ==> |r.value.0| > 0 && |r.value.1| < |s|
    decreases |s|
  {
    match ParseQuoted(s)
    case None => None
    case Some(item) =>
      var (x, rest) := item;
      if |rest| > 0 && rest[0] == ']' then Some(([x], rest[1..]))
      else if |rest| > 0 && rest[0] == ',' then
        match ParseItems(rest[1..])
        case None => None
        case Some(more) => Some(([x] + more.0, more.1))
      else None
  }

  /** Reads a JSON array of quoted strings without escapes from the front of `s`. */
  function ParseStringArray(s: string): (r: Option<(seq<string>, string)>)
    ensures r.Some? ==> |r.value.1| < |s|
  {
    if |s| >= 2 && s[0] == '[' && s[1] == ']' then Some(([], s[2..]))
    else if |s| >= 1 && s[0] == '[' then ParseItems(s[1..])
    else None
  }

  lemma ParseQuotedRoundTrip(x: string, rest: string)
    requires Plain(x)
    ensures ParseQuoted(Quote(x) + rest) == Some((x, rest))
  {
    var s := Quote(x) + rest;
    assert s[1..] == x + ['"'] + rest;
    assert '"' !in x;
    SplitAtFirstJoin(x, '"', rest);
  }

  lemma {:induction false} ParseItemsRoundTrip(xs: seq<string>, rest: string)
    requires |xs| > 0
    requires forall i | 0 <= i < |xs| :: Plain(xs[i])
    ensures ParseItems(Items(xs) + "]" + rest) == Some((xs, rest))
    decreases |xs|
  {
    var s := Items(xs) + "]" + rest;
    if |xs| == 1 {
      var after := "]" + rest;
      assert s == Quote(xs[0]) + after;
      ParseQuotedRoundTrip(xs[0], after);
      assert after[0] == ']' && after[1..] == rest;
      assert [xs[0]] == xs;
    } else {
      var tail := Items(xs[1..]) + "]" + rest;
      var after := "," + tail;
      assert s == Quote(xs[0]) + after;
      ParseQuotedRoundTrip(xs[0], after);
      assert after[1..] == tail;
      ParseItemsRoundTrip(xs[1..], rest);
      ParseItemsCons(s, xs[0], tail, xs[1..], rest);
      assert [xs[0]] + xs[1..] == xs;
    }
  }

  lemma ParseItemsCons(s: string, x: string, tail: string, more: seq<string>, rest: string)
    requires ParseQuoted(s) == Some((x, "," + tail))
    requires ParseItems(tail) == Some((more, rest))
    ensures ParseItems(s) == Some(([x] + more, rest))
  {
    assert ("," + tail)[1..] == tail;
  }

  /** Reading back a serialised array of Plain strings gives the strings, and leaves what followed. */
  lemma StringArrayRoundTrip(xs: seq<string>, rest: string)
    requires forall i | 0 <= i < |xs| :: Plain(xs[i])
    ensures ParseStringArray(StringArray(xs) + rest) == Some((xs, rest))
  {
    if xs == [] {
      EmptyArrayRoundTrip(rest);
    } else {
      ItemsArrayRoundTrip(xs, rest);
    }
  }

  lemma EmptyArrayRoundTrip(rest: string)
    ensures ParseStringArray(StringArray([]) + rest) == Some(([], rest))
  {
    var s := "[]" + rest;
    assert s[0] == '[' && s[1] == ']' && s[2..] == rest;
  }

  lemma ItemsArrayRoundTrip(xs: seq<string>, rest: string)
    requires |xs| > 0
    requires forall i | 0 <= i < |xs| :: Plain(xs[i])
    ensures ParseStringArray(StringArray(xs) + rest) == Some((xs, rest))
  {
    var items := Items(xs);
    ItemsStartWithQuote(xs);
    var s := "[" + (items + "]" + rest);
    assert StringArray(xs) + rest == s;
    assert s[0] == '[' && s[1] == '"';
    assert s[1..] == items + "]" + rest;
    ParseItemsRoundTrip(xs, rest);
  }

  lemma ItemsStartWithQuote(xs: seq<string>)
    requires |xs| > 0
    ensures |Items(xs)| > 0 && Items(xs)[0] == '"'
  {
  }

  /** Sum over the items of their byte length plus two quotes. */
  function QuotedBytes(xs: seq<string>): nat {
    if xs == [] then 0 else ByteLen(xs[0]) + 2 + QuotedBytes(xs[1..])
  }

  lemma {:induction false} ItemsByteLen(xs: seq<string>)
    requires |xs| > 0
    ensures ByteLen(Items(xs)) == QuotedBytes(xs) + |xs| - 1
    decreases |xs|
  {
    QuoteByteLen(xs[0]);
    if |xs| > 1 {
      ItemsByteLen(xs[1..]);
      ByteLenConcat(Quote(xs[0]) + ",", Items(xs[1..]));
      ByteLenConcat(Quote(xs[0]), ",");
    }
  }

  lemma QuoteByteLen(x: string)
    ensures ByteLen(Quote(x)) == ByteLen(x) + 2
  {
    ByteLenConcat("\"" + x, "\"");
    ByteLenConcat("\"", x);
  }
}
