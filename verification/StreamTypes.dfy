/** Streamed events, their JSON form, and the bytes that carry them. */
module StreamTypes {
  import opened Text

  type byte = b: int | 0 <= b < 256
  type u32 = n: int | 0 <= n < 0x1_0000_0000

  datatype Result<+T, +E> = Ok(value: T) | Err(error: E)

  datatype Json =
    | Null
    | Bool(flag: bool)
    | Number(literal: string)
    | String(text: string)
    | Array(items: seq<Json>)
    | Object(fields: map<string, Json>)

  datatype Usage = Usage(inputTokens: u32, cacheCreationInputTokens: u32, cacheReadInputTokens: u32, outputTokens: u32)

  datatype OutputContentBlock =
    | Text(text: string)
    | ToolUse(id: string, name: string, input: Json)
    | Thinking(thinking: string, signature: Option<string>)
    | RedactedThinking(data: Json)

  datatype MessageResponse = MessageResponse(
    id: string, kind: string, role: string, content: seq<OutputContentBlock>, model: string,
    stopReason: Option<string>, stopSequence: Option<string>, usage: Usage, requestId: Option<string>)

  datatype Delta =
    | TextDelta(text: string)
    | InputJsonDelta(partialJson: string)
    | ThinkingDelta(thinking: string)
    | SignatureDelta(signature: string)

  datatype StreamEvent =
    | MessageStart(message: MessageResponse)
    | MessageDelta(stopReason: Option<string>, stopSequence: Option<string>, usage: Usage)
    | BlockStart(index: u32, block: OutputContentBlock)
    | BlockDelta(index: u32, delta: Delta)
    | BlockStop(index: u32)
    | MessageStop

  datatype ApiError = JsonDeserialize(provider: string, model: string, payload: string)

  /** The foreign conversions: JSON printing and parsing, and lossy UTF-8 decoding. */
  datatype Codec = Codec(
    printJson: Json -> string,
    parseJson: string -> Option<Json>,
    printEvent: StreamEvent -> string,
    parseEvent: string -> Option<StreamEvent>,
    lossy: seq<byte> -> string)

  /**
   * What the foreign code promises: parsing inverts printing, an event prints as one
   * brace-delimited object without control characters, and valid UTF-8 decodes exactly.
   */
  ghost predicate Lawful(codec: Codec) {
    && (forall v :: codec.parseJson(codec.printJson(v)) == Some(v))
    && (forall e :: codec.parseEvent(codec.printEvent(e)) == Some(e))
    && (forall e :: PrintsAsObject(codec.printEvent(e)))
    && (forall s :: codec.lossy(Utf8(s)) == s)
  }

  predicate PrintsAsObject(s: string) {
    && |s| >= 2 && s[0] == '{' && s[|s| - 1] == '}'
    && forall i :: 0 <= i < |s| ==> s[i] >= ' '
  }

  // --- UTF-8, section 3 of RFC 3629 ---

  function Utf8Char(c: char): (r: seq<byte>)
    ensures 1 <= |r| <= 4
    ensures 10 in r ==> c == '\n'
    ensures 13 in r ==> c == '\r'
  {
    var n := c as int;
    if n < 0x80 then [n]
    else if n < 0x800 then [0xC0 + n / 64, 0x80 + n % 64]
    else if n < 0x1_0000 then [0xE0 + n / 4096, 0x80 + n / 64 % 64, 0x80 + n % 64]
    else [0xF0 + n / 262144, 0x80 + n / 4096 % 64, 0x80 + n / 64 % 64, 0x80 + n % 64]
  }

  function Utf8(s: string): seq<byte> {
    if s == "" then [] else Utf8Char(s[0]) + Utf8(s[1..])
  }

  lemma {:induction false} Utf8Concat(a: string, b: string)
    ensures Utf8(a + b) == Utf8(a) + Utf8(b)
  {
    hide Utf8Char;
    if a == "" {
      assert a + b == b;
    } else {
      Utf8Concat(a[1..], b);
      assert (a + b)[1..] == a[1..] + b;
    }
  }

  lemma {:induction false} Utf8Clean(s: string)
    ensures '\n' !in s ==> 10 !in Utf8(s)
    ensures '\r' !in s ==> 13 !in Utf8(s)
  {
    if s != "" {
      Utf8Clean(s[1..]);
    }
  }

  /** The code point that one to four bytes spell. */
  function CodePoint(b: seq<byte>): int
    requires 1 <= |b| <= 4
  {
    var b0: int := b[0];
    if |b| == 1 then b0
    else if |b| == 2 then (b0 - 0xC0) * 64 + Continuation(b[1])
    else if |b| == 3 then ((b0 - 0xE0) * 64 + Continuation(b[1])) * 64 + Continuation(b[2])
    else (((b0 - 0xF0) * 64 + Continuation(b[1])) * 64 + Continuation(b[2])) * 64 + Continuation(b[3])
  }

  function Continuation(b: byte): int {
    b - 0x80
  }

  lemma SixBits(n: int)
    requires n >= 0
    ensures n == 64 * (n / 64) + n % 64 && n / 64 / 64 == n / 4096 && n / 4096 / 64 == n / 262144
  {
  }

  /** A character is spelled by its code point in as few bytes as hold it. */
  lemma Utf8CharSpells(c: char)
    ensures CodePoint(Utf8Char(c)) == c as int
    ensures |Utf8Char(c)| == (if c < '\U{80}' then 1 else if c < '\U{800}' then 2 else if c < '\U{10000}' then 3 else 4)
  {
    var n := c as int;
    SixBits(n);
    SixBits(n / 64);
    SixBits(n / 4096);
  }
}
