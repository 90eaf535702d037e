/** The model-service client: where its configuration comes from, when that
    configuration is usable, and how the streamed response body (server-sent
    events, one `data: <json>` line per delta) is turned into content deltas. */
module Ai {
  import opened Wrappers
  import opened Collections

  // ---------------------------------------------------------------------
  // Configuration
  // ---------------------------------------------------------------------

  datatype AIConfig = AIConfig(apiKey: string, baseURL: string, model: string)

  /** The three build-time variables; an unset variable reads as "". */
  datatype EnvVars = EnvVars(apiKey: string, baseURL: string, model: string)

  /** The fields of the saved settings object; a missing or empty field reads as "". */
  datatype StoredConfig = StoredConfig(apiKey: string, baseURL: string, model: string)

  const DefaultModel := "gpt-4o"

  /** `a || b` on strings. */
  function Or(a: string, b: string): string {
    if a != "" then a else b
  }

  /** The configuration built from the build-time variables alone. */
  function EnvConfig(env: EnvVars): AIConfig {
    AIConfig(env.apiKey, env.baseURL, Or(env.model, DefaultModel))
  }

  /** `getAIConfig()`: `stored` is None when nothing is saved or the saved text
      does not parse. */
  function GetAIConfig(env: EnvVars, stored: Option<StoredConfig>): (r: AIConfig)
    ensures env.apiKey != "" && env.baseURL != "" ==> r == EnvConfig(env)
    ensures stored.None? ==> r == EnvConfig(env)
    ensures r.model != ""
  {
    var fromEnv := EnvConfig(env);
    if fromEnv.apiKey != "" && fromEnv.baseURL != "" then fromEnv
    else match stored
      case None => fromEnv
      case Some(saved) =>
        AIConfig(Or(saved.apiKey, fromEnv.apiKey), Or(saved.baseURL, fromEnv.baseURL), Or(saved.model, fromEnv.model))
  }

  /** When the build-time key or URL is missing, each non-empty saved field
      wins over the build-time one, field by field. */
  lemma StoredFieldsOverride(env: EnvVars, saved: StoredConfig)
    requires env.apiKey == "" || env.baseURL == ""
    ensures var r := GetAIConfig(env, Some(saved));
            && (saved.apiKey != "" ==> r.apiKey == saved.apiKey)
            && (saved.apiKey == "" ==> r.apiKey == env.apiKey)
            && (saved.baseURL != "" ==> r.baseURL == saved.baseURL)
            && (saved.baseURL == "" ==> r.baseURL == env.baseURL)
            && (saved.model != "" ==> r.model == saved.model)
            && (saved.model == "" && env.model != "" ==> r.model == env.model)
            && (saved.model == "" && env.model == "" ==> r.model == DefaultModel)
  {
  }

  /** `isConfigValid(config)` */
  predicate IsConfigValid(config: AIConfig) {
    config.apiKey != "" && config.baseURL != "" && config.model != ""
  }

  /** Since the model always has a fallback, a loaded configuration is usable
      exactly when it has a key and a URL. */
  lemma LoadedConfigValid(env: EnvVars, stored: Option<StoredConfig>)
    ensures IsConfigValid(GetAIConfig(env, stored)) <==>
              GetAIConfig(env, stored).apiKey != "" && GetAIConfig(env, stored).baseURL != ""
    ensures env.apiKey != "" && env.baseURL != "" ==> IsConfigValid(GetAIConfig(env, stored))
  {
  }

  // ---------------------------------------------------------------------
  // Text helpers with JavaScript's semantics
  // ---------------------------------------------------------------------

  /** The characters `String.prototype.trim` removes: white space and line
      terminators of ECMAScript. */
  predicate IsJsSpace(c: char) {
    || c == ' ' || c == '\t' || c == '\n' || c == '\r'
    || c == '\U{000B}' || c == '\U{000C}' || c == '\U{00A0}' || c == '\U{FEFF}'
    || c == '\U{1680}' || ('\U{2000}' <= c <= '\U{200A}')
    || c == '\U{2028}' || c == '\U{2029}' || c == '\U{202F}' || c == '\U{205F}' || c == '\U{3000}'
  }

  function TrimStart(s: string): (r: string)
    ensures |r| <= |s| && r == s[|s| - |r|..]
    ensures forall k :: 0 <= k < |s| - |r| ==> IsJsSpace(s[k])
    ensures r != [] ==> !IsJsSpace(r[0])
  {
    if s != [] && IsJsSpace(s[0]) then TrimStart(s[1..]) else s
  }

  function TrimEnd(s: string): (r: string)
    ensures |r| <= |s| && r == s[..|r|]
    ensures forall k :: |r| <= k < |s| ==> IsJsSpace(s[k])
    ensures r != [] ==> !IsJsSpace(r[|r| - 1])
  {
    if s != [] && IsJsSpace(s[|s| - 1]) then TrimEnd(s[..|s| - 1]) else s
  }

  /** `s.trim()` */
  function Trim(s: string): string
  {
    TrimEnd(TrimStart(s))
  }

  /** The trimmed text is the slice of the text from i on, it neither starts
      nor ends with white space, and everything cut off on either side is
      white space. */
  lemma TrimExact(s: string) returns (i: nat)
    ensures i + |Trim(s)| <= |s| && Trim(s) == s[i..i + |Trim(s)|]
    ensures Trim(s) != [] ==> !IsJsSpace(Trim(s)[0]) && !IsJsSpace(Trim(s)[|Trim(s)| - 1])
    ensures forall k :: 0 <= k < i ==> IsJsSpace(s[k])
    ensures forall k :: i + |Trim(s)| <= k < |s| ==> IsJsSpace(s[k])
  {
    var t := TrimStart(s);
    i := |s| - |t|;
    assert Trim(s) == t[..|Trim(s)|];
    assert t == s[i..];
    assert Trim(s) == s[i..i + |Trim(s)|];
    forall k | i + |Trim(s)| <= k < |s|
      ensures IsJsSpace(s[k])
    {
      assert s[k] == t[k - i];
    }
  }

  /** Text that neither starts nor ends with white space is its own trim. */
  lemma TrimUnpadded(s: string)
    requires s != [] && !IsJsSpace(s[0]) && !IsJsSpace(s[|s| - 1])
    ensures Trim(s) == s
  {
  }

  /** `s.startsWith(prefix)` */
  predicate StartsWith(s: string, prefix: string) {
    |prefix| <= |s| && s[..|prefix|] == prefix
  }

  /** `s.split('\n')`: the pieces between line feeds; there is always one more
      piece than there are line feeds, and the last one is the unterminated rest. */
  function Split(s: string): (r: seq<string>)
    ensures |r| >= 1
  {
    if s == [] then [""]
    else if s[0] == '\n' then [""] + Split(s[1..])
    else
      var rest := Split(s[1..]);
      [[s[0]] + rest[0]] + rest[1..]
  }

  /** `lines.join('\n')` */
  function Join(lines: seq<string>): string
    requires |lines| >= 1
  {
    if |lines| == 1 then lines[0] else lines[0] + "\n" + Join(lines[1..])
  }

  /** Splitting loses nothing: joining the pieces gives the text back, and no
      piece holds a line feed. */
  lemma {:induction false} SplitJoin(s: string)
    ensures Join(Split(s)) == s
    ensures forall k :: 0 <= k < |Split(s)| ==> '\n' !in Split(s)[k]
  {
    if s != [] {
      SplitJoin(s[1..]);
      var rest := Split(s[1..]);
      if s[0] == '\n' {
        assert Split(s)[1..] == rest;
        assert s == [s[0]] + s[1..];
      } else {
        var r := Split(s);
        assert r[0] == [s[0]] + rest[0];
        if |rest| == 1 {
          assert s == [s[0]] + s[1..];
        } else {
          assert r[1..] == rest[1..];
          assert Join(rest) == rest[0] + "\n" + Join(rest[1..]);
          assert s == [s[0]] + s[1..];
        }
        forall k | 1 <= k < |r|
          ensures '\n' !in r[k]
        {
          assert r[k] == rest[k];
        }
      }
    }
  }

  function AllButLast<T>(s: seq<T>): seq<T>
    requires |s| >= 1
  {
    s[..|s| - 1]
  }

  function Last<T>(s: seq<T>): T
    requires |s| >= 1
  {
    s[|s| - 1]
  }

  /** A character other than a line feed joins the first piece. */
  lemma SplitCons(c: char, s: string)
    requires c != '\n'
    ensures Split([c] + s) == [[c] + Split(s)[0]] + Split(s)[1..]
  {
    assert ([c] + s)[0] == c && ([c] + s)[1..] == s;
  }

  /** A line feed starts a new piece. */
  lemma SplitNewline(s: string)
    ensures Split("\n" + s) == [""] + Split(s)
  {
    assert ("\n" + s)[0] == '\n' && ("\n" + s)[1..] == s;
  }

  /** The claim of SplitAppend for a buffer a and appended text b. */
  predicate SplitsAppended(a: string, b: string) {
    Split(a + b) == AllButLast(Split(a)) + Split(Last(Split(a)) + b)
  }

  /** Appending text to a buffer only touches its last, unterminated line:
      the complete lines stay, and the last line is re-split with the new text. */
  lemma {:induction false} SplitAppend(a: string, b: string)
    ensures Split(a + b) == AllButLast(Split(a)) + Split(Last(Split(a)) + b)
    decreases |a|
  {
    if a == [] {
      assert a + b == b;
    } else {
      SplitAppend(a[1..], b);
      assert a == [a[0]] + a[1..];
      if a[0] == '\n' {
        SplitAppendNewline(a[1..], b);
      } else {
        SplitAppendChar(a[0], a[1..], b);
      }
    }
  }

  lemma SplitAppendNewline(r: string, b: string)
    requires SplitsAppended(r, b)
    ensures SplitsAppended("\n" + r, b)
  {
    var t := Split(r);
    ConcatAssoc("\n", r, b);
    SplitNewline(r + b);
    SplitNewline(r);
    assert AllButLast([""] + t) == [""] + AllButLast(t);
    ConcatAssoc([""], AllButLast(t), Split(Last(t) + b));
  }

  lemma SplitAppendChar(c: char, r: string, b: string)
    requires c != '\n'
    requires SplitsAppended(r, b)
    ensures SplitsAppended([c] + r, b)
  {
    var t := Split(r);
    var u := Split(r + b);
    var tail := Split(Last(t) + b);
    ConcatAssoc([c], r, b);
    SplitCons(c, r + b);
    SplitCons(c, r);
    if |t| == 1 {
      assert u == tail;
      ConcatAssoc([c], t[0], b);
      SplitCons(c, t[0] + b);
    } else {
      DropHead(AllButLast(t), tail);
      assert AllButLast(Split([c] + r)) == [[c] + t[0]] + AllButLast(t)[1..];
      ConcatAssoc([[c] + t[0]], AllButLast(t)[1..], tail);
    }
  }

  // ---------------------------------------------------------------------
  // Server-sent event lines
  // ---------------------------------------------------------------------

  const DataPrefix := "data: "
  const DoneMarker := "[DONE]"

  /** What one complete line of the body emits: nothing unless, once trimmed,
      it is non-empty and starts with `data: `; nothing for the `[DONE]`
      marker; nothing when the payload does not parse (`extract` is None) or
      carries no content; otherwise its content. `extract` stands for
      `JSON.parse(payload).choices?.[0]?.delta?.content || ''`. */
  function LineDelta(line: string, extract: string -> Option<string>): (r: seq<string>)
    ensures |r| <= 1
  {
    var trimmed := Trim(line);
    if trimmed == "" || !StartsWith(trimmed, DataPrefix) then []
    else
      var data := trimmed[|DataPrefix|..];
      if data == DoneMarker then []
      else match extract(data)
        case None => []
        case Some(content) => if content != "" then [content] else []
  }

  /** A line emits a delta only when it is a `data: ` line whose payload is
      not the marker, and the delta is the non-empty content of that payload. */
  lemma LineDeltaSource(line: string, extract: string -> Option<string>)
    ensures |LineDelta(line, extract)| <= 1
    ensures LineDelta(line, extract) != [] ==>
              var trimmed := Trim(line);
              && StartsWith(trimmed, DataPrefix)
              && trimmed[|DataPrefix|..] != DoneMarker
              && extract(trimmed[|DataPrefix|..]) == Some(LineDelta(line, extract)[0])
              && LineDelta(line, extract)[0] != ""
  {
  }

  /** The handling of what is left in the buffer when the body ends, as the
      source writes it (it tests the whole `data: [DONE]` text). */
  function FinalBufferDelta(buffer: string, extract: string -> Option<string>): (r: seq<string>)
    ensures |r| <= 1
  {
    var trimmed := Trim(buffer);
    if trimmed == "" then []
    else if StartsWith(trimmed, DataPrefix) && trimmed != DataPrefix + DoneMarker then
      match extract(trimmed[|DataPrefix|..])
      case None => []
      case Some(content) => if content != "" then [content] else []
    else []
  }

  /** The leftover buffer is handled by the same rule as a complete line. */
  lemma FinalBufferIsLastLine(buffer: string, extract: string -> Option<string>)
    ensures FinalBufferDelta(buffer, extract) == LineDelta(buffer, extract)
  {
    var trimmed := Trim(buffer);
    if trimmed != "" && StartsWith(trimmed, DataPrefix) {
      assert trimmed == trimmed[..|DataPrefix|] + trimmed[|DataPrefix|..];
      assert trimmed == DataPrefix + DoneMarker <==> trimmed[|DataPrefix|..] == DoneMarker;
    }
  }

  /** The deltas of a list of lines, in line order. */
  function LinesDeltas(lines: seq<string>, extract: string -> Option<string>): seq<string>
  {
    if lines == [] then []
    else LinesDeltas(AllButLast(lines), extract) + LineDelta(Last(lines), extract)
  }

  lemma {:induction false} LinesDeltasAppend(a: seq<string>, b: seq<string>, extract: string -> Option<string>)
    ensures LinesDeltas(a + b, extract) == LinesDeltas(a, extract) + LinesDeltas(b, extract)
    decreases |b|
  {
    if b == [] {
      assert a + b == a;
    } else {
      assert AllButLast(a + b) == a + AllButLast(b);
      assert Last(a + b) == Last(b);
      LinesDeltasAppend(a, AllButLast(b), extract);
    }
  }

  /** The `data: [DONE]` line emits nothing. */
  lemma DoneLineSilent(extract: string -> Option<string>)
    ensures LineDelta(DataPrefix + DoneMarker, extract) == []
  {
    var done := DataPrefix + DoneMarker;
    TrimUnpadded(done);
    assert done[|DataPrefix|..] == DoneMarker;
  }

  /** A line that emits nothing leaves the lines around it to be handled as
      if it were absent. */
  lemma {:induction false} SilentLineSkipped(before: seq<string>, line: string, after: seq<string>, extract: string -> Option<string>)
    requires LineDelta(line, extract) == []
    ensures LinesDeltas(before + [line] + after, extract) ==
            LinesDeltas(before, extract) + LinesDeltas(after, extract)
  {
    var upTo := before + [line];
    assert AllButLast(upTo) == before && Last(upTo) == line;
    assert LinesDeltas(upTo, extract) == LinesDeltas(before, extract) + LineDelta(line, extract);
    assert LinesDeltas(upTo, extract) == LinesDeltas(before, extract);
    LinesDeltasAppend(upTo, after, extract);
  }

  /** A `[DONE]` line emits nothing and does not end the stream: the lines
      after it are still handled. */
  lemma DoneDoesNotStop(before: seq<string>, after: seq<string>, extract: string -> Option<string>)
    ensures LinesDeltas(before + [DataPrefix + DoneMarker] + after, extract) ==
            LinesDeltas(before, extract) + LinesDeltas(after, extract)
  {
    DoneLineSilent(extract);
    SilentLineSkipped(before, DataPrefix + DoneMarker, after, extract);
  }

  // ---------------------------------------------------------------------
  // streamChat
  // ---------------------------------------------------------------------

  /** What the server sends back: the status, the body text used in the error
      message, the decoded body chunks (None when the body cannot be read),
      and the error thrown by the read after the last chunk, if any. */
  datatype Response = Response(status: nat, bodyText: string, chunks: Option<seq<string>>, readError: Option<string>)

  /** The outcome of `fetch`: a rejection with its message, or a response. */
  datatype Fetch = Rejected(message: string) | Responded(response: Response)

  datatype StreamError =
    | ConfigMissing
    | FetchFailed(message: string)
    | HttpStatus(status: nat, body: string)
    | NoReader
    | ReadFailed(message: string)

  /** The deltas passed to `onChunk`, in order, and the error passed to
      `onError` after them, if any. */
  datatype StreamResult = StreamResult(deltas: seq<string>, error: Option<StreamError>)

  /** `response.ok` */
  predicate IsOk(status: nat) {
    200 <= status <= 299
  }

  /** What `streamChat` reports: every delta carried by the lines of the
      concatenated body, the last unterminated line included, or the error. */
  function Stream(config: AIConfig, fetch: Fetch, extract: string -> Option<string>): StreamResult
  {
    if !IsConfigValid(config) then StreamResult([], Some(ConfigMissing))
    else match fetch
      case Rejected(message) => StreamResult([], Some(FetchFailed(message)))
      case Responded(response) =>
        if !IsOk(response.status) then StreamResult([], Some(HttpStatus(response.status, response.bodyText)))
        else match response.chunks
          case None => StreamResult([], Some(NoReader))
          case Some(chunks) => Read(chunks, response.readError, extract)
  }

  /** What reading the body reports: the deltas of every line of the
      concatenated chunks, the unterminated last line included; when a read
      fails after the chunks, the deltas of the complete lines and the error. */
  function Read(chunks: seq<string>, readError: Option<string>, extract: string -> Option<string>): StreamResult
  {
    var lines := Split(Flatten(chunks));
    match readError
    case Some(message) => StreamResult(LinesDeltas(AllButLast(lines), extract), Some(ReadFailed(message)))
    case None => StreamResult(LinesDeltas(lines, extract), None)
  }

  /** One read: the buffer (the last line of what was received) grows by the
      chunk and is re-split; its complete lines are handled, and its last line
      is the new buffer. */
  lemma ChunkStep(received: string, chunk: string, extract: string -> Option<string>)
    ensures var lines := Split(Last(Split(received)) + chunk);
            && Last(Split(received + chunk)) == Last(lines)
            && LinesDeltas(AllButLast(Split(received + chunk)), extract) ==
               LinesDeltas(AllButLast(Split(received)), extract) + LinesDeltas(AllButLast(lines), extract)
  {
    var lines := Split(Last(Split(received)) + chunk);
    SplitAppend(received, chunk);
    assert AllButLast(Split(received + chunk)) == AllButLast(Split(received)) + AllButLast(lines);
    LinesDeltasAppend(AllButLast(Split(received)), AllButLast(lines), extract);
  }

  /** `streamChat`: the configuration and response checks, then the read loop. */
  method StreamChat(config: AIConfig, fetch: Fetch, extract: string -> Option<string>)
    returns (result: StreamResult)
    ensures result == Stream(config, fetch, extract)
  {
    if !IsConfigValid(config) {
      return StreamResult([], Some(ConfigMissing));
    }
    if fetch.Rejected? {
      return StreamResult([], Some(FetchFailed(fetch.message)));
    }
    var response := fetch.response;
    if !IsOk(response.status) {
      return StreamResult([], Some(HttpStatus(response.status, response.bodyText)));
    }
    if response.chunks.None? {
      return StreamResult([], Some(NoReader));
    }
    result := ReadBody(response.chunks.value, response.readError, extract);
  }

  /** The loop over the complete lines of one read. */
  method HandleLines(lines: seq<string>, extract: string -> Option<string>) returns (deltas: seq<string>)
    ensures deltas == LinesDeltas(lines, extract)
  {
    deltas := [];
    for m := 0 to |lines|
      invariant deltas == LinesDeltas(lines[..m], extract)
    {
      assert AllButLast(lines[..m + 1]) == lines[..m];
      deltas := deltas + LineDelta(lines[m], extract);
    }
    assert lines[..|lines|] == lines;
  }

  /** The read loop of `streamChat`: `buffer` keeps the unterminated last line
      and the complete ones are handled as they arrive; the leftover is handled
      once the body ends. */
  method ReadBody(chunks: seq<string>, readError: Option<string>, extract: string -> Option<string>)
    returns (result: StreamResult)
    ensures result == Read(chunks, readError, extract)
  {
    var buffer := "";
    var deltas: seq<string> := [];
    for k := 0 to |chunks|
      invariant buffer == Last(Split(Flatten(chunks[..k])))
      invariant deltas == LinesDeltas(AllButLast(Split(Flatten(chunks[..k]))), extract)
    {
      FlattenSnoc(chunks, k);
      ChunkStep(Flatten(chunks[..k]), chunks[k], extract);
      buffer := buffer + chunks[k];
      var lines := Split(buffer);
      buffer := Last(lines);
      var handled := HandleLines(AllButLast(lines), extract);
      deltas := deltas + handled;
    }
    assert chunks[..|chunks|] == chunks;
    if readError.Some? {
      return StreamResult(deltas, Some(ReadFailed(readError.value)));
    }
    FinalBufferIsLastLine(buffer, extract);
    deltas := deltas + FinalBufferDelta(buffer, extract);
    result := StreamResult(deltas, None);
  }

  /** With a usable configuration the stream never reports a missing one. */
  lemma ValidConfigReachesServer(config: AIConfig, fetch: Fetch, extract: string -> Option<string>)
    requires IsConfigValid(config)
    ensures Stream(config, fetch, extract).error != Some(ConfigMissing)
  {
  }

  /** Every failure before the body is read reports no delta at all; a delta
      or a clean end means the configuration was usable, the server answered
      with a 2xx status and the body was readable. */
  lemma StreamFailures(config: AIConfig, fetch: Fetch, extract: string -> Option<string>)
    ensures var r := Stream(config, fetch, extract);
            && (r.error.Some? && !r.error.value.ReadFailed? ==> r.deltas == [])
            && (r.deltas != [] || r.error.None? ==>
                  IsConfigValid(config) && fetch.Responded? && IsOk(fetch.response.status) && fetch.response.chunks.Some?)
            && (r.error == Some(ConfigMissing) <==> !IsConfigValid(config))
  {
  }

  /** The deltas do not depend on where the body was cut into chunks. */
  lemma ChunkingIrrelevant(config: AIConfig, r1: Response, r2: Response, extract: string -> Option<string>)
    requires r1.status == r2.status && r1.bodyText == r2.bodyText && r1.readError == r2.readError
    requires r1.chunks.Some? && r2.chunks.Some? && Flatten(r1.chunks.value) == Flatten(r2.chunks.value)
    ensures Stream(config, Responded(r1), extract) == Stream(config, Responded(r2), extract)
  {
  }

  /** `String(n)` for a natural number. */
  function Decimal(n: nat): string
  {
    if n < 10 then [DigitChar(n)] else Decimal(n / 10) + [DigitChar(n % 10)]
  }

  function DigitChar(d: nat): char
    requires d < 10
  {
    "0123456789"[d]
  }

  /** The number a string of decimal digits denotes. */
  function DigitsValue(s: string): int
  {
    if s == [] then 0 else DigitsValue(s[..|s| - 1]) * 10 + (s[|s| - 1] as int - '0' as int)
  }

  /** `String(n)` is read back as n, and has no leading zero. */
  lemma {:induction false} DecimalRoundTrip(n: nat)
    ensures DigitsValue(Decimal(n)) == n
    ensures |Decimal(n)| > 0 && (Decimal(n)[0] == '0' ==> n == 0)
  {
    if n >= 10 {
      DecimalRoundTrip(n / 10);
      var s := Decimal(n);
      assert s[..|s| - 1] == Decimal(n / 10);
    }
  }

  /** `error.message` of the error passed to `onError`. */
  function ErrorMessage(e: StreamError): string {
    match e
    case ConfigMissing => "请先配置 AI API"
    case FetchFailed(message) => message
    case HttpStatus(status, body) => "API 请求失败: " + Decimal(status) + " " + body
    case NoReader => "无法读取响应流"
    case ReadFailed(message) => message
  }
}
