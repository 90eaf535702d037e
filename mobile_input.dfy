/** The send action of the input panel: it checks the input and the
    configuration, records the exchange in the chat history, streams the
    reply, and hands the diagram elements found in the growing reply to the
    canvas batch by batch, each element once. */
module MobileInput {
  import opened Wrappers
  import opened Json
  import opened Collections
  import opened Ai
  import EP = ElementParser
  import CH = ChatHistory

  /** The notices the panel shows. */
  datatype Toast =
    | ConfigureApiFirst   // the configuration is not usable
    | GenerationFailed    // the stream reported an error
    | ElementsGenerated   // at least one element reached the canvas

  /** The ids the action generates: for the session it may create, for the
      user message and for the assistant message. */
  datatype NewIds = NewIds(session: string, userMessage: string, assistantMessage: string)

  /** What one press of the send action does. `Sent` also means that the
      input box was cleared and the loading state was set for the duration of
      the stream. `batches` are the element lists passed to the canvas, in
      order; `cursors` is the value of `processedLength` after each delta. */
  datatype SendOutcome =
    | Ignored
    | NeedsConfig
    | Sent(sessionId: string, fullText: string, batches: seq<seq<Json>>, cursors: seq<nat>,
           error: Option<StreamError>, toasts: seq<Toast>)

  /** `!sessionId`: no session is selected (a null or empty id). */
  predicate NoSession(current: Option<string>) {
    current.None? || current.value == ""
  }

  /** The session the exchange is recorded in. */
  function TargetSession(current: Option<string>, ids: NewIds): string {
    if NoSession(current) then ids.session else current.value
  }

  /** The sessions once the exchange is recorded: a new session first when
      none is selected, then the user message and an empty assistant message
      appended to the target session. */
  function Recorded(sessions: seq<CH.Session>, current: Option<string>, ids: NewIds,
                    defaultTitle: string, userMessage: string, now: int): seq<CH.Session>
  {
    var base := if NoSession(current) then [CH.Session(ids.session, defaultTitle, [], now, now)] + sessions else sessions;
    var target := TargetSession(current, ids);
    var withUser := CH.WithMessage(base, target, CH.Message(ids.userMessage, CH.User, userMessage, now), now);
    CH.WithMessage(withUser, target, CH.Message(ids.assistantMessage, CH.Assistant, "", now), now)
  }

  /** The final text of the assistant message: the reply, or the apology
      carrying the error message. */
  function Reply(fullText: string, error: Option<StreamError>): string {
    if error.Some? then "抱歉，发生了错误：" + ErrorMessage(error.value) else fullText
  }

  /** Every batch handed to the canvas holds at least one element. */
  predicate NonEmptyBatches(batches: seq<seq<Json>>) {
    forall b :: 0 <= b < |batches| ==> batches[b] != []
  }

  /** The cursor never moves back. */
  predicate Nondecreasing(cursors: seq<nat>) {
    forall i, j :: 0 <= i < j < |cursors| ==> cursors[i] <= cursors[j]
  }

  /** The cursors after each delta: they never move back, and none passes
      `last`. */
  predicate CursorTrace(cursors: seq<nat>, last: nat) {
    Nondecreasing(cursors) && forall j :: 0 <= j < |cursors| ==> cursors[j] <= last
  }

  lemma CursorTraceGrows(cursors: seq<nat>, last: nat, next: nat)
    requires CursorTrace(cursors, last) && last <= next
    ensures CursorTrace(cursors + [next], next)
  {
  }

  /** The text received once the first `n` deltas have arrived. */
  function Received(deltas: seq<string>, n: nat): string
    requires n <= |deltas|
  {
    Flatten(deltas[..n])
  }

  /** The cursor once all complete objects of `text` are delivered. */
  function CursorAtEnd(text: string): nat
  {
    EP.CursorAfter(text, |EP.Extract(text, 0)|)
  }

  /** The objects with an id among the complete objects of `text`, in order. */
  function Generated(text: string, decode: string -> Option<Json>): seq<Json>
  {
    EP.Kept(EP.Jsons(EP.Extract(text, 0)), decode)
  }

  /** More text never takes back an object already generated. */
  lemma GeneratedGrows(text: string, more: string, decode: string -> Option<Json>)
    ensures Generated(text, decode) <= Generated(text + more, decode)
  {
    var all := EP.Extract(text + more, 0);
    var n := |EP.Extract(text, 0)|;
    EP.GrowText(text, more, n);
    assert EP.Extract(text, 0)[..n] == EP.Extract(text, 0);
    EP.JsonsSplit(all, n);
    EP.KeptAppend(EP.Jsons(all[..n]), EP.Jsons(all[n..]), decode);
  }

  /** More text never moves back the end of the last complete object, which
      never passes the text. */
  lemma CursorAtEndGrows(text: string, more: string)
    ensures CursorAtEnd(text) <= CursorAtEnd(text + more) <= |text + more|
  {
    var n := |EP.Extract(text, 0)|;
    EP.GrowText(text, more, n);
    EP.ParseAtCursor(text + more, n, s => None);
  }

  /** The batch delta k hands to `onElementsGenerated`: the objects with an
      id that its arrival completed. */
  function DeltaBatch(deltas: seq<string>, k: nat, decode: string -> Option<Json>): seq<Json>
    requires k < |deltas|
  {
    var before := Generated(Received(deltas, k), decode);
    var after := Generated(Received(deltas, k + 1), decode);
    if |before| <= |after| then after[|before|..] else []
  }

  /** The batches handed to the canvas by the first n deltas, empty ones
      skipped. */
  function BatchesAfter(deltas: seq<string>, n: nat, decode: string -> Option<Json>): seq<seq<Json>>
    requires n <= |deltas|
  {
    if n == 0 then [] else Deliver(BatchesAfter(deltas, n - 1, decode), DeltaBatch(deltas, n - 1, decode))
  }

  /** `processedLength` after the first n deltas: it moves to the end of the
      last complete object exactly when the delta delivered a batch. */
  function CursorAfterDeltas(deltas: seq<string>, n: nat, decode: string -> Option<Json>): nat
    requires n <= |deltas|
  {
    if n == 0 then 0
    else if DeltaBatch(deltas, n - 1, decode) != [] then CursorAtEnd(Received(deltas, n))
    else CursorAfterDeltas(deltas, n - 1, decode)
  }

  /** `processedLength` after each of the first n deltas. */
  function CursorLog(deltas: seq<string>, n: nat, decode: string -> Option<Json>): seq<nat>
    requires n <= |deltas|
  {
    if n == 0 then [] else CursorLog(deltas, n - 1, decode) + [CursorAfterDeltas(deltas, n, decode)]
  }

  /** Delta n - 1 completes the delivery of the text received with it. */
  lemma BatchStep(deltas: seq<string>, n: nat, decode: string -> Option<Json>)
    requires 0 < n <= |deltas|
    requires Flatten(BatchesAfter(deltas, n - 1, decode)) == Generated(Received(deltas, n - 1), decode)
    ensures Flatten(BatchesAfter(deltas, n, decode)) == Generated(Received(deltas, n), decode)
  {
    var before := Generated(Received(deltas, n - 1), decode);
    var after := Generated(Received(deltas, n), decode);
    FlattenSnoc(deltas, n - 1);
    GeneratedGrows(Received(deltas, n - 1), deltas[n - 1], decode);
    DeliverRest(BatchesAfter(deltas, n - 1, decode), before, after);
  }

  /** Delivering what `after` has beyond its prefix `before` brings the
      delivered elements from `before` up to `after`. */
  lemma DeliverRest(batches: seq<seq<Json>>, before: seq<Json>, after: seq<Json>)
    requires Flatten(batches) == before && before <= after
    ensures Flatten(Deliver(batches, after[|before|..])) == after
  {
    assert before + after[|before|..] == after;
  }

  /** However the reply is cut into deltas, the batches are non-empty and
      together they are the objects with an id of the text received, each
      once and in order. */
  lemma {:induction false} BatchesDeliverAll(deltas: seq<string>, n: nat, decode: string -> Option<Json>)
    requires n <= |deltas|
    ensures Flatten(BatchesAfter(deltas, n, decode)) == Generated(Received(deltas, n), decode)
    ensures NonEmptyBatches(BatchesAfter(deltas, n, decode))
  {
    if n == 0 {
      assert Received(deltas, 0) == [];
    } else {
      BatchesDeliverAll(deltas, n - 1, decode);
      BatchStep(deltas, n, decode);
    }
  }

  /** The logged cursors never move back, and the cursor never passes the end
      of the last complete object of the text received. */
  lemma {:induction false} CursorLogTrace(deltas: seq<string>, n: nat, decode: string -> Option<Json>)
    requires n <= |deltas|
    ensures |CursorLog(deltas, n, decode)| == n
    ensures CursorTrace(CursorLog(deltas, n, decode), CursorAfterDeltas(deltas, n, decode))
    ensures CursorAfterDeltas(deltas, n, decode) <= CursorAtEnd(Received(deltas, n)) <= |Received(deltas, n)|
  {
    if n == 0 {
      CursorAtEndGrows(Received(deltas, 0), "");
      assert Received(deltas, 0) + "" == Received(deltas, 0);
    } else {
      var before, text := Received(deltas, n - 1), Received(deltas, n);
      var last, next := CursorAfterDeltas(deltas, n - 1, decode), CursorAfterDeltas(deltas, n, decode);
      CursorLogTrace(deltas, n - 1, decode);
      FlattenSnoc(deltas, n - 1);
      assert text == before + deltas[n - 1];
      CursorAtEndGrows(before, deltas[n - 1]);
      assert next == CursorAtEnd(text) || next == last;
      CursorTraceGrows(CursorLog(deltas, n - 1, decode), last, next);
    }
  }

  /** The canvas has been handed, batch by batch, exactly the objects with an
      id among the first `seen` objects of `fullText`, and the cursor stands
      right after those objects. */
  predicate InSync(fullText: string, processedLength: nat, seen: nat, batches: seq<seq<Json>>,
                   decode: string -> Option<Json>) {
    && seen <= |EP.Extract(fullText, 0)|
    && processedLength == EP.CursorAfter(fullText, seen)
    && Flatten(batches) == EP.Kept(EP.Jsons(EP.Extract(fullText, 0)[..seen]), decode)
    && NonEmptyBatches(batches)
  }

  /** The sessions show `text` as the assistant message once streaming has
      started, and are as recorded before that. */
  predicate Shows(sessions: seq<CH.Session>, recorded: seq<CH.Session>, sessionId: string,
                  assistantMessageId: string, text: string, started: bool, now: int) {
    sessions == (if started then CH.WithContent(recorded, sessionId, assistantMessageId, text, now) else recorded)
  }

  /** Records the exchange before streaming (`createSession` when no session
      is selected, then the two `addMessage` calls). */
  method RecordExchange(history: CH.ChatHistory, userMessage: string, ids: NewIds, defaultTitle: string, now: int)
    returns (sessionId: string, assistantMessageId: string)
    modifies history
    ensures sessionId == TargetSession(old(history.currentSessionId), ids)
    ensures assistantMessageId == ids.assistantMessage
    ensures history.sessions == Recorded(old(history.sessions), old(history.currentSessionId), ids, defaultTitle, userMessage, now)
    ensures history.currentSessionId == Some(sessionId)
    ensures history.Saved()
  {
    if NoSession(history.currentSessionId) {
      sessionId := history.CreateSession("", defaultTitle, ids.session, now);
    } else {
      sessionId := history.currentSessionId.value;
    }
    var _ := history.AddMessage(sessionId, CH.User, userMessage, ids.userMessage, now);
    assistantMessageId := history.AddMessage(sessionId, CH.Assistant, "", ids.assistantMessage, now);
  }

  /** Hands a batch to the canvas (`onElementsGenerated`) when it is not empty. */
  function Deliver(batches: seq<seq<Json>>, batch: seq<Json>): (r: seq<seq<Json>>)
    ensures Flatten(r) == Flatten(batches) + batch
    ensures batches <= r
    ensures NonEmptyBatches(batches) ==> NonEmptyBatches(r)
    ensures |r| <= |batches| + 1
    ensures r == batches <==> batch == []
    ensures |r| > 0 <==> |batches| > 0 || batch != []
  {
    if batch == [] then batches
    else
      FlattenAppend(batches, [batch]);
      assert [batch][..0] == [];
      batches + [batch]
  }

  /** The `onChunk` callback for one delta: `fullText` grows by it, the
      assistant message shows the new text, and whatever the parser finds
      after `processedLength` goes to the canvas. The cursor moves, to after
      the last object of the text, only when something was delivered. */
  method OnChunk(chunk: string, fullText: string, processedLength: nat, ghost seen: nat, batches: seq<seq<Json>>,
                 decode: string -> Option<Json>, history: CH.ChatHistory, sessionId: string,
                 assistantMessageId: string, now: int, ghost recorded: seq<CH.Session>, ghost started: bool)
    returns (newText: string, newLength: nat, ghost newSeen: nat, newBatches: seq<seq<Json>>)
    requires InSync(fullText, processedLength, seen, batches, decode)
    requires Shows(history.sessions, recorded, sessionId, assistantMessageId, fullText, started, now)
    requires history.Saved()
    modifies history
    ensures newText == fullText + chunk
    ensures InSync(newText, newLength, newSeen, newBatches, decode)
    ensures processedLength <= newLength <= |newText|
    // the one batch handed over holds exactly the objects with an id completed since the last one
    ensures |Flatten(batches)| <= |Generated(newText, decode)|
    ensures newBatches == Deliver(batches, Generated(newText, decode)[|Flatten(batches)|..])
    ensures batches <= newBatches && |newBatches| <= |batches| + 1
    ensures Flatten(newBatches) == Generated(newText, decode)
    ensures newLength == if newBatches != batches then CursorAtEnd(newText) else processedLength
    ensures |newBatches| > 0 <==> |batches| > 0 || newBatches != batches
    ensures Shows(history.sessions, recorded, sessionId, assistantMessageId, newText, true, now)
    ensures history.currentSessionId == old(history.currentSessionId)
    ensures history.Saved()
  {
    newText := fullText + chunk;
    if started {
      CH.LaterUpdateWins(recorded, sessionId, assistantMessageId, fullText, now, newText, now);
    }
    history.UpdateMessage(sessionId, assistantMessageId, newText, now);
    EP.GrowText(fullText, chunk, seen);
    EP.ParseAtCursor(newText, seen, decode);
    var parsed := EP.ParseExcalidrawElements(newText, processedLength, decode);
    assert Generated(newText, decode) == Flatten(batches) + parsed.elements;
    if |parsed.elements| > 0 {
      newBatches := Deliver(batches, parsed.elements);
      newLength := |newText| - |parsed.remainingBuffer|;
      newSeen := |EP.Extract(newText, 0)|;
      assert EP.Extract(newText, 0)[..newSeen] == EP.Extract(newText, 0);
    } else {
      newBatches := batches;
      newLength := processedLength;
      newSeen := seen;
    }
  }

  /** The state of `handleSend` once the first k deltas have been handled:
      the text is what was received, and the batches, the cursor and the
      cursors logged after each delta are those the deltas determine. */
  predicate Streamed(deltas: seq<string>, k: nat, fullText: string, processedLength: nat, seen: nat,
                     batches: seq<seq<Json>>, cursors: seq<nat>, decode: string -> Option<Json>) {
    && k <= |deltas|
    && fullText == Received(deltas, k)
    && InSync(fullText, processedLength, seen, batches, decode)
    && batches == BatchesAfter(deltas, k, decode)
    && processedLength == CursorAfterDeltas(deltas, k, decode)
    && cursors == CursorLog(deltas, k, decode)
  }

  /** The `onChunk` callback for delta k, with the cursor it leaves logged. */
  method DeliverDelta(deltas: seq<string>, k: nat, fullText: string, processedLength: nat, ghost seen: nat,
                      batches: seq<seq<Json>>, cursors: seq<nat>, decode: string -> Option<Json>,
                      history: CH.ChatHistory, sessionId: string, assistantMessageId: string, now: int,
                      ghost recorded: seq<CH.Session>)
    returns (newText: string, newLength: nat, ghost newSeen: nat, newBatches: seq<seq<Json>>, newCursors: seq<nat>)
    requires k < |deltas| && Streamed(deltas, k, fullText, processedLength, seen, batches, cursors, decode)
    requires Shows(history.sessions, recorded, sessionId, assistantMessageId, fullText, k > 0, now)
    requires history.Saved()
    modifies history
    ensures Streamed(deltas, k + 1, newText, newLength, newSeen, newBatches, newCursors, decode)
    ensures Shows(history.sessions, recorded, sessionId, assistantMessageId, newText, true, now)
    ensures history.currentSessionId == old(history.currentSessionId)
    ensures history.Saved()
  {
    newText, newLength, newSeen, newBatches :=
      OnChunk(deltas[k], fullText, processedLength, seen, batches, decode, history, sessionId, assistantMessageId, now,
              recorded, k > 0);
    FlattenSnoc(deltas, k);
    BatchesDeliverAll(deltas, k, decode);
    newCursors := cursors + [newLength];
  }

  /** The `onChunk` callback run over the deltas of the stream, in order.
      `cursors` records `processedLength` after each delta. */
  method DeliverChunks(deltas: seq<string>, decode: string -> Option<Json>,
                       history: CH.ChatHistory, sessionId: string, assistantMessageId: string, now: int)
    returns (fullText: string, processedLength: nat, ghost seen: nat, batches: seq<seq<Json>>, cursors: seq<nat>)
    requires history.Saved()
    modifies history
    ensures fullText == Flatten(deltas)
    ensures InSync(fullText, processedLength, seen, batches, decode)
    ensures batches == BatchesAfter(deltas, |deltas|, decode)
    ensures processedLength == CursorAfterDeltas(deltas, |deltas|, decode)
    ensures cursors == CursorLog(deltas, |deltas|, decode)
    ensures Flatten(batches) == Generated(fullText, decode)
    ensures |cursors| == |deltas| && CursorTrace(cursors, processedLength) && processedLength <= |fullText|
    ensures Shows(history.sessions, old(history.sessions), sessionId, assistantMessageId, fullText, |deltas| > 0, now)
    ensures history.currentSessionId == old(history.currentSessionId)
    ensures history.Saved()
  {
    ghost var recorded := history.sessions;
    fullText := "";
    processedLength := 0;
    batches := [];
    cursors := [];
    seen := 0;
    assert Received(deltas, 0) == "";
    for k := 0 to |deltas|
      invariant Streamed(deltas, k, fullText, processedLength, seen, batches, cursors, decode)
      invariant Shows(history.sessions, recorded, sessionId, assistantMessageId, fullText, k > 0, now)
      invariant history.currentSessionId == old(history.currentSessionId)
      invariant history.Saved()
    {
      fullText, processedLength, seen, batches, cursors :=
        DeliverDelta(deltas, k, fullText, processedLength, seen, batches, cursors, decode,
                     history, sessionId, assistantMessageId, now, recorded);
    }
    assert deltas[..|deltas|] == deltas;
    BatchesDeliverAll(deltas, |deltas|, decode);
    CursorLogTrace(deltas, |deltas|, decode);
  }

  /** The `onError` callback: the assistant message becomes the apology with
      the error message, whatever the stream had shown in it. */
  method OnError(error: StreamError, fullText: string, history: CH.ChatHistory, sessionId: string,
                 assistantMessageId: string, now: int, ghost recorded: seq<CH.Session>, ghost started: bool)
    requires Shows(history.sessions, recorded, sessionId, assistantMessageId, fullText, started, now)
    requires history.Saved()
    modifies history
    ensures history.sessions == CH.WithContent(recorded, sessionId, assistantMessageId, Reply(fullText, Some(error)), now)
    ensures history.currentSessionId == old(history.currentSessionId)
    ensures history.Saved()
  {
    var apology := Reply(fullText, Some(error));
    if started {
      CH.LaterUpdateWins(recorded, sessionId, assistantMessageId, fullText, now, apology, now);
    }
    history.UpdateMessage(sessionId, assistantMessageId, apology, now);
  }

  /** The parse after the stream ends: whatever the callbacks left pending
      goes to the canvas, so that all objects with an id of the reply have
      been delivered; `hasGeneratedElements` tells whether any batch was. */
  method FinalParse(fullText: string, processedLength: nat, ghost seen: nat, batches: seq<seq<Json>>,
                    decode: string -> Option<Json>)
    returns (newBatches: seq<seq<Json>>, hasGeneratedElements: bool)
    requires InSync(fullText, processedLength, seen, batches, decode)
    ensures Flatten(newBatches) == Generated(fullText, decode)
    ensures NonEmptyBatches(newBatches)
    ensures hasGeneratedElements <==> |newBatches| > 0
    ensures batches <= newBatches
    // a safety net: after callbacks that delivered everything it adds nothing
    ensures Flatten(batches) == Generated(fullText, decode) ==> newBatches == batches
  {
    EP.ParseAtCursor(fullText, seen, decode);
    var final := EP.ParseExcalidrawElements(fullText, processedLength, decode);
    newBatches := batches;
    hasGeneratedElements := |batches| > 0;
    if |final.elements| > 0 {
      newBatches := Deliver(batches, final.elements);
      hasGeneratedElements := true;
    }
  }

  /** What follows the stream: the error callback when it failed, the final
      parse, and the notices. After the callbacks delivered everything, the
      final parse hands over nothing. */
  method AfterStream(fullText: string, processedLength: nat, ghost seen: nat, batches: seq<seq<Json>>,
                     error: Option<StreamError>, decode: string -> Option<Json>, history: CH.ChatHistory,
                     sessionId: string, assistantMessageId: string, now: int,
                     ghost recorded: seq<CH.Session>, ghost started: bool)
    returns (finalBatches: seq<seq<Json>>, toasts: seq<Toast>)
    requires InSync(fullText, processedLength, seen, batches, decode)
    requires Flatten(batches) == Generated(fullText, decode)
    requires Shows(history.sessions, recorded, sessionId, assistantMessageId, fullText, started, now)
    requires history.Saved()
    modifies history
    ensures finalBatches == batches
    ensures toasts == (if error.Some? then [GenerationFailed] else []) + (if |batches| > 0 then [ElementsGenerated] else [])
    ensures error.Some? ==> history.sessions == CH.WithContent(recorded, sessionId, assistantMessageId, Reply(fullText, error), now)
    ensures error.None? ==> history.sessions == old(history.sessions)
    ensures history.currentSessionId == old(history.currentSessionId)
    ensures history.Saved()
  {
    toasts := [];
    if error.Some? {
      OnError(error.value, fullText, history, sessionId, assistantMessageId, now, recorded, started);
      toasts := [GenerationFailed];
    }
    var hasGeneratedElements;
    finalBatches, hasGeneratedElements := FinalParse(fullText, processedLength, seen, batches, decode);
    if hasGeneratedElements {
      toasts := toasts + [ElementsGenerated];
    }
  }

  /** The final assistant message: untouched when nothing arrived and
      nothing failed, otherwise the last text written into it. */
  function Answered(recorded: seq<CH.Session>, sessionId: string, assistantMessageId: string,
                    deltas: seq<string>, error: Option<StreamError>, now: int): seq<CH.Session>
  {
    if |deltas| == 0 && error.None? then recorded
    else CH.WithContent(recorded, sessionId, assistantMessageId, Reply(Flatten(deltas), error), now)
  }

  /** What `handleSend` does once the exchange is recorded: the stream, the
      callbacks for its deltas, the error callback, the final parse and the
      notices. */
  method StreamReply(config: AIConfig, fetch: Fetch, extract: string -> Option<string>, decode: string -> Option<Json>,
                     history: CH.ChatHistory, sessionId: string, assistantMessageId: string, now: int)
    returns (fullText: string, batches: seq<seq<Json>>, cursors: seq<nat>, error: Option<StreamError>, toasts: seq<Toast>)
    requires IsConfigValid(config)
    requires history.Saved()
    modifies history
    ensures var stream := Stream(config, fetch, extract);
            && fullText == Flatten(stream.deltas)
            && error == stream.error
            && error != Some(ConfigMissing)
            && batches == BatchesAfter(stream.deltas, |stream.deltas|, decode)
            && cursors == CursorLog(stream.deltas, |stream.deltas|, decode)
            && Flatten(batches) == Generated(fullText, decode)
            && NonEmptyBatches(batches)
            && |cursors| == |stream.deltas|
            && CursorTrace(cursors, |fullText|)
            && toasts == (if error.Some? then [GenerationFailed] else []) + (if |batches| > 0 then [ElementsGenerated] else [])
            && history.sessions == Answered(old(history.sessions), sessionId, assistantMessageId, stream.deltas, error, now)
    ensures history.currentSessionId == old(history.currentSessionId)
    ensures history.Saved()
  {
    ghost var recorded := history.sessions;
    var stream := StreamChat(config, fetch, extract);
    ValidConfigReachesServer(config, fetch, extract);
    var processedLength;
    ghost var seen;
    fullText, processedLength, seen, batches, cursors :=
      DeliverChunks(stream.deltas, decode, history, sessionId, assistantMessageId, now);
    error := stream.error;
    batches, toasts := AfterStream(fullText, processedLength, seen, batches, error, decode, history, sessionId,
                                   assistantMessageId, now, recorded, |stream.deltas| > 0);
  }


  /** `handleSend()`. `env` and `stored` are where the configuration comes
      from, `fetch` is what the server does with the request, `extract` and
      `decode` stand for the JSON decoding of a stream payload and of an
      element, and `now` is the clock. */
  method HandleSend(input: string, isLoading: bool, env: EnvVars, stored: Option<StoredConfig>,
                    fetch: Fetch, extract: string -> Option<string>, decode: string -> Option<Json>,
                    history: CH.ChatHistory, ids: NewIds, defaultTitle: string, now: int)
    returns (out: SendOutcome)
    requires history.Saved()
    modifies history
    ensures Trim(input) == "" || isLoading ==> out == Ignored && unchanged(history)
    ensures Trim(input) != "" && !isLoading && !IsConfigValid(GetAIConfig(env, stored)) ==>
              out == NeedsConfig && unchanged(history)
    ensures Trim(input) != "" && !isLoading && IsConfigValid(GetAIConfig(env, stored)) ==> out.Sent?
    ensures out.Sent? ==>
              var stream := Stream(GetAIConfig(env, stored), fetch, extract);
              && out.sessionId == TargetSession(old(history.currentSessionId), ids)
              && out.fullText == Flatten(stream.deltas)
              && out.error == stream.error
              && out.error != Some(ConfigMissing)
              // every element with an id in the reply reaches the canvas once, in order
              && out.batches == BatchesAfter(stream.deltas, |stream.deltas|, decode)
              && out.cursors == CursorLog(stream.deltas, |stream.deltas|, decode)
              && Flatten(out.batches) == Generated(out.fullText, decode)
              && NonEmptyBatches(out.batches)
              && |out.cursors| == |stream.deltas|
              && CursorTrace(out.cursors, |out.fullText|)
              && out.toasts == (if out.error.Some? then [GenerationFailed] else []) +
                               (if |out.batches| > 0 then [ElementsGenerated] else [])
              && history.sessions ==
                 Answered(Recorded(old(history.sessions), old(history.currentSessionId), ids, defaultTitle, Trim(input), now),
                          out.sessionId, ids.assistantMessage, stream.deltas, out.error, now)
              && history.currentSessionId == Some(out.sessionId)
    ensures history.Saved()
  {
    if Trim(input) == "" || isLoading {
      return Ignored;
    }
    var config := GetAIConfig(env, stored);
    if !IsConfigValid(config) {
      return NeedsConfig;
    }
    var userMessage := Trim(input);
    var sessionId, assistantMessageId := RecordExchange(history, userMessage, ids, defaultTitle, now);
    var fullText, batches, cursors, error, toasts :=
      StreamReply(config, fetch, extract, decode, history, sessionId, assistantMessageId, now);
    out := Sent(sessionId, fullText, batches, cursors, error, toasts);
  }
}
