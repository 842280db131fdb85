/**
 * The streaming relay inside `chat_completion` (the `generate` generator of
 * backend/routers/chat.py): provider chunks are forwarded to the client
 * while their content (after image localisation) and reasoning are
 * accumulated, until the provider stream ends, an error chunk arrives, the
 * client goes away, or the provider raises.
 *
 * The provider stream is the finite sequence of what each `__anext__`
 * produced; the asyncio polling for disconnects becomes a `Disconnect`
 * step, and the end of the sequence is `StopAsyncIteration`.
 */
module ChatRelay {
  import opened Wrappers
  import opened Text
  import opened ChatHelpers

  /** A provider chunk after `json.loads(chunk[6:])`: an object with the keys the relay reads, or anything else. */
  datatype Chunk =
    | Data(content: Option<string>, reasoning: Option<string>, error: Option<string>)
    | Malformed(raw: string)

  /** What awaiting the next provider chunk gives. */
  datatype StreamStep =
    | Next(chunk: Chunk)       // a chunk arrived
    | Raised(message: string)  // `__anext__` raised an exception
    | Disconnect               // `request.is_disconnected()` turned true first
    | Cancelled                // the pending chunk task was cancelled

  /** A server-sent event the endpoint emits. */
  datatype Emitted =
    | SessionIdEvent(sessionId: int)
    | Forwarded(chunk: Chunk)
    | ErrorEvent(message: string)

  /** Why the relay loop stopped. */
  datatype Outcome = Running | Exhausted | ErrorChunk | ClientGone | TaskCancelled | ProviderRaised

  /**
   * The generator's locals: what it emitted so far, `full_response`,
   * `full_reasoning`, and how it stopped; then what its `finally` block did:
   * whether it cancelled a chunk fetch still outstanding, and whether it
   * closed the provider stream.
   */
  datatype RelayState = RelayState(events: seq<Emitted>, content: string, reasoning: string, outcome: Outcome,
    pendingCancelled: bool, closed: bool)

  const Start := RelayState([], "", "", Running, false, false)

  /**
   * The image localisation the endpoint applies to content, as the helpers
   * are written: every saved URL found in the text is replaced by its local
   * path wherever it occurs (`LocalizedText`), not reference by reference.
   */
  function Localize(s: string, fetch: Fetcher): (r: string)
    ensures !Contains(s, "![") ==> r == s
  {
    NoBangUnchanged(s, fetch);
    LocalizedText(s, FindImageUrls(s, 0), fetch)
  }

  /** Text without `![` holds no reference, so the rewriting leaves it alone. */
  lemma NoBangUnchanged(s: string, fetch: Fetcher)
    ensures !Contains(s, "![") ==> LocalizedText(s, FindImageUrls(s, 0), fetch) == s
  {
    if !Contains(s, "![") {
      NoBangNoMatch(s, 0);
    }
  }

  /** `modified` of `_localize_streaming_content`: some image of the text was saved. */
  predicate Modified(s: string, fetch: Fetcher) {
    LocalPaths(FindImageUrls(s, 0), fetch) != []
  }

  /** Text that is not modified is returned as it is. */
  lemma UnmodifiedKept(s: string, fetch: Fetcher)
    requires !Modified(s, fetch)
    ensures Localize(s, fetch) == s
  {
    var urls := FindImageUrls(s, 0);
    LocalPathsEmpty(urls, fetch);
    NothingSavedKeepsText(s, urls, fetch);
  }

  function OrEmpty(v: Option<string>): string {
    if v.Some? then v.value else ""
  }

  /** The chunk as forwarded: re-serialised with the localised content when that changed it. */
  function Rewritten(c: Chunk, fetch: Fetcher): Chunk {
    if c.Data? && c.content.Some? && Modified(c.content.value, fetch)
    then c.(content := Some(Localize(c.content.value, fetch)))
    else c
  }

  /** One iteration of the relay loop. */
  function Step(s: RelayState, step: StreamStep, fetch: Fetcher): RelayState {
    if !s.outcome.Running? then s
    else match step
      case Disconnect => s.(outcome := ClientGone)
      case Cancelled => s.(outcome := TaskCancelled)
      case Raised(msg) => s.(events := s.events + [ErrorEvent(msg)], outcome := ProviderRaised)
      case Next(c) =>
        var out := Rewritten(c, fetch);
        if c.Malformed? then s.(events := s.events + [Forwarded(c)])
        else
          var added := if c.content.Some? then Localize(c.content.value, fetch) else "";
          s.(events := s.events + [Forwarded(out)],
             content := s.content + added,
             reasoning := s.reasoning + OrEmpty(c.reasoning),
             outcome := if c.error.Some? then ErrorChunk else Running)
  }

  /** The relay loop over the first `|steps|` stream steps. */
  function Run(steps: seq<StreamStep>, fetch: Fetcher): RelayState {
    if steps == [] then Start else Step(Run(steps[..|steps| - 1], fetch), steps[|steps| - 1], fetch)
  }

  /**
   * Leaving the loop: with `Exhausted` when the stream ends while it is
   * still running, and then through the `finally` block. Only a disconnect
   * leaves the loop with a chunk fetch outstanding, which is cancelled; the
   * provider stream is closed on every exit.
   */
  function Finish(s: RelayState): RelayState {
    var t := if s.outcome.Running? then s.(outcome := Exhausted) else s;
    t.(pendingCancelled := t.outcome.ClientGone?, closed := true)
  }

  /** The content of every chunk the client was sent, in order. */
  function ForwardedContent(events: seq<Emitted>): string {
    if events == [] then ""
    else
      var last := events[|events| - 1];
      ForwardedContent(events[..|events| - 1])
        + (if last.Forwarded? && last.chunk.Data? then OrEmpty(last.chunk.content) else "")
  }

  /** The reasoning of every chunk the client was sent, in order. */
  function ForwardedReasoning(events: seq<Emitted>): string {
    if events == [] then ""
    else
      var last := events[|events| - 1];
      ForwardedReasoning(events[..|events| - 1])
        + (if last.Forwarded? && last.chunk.Data? then OrEmpty(last.chunk.reasoning) else "")
  }

  /** An event that ends the stream for the client: an error event or a forwarded error chunk. */
  predicate Terminal(e: Emitted) {
    e.ErrorEvent? || (e.Forwarded? && e.chunk.Data? && e.chunk.error.Some?)
  }

  /** What the relay keeps while it runs. */
  predicate Consistent(s: RelayState) {
    && s.content == ForwardedContent(s.events)
    && s.reasoning == ForwardedReasoning(s.events)
    && (forall k :: 0 <= k < |s.events| ==> s.events[k].Forwarded? || s.events[k].ErrorEvent?)
    && (forall k :: 0 <= k < |s.events| - 1 ==> !Terminal(s.events[k]))
    && (s.outcome.Running? || s.outcome.ClientGone? || s.outcome.TaskCancelled? ==>
          forall k :: 0 <= k < |s.events| ==> !Terminal(s.events[k]))
    && (s.outcome.ErrorChunk? || s.outcome.ProviderRaised? ==> s.events != [] && Terminal(s.events[|s.events| - 1]))
    && (s.outcome.ProviderRaised? ==> s.events[|s.events| - 1].ErrorEvent?)
    && !s.outcome.Exhausted?
    && !s.closed && !s.pendingCancelled
  }

  /** Each loop iteration keeps the relay consistent: what is accumulated is what was sent. */
  lemma StepConsistent(s: RelayState, step: StreamStep, fetch: Fetcher)
    requires Consistent(s)
    ensures Consistent(Step(s, step, fetch))
  {
    var t := Step(s, step, fetch);
    if s.outcome.Running? && step.Next? {
      var c := step.chunk;
      assert t.events[..|t.events| - 1] == s.events;
      if c.Data? && c.content.Some? && !Modified(c.content.value, fetch) {
        UnmodifiedKept(c.content.value, fetch);
      }
    } else if s.outcome.Running? && step.Raised? {
      assert t.events[..|t.events| - 1] == s.events;
    }
  }

  /** The relay is consistent after any number of steps. */
  lemma {:induction false} RunConsistent(steps: seq<StreamStep>, fetch: Fetcher)
    ensures Consistent(Run(steps, fetch))
    decreases |steps|
  {
    if steps != [] {
      RunConsistent(steps[..|steps| - 1], fetch);
      StepConsistent(Run(steps[..|steps| - 1], fetch), steps[|steps| - 1], fetch);
    }
  }

  /** Once the loop has stopped, later stream steps change nothing. */
  lemma {:induction false} RunStopped(steps: seq<StreamStep>, n: nat, fetch: Fetcher)
    requires n <= |steps| && !Run(steps[..n], fetch).outcome.Running?
    ensures Run(steps, fetch) == Run(steps[..n], fetch)
    decreases |steps| - n
  {
    if n < |steps| {
      assert steps[..n + 1][..n] == steps[..n];
      RunStopped(steps, n + 1, fetch);
    } else {
      assert steps[..n] == steps;
    }
  }

  /**
   * The handling of one arrived chunk: its content is localised and
   * accumulated, its reasoning accumulated, and the chunk forwarded, ending
   * the loop when it carries an error.
   */
  method ForwardChunk(s0: RelayState, chunk: Chunk, fetch: Fetcher) returns (s: RelayState)
    requires s0.outcome.Running?
    ensures s == Step(s0, Next(chunk), fetch)
  {
    s := s0;
    if chunk.Malformed? {
      s := s.(events := s.events + [Forwarded(chunk)]);
    } else {
      var out := chunk;
      if chunk.content.Some? {
        var contentVal, modified := LocalizeStreamingContent(chunk.content.value, fetch);
        if modified {
          out := chunk.(content := Some(contentVal));
        }
        s := s.(content := s.content + contentVal);
      }
      if chunk.reasoning.Some? {
        s := s.(reasoning := s.reasoning + chunk.reasoning.value);
      }
      if chunk.error.Some? {
        s := s.(events := s.events + [Forwarded(out)], outcome := ErrorChunk);
      } else {
        s := s.(events := s.events + [Forwarded(out)]);
      }
    }
  }

  /** The relay loop of `generate`, from the first `__anext__` to the end of the stream. */
  method Relay(steps: seq<StreamStep>, fetch: Fetcher) returns (s: RelayState)
    ensures s == Finish(Run(steps, fetch))
  {
    s := Start;
    var i := 0;
    while i < |steps|
      invariant 0 <= i <= |steps|
      invariant s == Run(steps[..i], fetch)
      invariant s.outcome.Running?
    {
      assert Run(steps[..i + 1], fetch) == Step(s, steps[i], fetch) by {
        assert steps[..i + 1][..i] == steps[..i];
      }
      var step := steps[i];
      match step {
      case Disconnect =>
        s := s.(outcome := ClientGone);
      case Cancelled =>
        s := s.(outcome := TaskCancelled);
      case Raised(msg) =>
        s := s.(events := s.events + [ErrorEvent(msg)], outcome := ProviderRaised);
      case Next(chunk) =>
        s := ForwardChunk(s, chunk, fetch);
      }
      if !s.outcome.Running? {
        RunStopped(steps, i + 1, fetch);
        s := s.(pendingCancelled := s.outcome.ClientGone?, closed := true);
        return;
      }
      i := i + 1;
    }
    assert steps[..i] == steps;
    s := s.(outcome := Exhausted, pendingCancelled := false, closed := true);
  }

  /**
   * What the relay ends with. The accumulated text and reasoning are
   * exactly what the client was sent (the answer stored afterwards is the
   * localisation of that text). A terminal event can only come last; an
   * error chunk or a provider exception ends with one; a finished stream,
   * a disconnect or a cancellation sends none. The provider stream is open
   * while the loop runs and closed however it ends, and a pending fetch is
   * cancelled exactly when the client went away.
   */
  lemma RelaySpec(steps: seq<StreamStep>, fetch: Fetcher)
    ensures var s := Finish(Run(steps, fetch));
      && s.content == ForwardedContent(s.events)
      && s.reasoning == ForwardedReasoning(s.events)
      && |s.events| <= |steps|
      && !s.outcome.Running?
      && (forall k :: 0 <= k < |s.events| - 1 ==> !Terminal(s.events[k]))
      && (s.outcome.Exhausted? || s.outcome.ClientGone? || s.outcome.TaskCancelled? ==>
            forall k :: 0 <= k < |s.events| ==> !Terminal(s.events[k]))
      && (s.outcome.ErrorChunk? || s.outcome.ProviderRaised? ==> s.events != [] && Terminal(s.events[|s.events| - 1]))
      && !Run(steps, fetch).closed && s.closed
      && (s.pendingCancelled <==> s.outcome.ClientGone?)
  {
    RunConsistent(steps, fetch);
    RunLength(steps, fetch);
  }

  /** Each stream step emits at most one event. */
  lemma {:induction false} RunLength(steps: seq<StreamStep>, fetch: Fetcher)
    ensures |Run(steps, fetch).events| <= |steps|
    decreases |steps|
  {
    if steps != [] {
      RunLength(steps[..|steps| - 1], fetch);
    }
  }

  /** A stream that ends normally relays every chunk, each forwarded once and in order. */
  lemma {:induction false} RunAllData(steps: seq<StreamStep>, fetch: Fetcher)
    requires forall k :: 0 <= k < |steps| ==> steps[k].Next? && (steps[k].chunk.Data? ==> steps[k].chunk.error.None?)
    ensures Run(steps, fetch).outcome.Running?
    ensures |Run(steps, fetch).events| == |steps|
    ensures forall k :: 0 <= k < |steps| ==> Run(steps, fetch).events[k] == Forwarded(Rewritten(steps[k].chunk, fetch))
    decreases |steps|
  {
    if steps != [] {
      RunAllData(steps[..|steps| - 1], fetch);
    }
  }
}
