/**
 * The browser client's conversation (frontend/src/hooks/useChatMessages.ts):
 * sending a message appends the user's turn and an empty assistant reply,
 * the streamed chunks fill that reply in, an error chunk ends the stream,
 * a failure leaves an apology, and editing or regenerating a turn cuts the
 * list back before sending again.
 */
module ChatMessages {
  import opened Wrappers
  import opened Text
  import ChatSettings
  import W = WebApiClient

  // -------------------------------------------------------------- messages

  datatype Role = User | Assistant | System

  /** A message as the client shows it; fields the server did not send are `None`. */
  datatype Message = Message(
    id: Option<int>,
    role: Role,
    content: string,
    thoughtProcess: Option<string>,
    searchResults: Option<seq<W.SearchResult>>,
    images: Option<seq<string>>,
    videos: Option<seq<string>>,
    audios: Option<seq<string>>)

  /** JavaScript truthiness of an optional string: present and not empty. */
  predicate Truthy(s: Option<string>) {
    s.Some? && s.value != ""
  }

  /** JavaScript truthiness of an optional id: present and not 0. */
  predicate TruthyId(id: Option<int>) {
    id.Some? && id.value != 0
  }

  /** The user's message of a turn. */
  function UserMessage(content: string, images: Option<seq<string>>, videos: Option<seq<string>>, audios: Option<seq<string>>): Message {
    Message(None, User, content, None, None, images, videos, audios)
  }

  /** The empty assistant message a reply is streamed into. */
  const Placeholder: Message := Message(None, Assistant, "", None, None, None, None, None)

  /** The text that replaces a reply that failed. */
  const Apology := "Sorry, an error occurred. Please try again."

  predicate EndsWithAssistant(ms: seq<Message>) {
    |ms| > 0 && ms[|ms| - 1].role == Assistant
  }

  /**
   * The first updater of `handleSendMessage`: exactly two messages are
   * appended, the user's and an empty assistant message after it.
   */
  function AppendTurn(ms: seq<Message>, content: string, images: Option<seq<string>>, videos: Option<seq<string>>, audios: Option<seq<string>>): (r: seq<Message>)
    ensures |r| == |ms| + 2 && r[..|ms|] == ms
    ensures r[|ms|].role == User && r[|ms|].content == content
    ensures r[|ms|].images == images && r[|ms|].videos == videos && r[|ms|].audios == audios
    ensures EndsWithAssistant(r) && r[|ms| + 1] == Placeholder
  {
    ms + [UserMessage(content, images, videos, audios), Placeholder]
  }

  // ------------------------------------------------------- stream updaters

  /** A change a streamed chunk makes to the reply. */
  datatype Update =
    | Content(incoming: string)
    | Reasoning(delta: string)
    | Results(found: seq<W.SearchResult>)

  /**
   * New content replaces the reply's content when it starts with it, as
   * a stream of snapshots does, and is appended to it otherwise, as a
   * stream of deltas is. Either way the content keeps what it had and ends
   * with what came in.
   */
  function MergeContent(current: string, incoming: string): (r: string)
    ensures StartsWith(r, current) && EndsWith(r, incoming)
    ensures |r| <= |current| + |incoming|
  {
    if StartsWith(incoming, current) then incoming else current + incoming
  }

  /**
   * One update of the reply: content is merged, reasoning is appended to
   * the thought process (taken as "" when there is none), search results
   * are appended after the ones already there; nothing else changes.
   */
  function Apply(m: Message, u: Update): (r: Message)
    ensures r.id == m.id && r.role == m.role && r.images == m.images && r.videos == m.videos && r.audios == m.audios
    ensures r.content == if u.Content? then MergeContent(m.content, u.incoming) else m.content
    ensures r.thoughtProcess == if u.Reasoning? then Some(m.thoughtProcess.GetOr("") + u.delta) else m.thoughtProcess
    ensures r.searchResults == if u.Results? then Some(m.searchResults.GetOr([]) + u.found) else m.searchResults
  {
    match u
    case Content(incoming) => m.(content := MergeContent(m.content, incoming))
    case Reasoning(delta) => m.(thoughtProcess := Some(m.thoughtProcess.GetOr("") + delta))
    case Results(found) => m.(searchResults := Some(m.searchResults.GetOr([]) + found))
  }

  /**
   * The updaters of the stream loop: only the last message changes, and
   * only when it is an assistant message; the list keeps its length.
   */
  function UpdateLast(ms: seq<Message>, u: Update): (r: seq<Message>)
    ensures |r| == |ms|
    ensures forall i :: 0 <= i < |ms| - 1 ==> r[i] == ms[i]
    ensures EndsWithAssistant(ms) ==> r[|ms| - 1] == Apply(ms[|ms| - 1], u)
    ensures !EndsWithAssistant(ms) ==> r == ms
  {
    if EndsWithAssistant(ms) then ms[..|ms| - 1] + [Apply(ms[|ms| - 1], u)] else ms
  }

  /** The image-generation updater: the generated message takes the place of a last assistant message. */
  function ReplaceLast(ms: seq<Message>, m: Message): (r: seq<Message>)
    ensures |r| == |ms|
    ensures forall i :: 0 <= i < |ms| - 1 ==> r[i] == ms[i]
    ensures EndsWithAssistant(ms) ==> r[|ms| - 1] == m
    ensures !EndsWithAssistant(ms) ==> r == ms
  {
    if EndsWithAssistant(ms) then ms[..|ms| - 1] + [m] else ms
  }

  /** The apology message, with nothing of the failed reply kept. */
  const ApologyMessage: Message := Message(None, Assistant, Apology, None, None, None, None, None)

  /**
   * The error updater: the apology replaces a last assistant message, or
   * is appended after any other last message; the messages before it are
   * kept.
   */
  function Apologize(ms: seq<Message>): (r: seq<Message>)
    ensures |r| == if EndsWithAssistant(ms) then |ms| else |ms| + 1
    ensures r[..|r| - 1] == ms[..|r| - 1]
    ensures r[|r| - 1] == ApologyMessage
  {
    if EndsWithAssistant(ms) then ms[..|ms| - 1] + [ApologyMessage] else ms + [ApologyMessage]
  }

  // ------------------------------------------------------------ the stream

  /** `if (chunk.session_id && !newSessionId)`: a turn takes the first session id the server offers. */
  function Adopt(sid: Option<int>, offered: Option<int>): Option<int> {
    if TruthyId(offered) && !TruthyId(sid) then offered else sid
  }

  /** The three updaters one chunk queues, in the loop's order: content, reasoning, search results. */
  function ChunkUpdaters(ms: seq<Message>, c: W.StreamChunk): seq<Message> {
    var a := if Truthy(c.content) then UpdateLast(ms, Content(c.content.value)) else ms;
    var b := if Truthy(c.reasoning) then UpdateLast(a, Reasoning(c.reasoning.value)) else a;
    if c.searchResults.Some? then UpdateLast(b, Results(c.searchResults.value)) else b
  }

  /** The same three updates made to the reply itself. */
  function UpdateReply(m: Message, c: W.StreamChunk): Message {
    var a := if Truthy(c.content) then Apply(m, Content(c.content.value)) else m;
    var b := if Truthy(c.reasoning) then Apply(a, Reasoning(c.reasoning.value)) else a;
    if c.searchResults.Some? then Apply(b, Results(c.searchResults.value)) else b
  }

  /** One chunk's effect on the list: the reply, if the list ends with one, takes all three updates. */
  function ApplyChunk(ms: seq<Message>, c: W.StreamChunk): (r: seq<Message>)
    ensures |r| == |ms|
    ensures |ms| > 0 ==> r[..|ms| - 1] == ms[..|ms| - 1]
  {
    if EndsWithAssistant(ms) then ms[..|ms| - 1] + [UpdateReply(ms[|ms| - 1], c)] else ms
  }

  /**
   * The three updaters, each of which looks at the last message again,
   * amount to one update of the reply: none of them changes its role.
   */
  lemma UpdatersCompose(ms: seq<Message>, c: W.StreamChunk)
    ensures ChunkUpdaters(ms, c) == ApplyChunk(ms, c)
  {
    if EndsWithAssistant(ms) {
      var n := |ms| - 1;
      var a := if Truthy(c.content) then UpdateLast(ms, Content(c.content.value)) else ms;
      var m1 := if Truthy(c.content) then Apply(ms[n], Content(c.content.value)) else ms[n];
      assert a == ms[..n] + [m1];
      var b := if Truthy(c.reasoning) then UpdateLast(a, Reasoning(c.reasoning.value)) else a;
      var m2 := if Truthy(c.reasoning) then Apply(m1, Reasoning(c.reasoning.value)) else m1;
      assert a[..n] == ms[..n];
      assert b == ms[..n] + [m2];
      assert b[..n] == ms[..n];
    }
  }

  /** On a reply, one chunk's updates keep its role. */
  lemma ChunkKeepsRole(m: Message, c: W.StreamChunk)
    ensures UpdateReply(m, c).role == m.role
  {
  }

  /** One chunk's reasoning, if any, is appended to the reply's thought process (taken as "" when there is none). */
  lemma ChunkReasoning(m: Message, c: W.StreamChunk, d: string)
    requires d == (if Truthy(c.reasoning) then c.reasoning.value else "")
    ensures UpdateReply(m, c).thoughtProcess.GetOr("") == m.thoughtProcess.GetOr("") + d
  {
    assert m.thoughtProcess.GetOr("") + "" == m.thoughtProcess.GetOr("");
  }

  /** One chunk's search results, if any, are appended after the reply's. */
  lemma ChunkResults(m: Message, c: W.StreamChunk, f: seq<W.SearchResult>)
    requires f == (if c.searchResults.Some? then c.searchResults.value else [])
    ensures UpdateReply(m, c).searchResults.GetOr([]) == m.searchResults.GetOr([]) + f
  {
    assert m.searchResults.GetOr([]) + [] == m.searchResults.GetOr([]);
  }

  /** One chunk's content, if any, is merged into the reply's. */
  lemma ChunkContent(m: Message, c: W.StreamChunk, x: seq<string>)
    requires x == (if Truthy(c.content) then [c.content.value] else [])
    ensures UpdateReply(m, c).content == MergeAll(m.content, x)
  {
  }

  /** The messages and session id after the stream loop, and whether an error chunk broke it. */
  datatype Progress = Progress(messages: seq<Message>, sessionId: Option<int>, stopped: bool)

  /**
   * The stream loop of `handleSendMessage` over the chunks delivered: each
   * chunk may give the turn its session id and updates the reply; the loop
   * breaks after a chunk that carries an error. Only the last message can
   * change.
   */
  function Consume(ms: seq<Message>, sid: Option<int>, chunks: seq<W.StreamChunk>): (p: Progress)
    ensures |p.messages| == |ms|
    ensures |ms| > 0 ==> p.messages[..|ms| - 1] == ms[..|ms| - 1]
    decreases |chunks|
  {
    if chunks == [] then Progress(ms, sid, false)
    else
      var c := chunks[0];
      var ms', sid' := ApplyChunk(ms, c), Adopt(sid, c.sessionId);
      if Truthy(c.error) then Progress(ms', sid', true) else Consume(ms', sid', chunks[1..])
  }

  /** The chunks the loop handles: all of them, or those up to and including the first error chunk. */
  function Handled(chunks: seq<W.StreamChunk>): (r: seq<W.StreamChunk>)
    ensures |r| <= |chunks| && r == chunks[..|r|]
    ensures forall i :: 0 <= i < |r| - 1 ==> !Truthy(r[i].error)
    ensures |r| < |chunks| ==> r != [] && Truthy(r[|r| - 1].error)
  {
    if chunks == [] then []
    else if Truthy(chunks[0].error) then [chunks[0]]
    else [chunks[0]] + Handled(chunks[1..])
  }

  /**
   * The loop breaks exactly when some chunk carries an error, and what it
   * leaves depends only on the chunks up to the first one: nothing after
   * an error chunk is looked at.
   */
  lemma {:induction false} StopsAtFirstError(ms: seq<Message>, sid: Option<int>, chunks: seq<W.StreamChunk>)
    ensures Consume(ms, sid, chunks).stopped <==> exists i :: 0 <= i < |chunks| && Truthy(chunks[i].error)
    ensures Consume(ms, sid, chunks) == Consume(ms, sid, Handled(chunks))
    decreases |chunks|
  {
    if chunks != [] {
      var c := chunks[0];
      var ms', sid' := ApplyChunk(ms, c), Adopt(sid, c.sessionId);
      if Truthy(c.error) {
        assert Handled(chunks) == [c];
        assert [c][1..] == [];
      } else {
        StopsAtFirstError(ms', sid', chunks[1..]);
        var h := Handled(chunks);
        assert h == [c] + Handled(chunks[1..]);
        assert h[0] == c && h[1..] == Handled(chunks[1..]);
        if exists i :: 0 <= i < |chunks| && Truthy(chunks[i].error) {
          var i :| 0 <= i < |chunks| && Truthy(chunks[i].error);
          assert chunks[1..][i - 1] == chunks[i];
        }
        if exists i :: 0 <= i < |chunks[1..]| && Truthy(chunks[1..][i].error) {
          var i :| 0 <= i < |chunks[1..]| && Truthy(chunks[1..][i].error);
          assert chunks[i + 1] == chunks[1..][i];
        }
      }
    }
  }

  /**
   * A turn that has a session id keeps it; a turn without one ends with
   * the first session id a handled chunk offered, if any.
   */
  lemma {:induction false} SessionAdoptedOnce(ms: seq<Message>, sid: Option<int>, chunks: seq<W.StreamChunk>)
    ensures TruthyId(sid) ==> Consume(ms, sid, chunks).sessionId == sid
    ensures var s := Consume(ms, sid, chunks).sessionId;
      s == sid ||
      exists i :: 0 <= i < |chunks| && s == chunks[i].sessionId && TruthyId(s) &&
        forall j :: 0 <= j < i ==> !TruthyId(chunks[j].sessionId)
    decreases |chunks|
  {
    if chunks != [] {
      var c := chunks[0];
      var ms', sid' := ApplyChunk(ms, c), Adopt(sid, c.sessionId);
      if !Truthy(c.error) {
        SessionAdoptedOnce(ms', sid', chunks[1..]);
        var s := Consume(ms', sid', chunks[1..]).sessionId;
        if s != sid {
          if sid' != sid {
            assert s == sid';
            assert s == chunks[0].sessionId;
          } else {
            var i :| 0 <= i < |chunks[1..]| && s == chunks[1..][i].sessionId && TruthyId(s) &&
              forall j :: 0 <= j < i ==> !TruthyId(chunks[1..][j].sessionId);
            assert !TruthyId(c.sessionId);
            forall j | 0 <= j < i + 1
              ensures !TruthyId(chunks[j].sessionId)
            {
              if j > 0 {
                assert chunks[j] == chunks[1..][j - 1];
              }
            }
            assert s == chunks[i + 1].sessionId;
          }
        }
      }
    }
  }

  /** The reply's last message stays an assistant message, and its content only grows. */
  lemma ReplyGrows(ms: seq<Message>, sid: Option<int>, chunks: seq<W.StreamChunk>)
    requires EndsWithAssistant(ms)
    ensures var r := Consume(ms, sid, chunks).messages;
      EndsWithAssistant(r) && StartsWith(r[|r| - 1].content, ms[|ms| - 1].content)
  {
    ReplyAccumulates(ms, sid, chunks);
    MergeAllGrows(ms[|ms| - 1].content, Contents(chunks));
  }

  /** Merging only ever extends the content. */
  lemma {:induction false} MergeAllGrows(content: string, xs: seq<string>)
    ensures StartsWith(MergeAll(content, xs), content)
    decreases |xs|
  {
    if xs != [] {
      var c' := MergeContent(content, xs[0]);
      MergeAllGrows(c', xs[1..]);
      PrefixTransitive(content, c', MergeAll(c', xs[1..]));
    }
  }

  lemma PrefixTransitive(a: string, b: string, c: string)
    requires StartsWith(b, a) && StartsWith(c, b)
    ensures StartsWith(c, a)
  {
    assert c[..|a|] == c[..|b|][..|a|];
  }

  /** The reasoning of the handled chunks, concatenated. */
  function Reasonings(chunks: seq<W.StreamChunk>): string {
    if chunks == [] then ""
    else
      var c := chunks[0];
      var d := if Truthy(c.reasoning) then c.reasoning.value else "";
      if Truthy(c.error) then d else d + Reasonings(chunks[1..])
  }

  /** The search results of the handled chunks, in order. */
  function Found(chunks: seq<W.StreamChunk>): seq<W.SearchResult> {
    if chunks == [] then []
    else
      var c := chunks[0];
      var f := if c.searchResults.Some? then c.searchResults.value else [];
      if Truthy(c.error) then f else f + Found(chunks[1..])
  }

  /** The content of the handled chunks that carry any, in order. */
  function Contents(chunks: seq<W.StreamChunk>): seq<string> {
    if chunks == [] then []
    else
      var c := chunks[0];
      var x := if Truthy(c.content) then [c.content.value] else [];
      if Truthy(c.error) then x else x + Contents(chunks[1..])
  }

  /** Merging a series of contents into a reply, one after another. */
  function MergeAll(content: string, xs: seq<string>): string
    decreases |xs|
  {
    if xs == [] then content else MergeAll(MergeContent(content, xs[0]), xs[1..])
  }

  /** The reply after the updates of the handled chunks. */
  function FinalReply(m: Message, chunks: seq<W.StreamChunk>): Message
    decreases |chunks|
  {
    if chunks == [] then m
    else
      var m' := UpdateReply(m, chunks[0]);
      if Truthy(chunks[0].error) then m' else FinalReply(m', chunks[1..])
  }

  /** On a list that ends with a reply, the stream changes only that reply, which stays an assistant message. */
  lemma {:induction false} ConsumeReply(ms: seq<Message>, sid: Option<int>, chunks: seq<W.StreamChunk>)
    requires EndsWithAssistant(ms)
    ensures Consume(ms, sid, chunks).messages == ms[..|ms| - 1] + [FinalReply(ms[|ms| - 1], chunks)]
    ensures FinalReply(ms[|ms| - 1], chunks).role == Assistant
    decreases |chunks|
  {
    var n := |ms| - 1;
    if chunks == [] {
      assert ms == ms[..n] + [ms[n]];
    } else {
      var c := chunks[0];
      var ms', sid' := ApplyChunk(ms, c), Adopt(sid, c.sessionId);
      ChunkKeepsRole(ms[n], c);
      assert ms'[..n] == ms[..n] && ms'[n] == UpdateReply(ms[n], c);
      if !Truthy(c.error) {
        ConsumeReply(ms', sid', chunks[1..]);
      }
    }
  }

  /**
   * What the stream leaves in the reply: its thought process is the old one
   * (or "") followed by every reasoning delta, its search results the old
   * ones followed by every chunk's results, and its content the old content
   * with every incoming content merged in turn.
   */
  lemma ReplyAccumulates(ms: seq<Message>, sid: Option<int>, chunks: seq<W.StreamChunk>)
    requires EndsWithAssistant(ms)
    ensures var r := Consume(ms, sid, chunks).messages; var m, m' := ms[|ms| - 1], r[|r| - 1];
      EndsWithAssistant(r) &&
      m'.thoughtProcess.GetOr("") == m.thoughtProcess.GetOr("") + Reasonings(chunks) &&
      m'.searchResults.GetOr([]) == m.searchResults.GetOr([]) + Found(chunks) &&
      m'.content == MergeAll(m.content, Contents(chunks))
  {
    ConsumeReply(ms, sid, chunks);
    FinalReplyAccumulates(ms[|ms| - 1], chunks);
  }

  lemma FinalReplyAccumulates(m: Message, chunks: seq<W.StreamChunk>)
    ensures var m' := FinalReply(m, chunks);
      m'.thoughtProcess.GetOr("") == m.thoughtProcess.GetOr("") + Reasonings(chunks) &&
      m'.searchResults.GetOr([]) == m.searchResults.GetOr([]) + Found(chunks) &&
      m'.content == MergeAll(m.content, Contents(chunks))
  {
    FinalReasoning(m, chunks);
    FinalResults(m, chunks);
    FinalContent(m, chunks);
  }

  lemma {:induction false} FinalReasoning(m: Message, chunks: seq<W.StreamChunk>)
    ensures FinalReply(m, chunks).thoughtProcess.GetOr("") == m.thoughtProcess.GetOr("") + Reasonings(chunks)
    decreases |chunks|
  {
    var t := m.thoughtProcess.GetOr("");
    if chunks == [] {
      assert t + "" == t;
    } else {
      var c := chunks[0];
      var d := if Truthy(c.reasoning) then c.reasoning.value else "";
      var m1 := UpdateReply(m, c);
      ChunkReasoning(m, c, d);
      if !Truthy(c.error) {
        FinalReasoning(m1, chunks[1..]);
        assert FinalReply(m, chunks) == FinalReply(m1, chunks[1..]);
        assert Reasonings(chunks) == d + Reasonings(chunks[1..]);
        assert (t + d) + Reasonings(chunks[1..]) == t + Reasonings(chunks);
      }
    }
  }

  lemma {:induction false} FinalResults(m: Message, chunks: seq<W.StreamChunk>)
    ensures FinalReply(m, chunks).searchResults.GetOr([]) == m.searchResults.GetOr([]) + Found(chunks)
    decreases |chunks|
  {
    var t := m.searchResults.GetOr([]);
    if chunks == [] {
      assert t + [] == t;
    } else {
      var c := chunks[0];
      var f := if c.searchResults.Some? then c.searchResults.value else [];
      var m1 := UpdateReply(m, c);
      ChunkResults(m, c, f);
      if !Truthy(c.error) {
        FinalResults(m1, chunks[1..]);
        assert FinalReply(m, chunks) == FinalReply(m1, chunks[1..]);
        assert Found(chunks) == f + Found(chunks[1..]);
        var u := m1.searchResults.GetOr([]);
        assert u == t + f;
        assert u + Found(chunks[1..]) == t + (f + Found(chunks[1..]));
      }
    }
  }

  lemma {:induction false} FinalContent(m: Message, chunks: seq<W.StreamChunk>)
    ensures FinalReply(m, chunks).content == MergeAll(m.content, Contents(chunks))
    decreases |chunks|
  {
    if chunks != [] {
      var c := chunks[0];
      var x := if Truthy(c.content) then [c.content.value] else [];
      var m1 := UpdateReply(m, c);
      ChunkContent(m, c, x);
      if !Truthy(c.error) {
        FinalContent(m1, chunks[1..]);
        assert Contents(chunks) == x + Contents(chunks[1..]);
        MergeAllAppend(m.content, x, Contents(chunks[1..]));
      }
    }
  }

  lemma {:induction false} MergeAllAppend(content: string, xs: seq<string>, ys: seq<string>)
    ensures MergeAll(content, xs + ys) == MergeAll(MergeAll(content, xs), ys)
    decreases |xs|
  {
    if xs == [] {
      assert xs + ys == ys;
    } else {
      assert (xs + ys)[0] == xs[0] && (xs + ys)[1..] == xs[1..] + ys;
      MergeAllAppend(MergeContent(content, xs[0]), xs[1..], ys);
    }
  }

  /** Each content of a stream of snapshots extends the one before it. */
  predicate Snapshots(content: string, xs: seq<string>) {
    (xs != [] ==> StartsWith(xs[0], content)) &&
    forall i :: 0 < i < |xs| ==> StartsWith(xs[i], xs[i - 1])
  }

  /** A stream of snapshots leaves the reply holding the last snapshot, not their concatenation. */
  lemma {:induction false} SnapshotsKeepLast(content: string, xs: seq<string>)
    requires xs != [] && Snapshots(content, xs)
    ensures MergeAll(content, xs) == xs[|xs| - 1]
    decreases |xs|
  {
    var c' := MergeContent(content, xs[0]);
    assert c' == xs[0];
    if |xs| > 1 {
      forall i | 0 < i < |xs[1..]|
        ensures StartsWith(xs[1..][i], xs[1..][i - 1])
      {
        assert xs[1..][i] == xs[i + 1] && xs[1..][i - 1] == xs[i];
      }
      assert xs[1..][0] == xs[1];
      SnapshotsKeepLast(c', xs[1..]);
    }
  }

  /** Each content of a stream of deltas does not start with what the reply holds before it. */
  predicate Deltas(content: string, xs: seq<string>)
    decreases |xs|
  {
    xs != [] ==> !StartsWith(xs[0], content) && Deltas(content + xs[0], xs[1..])
  }

  /** A stream of deltas leaves the reply holding the old content followed by all of them. */
  lemma {:induction false} DeltasConcatenate(content: string, xs: seq<string>)
    requires Deltas(content, xs)
    ensures MergeAll(content, xs) == content + Concat(xs)
    decreases |xs|
  {
    if xs == [] {
      assert content + "" == content;
    } else {
      var c' := content + xs[0];
      DeltaAppends(content, xs[0]);
      DeltasConcatenate(c', xs[1..]);
      ConcatFront(xs[0], xs[1..]);
      assert [xs[0]] + xs[1..] == xs;
      assert c' + Concat(xs[1..]) == content + (xs[0] + Concat(xs[1..]));
    }
  }

  lemma DeltaAppends(content: string, x: string)
    requires !StartsWith(x, content)
    ensures MergeContent(content, x) == content + x
  {
  }

  lemma ConcatFront(x: string, ys: seq<string>)
    ensures Concat([x] + ys) == x + Concat(ys)
  {
    ConcatAppend([x], ys);
    assert Concat([x]) == Concat([]) + x;
  }

  // ------------------------------------------------------------ the request

  /** What a turn is sent with: the selected provider and model, the open session, and `getCurrentSettings()`. */
  datatype Turn = Turn(provider: string, model: string, sessionId: Option<int>, settings: ChatSettings.Fields)

  /** `!selectedProvider || !selectedModel` sends nothing. */
  predicate Sends(turn: Turn) {
    turn.provider != "" && turn.model != ""
  }

  /** `isGeminiImagen`: a Gemini model whose lower-cased id starts with `imagen-`. */
  predicate IsGeminiImagen(provider: string, model: string) {
    provider == "gemini" && StartsWith(Lower(model), "imagen-")
  }

  /** JavaScript truthiness of a setting's value (a list is truthy even when empty). */
  predicate TruthyValue(v: ChatSettings.Value) {
    match v
    case Text(s) => s != ""
    case Number(n) => n != 0.0
    case Flag(b) => b
    case Texts(_) => true
  }

  /** A setting that is present and truthy. */
  predicate IsSet(settings: ChatSettings.Fields, key: string) {
    key in settings && TruthyValue(settings[key])
  }

  /** A setting that holds a non-empty string. */
  function TextSetting(settings: ChatSettings.Fields, key: string): Option<string> {
    if key in settings && settings[key].Text? && settings[key].s != "" then Some(settings[key].s) else None
  }

  /** `{ ...dst, [to]: settings[from] }`, where an `undefined` value is not sent. */
  function CopyAs(dst: ChatSettings.Fields, settings: ChatSettings.Fields, from: string, to: string): ChatSettings.Fields {
    if from in settings then dst[to := settings[from]] else dst
  }

  /** The settings a request carries under their own names. */
  const PassThroughKeys: set<string> := {
    "temperature", "max_tokens", "frequency_penalty", "presence_penalty", "top_p", "stop",
    "image_detail", "image_pixel_limit", "fps", "video_detail", "max_frames", "safe_prompt",
    "random_seed", "thinking", "reasoning_effort", "disable_reasoning", "reasoning_format",
    "include_reasoning", "max_completion_tokens", "enable_thinking", "thinking_budget", "min_p",
    "top_k", "route", "repetition_penalty", "top_a", "logprobs", "top_logprobs",
    "structured_outputs", "parallel_tool_calls", "seed", "safety_threshold",
    "sequential_image_generation", "max_images", "watermark", "prompt_optimize_mode", "size",
    "resolution", "ratio", "duration", "generate_audio", "draft", "camera_fixed",
    "imagen_number_of_images", "imagen_image_size", "imagen_aspect_ratio", "imagen_person_generation"}

  /** The request body `handleSendMessage` builds; `None` is a field left `undefined`. */
  datatype ChatRequest = ChatRequest(
    provider: string,
    model: string,
    messages: seq<Message>,
    stream: bool,
    sessionId: Option<int>,
    title: Option<string>,
    systemPrompt: Option<string>,
    transforms: Option<seq<string>>,
    models: Option<seq<string>>,
    responseFormat: Option<string>,
    reasoning: Option<ChatSettings.Fields>,
    modalities: Option<seq<string>>,
    imageConfig: Option<ChatSettings.Fields>,
    plugins: Option<seq<ChatSettings.Fields>>,
    webSearchOptions: Option<ChatSettings.Fields>,
    passThrough: ChatSettings.Fields)

  /** `content.substring(0, 50)` as the title of a new session, and no title for an open one. */
  function TitleFor(sessionId: Option<int>, content: string): (title: Option<string>)
    ensures title.Some? <==> !TruthyId(sessionId)
    ensures title.Some? ==> StartsWith(content, title.value) && |title.value| == if |content| < 50 then |content| else 50
  {
    if TruthyId(sessionId) then None else Some(content[..if |content| < 50 then |content| else 50])
  }

  /** `str ? str.split(',').map((s) => s.trim()) : undefined`. */
  function SplitSetting(settings: ChatSettings.Fields, key: string): (r: Option<seq<string>>)
    ensures r.Some? <==> TextSetting(settings, key).Some?
    ensures r.Some? ==> r.value == ChatSettings.SplitTrim(TextSetting(settings, key).value)
  {
    match TextSetting(settings, key)
    case None => None
    case Some(s) => Some(ChatSettings.SplitTrim(s))
  }

  /** The web-search plugin: its id, and engine, result count and prompt when they are set. */
  function WebSearchPlugin(settings: ChatSettings.Fields): (p: ChatSettings.Fields)
    ensures p.Keys <= {"id", "engine", "max_results", "search_prompt"}
    ensures "id" in p && p["id"] == ChatSettings.Text("web")
    ensures "engine" in p <==> IsSet(settings, "web_search_engine")
    ensures "max_results" in p <==> IsSet(settings, "web_search_results")
    ensures "search_prompt" in p <==> IsSet(settings, "web_search_prompt")
  {
    var p := map["id" := ChatSettings.Text("web")];
    var p := if IsSet(settings, "web_search_engine") then p["engine" := settings["web_search_engine"]] else p;
    var p := if IsSet(settings, "web_search_results") then p["max_results" := settings["web_search_results"]] else p;
    if IsSet(settings, "web_search_prompt") then p["search_prompt" := settings["web_search_prompt"]] else p
  }

  /** `reasoning`: the effort and summary settings, sent only when either is set. */
  function ReasoningConfig(s: ChatSettings.Fields): (r: Option<ChatSettings.Fields>)
    ensures r.Some? <==> IsSet(s, "reasoning_effort") || IsSet(s, "reasoning_summary")
    ensures r.Some? ==> r.value.Keys <= {"effort", "summary"}
  {
    if IsSet(s, "reasoning_effort") || IsSet(s, "reasoning_summary")
    then Some(CopyAs(CopyAs(map[], s, "reasoning_effort", "effort"), s, "reasoning_summary", "summary"))
    else None
  }

  /** `image_config`: the aspect ratio and image size, sent only when either is set. */
  function ImageConfig(s: ChatSettings.Fields): (r: Option<ChatSettings.Fields>)
    ensures r.Some? <==> IsSet(s, "image_aspect_ratio") || IsSet(s, "image_size")
    ensures r.Some? ==> r.value.Keys <= {"aspect_ratio", "image_size"}
  {
    if IsSet(s, "image_aspect_ratio") || IsSet(s, "image_size")
    then Some(CopyAs(CopyAs(map[], s, "image_aspect_ratio", "aspect_ratio"), s, "image_size", "image_size"))
    else None
  }

  /** `response_format`: the setting's text when it parses as JSON; text that does not parse is skipped. */
  function ResponseFormat(s: ChatSettings.Fields, validJson: string -> bool): (r: Option<string>)
    ensures r.Some? <==> TextSetting(s, "response_format").Some? && validJson(TextSetting(s, "response_format").value)
    ensures r.Some? ==> r == TextSetting(s, "response_format")
  {
    match TextSetting(s, "response_format")
    case Some(f) => if validJson(f) then Some(f) else None
    case None => None
  }

  /** The settings sent under their own names, exactly as they are. */
  function PassThrough(s: ChatSettings.Fields): (r: ChatSettings.Fields)
    ensures forall k :: k in PassThroughKeys ==> (k in r <==> k in s)
    ensures forall k :: k in r ==> k in PassThroughKeys && r[k] == s[k]
  {
    map k | k in s && k in PassThroughKeys :: s[k]
  }

  /**
   * The request of a turn. It carries the user's message alone (the
   * server adds the history), streams unless the model is a Gemini
   * Imagen model, names the open session or titles a new one, and turns
   * the settings panel's strings into the lists and objects the server
   * reads. `validJson` tells whether a string parses as JSON.
   */
  function BuildRequest(turn: Turn, content: string, images: Option<seq<string>>, videos: Option<seq<string>>,
                        audios: Option<seq<string>>, validJson: string -> bool): (r: ChatRequest)
    ensures r.messages == [UserMessage(content, images, videos, audios)]
    ensures !r.stream <==> IsGeminiImagen(turn.provider, turn.model)
    ensures r.sessionId.Some? <==> TruthyId(turn.sessionId)
    ensures r.sessionId.Some? ==> r.sessionId == turn.sessionId
    ensures r.title.Some? <==> r.sessionId.None?
    ensures r.plugins.Some? <==> IsSet(turn.settings, "web_search")
    ensures r.plugins.Some? ==> r.plugins.value == [WebSearchPlugin(turn.settings)]
  {
    var s := turn.settings;
    ChatRequest(
      turn.provider,
      turn.model,
      [UserMessage(content, images, videos, audios)],
      !IsGeminiImagen(turn.provider, turn.model),
      if TruthyId(turn.sessionId) then turn.sessionId else None,
      TitleFor(turn.sessionId, content),
      TextSetting(s, "system_prompt"),
      SplitSetting(s, "transforms"),
      SplitSetting(s, "models"),
      ResponseFormat(s, validJson),
      ReasoningConfig(s),
      if IsSet(s, "image_generation") then Some(["image", "text"]) else None,
      ImageConfig(s),
      if IsSet(s, "web_search") then Some([WebSearchPlugin(s)]) else None,
      if IsSet(s, "web_search_context_size") then Some(map["search_context_size" := s["web_search_context_size"]]) else None,
      PassThrough(s))
  }

  // -------------------------------------------------------------- the turn

  /** What `chatStream` yields for a turn, and whether it then throws (a failed response, a broken read). */
  datatype StreamReply = StreamReply(chunks: seq<W.StreamChunk>, thrown: bool)

  /** What `apiClient.chat` resolves to for an Imagen turn. */
  datatype Generated = Generated(sessionId: Option<int>, message: Option<Message>)

  /**
   * The streaming path: the loop over the chunks, then the apology if the
   * stream throws before an error chunk ended the loop.
   */
  function Streamed(ms: seq<Message>, sid: Option<int>, reply: StreamReply): (seq<Message>, Option<int>) {
    var p := Consume(ms, sid, reply.chunks);
    (if reply.thrown && !p.stopped then Apologize(p.messages) else p.messages, p.sessionId)
  }

  /** The Imagen path: the session id and the generated message of the response, if any. */
  function Imagen(ms: seq<Message>, sid: Option<int>, response: Option<Generated>): (seq<Message>, Option<int>) {
    match response
    case None => (ms, sid)
    case Some(g) => (if g.message.Some? then ReplaceLast(ms, g.message.value) else ms, Adopt(sid, g.sessionId))
  }

  /**
   * As written, the hook hands `apiClient.chat` the whole request as its
   * message list; `messages.map` throws inside the client's `try`, which
   * answers `null`. The turn then keeps its empty placeholder and adopts no
   * session id.
   */
  lemma ImagenAsWrittenShowsNothing(ms: seq<Message>, sid: Option<int>, content: string, images: Option<seq<string>>)
    ensures var r := Imagen(AppendTurn(ms, content, images, None, None), sid, None);
      && r.1 == sid
      && r.0 == ms + [UserMessage(content, images, None, None), Placeholder]
  {
  }

  /**
   * With the client called as intended, a generated message takes the
   * placeholder's place after the user's message, and the response's
   * session id is adopted as the streaming path adopts it.
   */
  lemma ImagenShowsGenerated(ms: seq<Message>, sid: Option<int>, content: string, images: Option<seq<string>>, g: Generated)
    requires g.message.Some?
    ensures var r := Imagen(AppendTurn(ms, content, images, None, None), sid, Some(g));
      && r.1 == Adopt(sid, g.sessionId)
      && r.0 == ms + [UserMessage(content, images, None, None), g.message.value]
  {
    var ms1 := AppendTurn(ms, content, images, None, None);
    assert ms1[..|ms1| - 1] == ms + [UserMessage(content, images, None, None)];
  }

  /**
   * The `finally` block: when the turn has a session, the list is reloaded
   * from the server (`fetch` is `getSession`), unless that finds no session.
   */
  function Refreshed(ms: seq<Message>, newSessionId: Option<int>, sessionId: Option<int>, fetch: int -> Option<seq<Message>>): seq<Message> {
    var id := if TruthyId(newSessionId) then newSessionId else sessionId;
    if TruthyId(id) && fetch(id.value).Some? then fetch(id.value).value else ms
  }

  /** The message list and session id a turn that is sent leaves. */
  function SendOutcome(ms: seq<Message>, turn: Turn, content: string, images: Option<seq<string>>, videos: Option<seq<string>>,
                       audios: Option<seq<string>>, reply: StreamReply, generated: Option<Generated>,
                       fetch: int -> Option<seq<Message>>): (seq<Message>, Option<int>) {
    var ms1 := AppendTurn(ms, content, images, videos, audios);
    var r := if IsGeminiImagen(turn.provider, turn.model) then Imagen(ms1, turn.sessionId, generated) else Streamed(ms1, turn.sessionId, reply);
    (Refreshed(r.0, r.1, turn.sessionId, fetch), r.1)
  }

  /**
   * A streamed turn that is not cut short leaves the earlier messages, the
   * user's message, and the reply built from the empty placeholder by the
   * handled chunks.
   */
  lemma StreamedTurn(ms: seq<Message>, sid: Option<int>, u: Message, reply: StreamReply)
    requires !reply.thrown || exists i :: 0 <= i < |reply.chunks| && Truthy(reply.chunks[i].error)
    ensures var r := Streamed(ms + [u, Placeholder], sid, reply).0;
      r == ms + [u, FinalReply(Placeholder, reply.chunks)] &&
      r[|r| - 1].content == MergeAll("", Contents(reply.chunks))
  {
    var ms1 := ms + [u, Placeholder];
    StopsAtFirstError(ms1, sid, reply.chunks);
    ConsumeReply(ms1, sid, reply.chunks);
    FinalContent(Placeholder, reply.chunks);
    assert ms1[..|ms1| - 1] == ms + [u];
  }

  /**
   * A stream that throws before any error chunk leaves the earlier
   * messages, the user's message and the apology in place of the reply.
   */
  lemma FailedTurnApologizes(ms: seq<Message>, sid: Option<int>, u: Message, reply: StreamReply)
    requires reply.thrown && forall i :: 0 <= i < |reply.chunks| ==> !Truthy(reply.chunks[i].error)
    ensures Streamed(ms + [u, Placeholder], sid, reply).0 == ms + [u, ApologyMessage]
  {
    var ms1 := ms + [u, Placeholder];
    StopsAtFirstError(ms1, sid, reply.chunks);
    ConsumeReply(ms1, sid, reply.chunks);
    var r := Consume(ms1, sid, reply.chunks).messages;
    assert ms1[..|ms1| - 1] == ms + [u];
    assert EndsWithAssistant(r);
    assert Apologize(r) == r[..|r| - 1] + [ApologyMessage];
  }

  /** `handleEditMessage` acts only on a user message. */
  function EditTarget(ms: seq<Message>, index: int): (t: Option<Message>)
    ensures t.Some? <==> 0 <= index < |ms| && ms[index].role == User
    ensures t.Some? ==> t.value == ms[index]
  {
    if 0 <= index < |ms| && ms[index].role == User then Some(ms[index]) else None
  }

  /** `handleRefreshMessage` acts only on an assistant message that answers a user message. */
  function RefreshTarget(ms: seq<Message>, index: int): (t: Option<Message>)
    ensures t.Some? <==> 1 <= index < |ms| && ms[index].role == Assistant && ms[index - 1].role == User
    ensures t.Some? ==> t.value == ms[index - 1]
  {
    if 0 <= index < |ms| && ms[index].role == Assistant && index - 1 >= 0 && ms[index - 1].role == User
    then Some(ms[index - 1]) else None
  }

  /**
   * Regenerating an answer sends its question again in the same place:
   * the list is cut before the question, and the new turn puts the same
   * text and images back where the question was and an empty reply where
   * the answer was.
   */
  lemma RefreshTakesOldPlace(ms: seq<Message>, index: int)
    requires RefreshTarget(ms, index).Some?
    ensures var q := ms[index - 1]; var r := AppendTurn(ms[..index - 1], q.content, q.images, None, None);
      |r| == index + 1 && r[..index - 1] == ms[..index - 1] &&
      r[index - 1].content == q.content && r[index - 1].images == q.images && r[index] == Placeholder
  {
  }

  /**
   * The hook's state: the message list, the loading flag, and whether an
   * abort controller is held. `chatStream` is not given the controller's
   * signal, so aborting it ends nothing but the loading state.
   */
  class Conversation {
    var messages: seq<Message>
    var isLoading: bool
    var hasController: bool

    constructor ()
      ensures messages == [] && !isLoading && !hasController
    {
      messages := [];
      isLoading := false;
      hasController := false;
    }

    /** `handleStopGeneration`: a held controller is dropped and loading ends; without one nothing changes. */
    method StopGeneration()
      modifies this
      ensures messages == old(messages) && !hasController
      ensures isLoading == (old(isLoading) && !old(hasController))
    {
      if hasController {
        hasController := false;
        isLoading := false;
      }
    }

    /** `resetMessages`. */
    method Reset()
      modifies this
      ensures messages == [] && isLoading == old(isLoading) && hasController == old(hasController)
    {
      messages := [];
    }

    /** `applySessionMessages`: a session's messages, or none. */
    method ApplySessionMessages(sessionMessages: Option<seq<Message>>)
      modifies this
      ensures messages == sessionMessages.GetOr([]) && isLoading == old(isLoading) && hasController == old(hasController)
    {
      messages := sessionMessages.GetOr([]);
    }

    /**
     * `handleSendMessage`: nothing without a provider and a model;
     * otherwise the turn is appended, the request is built, the reply is
     * taken from the stream (or, for Imagen, from one response), loading
     * ends, and the list is reloaded when the turn has a session. The
     * session id returned is the one `setCurrentSessionId` is given.
     */
    method SendMessage(turn: Turn, content: string, images: Option<seq<string>>, videos: Option<seq<string>>,
                       audios: Option<seq<string>>, validJson: string -> bool, reply: StreamReply,
                       generated: Option<Generated>, fetch: int -> Option<seq<Message>>)
      returns (request: Option<ChatRequest>, newSessionId: Option<int>)
      modifies this
      ensures !Sends(turn) ==>
        request.None? && newSessionId == turn.sessionId &&
        messages == old(messages) && isLoading == old(isLoading) && hasController == old(hasController)
      ensures Sends(turn) ==>
        request == Some(BuildRequest(turn, content, images, videos, audios, validJson)) &&
        (messages, newSessionId) == SendOutcome(old(messages), turn, content, images, videos, audios, reply, generated, fetch) &&
        !isLoading && !hasController
    {
      newSessionId := turn.sessionId;
      if !Sends(turn) {
        return None, newSessionId;
      }
      messages := AppendTurn(messages, content, images, videos, audios);
      isLoading := true;
      hasController := true;
      request := Some(BuildRequest(turn, content, images, videos, audios, validJson));
      if IsGeminiImagen(turn.provider, turn.model) {
        newSessionId := TakeGenerated(generated, newSessionId);
      } else {
        newSessionId := TakeStream(reply, newSessionId);
      }
      Finish(newSessionId, turn.sessionId, fetch);
    }

    /** The Imagen path of `handleSendMessage`: one response, whose session id and message are taken if present. */
    method TakeGenerated(response: Option<Generated>, sessionId: Option<int>) returns (newSessionId: Option<int>)
      modifies this
      ensures (messages, newSessionId) == Imagen(old(messages), sessionId, response)
      ensures isLoading == old(isLoading) && hasController == old(hasController)
    {
      newSessionId := sessionId;
      if response.Some? {
        var g := response.value;
        if TruthyId(g.sessionId) && !TruthyId(newSessionId) {
          newSessionId := g.sessionId;
        }
        if g.message.Some? {
          messages := ReplaceLast(messages, g.message.value);
        }
      }
    }

    /** The streaming path of `handleSendMessage`: the loop, then the apology when the stream throws. */
    method TakeStream(reply: StreamReply, sessionId: Option<int>) returns (newSessionId: Option<int>)
      modifies this
      ensures (messages, newSessionId) == Streamed(old(messages), sessionId, reply)
      ensures isLoading == old(isLoading) && hasController == old(hasController)
    {
      var loop := StreamInto(reply.chunks, sessionId);
      newSessionId := loop.1;
      if reply.thrown && !loop.0 {
        messages := Apologize(messages);
      }
    }

    /** The `finally` block of `handleSendMessage`: loading ends and the list is reloaded when the turn has a session. */
    method Finish(newSessionId: Option<int>, sessionId: Option<int>, fetch: int -> Option<seq<Message>>)
      modifies this
      ensures messages == Refreshed(old(messages), newSessionId, sessionId, fetch)
      ensures !isLoading && !hasController
    {
      isLoading := false;
      hasController := false;
      var id := if TruthyId(newSessionId) then newSessionId else sessionId;
      if TruthyId(id) {
        var session := fetch(id.value);
        if session.Some? {
          messages := session.value;
        }
      }
    }

    /**
     * The `for await` loop: each chunk may give the turn its session id,
     * its content, reasoning and search results update the reply, and a
     * chunk with an error breaks the loop.
     */
    method StreamInto(chunks: seq<W.StreamChunk>, sessionId: Option<int>) returns (r: (bool, Option<int>))
      modifies this
      ensures var p := Consume(old(messages), sessionId, chunks);
        messages == p.messages && r == (p.stopped, p.sessionId)
      ensures isLoading == old(isLoading) && hasController == old(hasController)
    {
      ghost var start := messages;
      var newSessionId := sessionId;
      var i := 0;
      while i < |chunks|
        invariant 0 <= i <= |chunks|
        invariant isLoading == old(isLoading) && hasController == old(hasController)
        invariant Consume(start, sessionId, chunks) == Consume(messages, newSessionId, chunks[i..])
      {
        var chunk := chunks[i];
        ghost var before := messages;
        assert chunks[i..][0] == chunk && chunks[i..][1..] == chunks[i + 1..];
        if TruthyId(chunk.sessionId) && !TruthyId(newSessionId) {
          newSessionId := chunk.sessionId;
        }
        if Truthy(chunk.content) {
          messages := UpdateLast(messages, Content(chunk.content.value));
        }
        if Truthy(chunk.reasoning) {
          messages := UpdateLast(messages, Reasoning(chunk.reasoning.value));
        }
        if chunk.searchResults.Some? {
          messages := UpdateLast(messages, Results(chunk.searchResults.value));
        }
        UpdatersCompose(before, chunk);
        if Truthy(chunk.error) {
          return (true, newSessionId);
        }
        i := i + 1;
      }
      return (false, newSessionId);
    }

    /**
     * What editing and regenerating share: generation stops; with a
     * session, a message that has an id is first cut from the stored
     * session (`truncated` says whether that call resolves; when it does
     * not, the handler ends there); then the list is cut to its first
     * `keep` messages and the text is sent again with the images only.
     */
    method CutAndResend(target: Message, keep: nat, content: string, turn: Turn, truncated: bool,
                        validJson: string -> bool, reply: StreamReply, generated: Option<Generated>,
                        fetch: int -> Option<seq<Message>>)
      returns (request: Option<ChatRequest>)
      requires keep <= |messages|
      modifies this
      ensures var stoppedLoading := old(isLoading) && !old(hasController);
        if TruthyId(turn.sessionId) && TruthyId(target.id) && !truncated then
          request.None? && messages == old(messages) && !hasController && isLoading == stoppedLoading
        else if !Sends(turn) then
          request.None? && messages == old(messages)[..keep] && !hasController && isLoading == stoppedLoading
        else
          request == Some(BuildRequest(turn, content, target.images, None, None, validJson)) &&
          messages == SendOutcome(old(messages)[..keep], turn, content, target.images, None, None, reply, generated, fetch).0 &&
          !isLoading && !hasController
    {
      StopGeneration();
      if TruthyId(turn.sessionId) && TruthyId(target.id) && !truncated {
        return None;
      }
      messages := messages[..keep];
      var sessionId;
      request, sessionId := SendMessage(turn, content, target.images, None, None, validJson, reply, generated, fetch);
    }

    /** `handleEditMessage`: a user message is replaced by the new text, and everything after it goes. */
    method EditMessage(index: int, content: string, turn: Turn, truncated: bool,
                       validJson: string -> bool, reply: StreamReply, generated: Option<Generated>,
                       fetch: int -> Option<seq<Message>>)
      returns (request: Option<ChatRequest>)
      modifies this
      ensures EditTarget(old(messages), index).None? ==>
        request.None? && messages == old(messages) && isLoading == old(isLoading) && hasController == old(hasController)
      ensures EditTarget(old(messages), index).Some? ==>
        var target, stoppedLoading := old(messages)[index], old(isLoading) && !old(hasController);
        if TruthyId(turn.sessionId) && TruthyId(target.id) && !truncated then
          request.None? && messages == old(messages) && !hasController && isLoading == stoppedLoading
        else if !Sends(turn) then
          request.None? && messages == old(messages)[..index] && !hasController && isLoading == stoppedLoading
        else
          request == Some(BuildRequest(turn, content, target.images, None, None, validJson)) &&
          messages == SendOutcome(old(messages)[..index], turn, content, target.images, None, None, reply, generated, fetch).0 &&
          !isLoading && !hasController
    {
      var target := EditTarget(messages, index);
      if target.None? {
        return None;
      }
      request := CutAndResend(target.value, index, content, turn, truncated, validJson, reply, generated, fetch);
    }

    /** `handleRefreshMessage`: an answer and everything after it go, and its question is sent again. */
    method RefreshMessage(index: int, turn: Turn, truncated: bool,
                          validJson: string -> bool, reply: StreamReply, generated: Option<Generated>,
                          fetch: int -> Option<seq<Message>>)
      returns (request: Option<ChatRequest>)
      modifies this
      ensures RefreshTarget(old(messages), index).None? ==>
        request.None? && messages == old(messages) && isLoading == old(isLoading) && hasController == old(hasController)
      ensures RefreshTarget(old(messages), index).Some? ==>
        var question, stoppedLoading := old(messages)[index - 1], old(isLoading) && !old(hasController);
        if TruthyId(turn.sessionId) && TruthyId(question.id) && !truncated then
          request.None? && messages == old(messages) && !hasController && isLoading == stoppedLoading
        else if !Sends(turn) then
          request.None? && messages == old(messages)[..index - 1] && !hasController && isLoading == stoppedLoading
        else
          request == Some(BuildRequest(turn, question.content, question.images, None, None, validJson)) &&
          messages == SendOutcome(old(messages)[..index - 1], turn, question.content, question.images, None, None, reply, generated, fetch).0 &&
          !isLoading && !hasController
    {
      var question := RefreshTarget(messages, index);
      if question.None? {
        return None;
      }
      request := CutAndResend(question.value, index - 1, question.value.content, turn, truncated, validJson, reply, generated, fetch);
    }
  }
}
