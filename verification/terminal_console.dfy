/**
 * The terminal chat console: its slash-command state machine, the
 * catalogue check behind `/switch`, and the accumulation of a streamed
 * reply. The backend, the clock and Python's number parsing are reached
 * through the oracles of `Env`; nothing here prints.
 */
module TerminalConsole {
  import opened Wrappers
  import opened Text

  datatype Session = Session(id: int, title: string, provider: string, model: string, messageCount: int)

  /** One entry of the cached model catalogue. */
  datatype ModelEntry = ModelEntry(provider: string, id: string)

  /**
   * What the console asks of the outside world: the backend's session
   * calls, the default title built from the clock, and Python's `int()`
   * and `float()` (`None` where they raise `ValueError`).
   */
  datatype Env = Env(
    create: (string, string, string) -> Option<Session>,
    get: int -> Option<Session>,
    delete: int -> bool,
    rename: (int, string) -> bool,
    parseInt: string -> Option<int>,
    parseFloat: string -> Option<real>,
    defaultTitle: string)

  /** The console's settings and session, as values. */
  datatype State = State(
    session: Option<Session>,
    provider: string,
    model: string,
    streaming: bool,
    temperature: real,
    maxTokens: Option<int>,
    models: seq<ModelEntry>)

  const ExitCommands: seq<string> := ["/stop", "/exit", "/quit"]
  const StreamOn: seq<string> := ["on", "true", "yes", "1"]
  const StreamOff: seq<string> := ["off", "false", "no", "0"]

  // ------------------------------------------------------------ commands

  /** `command.split(maxsplit=2)`: the command word, then at most two arguments. */
  function Parts(command: string): (parts: seq<string>)
    requires command != [] && command[0] == '/'
    ensures 1 <= |parts| <= 3
    ensures parts[0] == WordPrefix(command)
  {
    SplitMaxHead(command, 2);
    SplitMax(command, 2)
  }

  /** The setting `/stream <mode>` asks for, if `mode` is one of the recognised words. */
  function StreamMode(mode: string): (r: Option<bool>)
    ensures r == Some(true) <==> Lower(mode) in StreamOn
    ensures r == Some(false) <==> Lower(mode) in StreamOff
  {
    var m := Lower(mode);
    if m in StreamOn then Some(true)
    else if m in StreamOff then Some(false)
    else None
  }

  /** An empty or missing title gets the clock's default. */
  function TitleOr(title: Option<string>, env: Env): string {
    if title.None? || title.value == "" then env.defaultTitle else title.value
  }

  /** `create_session`: the backend creates it under the current provider and model. */
  function NewSession(st: State, title: Option<string>, env: Env): State {
    match env.create(TitleOr(title, env), st.provider, st.model)
    case Some(s) => st.(session := Some(s))
    case None => st
  }

  /** `load_session`: a session found takes over the provider and the model. */
  function Loaded(st: State, id: int, env: Env): State {
    match env.get(id)
    case Some(s) => st.(session := Some(s), provider := s.provider, model := s.model)
    case None => st
  }

  /** `switch_model`: only a pair listed in the catalogue is taken. */
  function Switched(st: State, provider: string, model: string): State {
    if ModelEntry(provider, model) in st.models then st.(provider := provider, model := model) else st
  }

  /** The commands `handle_command` tells apart; the ones that only print are `Other`. */
  datatype Kind = Exit | New | Load | Delete | Rename | Switch | Stream | Temp | Other

  /** The branch of `handle_command` a lower-cased command word takes. */
  function KindOf(cmd: string): (k: Kind)
    ensures k == Exit <==> cmd in ExitCommands
    ensures k == New <==> cmd == "/new"
    ensures k == Load <==> cmd == "/load"
    ensures k == Delete <==> cmd == "/delete"
    ensures k == Rename <==> cmd == "/rename"
    ensures k == Switch <==> cmd == "/switch"
    ensures k == Stream <==> cmd == "/stream"
    ensures k == Temp <==> cmd == "/temp"
  {
    if cmd in ExitCommands then Exit
    else if cmd == "/new" then New
    else if cmd == "/load" then Load
    else if cmd == "/delete" then Delete
    else if cmd == "/rename" then Rename
    else if cmd == "/switch" then Switch
    else if cmd == "/stream" then Stream
    else if cmd == "/temp" then Temp
    else Other
  }

  /** What a command other than an exit word does to the state. */
  function Effect(st: State, kind: Kind, parts: seq<string>, env: Env): State
    requires |parts| >= 1
  {
    match kind
    case New =>
      NewSession(st, if |parts| > 1 then Some(parts[1]) else None, env)
    case Load =>
      if |parts| < 2 || env.parseInt(parts[1]).None? then st
      else Loaded(st, env.parseInt(parts[1]).value, env)
    case Delete =>
      if |parts| < 2 || env.parseInt(parts[1]).None? then st
      else
        var id := env.parseInt(parts[1]).value;
        if env.delete(id) && st.session.Some? && st.session.value.id == id then st.(session := None) else st
    case Rename =>
      if |parts| < 2 || st.session.None? then st
      else
        var title := Join(parts[1..], " ");
        if env.rename(st.session.value.id, title) then st.(session := Some(st.session.value.(title := title))) else st
    case Switch =>
      if |parts| < 3 then st else Switched(st, parts[1], parts[2])
    case Stream =>
      if |parts| < 2 || StreamMode(parts[1]).None? then st
      else st.(streaming := StreamMode(parts[1]).value)
    case Temp =>
      if |parts| < 2 || env.parseFloat(parts[1]).None? then st
      else
        var t := env.parseFloat(parts[1]).value;
        if 0.0 <= t <= 2.0 then st.(temperature := t) else st
    case _ => st
  }

  /**
   * `handle_command` on the split command: the new state, and whether the
   * console keeps going.
   */
  function Dispatch(st: State, parts: seq<string>, env: Env): (r: (State, bool))
    requires |parts| >= 1
    ensures !r.1 <==> Lower(parts[0]) in ExitCommands
    ensures !r.1 ==> r.0 == st
  {
    var kind := KindOf(Lower(parts[0]));
    if kind == Exit then (st, false) else (Effect(st, kind, parts, env), true)
  }

  function Command(st: State, command: string, env: Env): (State, bool)
    requires command != [] && command[0] == '/'
  {
    Dispatch(st, Parts(command), env)
  }

  /** Only `/stop`, `/exit` and `/quit`, in any case, end the console, and they change nothing. */
  lemma ExitWords(st: State, parts: seq<string>, env: Env)
    requires |parts| >= 1
    ensures !Dispatch(st, parts, env).1 <==> Lower(parts[0]) in ExitCommands
    ensures !Dispatch(st, parts, env).1 ==> Dispatch(st, parts, env).0 == st
  {
  }

  /**
   * `/stream` with a recognised word sets streaming on or off; with any
   * other word, or none, it changes nothing.
   */
  lemma StreamCommand(st: State, parts: seq<string>, env: Env)
    requires |parts| >= 1 && Lower(parts[0]) == "/stream"
    ensures var r := Dispatch(st, parts, env).0;
      if |parts| >= 2 && Lower(parts[1]) in StreamOn then r == st.(streaming := true)
      else if |parts| >= 2 && Lower(parts[1]) in StreamOff then r == st.(streaming := false)
      else r == st
  {
  }

  /** Only `/stream` changes the streaming setting. */
  lemma OnlyStreamSetsStreaming(st: State, parts: seq<string>, env: Env)
    requires |parts| >= 1
    ensures Dispatch(st, parts, env).0.streaming != st.streaming ==> Lower(parts[0]) == "/stream"
  {
  }

  /**
   * The temperature only ever changes to a value that parsed and lies in
   * [0.0, 2.0], and only through `/temp`; so a temperature in that range stays there.
   */
  lemma TemperatureInRange(st: State, parts: seq<string>, env: Env)
    requires |parts| >= 1
    ensures var t := Dispatch(st, parts, env).0.temperature;
      t != st.temperature ==>
        Lower(parts[0]) == "/temp" && 0.0 <= t <= 2.0 && env.parseFloat(parts[1]) == Some(t)
    ensures 0.0 <= st.temperature <= 2.0 ==> 0.0 <= Dispatch(st, parts, env).0.temperature <= 2.0
  {
  }

  /**
   * A new provider/model pair comes from the catalogue (`/switch`) or from
   * a session the backend returned (`/load`).
   */
  lemma ModelFromCatalogueOrSession(st: State, parts: seq<string>, env: Env)
    requires |parts| >= 1
    ensures var r := Dispatch(st, parts, env).0;
      (r.provider, r.model) != (st.provider, st.model) ==>
        ModelEntry(r.provider, r.model) in st.models ||
        (Lower(parts[0]) == "/load" &&
         (exists id :: env.get(id) == Some(r.session.value)) &&
         r.provider == r.session.value.provider && r.model == r.session.value.model)
  {
    var r := Dispatch(st, parts, env).0;
    if (r.provider, r.model) != (st.provider, st.model) && Lower(parts[0]) == "/load" {
      var id := env.parseInt(parts[1]).value;
      assert env.get(id) == Some(r.session.value);
    }
  }

  /** The current session is dropped only by a `/delete` of its own id that the backend confirmed. */
  lemma SessionClearedOnlyByDelete(st: State, parts: seq<string>, env: Env)
    requires |parts| >= 1 && st.session.Some?
    ensures Dispatch(st, parts, env).0.session.None? ==>
      Lower(parts[0]) == "/delete" && env.parseInt(parts[1]) == Some(st.session.value.id) &&
      env.delete(st.session.value.id)
  {
  }

  /** The catalogue and the token limit never change through a command. */
  lemma CatalogueKept(st: State, parts: seq<string>, env: Env)
    requires |parts| >= 1
    ensures Dispatch(st, parts, env).0.models == st.models
    ensures Dispatch(st, parts, env).0.maxTokens == st.maxTokens
  {
  }

  // ------------------------------------------------------------ streaming

  /**
   * One event of the reply stream as the console reads it: the keys it
   * looks at. `reasoning` is the key the backend relay sends reasoning
   * under; the console never reads it.
   */
  datatype Chunk = Chunk(
    sessionId: Option<int>,
    content: Option<string>,
    reasoning: Option<string>,
    reasoningContent: Option<string>,
    error: Option<string>)

  /** Python truthiness of a tracked session id. */
  predicate IdTruthy(id: Option<int>) {
    id.Some? && id.value != 0
  }

  /** How many chunks are read: up to and including the first one with an error. */
  function Read(chunks: seq<Chunk>): (n: nat)
    ensures n <= |chunks|
    ensures n == |chunks| || (n > 0 && chunks[n - 1].error.Some?)
    decreases |chunks|
  {
    if chunks == [] then 0
    else if chunks[0].error.Some? then 1
    else 1 + Read(chunks[1..])
  }

  predicate Errored(chunks: seq<Chunk>) {
    exists i :: 0 <= i < |chunks| && chunks[i].error.Some?
  }

  function Content(chunks: seq<Chunk>): string {
    if chunks == [] then "" else Content(chunks[..|chunks| - 1]) + chunks[|chunks| - 1].content.GetOr("")
  }

  function Thinking(chunks: seq<Chunk>): string {
    if chunks == [] then "" else Thinking(chunks[..|chunks| - 1]) + chunks[|chunks| - 1].reasoningContent.GetOr("")
  }

  /**
   * The session after one chunk, and the session id tracked so far: the
   * first truthy id is kept, and the session is fetched again when it is
   * missing or has another id.
   */
  function Track(s: (Option<Session>, Option<int>), c: Chunk, get: int -> Option<Session>): (Option<Session>, Option<int>) {
    if c.sessionId.Some? && !IdTruthy(s.1) then
      var id := c.sessionId.value;
      if s.0.None? || s.0.value.id != id then (get(id), c.sessionId) else (s.0, c.sessionId)
    else s
  }

  function Tracked(s: (Option<Session>, Option<int>), chunks: seq<Chunk>, get: int -> Option<Session>): (Option<Session>, Option<int>) {
    if chunks == [] then s else Track(Tracked(s, chunks[..|chunks| - 1], get), chunks[|chunks| - 1], get)
  }

  datatype Reply = Reply(content: string, thinking: string, hasError: bool, session: Option<Session>)

  /**
   * `_handle_streaming_response`: what is shown and where the session ends
   * up. The count goes up by two only when no error came, a session is
   * held and a truthy session id was seen.
   */
  function Streamed(session: Option<Session>, chunks: seq<Chunk>, get: int -> Option<Session>): Reply {
    var read := chunks[..Read(chunks)];
    var t := Tracked((session, None), read, get);
    var hasError := Errored(chunks);
    Reply(Content(read), Thinking(read), hasError,
      if !hasError && t.0.Some? && IdTruthy(t.1) then Some(t.0.value.(messageCount := t.0.value.messageCount + 2)) else t.0)
  }

  /** The index of the first chunk with an error decides how many are read. */
  lemma {:induction false} ReadAtFirstError(chunks: seq<Chunk>, i: nat)
    requires i < |chunks| && chunks[i].error.Some?
    requires forall j :: 0 <= j < i ==> chunks[j].error.None?
    ensures Read(chunks) == i + 1
    decreases i
  {
    if i > 0 {
      ReadAtFirstError(chunks[1..], i - 1);
    }
  }

  /** Without any error every chunk is read. */
  lemma {:induction false} ReadAll(chunks: seq<Chunk>)
    requires !Errored(chunks)
    ensures Read(chunks) == |chunks|
    decreases |chunks|
  {
    if chunks != [] {
      assert chunks[0].error.None?;
      assert !Errored(chunks[1..]) by {
        forall j | 0 <= j < |chunks[1..]| ensures chunks[1..][j].error.None? {
          assert chunks[1..][j] == chunks[j + 1];
        }
      }
      ReadAll(chunks[1..]);
    }
  }

  /** Reading one more chunk extends the content, the thinking text and the tracking by that chunk. */
  lemma OneMoreChunk(s: (Option<Session>, Option<int>), chunks: seq<Chunk>, i: nat, get: int -> Option<Session>)
    requires i < |chunks|
    ensures Content(chunks[..i + 1]) == Content(chunks[..i]) + chunks[i].content.GetOr("")
    ensures Thinking(chunks[..i + 1]) == Thinking(chunks[..i]) + chunks[i].reasoningContent.GetOr("")
    ensures Tracked(s, chunks[..i + 1], get) == Track(Tracked(s, chunks[..i], get), chunks[i], get)
  {
    assert chunks[..i + 1][..i] == chunks[..i];
  }

  /** Where the reading loop stops: after the first error, or at the end. */
  lemma ReadCount(chunks: seq<Chunk>, n: nat, hasError: bool)
    requires 0 < n <= |chunks| || (n == 0 && !hasError)
    requires forall j :: 0 <= j < n - 1 ==> chunks[j].error.None?
    requires hasError ==> chunks[n - 1].error.Some?
    requires !hasError ==> n == |chunks| && (n == 0 || chunks[n - 1].error.None?)
    ensures Read(chunks) == n && (Errored(chunks) <==> hasError)
  {
    if hasError {
      ReadAtFirstError(chunks, n - 1);
    } else {
      assert !Errored(chunks) by {
        forall j | 0 <= j < |chunks| ensures chunks[j].error.None? {
        }
      }
      ReadAll(chunks);
    }
  }

  /** Chunks after the first error are never read: they change nothing. */
  lemma ReadStopsAtError(session: Option<Session>, chunks: seq<Chunk>, i: nat, later: seq<Chunk>,
                         get: int -> Option<Session>)
    requires i < |chunks| && chunks[i].error.Some?
    requires forall j :: 0 <= j < i ==> chunks[j].error.None?
    ensures Streamed(session, chunks[..i + 1] + later, get) == Streamed(session, chunks[..i + 1], get)
  {
    var a, b := chunks[..i + 1], chunks[..i + 1] + later;
    ReadAtFirstError(a, i);
    ReadAtFirstError(b, i);
    assert b[..i + 1] == a[..i + 1];
    assert Errored(a) && Errored(b) by {
      assert a[i].error.Some? && b[i].error.Some?;
    }
  }

  /** The shown text is the concatenation of the `content` values, chunk after chunk. */
  lemma {:induction false} ContentAppend(a: seq<Chunk>, b: seq<Chunk>)
    ensures Content(a + b) == Content(a) + Content(b)
    decreases |b|
  {
    if b == [] {
      assert a + b == a;
    } else {
      var b' := b[..|b| - 1];
      assert (a + b)[..|a + b| - 1] == a + b';
      ContentAppend(a, b');
    }
  }

  /**
   * Thinking text comes from `reasoning_content` alone: a stream whose
   * reasoning arrives under `reasoning`, as the backend relay sends it,
   * shows no thinking at all.
   */
  lemma {:induction false} ThinkingOnlyFromReasoningContent(chunks: seq<Chunk>)
    requires forall i :: 0 <= i < |chunks| ==> chunks[i].reasoningContent.None?
    ensures Thinking(chunks) == ""
    decreases |chunks|
  {
    if chunks != [] {
      ThinkingOnlyFromReasoningContent(chunks[..|chunks| - 1]);
    }
  }

  /** Without a `session_id` key the session is neither fetched nor counted. */
  lemma {:induction false} NoIdKeepsSession(s: (Option<Session>, Option<int>), chunks: seq<Chunk>, get: int -> Option<Session>)
    requires forall i :: 0 <= i < |chunks| ==> chunks[i].sessionId.None?
    ensures Tracked(s, chunks, get) == s
    decreases |chunks|
  {
    if chunks != [] {
      NoIdKeepsSession(s, chunks[..|chunks| - 1], get);
    }
  }

  /** Once a truthy id is tracked, later chunks leave session and id alone. */
  lemma {:induction false} TrackedAfterId(s: (Option<Session>, Option<int>), chunks: seq<Chunk>, get: int -> Option<Session>)
    requires IdTruthy(s.1)
    ensures Tracked(s, chunks, get) == s
    decreases |chunks|
  {
    if chunks != [] {
      TrackedAfterId(s, chunks[..|chunks| - 1], get);
    }
  }

  /**
   * The relay's stream: a first event carrying the id of the session
   * already held, and no error afterwards, adds two to its message count.
   */
  lemma RelayStreamCountsTwo(s: Session, first: Chunk, rest: seq<Chunk>, get: int -> Option<Session>)
    requires first.sessionId == Some(s.id) && s.id != 0 && first.error.None?
    requires !Errored(rest)
    ensures Streamed(Some(s), [first] + rest, get).session == Some(s.(messageCount := s.messageCount + 2))
  {
    var chunks := [first] + rest;
    assert !Errored(chunks) by {
      forall j | 0 <= j < |chunks| ensures chunks[j].error.None? {
        if j > 0 { assert chunks[j] == rest[j - 1]; }
      }
    }
    ReadAll(chunks);
    assert chunks[..|chunks|] == chunks;
    TrackedFromFirst((Some(s), None), first, rest, get);
    TrackedAfterId(Track((Some(s), None), first, get), rest, get);
  }

  /** Tracking a stream starts with its first chunk. */
  lemma {:induction false} TrackedFromFirst(s: (Option<Session>, Option<int>), first: Chunk, rest: seq<Chunk>, get: int -> Option<Session>)
    ensures Tracked(s, [first] + rest, get) == Tracked(Track(s, first, get), rest, get)
    decreases |rest|
  {
    if rest == [] {
      assert [first] + rest == [first];
      assert [first][..0] == [];
    } else {
      var r' := rest[..|rest| - 1];
      assert ([first] + rest)[..|rest|] == [first] + r';
      TrackedFromFirst(s, first, r', get);
    }
  }

  /** An error anywhere in the stream means the count is never bumped. */
  lemma ErrorMeansNoCount(session: Option<Session>, chunks: seq<Chunk>, get: int -> Option<Session>)
    requires Errored(chunks)
    ensures Streamed(session, chunks, get).hasError
    ensures Streamed(session, chunks, get).session == Tracked((session, None), chunks[..Read(chunks)], get).0
  {
  }

  // ------------------------------------------------------------ the console

  class ChatConsole {
    var currentSession: Option<Session>
    var currentProvider: string
    var currentModel: string
    var streamingEnabled: bool
    var temperature: real
    var maxTokens: Option<int>
    var models: seq<ModelEntry>

    function Snapshot(): State
      reads this
    {
      State(currentSession, currentProvider, currentModel, streamingEnabled, temperature, maxTokens, models)
    }

    /** A fresh console: DeepSeek's chat model, streaming on, temperature 0.7, no catalogue yet. */
    constructor()
      ensures Snapshot() == State(None, "deepseek", "deepseek-chat", true, 0.7, None, [])
    {
      currentSession := None;
      currentProvider := "deepseek";
      currentModel := "deepseek-chat";
      streamingEnabled := true;
      temperature := 0.7;
      maxTokens := None;
      models := [];
    }

    /**
     * `initialize` once the backend is reachable: the catalogue is cached
     * and its first model becomes the current one; with no providers or no
     * models it fails.
     */
    method Initialize(providerCount: nat, catalogue: seq<ModelEntry>) returns (ok: bool)
      modifies this
      ensures ok <==> providerCount > 0 && catalogue != []
      ensures models == catalogue
      ensures ok ==> currentProvider == catalogue[0].provider && currentModel == catalogue[0].id
      ensures !ok ==> currentProvider == old(currentProvider) && currentModel == old(currentModel)
      ensures currentSession == old(currentSession) && streamingEnabled == old(streamingEnabled)
      ensures temperature == old(temperature) && maxTokens == old(maxTokens)
    {
      models := catalogue;
      if providerCount == 0 || models == [] {
        return false;
      }
      currentProvider := models[0].provider;
      currentModel := models[0].id;
      return true;
    }

    /** `switch_model`: a linear search of the catalogue for the exact pair. */
    method SwitchModel(provider: string, model: string) returns (ok: bool)
      modifies this
      ensures ok <==> ModelEntry(provider, model) in old(models)
      ensures Snapshot() == Switched(old(Snapshot()), provider, model)
    {
      var found := false;
      for i := 0 to |models|
        invariant found <==> ModelEntry(provider, model) in models[..i]
      {
        if models[i].provider == provider && models[i].id == model {
          assert models[..i + 1] == models[..i] + [models[i]];
          found := true;
          break;
        }
        assert models[..i + 1] == models[..i] + [models[i]];
      }
      assert found || models[..|models|] == models;
      if !found {
        return false;
      }
      currentProvider := provider;
      currentModel := model;
      return true;
    }

    /** `create_session`. */
    method CreateSession(title: Option<string>, env: Env) returns (ok: bool)
      modifies this
      ensures Snapshot() == NewSession(old(Snapshot()), title, env)
      ensures ok <==> env.create(TitleOr(title, env), old(currentProvider), old(currentModel)).Some?
    {
      var t := if title.None? || title.value == "" then env.defaultTitle else title.value;
      var session := env.create(t, currentProvider, currentModel);
      if session.None? {
        return false;
      }
      currentSession := session;
      return true;
    }

    /** `load_session`. */
    method LoadSession(id: int, env: Env) returns (ok: bool)
      modifies this
      ensures ok <==> env.get(id).Some?
      ensures Snapshot() == Loaded(old(Snapshot()), id, env)
    {
      var session := env.get(id);
      if session.None? {
        return false;
      }
      currentSession := session;
      currentProvider := session.value.provider;
      currentModel := session.value.model;
      return true;
    }

    /** `handle_command`, for input that starts with `/`. */
    method HandleCommand(command: string, env: Env) returns (keepGoing: bool)
      requires command != [] && command[0] == '/'
      modifies this
      ensures (Snapshot(), keepGoing) == Command(old(Snapshot()), command, env)
    {
      var parts := Parts(command);
      var kind := KindOf(Lower(parts[0]));
      if kind == Exit {
        return false;
      }
      Apply(kind, parts, env);
      return true;
    }

    /** The branches of `handle_command` after the exit words. */
    method Apply(kind: Kind, parts: seq<string>, env: Env)
      requires |parts| >= 1
      modifies this
      ensures Snapshot() == Effect(old(Snapshot()), kind, parts, env)
    {
      if kind == New {
        var title := if |parts| > 1 then Some(parts[1]) else None;
        var _ := CreateSession(title, env);
      } else if kind == Load {
        if |parts| >= 2 {
          var id := env.parseInt(parts[1]);
          if id.Some? {
            var _ := LoadSession(id.value, env);
          }
        }
      } else if kind == Delete {
        if |parts| >= 2 {
          var id := env.parseInt(parts[1]);
          if id.Some? && env.delete(id.value) {
            if currentSession.Some? && currentSession.value.id == id.value {
              currentSession := None;
            }
          }
        }
      } else if kind == Rename {
        if |parts| >= 2 && currentSession.Some? {
          var newTitle := Join(parts[1..], " ");
          if env.rename(currentSession.value.id, newTitle) {
            currentSession := Some(currentSession.value.(title := newTitle));
          }
        }
      } else if kind == Switch {
        if |parts| >= 3 {
          var _ := SwitchModel(parts[1], parts[2]);
        }
      } else if kind == Stream {
        if |parts| >= 2 {
          var mode := Lower(parts[1]);
          if mode in StreamOn {
            streamingEnabled := true;
          } else if mode in StreamOff {
            streamingEnabled := false;
          }
        }
      } else if kind == Temp {
        if |parts| >= 2 {
          var temp := env.parseFloat(parts[1]);
          if temp.Some? && 0.0 <= temp.value <= 2.0 {
            temperature := temp.value;
          }
        }
      }
    }

    /**
     * `_handle_streaming_response`: reads the chunks up to the first error,
     * accumulating content and thinking text and following the session id.
     */
    method HandleStreamingResponse(chunks: seq<Chunk>, env: Env)
      returns (fullContent: string, thinkingContent: string, hasError: bool)
      modifies this
      ensures var r := Streamed(old(currentSession), chunks, env.get);
        fullContent == r.content && thinkingContent == r.thinking && hasError == r.hasError &&
        currentSession == r.session
      ensures currentProvider == old(currentProvider) && currentModel == old(currentModel)
      ensures streamingEnabled == old(streamingEnabled) && temperature == old(temperature)
      ensures maxTokens == old(maxTokens) && models == old(models)
    {
      fullContent, thinkingContent, hasError := "", "", false;
      var sessionId: Option<int> := None;
      ghost var start := (currentSession, sessionId);
      var i := 0;
      while i < |chunks|
        invariant i <= |chunks|
        invariant forall j :: 0 <= j < i ==> chunks[j].error.None?
        invariant fullContent == Content(chunks[..i]) && thinkingContent == Thinking(chunks[..i])
        invariant (currentSession, sessionId) == Tracked(start, chunks[..i], env.get)
        invariant currentProvider == old(currentProvider) && currentModel == old(currentModel)
        invariant streamingEnabled == old(streamingEnabled) && temperature == old(temperature)
        invariant maxTokens == old(maxTokens) && models == old(models)
      {
        var chunk := chunks[i];
        OneMoreChunk(start, chunks, i, env.get);
        if chunk.sessionId.Some? && !IdTruthy(sessionId) {
          sessionId := chunk.sessionId;
          if currentSession.None? || currentSession.value.id != sessionId.value {
            currentSession := env.get(sessionId.value);
          }
        }
        if chunk.content.Some? {
          fullContent := fullContent + chunk.content.value;
        }
        if chunk.reasoningContent.Some? {
          thinkingContent := thinkingContent + chunk.reasoningContent.value;
        }
        i := i + 1;
        if chunk.error.Some? {
          hasError := true;
          break;
        }
      }
      ReadCount(chunks, i, hasError);
      if !hasError && currentSession.Some? && IdTruthy(sessionId) {
        currentSession := Some(currentSession.value.(messageCount := currentSession.value.messageCount + 2));
      }
    }
  }
}
