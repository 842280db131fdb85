/**
 * `_messages_to_contents_and_system` of backend/providers/gemini_messages.py:
 * the conversion of OpenAI-style chat messages into Gemini `contents` and a
 * system instruction. System messages are gathered into the instruction;
 * every other message becomes one content with role "user" or "model",
 * whose parts are its text and its uploaded media inlined from disk.
 *
 * The disk is a `MediaReader`: what reading the file at a path relative to
 * the backend directory gives (its guessed MIME type and its bytes, or
 * that it is missing or unreadable).
 */
module GeminiMessages {
  import opened Wrappers
  import opened Text
  import Base64

  /** A part of list content; each field is None when the part's dict lacks it. `url` is the "url" under the key its type names. */
  datatype InPart = InPart(kind: Option<string>, text: Option<string>, thoughtSignature: Option<string>, url: Option<string>)

  /** A message's content: a string or a list of parts. */
  datatype InContent = Str(s: string) | Parts(parts: seq<InPart>)

  /** An input message; a missing or None "thought_signatures" is the empty list. */
  datatype InMessage = InMessage(role: Option<string>, content: Option<InContent>, thoughtSignatures: seq<string>)

  /** What reading an uploaded file gives. */
  datatype MediaRead = Missing | Unreadable | Loaded(guessedMime: Option<string>, bytes: seq<Base64.byte>)

  type MediaReader = string -> MediaRead

  /** A Gemini part: text or inline data, each with an optional thought signature. */
  datatype OutPart =
    | TextPart(text: string, signature: Option<string>)
    | InlinePart(mime: string, data: string, signature: Option<string>)

  datatype GeminiContent = GeminiContent(role: string, parts: seq<OutPart>)

  /** `m.get("content") or ""`: None, "" and [] all become "". */
  function ContentOf(m: InMessage): InContent {
    if m.content.None? || m.content.value == Parts([]) then Str("") else m.content.value
  }

  predicate Truthy(c: InContent) {
    c != Str("") && c != Parts([])
  }

  predicate IsSystem(m: InMessage) {
    Lower(if m.role.Some? then m.role.value else "") == "system"
  }

  /** The Gemini role: "model" for an assistant (in any case), "user" for everything else. */
  function GeminiRole(m: InMessage): (r: string)
    ensures r == "model" <==> Lower(if m.role.Some? then m.role.value else "") == "assistant"
    ensures r == "model" || r == "user"
  {
    if Lower(if m.role.Some? then m.role.value else "") == "assistant" then "model" else "user"
  }

  const UploadsPrefix := "/uploads/"

  /** The MIME type used when none can be guessed, for the three media part types. */
  function DefaultMime(kind: string): Option<string> {
    if kind == "image_url" then Some("image/jpeg")
    else if kind == "video_url" then Some("video/mp4")
    else if kind == "audio_url" then Some("audio/mpeg")
    else None
  }

  /** The path of an upload relative to the backend directory: the URL without its leading slashes. */
  function UploadPath(url: string): string {
    LStripChar(url, '/')
  }

  /** What one part of list content becomes, if anything. */
  function PartOf(p: InPart, read: MediaReader): (r: Option<OutPart>)
    ensures p.kind == Some("text") ==> r == Some(TextPart(if p.text.Some? then p.text.value else "",
      if p.thoughtSignature.Some? && p.thoughtSignature.value != "" then p.thoughtSignature else None))
    ensures r.Some? && r.value.InlinePart? ==>
      && p.kind.Some? && DefaultMime(p.kind.value).Some?
      && p.url.Some? && StartsWith(p.url.value, UploadsPrefix)
      && read(UploadPath(p.url.value)).Loaded?
      && Base64.Decode(r.value.data) == Some(read(UploadPath(p.url.value)).bytes)
    ensures (&& p.kind.Some? && DefaultMime(p.kind.value).Some?
             && p.url.Some? && StartsWith(p.url.value, UploadsPrefix)
             && read(UploadPath(p.url.value)).Loaded?) ==> r.Some? && r.value.InlinePart?
    ensures p.kind != Some("text") && r.Some? ==> r.value.InlinePart?
  {
    if p.kind == Some("text") then
      Some(TextPart(if p.text.Some? then p.text.value else "",
        if p.thoughtSignature.Some? && p.thoughtSignature.value != "" then p.thoughtSignature else None))
    else if p.kind.Some? && DefaultMime(p.kind.value).Some? then
      if p.url.Some? && StartsWith(p.url.value, UploadsPrefix) then
        match read(UploadPath(p.url.value))
        case Loaded(guessed, bytes) =>
          var mime := if guessed.Some? && guessed.value != "" then guessed.value else DefaultMime(p.kind.value).value;
          Base64.DecodeEncode(bytes);
          Some(InlinePart(mime, Base64.Encode(bytes), None))
        case _ => None
      else None
    else None
  }

  /** The parts of list content, in order, skipping those that give nothing. */
  function PartsOf(parts: seq<InPart>, read: MediaReader): seq<OutPart> {
    if parts == [] then []
    else
      var r := PartOf(parts[|parts| - 1], read);
      PartsOf(parts[..|parts| - 1], read) + (if r.Some? then [r.value] else [])
  }

  /** A model turn with thought signatures carries the first on its first part. */
  function Signed(parts: seq<OutPart>, role: string, signatures: seq<string>): (r: seq<OutPart>)
    ensures |r| == |parts| && (parts != [] ==> r[1..] == parts[1..])
    ensures r != [] && role == "model" && signatures != [] ==> r[0].signature == Some(signatures[0])
    ensures role != "model" || signatures == [] ==> r == parts
  {
    if signatures != [] && role == "model" && parts != [] then [parts[0].(signature := Some(signatures[0]))] + parts[1..]
    else parts
  }

  /** The content a non-system message becomes. */
  function Converted(m: InMessage, read: MediaReader): (r: GeminiContent)
    ensures r.role == GeminiRole(m)
    ensures ContentOf(m).Str? ==> |r.parts| == 1 && r.parts[0].TextPart? && r.parts[0].text == ContentOf(m).s
  {
    var role := GeminiRole(m);
    match ContentOf(m)
    case Str(s) => GeminiContent(role, Signed([TextPart(s, None)], role, m.thoughtSignatures))
    case Parts(ps) => GeminiContent(role, Signed(PartsOf(ps, read), role, m.thoughtSignatures))
  }

  /** The contents of a conversation: one per non-system message, in order. */
  function Contents(ms: seq<InMessage>, read: MediaReader): (r: seq<GeminiContent>)
    ensures |r| <= |ms|
    ensures forall k :: 0 <= k < |r| ==> r[k].role == "user" || r[k].role == "model"
  {
    if ms == [] then []
    else
      var m := ms[|ms| - 1];
      Contents(ms[..|ms| - 1], read) + (if IsSystem(m) then [] else [Converted(m, read)])
  }

  /** The non-empty contents of the system messages, in order. */
  function SystemParts(ms: seq<InMessage>): seq<InContent> {
    if ms == [] then []
    else
      var m := ms[|ms| - 1];
      SystemParts(ms[..|ms| - 1]) + (if IsSystem(m) && Truthy(ContentOf(m)) then [ContentOf(m)] else [])
  }

  /** The strings of string contents, in order. */
  function Strings(cs: seq<InContent>): seq<string> {
    if cs == [] then []
    else Strings(cs[..|cs| - 1]) + (if cs[|cs| - 1].Str? then [cs[|cs| - 1].s] else [])
  }

  /**
   * `"\n".join(system_parts).strip() or None`. The join raises a
   * `TypeError` when a system message carried list content.
   */
  function Instruction(cs: seq<InContent>): (r: Result<Option<string>>)
    ensures r.Failure? <==> exists k :: 0 <= k < |cs| && cs[k].Parts?
    ensures r.Success? && r.value.Some? ==> r.value.value != "" && Strip(r.value.value) == r.value.value
  {
    if exists k :: 0 <= k < |cs| && cs[k].Parts? then Failure("TypeError: sequence item expected str instance, list found")
    else Success(StripOrNone(Join(Strings(cs), "\n")))
  }

  /** The loop over list content's parts. */
  method ConvertParts(ps: seq<InPart>, read: MediaReader) returns (parts: seq<OutPart>)
    ensures parts == PartsOf(ps, read)
  {
    parts := [];
    for j := 0 to |ps|
      invariant parts == PartsOf(ps[..j], read)
    {
      var part := ps[j];
      assert PartsOf(ps[..j + 1], read) == parts + (if PartOf(part, read).Some? then [PartOf(part, read).value] else []) by {
        assert ps[..j + 1][..j] == ps[..j];
      }
      if part.kind == Some("text") {
        var sig := if part.thoughtSignature.Some? && part.thoughtSignature.value != "" then part.thoughtSignature else None;
        parts := parts + [TextPart(if part.text.Some? then part.text.value else "", sig)];
      } else if part.kind.Some? && DefaultMime(part.kind.value).Some? {
        var url := part.url;
        if url.Some? && StartsWith(url.value, UploadsPrefix) {
          var loaded := read(UploadPath(url.value));
          if loaded.Loaded? {
            var mime := if loaded.guessedMime.Some? && loaded.guessedMime.value != "" then loaded.guessedMime.value
              else DefaultMime(part.kind.value).value;
            parts := parts + [InlinePart(mime, Base64.Encode(loaded.bytes), None)];
          }
        }
      }
    }
    assert ps[..|ps|] == ps;
  }

  /** The body of the message loop for a message that is not a system message. */
  method ConvertMessage(m: InMessage, read: MediaReader) returns (c: GeminiContent)
    ensures c == Converted(m, read)
  {
    var role := Lower(if m.role.Some? then m.role.value else "");
    var content := ContentOf(m);
    var gRole := if role == "assistant" then "model" else "user";
    var signatures := m.thoughtSignatures;
    var parts: seq<OutPart>;
    if content.Parts? {
      parts := ConvertParts(content.parts, read);
    } else {
      parts := [TextPart(content.s, None)];
    }
    if signatures != [] && gRole == "model" && parts != [] {
      parts := [parts[0].(signature := Some(signatures[0]))] + parts[1..];
    }
    return GeminiContent(gRole, parts);
  }

  /** `_messages_to_contents_and_system`. */
  method MessagesToContentsAndSystem(messages: seq<InMessage>, read: MediaReader)
    returns (r: Result<(seq<GeminiContent>, Option<string>)>)
    ensures r.Success? <==> Instruction(SystemParts(messages)).Success?
    ensures r.Success? ==> r.value == (Contents(messages, read), Instruction(SystemParts(messages)).value)
  {
    var systemParts: seq<InContent> := [];
    var contents: seq<GeminiContent> := [];
    for i := 0 to |messages|
      invariant systemParts == SystemParts(messages[..i])
      invariant contents == Contents(messages[..i], read)
    {
      assert messages[..i + 1][..i] == messages[..i];
      var m := messages[i];
      var content := ContentOf(m);
      if Lower(if m.role.Some? then m.role.value else "") == "system" {
        if Truthy(content) {
          systemParts := systemParts + [content];
        }
        continue;
      }
      var converted := ConvertMessage(m, read);
      contents := contents + [converted];
    }
    assert messages[..|messages|] == messages;
    var instruction := Instruction(systemParts);
    if instruction.Failure? {
      return Failure(instruction.error);
    }
    return Success((contents, instruction.value));
  }

  lemma {:induction false} ContentsAppend(a: seq<InMessage>, b: seq<InMessage>, read: MediaReader)
    ensures Contents(a + b, read) == Contents(a, read) + Contents(b, read)
    decreases |b|
  {
    if b == [] {
      assert a + b == a;
    } else {
      assert (a + b)[..|a + b| - 1] == a + b[..|b| - 1];
      assert (a + b)[|a + b| - 1] == b[|b| - 1];
      ContentsAppend(a, b[..|b| - 1], read);
    }
  }

  /** A system message never shows in the contents, wherever it stands. */
  lemma SystemMessageInvisible(a: seq<InMessage>, m: InMessage, b: seq<InMessage>, read: MediaReader)
    requires IsSystem(m)
    ensures Contents(a + [m] + b, read) == Contents(a + b, read)
  {
    assert [m][..0] == [];
    assert Contents([m], read) == [];
    ContentsAppend(a, [m], read);
    assert Contents(a + [m], read) == Contents(a, read);
    ContentsAppend(a + [m], b, read);
    ContentsAppend(a, b, read);
  }

  /** Every other message becomes exactly one content, in its place. */
  lemma OtherMessageKept(a: seq<InMessage>, m: InMessage, b: seq<InMessage>, read: MediaReader)
    requires !IsSystem(m)
    ensures Contents(a + [m] + b, read) == Contents(a, read) + [Converted(m, read)] + Contents(b, read)
  {
    assert [m][..0] == [];
    assert Contents([m], read) == [Converted(m, read)];
    ContentsAppend(a, [m], read);
    ContentsAppend(a + [m], b, read);
  }
}
