/**
 * The session endpoints of backend/routers/sessions.py over the tables of
 * `Database.Db`: the paginated list, the detail with its messages, create,
 * rename, delete (with the cascade to the session's messages), truncation
 * from a message on, and deleting everything.
 */
module SessionsRouter {
  import opened Wrappers
  import opened ChatHelpers
  import opened Database

  /** `SessionResponse`. */
  datatype SessionSummary = SessionSummary(
    id: int,
    title: string,
    provider: string,
    model: string,
    createdAt: int,
    updatedAt: int,
    messageCount: nat)

  function Summary(row: SessionRow, count: nat): SessionSummary {
    SessionSummary(row.id, row.title, row.provider, row.model, row.createdAt, row.updatedAt, count)
  }

  /** `len(session.messages)`: the rows of the message table that belong to the session. */
  function MessageCount(messages: seq<MessageRow>, sessionId: int): nat {
    |MessagesOf(messages, sessionId)|
  }

  // ------------------------------------------------------------- the list

  /** Each session was updated at least as recently as the next one. */
  predicate NewestFirst(rows: seq<SessionRow>) {
    forall j, k :: 0 <= j < k < |rows| ==> rows[j].updatedAt >= rows[k].updatedAt
  }

  /** Puts `row` after every row of `sorted` updated at least as recently. */
  function InsertByRecency(row: SessionRow, sorted: seq<SessionRow>): (r: seq<SessionRow>)
    ensures multiset(r) == multiset(sorted) + multiset{row}
    ensures |r| == |sorted| + 1
  {
    if sorted == [] then [row]
    else if sorted[0].updatedAt >= row.updatedAt then
      assert sorted == [sorted[0]] + sorted[1..];
      [sorted[0]] + InsertByRecency(row, sorted[1..])
    else [row] + sorted
  }

  /** `order_by(ChatSession.updated_at.desc())`, rows updated at the same instant kept in table order. */
  function ByRecency(rows: seq<SessionRow>): (r: seq<SessionRow>)
    ensures multiset(r) == multiset(rows)
    ensures |r| == |rows|
  {
    if rows == [] then []
    else
      assert rows == rows[..|rows| - 1] + [rows[|rows| - 1]];
      InsertByRecency(rows[|rows| - 1], ByRecency(rows[..|rows| - 1]))
  }

  lemma {:induction false} InsertByRecencySorted(row: SessionRow, sorted: seq<SessionRow>)
    requires NewestFirst(sorted)
    ensures NewestFirst(InsertByRecency(row, sorted))
    ensures sorted != [] && sorted[0].updatedAt >= row.updatedAt ==> InsertByRecency(row, sorted)[0] == sorted[0]
    decreases |sorted|
  {
    if sorted != [] && sorted[0].updatedAt >= row.updatedAt {
      var rest := InsertByRecency(row, sorted[1..]);
      InsertByRecencySorted(row, sorted[1..]);
      var r := [sorted[0]] + rest;
      forall j, k | 0 <= j < k < |r| ensures r[j].updatedAt >= r[k].updatedAt {
        if j == 0 {
          assert r[k] in multiset(rest);
          assert r[k] in multiset(sorted[1..]) + multiset{row};
          if r[k] != row {
            var i :| 0 <= i < |sorted[1..]| && sorted[1..][i] == r[k];
            assert sorted[0].updatedAt >= sorted[1 + i].updatedAt;
          }
        } else {
          assert r[j] == rest[j - 1] && r[k] == rest[k - 1];
        }
      }
    }
  }

  /** The listing order: newest first, and the same sessions. */
  lemma {:induction false} ByRecencySorted(rows: seq<SessionRow>)
    ensures NewestFirst(ByRecency(rows))
    decreases |rows|
  {
    if rows != [] {
      ByRecencySorted(rows[..|rows| - 1]);
      InsertByRecencySorted(rows[|rows| - 1], ByRecency(rows[..|rows| - 1]));
    }
  }

  /** A position clamped to the table: SQLite treats a negative OFFSET as zero. */
  function Offset(n: nat, skip: int): (start: nat)
    ensures start <= n
  {
    if skip <= 0 then 0 else if skip >= n then n else skip
  }

  /** `.offset(skip).limit(limit)` as SQLite runs it; a negative LIMIT means no limit. */
  function Window(rows: seq<SessionRow>, skip: int, limit: int): (r: seq<SessionRow>)
    ensures limit >= 0 ==> |r| <= limit
    ensures |r| <= |rows|
    ensures Offset(|rows|, skip) + |r| <= |rows| && r == rows[Offset(|rows|, skip)..Offset(|rows|, skip) + |r|]
  {
    var rest := rows[Offset(|rows|, skip)..];
    if limit < 0 || limit >= |rest| then rest else rest[..limit]
  }

  /** Consecutive pages tile the listing: a page and everything after it make up the listing from its start. */
  lemma WindowTiles(rows: seq<SessionRow>, skip: nat, limit: nat)
    ensures Window(rows, skip, limit) + Window(rows, skip + limit, -1) == Window(rows, skip, -1)
    ensures Window(rows, 0, -1) == rows
  {
  }

  /** A page of the listing: newest first, and each of its sessions is in the table. */
  lemma PageSpec(sessions: seq<SessionRow>, skip: int, limit: int)
    ensures var page := Window(ByRecency(sessions), skip, limit);
      && NewestFirst(page)
      && (limit >= 0 ==> |page| <= limit)
      && (forall k :: 0 <= k < |page| ==> page[k] in sessions)
  {
    var sorted := ByRecency(sessions);
    ByRecencySorted(sessions);
    var page := Window(sorted, skip, limit);
    var start := Offset(|sorted|, skip);
    forall k | 0 <= k < |page| ensures page[k] in sessions {
      assert page[k] == sorted[start + k];
      assert page[k] in multiset(sorted);
    }
  }

  /** `get_sessions`: the page of the listing, each session with its message count. */
  method GetSessions(db: Db, skip: int, limit: int) returns (result: seq<SessionSummary>)
    ensures var page := Window(ByRecency(db.sessions), skip, limit);
      && |result| == |page|
      && forall k :: 0 <= k < |result| ==> result[k] == Summary(page[k], MessageCount(db.messages, page[k].id))
  {
    var sessions := Window(ByRecency(db.sessions), skip, limit);
    result := [];
    for k := 0 to |sessions|
      invariant |result| == k
      invariant forall q :: 0 <= q < k ==> result[q] == Summary(sessions[q], MessageCount(db.messages, sessions[q].id))
    {
      var session := sessions[k];
      result := result + [Summary(session, MessageCount(db.messages, session.id))];
    }
  }

  // ----------------------------------------------------------- the detail

  /** `MessageResponse`. */
  datatype MessageView = MessageView(
    id: int,
    role: string,
    content: string,
    images: Option<seq<string>>,
    videos: Option<seq<string>>,
    provider: Option<string>,
    model: Option<string>,
    thoughtProcess: Option<string>,
    createdAt: int)

  /** `SessionDetailResponse`. */
  datatype SessionDetail = SessionDetail(session: SessionSummary, messages: seq<MessageView>)

  /** What `get_session_detail` answers: 404, a 500 from `json.loads`, or the detail. */
  datatype DetailReply = NotFound | Unreadable | Found(detail: SessionDetail)

  /**
   * A media column as the response carries it (lines 85-86): lists and
   * NULL as stored, the empty string as an empty list, other text decoded;
   * None when `json.loads` raises.
   */
  function ResponseMedia(f: MediaField, parse: Parser): (r: Option<Option<seq<string>>>)
    ensures f.Missing? ==> r == Some(None)
    ensures f.Urls? ==> r == Some(Some(f.items))
    ensures f == Encoded("") ==> r == Some(Some([]))
  {
    match f
    case Missing => Some(None)
    case Urls(items) => Some(Some(items))
    case Encoded(text) =>
      if text == "" then Some(Some([]))
      else if parse(text).Some? then Some(Some(parse(text).value)) else None
  }

  /**
   * The detail view and the chat history read a stored column alike: where
   * the view can decode it, it is what `_ensure_list` gives. They differ only
   * on text that does not parse, which the history wraps in a list and the
   * detail refuses.
   */
  lemma ResponseMediaAgrees(f: MediaField, parse: Parser)
    requires RejectsEmpty(parse)
    ensures ResponseMedia(f, parse).Some? ==> ResponseMedia(f, parse).value == EnsureList(f, parse)
    ensures ResponseMedia(f, parse).None? <==> f.Encoded? && f.text != "" && parse(f.text).None?
  {
    if f == Encoded("") {
      EnsureListEmpty(parse);
    }
  }

  predicate Readable(m: MessageRow, parse: Parser) {
    ResponseMedia(m.images, parse).Some? && ResponseMedia(m.videos, parse).Some?
  }

  function View(m: MessageRow, parse: Parser): MessageView
    requires Readable(m, parse)
  {
    MessageView(m.id, m.role, m.content, ResponseMedia(m.images, parse).value, ResponseMedia(m.videos, parse).value,
      m.provider, m.model, m.thoughtProcess, m.createdAt)
  }

  /**
   * `order_by(ChatMessage.created_at.asc())` is table order: a session's
   * messages, taken in table order, have strictly ascending creation times.
   */
  lemma DetailChronological(db: Db, sessionId: int)
    requires db.Valid()
    ensures Chronological(MessagesOf(db.messages, sessionId))
  {
    KeepMessagesChronological(db.messages, InSession(sessionId));
  }

  /** `get_session_detail`. */
  method GetSessionDetail(db: Db, sessionId: int, parse: Parser) returns (r: DetailReply)
    ensures r.NotFound? <==> FindSession(db.sessions, sessionId).None?
    ensures var msgs := MessagesOf(db.messages, sessionId);
      r.Unreadable? <==> FindSession(db.sessions, sessionId).Some? && exists k :: 0 <= k < |msgs| && !Readable(msgs[k], parse)
    ensures r.Found? ==>
      var msgs := MessagesOf(db.messages, sessionId);
      && (forall k :: 0 <= k < |msgs| ==> Readable(msgs[k], parse))
      && r.detail.session == Summary(db.sessions[FindSession(db.sessions, sessionId).value], |msgs|)
      && |r.detail.messages| == |msgs|
      && (forall k :: 0 <= k < |msgs| ==> r.detail.messages[k] == View(msgs[k], parse))
  {
    var idx := FindSession(db.sessions, sessionId);
    if idx.None? {
      return NotFound;
    }
    var session := db.sessions[idx.value];
    var sessionMessages := MessagesOf(db.messages, sessionId);
    var processed := [];
    for k := 0 to |sessionMessages|
      invariant |processed| == k
      invariant forall q :: 0 <= q < k ==> Readable(sessionMessages[q], parse)
      invariant forall q :: 0 <= q < k ==> processed[q] == View(sessionMessages[q], parse)
    {
      var msg := sessionMessages[k];
      var images := ResponseMedia(msg.images, parse);
      var videos := ResponseMedia(msg.videos, parse);
      if images.None? || videos.None? {
        return Unreadable;
      }
      processed := processed + [MessageView(msg.id, msg.role, msg.content, images.value, videos.value,
        msg.provider, msg.model, msg.thoughtProcess, msg.createdAt)];
    }
    r := Found(SessionDetail(Summary(session, |sessionMessages|), processed));
  }

  // ------------------------------------------------------------ mutations

  /** `create_session`: a new row with the given fields, reported with no messages. */
  method CreateSession(db: Db, title: string, provider: string, model: string) returns (r: SessionSummary)
    requires db.Valid()
    modifies db
    ensures db.Valid()
    ensures |db.sessions| == |old(db.sessions)| + 1
    ensures db.sessions[..|old(db.sessions)|] == old(db.sessions)
    ensures var row := db.sessions[|old(db.sessions)|];
      && row.id == NextRowId(SessionIds(old(db.sessions)))
      && row.title == title && row.provider == provider && row.model == model
      && r == Summary(row, 0)
    ensures db.messages == old(db.messages)
  {
    var session := db.InsertSession(title, provider, model);
    assert db.sessions[..|old(db.sessions)|] == old(db.sessions);
    r := Summary(session, 0);
  }

  /** `update_session`: a truthy title replaces the old one, and `updated_at` moves on either way. */
  method UpdateSession(db: Db, sessionId: int, title: Option<string>) returns (r: Option<SessionSummary>)
    requires db.Valid()
    modifies db
    ensures db.Valid()
    ensures r.None? <==> FindSession(old(db.sessions), sessionId).None?
    ensures r.None? ==> db.sessions == old(db.sessions) && db.messages == old(db.messages)
    ensures r.Some? ==>
      var i := FindSession(old(db.sessions), sessionId).value;
      var row := old(db.sessions[i]);
      var renamed := if title.Some? && title.value != "" then title.value else row.title;
      && db.sessions == old(db.sessions)[i := row.(title := renamed, updatedAt := old(db.now) + 1)]
      && db.messages == old(db.messages)
      && r.value == Summary(db.sessions[i], MessageCount(db.messages, sessionId))
  {
    var idx := FindSession(db.sessions, sessionId);
    if idx.None? {
      return None;
    }
    var session := db.sessions[idx.value];
    if title.Some? && title.value != "" {
      session := session.(title := title.value);
    }
    var t := db.Tick();
    session := session.(updatedAt := t);
    db.UpdateSession(idx.value, session);
    r := Some(Summary(session, MessageCount(db.messages, sessionId)));
  }

  /** `delete_session`: the session and, through the cascade, its messages. */
  method DeleteSession(db: Db, sessionId: int) returns (found: bool)
    requires db.Valid()
    modifies db
    ensures db.Valid()
    ensures found <==> FindSession(old(db.sessions), sessionId).Some?
    ensures !found ==> db.sessions == old(db.sessions) && db.messages == old(db.messages)
    ensures found ==>
      && db.sessions == SessionsExcept(old(db.sessions), sessionId)
      && db.messages == KeepMessages(old(db.messages), OutsideSession(sessionId))
  {
    var idx := FindSession(db.sessions, sessionId);
    if idx.None? {
      return false;
    }
    db.DeleteMessages(OutsideSession(sessionId));
    db.DeleteSession(sessionId);
    found := true;
  }

  /**
   * After a delete the session is gone and so are its messages, while every
   * other session keeps all of its messages in their order.
   */
  lemma DeleteSessionSpec(sessions: seq<SessionRow>, messages: seq<MessageRow>, sessionId: int, other: int)
    ensures FindSession(SessionsExcept(sessions, sessionId), sessionId).None?
    ensures MessagesOf(KeepMessages(messages, OutsideSession(sessionId)), sessionId) == []
    ensures other != sessionId ==>
      MessagesOf(KeepMessages(messages, OutsideSession(sessionId)), other) == MessagesOf(messages, other)
  {
    var rest := SessionsExcept(sessions, sessionId);
    forall k | 0 <= k < |rest| ensures rest[k].id != sessionId {
      assert rest[k] in rest;
    }
    var kept := KeepMessages(messages, OutsideSession(sessionId));
    var gone := MessagesOf(kept, sessionId);
    if gone != [] {
      assert Keeps(OutsideSession(sessionId), gone[0]) by {
        KeepMessagesMembers(kept, InSession(sessionId));
        KeepMessagesMembers(messages, OutsideSession(sessionId));
      }
    }
    if other != sessionId {
      KeepMessagesCommute(messages, OutsideSession(sessionId), InSession(other));
      KeepMessagesAll(MessagesOf(messages, other), OutsideSession(sessionId));
    }
  }

  /** `truncate_session`: the session's messages from `messageId` on are deleted and `updated_at` moves on. */
  method TruncateSession(db: Db, sessionId: int, messageId: int) returns (found: bool)
    requires db.Valid()
    modifies db
    ensures db.Valid()
    ensures found <==> FindSession(old(db.sessions), sessionId).Some?
    ensures !found ==> db.sessions == old(db.sessions) && db.messages == old(db.messages)
    ensures found ==>
      var i := FindSession(old(db.sessions), sessionId).value;
      && db.messages == KeepMessages(old(db.messages), BeforeInSession(sessionId, messageId))
      && db.sessions == old(db.sessions)[i := old(db.sessions[i]).(updatedAt := old(db.now) + 1)]
  {
    var idx := FindSession(db.sessions, sessionId);
    if idx.None? {
      return false;
    }
    db.DeleteMessages(BeforeInSession(sessionId, messageId));
    var t := db.Tick();
    db.UpdateSession(idx.value, db.sessions[idx.value].(updatedAt := t));
    found := true;
  }

  /**
   * Truncation keeps a prefix of the session's history: what remains is the
   * history up to the first message whose id reaches `messageId`, and every
   * message from there on is gone. Other sessions keep all their messages.
   */
  lemma TruncateSpec(messages: seq<MessageRow>, sessionId: int, messageId: int, other: int)
    requires Chronological(messages)
    ensures var history := MessagesOf(messages, sessionId);
      var kept := MessagesOf(KeepMessages(messages, BeforeInSession(sessionId, messageId)), sessionId);
      && |kept| <= |history| && kept == history[..|kept|]
      && (forall k :: |kept| <= k < |history| ==> history[k].id >= messageId)
    ensures other != sessionId ==>
      MessagesOf(KeepMessages(messages, BeforeInSession(sessionId, messageId)), other) == MessagesOf(messages, other)
  {
    var history := MessagesOf(messages, sessionId);
    KeepMessagesCommute(messages, BeforeInSession(sessionId, messageId), InSession(sessionId));
    KeepMessagesChronological(messages, InSession(sessionId));
    TruncationKeepsPrefix(history, sessionId, messageId);
    if other != sessionId {
      KeepMessagesCommute(messages, BeforeInSession(sessionId, messageId), InSession(other));
      KeepMessagesAll(MessagesOf(messages, other), BeforeInSession(sessionId, messageId));
    }
  }

  /** `delete_all_sessions`: both tables end up empty. */
  method DeleteAllSessions(db: Db)
    requires db.Valid()
    modifies db
    ensures db.Valid()
    ensures db.sessions == [] && db.messages == []
  {
    db.Clear();
  }
}
