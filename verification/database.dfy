/**
 * The two tables of backend/database.py, held in memory: chat sessions and
 * chat messages. Rows are kept in insertion order; ids are SQLite rowids
 * (one more than the largest id in the table, 1 for an empty table); and
 * the wall clock is a counter that moves forward by one at every timestamp
 * it hands out.
 */
module Database {
  import opened Wrappers
  import opened ChatHelpers

  /** A `chat_sessions` row. */
  datatype SessionRow = SessionRow(
    id: int,
    title: string,
    provider: string,
    model: string,
    createdAt: int,
    updatedAt: int)

  /**
   * A `chat_messages` row. The media columns are JSON columns that older
   * databases created as TEXT, so a stored value may be a list, a string
   * or NULL.
   */
  datatype MessageRow = MessageRow(
    id: int,
    sessionId: int,
    role: string,
    content: string,
    images: MediaField,
    videos: MediaField,
    audios: MediaField,
    thoughtProcess: Option<string>,
    provider: Option<string>,
    model: Option<string>,
    createdAt: int)

  /** The next rowid of a table whose ids ascend along the sequence. */
  function NextRowId(ids: seq<int>): int {
    if ids == [] then 1 else ids[|ids| - 1] + 1
  }

  function SessionIds(rows: seq<SessionRow>): (ids: seq<int>)
    ensures |ids| == |rows|
    ensures forall k :: 0 <= k < |rows| ==> ids[k] == rows[k].id
  {
    seq(|rows|, k requires 0 <= k < |rows| => rows[k].id)
  }

  function MessageIds(rows: seq<MessageRow>): (ids: seq<int>)
    ensures |ids| == |rows|
    ensures forall k :: 0 <= k < |rows| ==> ids[k] == rows[k].id
  {
    seq(|rows|, k requires 0 <= k < |rows| => rows[k].id)
  }

  /** Ids that strictly ascend along the table, so every id is unique. */
  predicate Ascending(ids: seq<int>) {
    forall j, k :: 0 <= j < k < |ids| ==> ids[j] < ids[k]
  }

  /** The next rowid is larger than every id in use. */
  lemma NextRowIdFresh(ids: seq<int>)
    requires Ascending(ids)
    ensures forall k :: 0 <= k < |ids| ==> ids[k] < NextRowId(ids)
    ensures Ascending(ids + [NextRowId(ids)])
  {
  }

  /** `filter(ChatSession.id == id).first()`: the position of the row with that id. */
  function FindSession(rows: seq<SessionRow>, id: int): (r: Option<nat>)
    ensures r.None? <==> forall k :: 0 <= k < |rows| ==> rows[k].id != id
    ensures r.Some? ==> r.value < |rows| && rows[r.value].id == id
  {
    if rows == [] then None
    else if rows[|rows| - 1].id == id then Some(|rows| - 1)
    else FindSession(rows[..|rows| - 1], id)
  }

  /** A condition on message rows that a query filters by. */
  datatype MessageTest =
    | InSession(sessionId: int)                 // `session_id == sessionId`
    | OutsideSession(sessionId: int)            // what a cascading session delete keeps
    | BeforeInSession(sessionId: int, fromId: int)  // what a truncation keeps: not (`session_id == sessionId` and `id >= fromId`)

  predicate Keeps(t: MessageTest, m: MessageRow) {
    match t
    case InSession(sid) => m.sessionId == sid
    case OutsideSession(sid) => m.sessionId != sid
    case BeforeInSession(sid, fromId) => !(m.sessionId == sid && m.id >= fromId)
  }

  /** The message rows that pass the test, in table order. */
  function KeepMessages(rows: seq<MessageRow>, t: MessageTest): (r: seq<MessageRow>)
    ensures forall k :: 0 <= k < |r| ==> Keeps(t, r[k])
    ensures |r| <= |rows|
  {
    if rows == [] then []
    else
      var rest := KeepMessages(rows[..|rows| - 1], t);
      if Keeps(t, rows[|rows| - 1]) then rest + [rows[|rows| - 1]] else rest
  }

  /** The rows kept are exactly the rows of the table that pass the test. */
  lemma {:induction false} KeepMessagesMembers(rows: seq<MessageRow>, t: MessageTest)
    ensures forall m :: m in KeepMessages(rows, t) <==> m in rows && Keeps(t, m)
    decreases |rows|
  {
    if rows != [] {
      KeepMessagesMembers(rows[..|rows| - 1], t);
      assert rows == rows[..|rows| - 1] + [rows[|rows| - 1]];
    }
  }

  /** `filter(ChatMessage.session_id == id)`, in table order. */
  function MessagesOf(rows: seq<MessageRow>, sessionId: int): (r: seq<MessageRow>)
    ensures forall k :: 0 <= k < |r| ==> r[k].sessionId == sessionId
    ensures |r| <= |rows|
  {
    KeepMessages(rows, InSession(sessionId))
  }

  /** Filtering distributes over concatenation: rows appended later come later. */
  lemma {:induction false} KeepMessagesAppend(a: seq<MessageRow>, b: seq<MessageRow>, t: MessageTest)
    ensures KeepMessages(a + b, t) == KeepMessages(a, t) + KeepMessages(b, t)
    decreases |b|
  {
    if b == [] {
      assert a + b == a;
    } else {
      var b' := b[..|b| - 1];
      assert (a + b)[..|a + b| - 1] == a + b';
      assert (a + b)[|a + b| - 1] == b[|b| - 1];
      KeepMessagesAppend(a, b', t);
    }
  }

  /** Two filters give the same rows in either order. */
  lemma {:induction false} KeepMessagesCommute(rows: seq<MessageRow>, t: MessageTest, u: MessageTest)
    ensures KeepMessages(KeepMessages(rows, t), u) == KeepMessages(KeepMessages(rows, u), t)
    decreases |rows|
  {
    if rows != [] {
      var init := rows[..|rows| - 1];
      var last := rows[|rows| - 1];
      KeepMessagesCommute(init, t, u);
      var tu := KeepMessages(KeepMessages(init, t), u);
      var pt, pu := KeepMessages(init, t), KeepMessages(init, u);
      if Keeps(t, last) {
        KeepMessagesAppend(pt, [last], u);
      }
      if Keeps(u, last) {
        KeepMessagesAppend(pu, [last], t);
      }
    }
  }

  /** A filter that every row passes keeps the table as it is. */
  lemma {:induction false} KeepMessagesAll(rows: seq<MessageRow>, t: MessageTest)
    requires forall k :: 0 <= k < |rows| ==> Keeps(t, rows[k])
    ensures KeepMessages(rows, t) == rows
    decreases |rows|
  {
    if rows != [] {
      KeepMessagesAll(rows[..|rows| - 1], t);
    }
  }

  /** Message ids and creation times both strictly ascend along the table. */
  predicate Chronological(rows: seq<MessageRow>) {
    forall j, k :: 0 <= j < k < |rows| ==> rows[j].id < rows[k].id && rows[j].createdAt < rows[k].createdAt
  }

  /** Deleting rows keeps the others in their order. */
  lemma {:induction false} KeepMessagesChronological(rows: seq<MessageRow>, t: MessageTest)
    requires Chronological(rows)
    ensures Chronological(KeepMessages(rows, t))
    decreases |rows|
  {
    if rows != [] {
      var init := rows[..|rows| - 1];
      var last := rows[|rows| - 1];
      KeepMessagesChronological(init, t);
      KeepMessagesMembers(init, t);
      var rest := KeepMessages(init, t);
      forall x | x in rest ensures x.id < last.id && x.createdAt < last.createdAt {
        var j :| 0 <= j < |init| && init[j] == x;
        assert init[j] == rows[j];
      }
      if Keeps(t, last) {
        var r := rest + [last];
        forall j, k | 0 <= j < k < |r| ensures r[j].id < r[k].id && r[j].createdAt < r[k].createdAt {
          assert r[j] == rest[j];
          if k == |rest| {
            assert rest[j] in rest;
          }
        }
      }
    }
  }

  /** A chronological table whose last id is below the bound loses nothing to the truncation. */
  lemma BelowBoundKept(rows: seq<MessageRow>, sid: int, fromId: int)
    requires Chronological(rows) && rows != [] && rows[|rows| - 1].id < fromId
    ensures KeepMessages(rows, BeforeInSession(sid, fromId)) == rows
  {
    forall k | 0 <= k < |rows| ensures Keeps(BeforeInSession(sid, fromId), rows[k]) {
      if k < |rows| - 1 {
        assert rows[k].id < rows[|rows| - 1].id;
      }
    }
    KeepMessagesAll(rows, BeforeInSession(sid, fromId));
  }

  /**
   * Within one chronological session, keeping the rows whose id is below a
   * bound keeps a prefix of the session: the rest are exactly the rows from
   * the first with an id at or above it.
   */
  lemma {:induction false} TruncationKeepsPrefix(rows: seq<MessageRow>, sid: int, fromId: int)
    requires Chronological(rows)
    requires forall k :: 0 <= k < |rows| ==> rows[k].sessionId == sid
    ensures var kept := KeepMessages(rows, BeforeInSession(sid, fromId));
      && kept == rows[..|kept|]
      && (forall k :: |kept| <= k < |rows| ==> rows[k].id >= fromId)
    decreases |rows|
  {
    if rows == [] {
    } else if rows[|rows| - 1].id < fromId {
      BelowBoundKept(rows, sid, fromId);
      assert rows[..|rows|] == rows;
    } else {
      var init := rows[..|rows| - 1];
      TruncationKeepsPrefix(init, sid, fromId);
      var kept := KeepMessages(init, BeforeInSession(sid, fromId));
      assert KeepMessages(rows, BeforeInSession(sid, fromId)) == kept;
      assert init[..|kept|] == rows[..|kept|];
    }
  }

  /** The session rows other than the one with id `id`, in table order. */
  function SessionsExcept(rows: seq<SessionRow>, id: int): (r: seq<SessionRow>)
    ensures forall x :: x in r <==> x in rows && x.id != id
    ensures |r| <= |rows|
  {
    if rows == [] then []
    else
      var rest := SessionsExcept(rows[..|rows| - 1], id);
      if rows[|rows| - 1].id != id then rest + [rows[|rows| - 1]] else rest
  }

  /** Deleting a session keeps the other sessions in their order. */
  lemma {:induction false} SessionsExceptAscending(rows: seq<SessionRow>, id: int)
    requires Ascending(SessionIds(rows))
    ensures Ascending(SessionIds(SessionsExcept(rows, id)))
    decreases |rows|
  {
    if rows != [] {
      var init := rows[..|rows| - 1];
      var last := rows[|rows| - 1];
      assert SessionIds(init) == SessionIds(rows)[..|init|];
      SessionsExceptAscending(init, id);
      var rest := SessionsExcept(init, id);
      forall x | x in rest ensures x.id < last.id {
        var j :| 0 <= j < |init| && init[j] == x;
        assert SessionIds(rows)[j] < SessionIds(rows)[|rows| - 1];
      }
      if last.id != id {
        var r := rest + [last];
        forall j, k | 0 <= j < k < |r| ensures SessionIds(r)[j] < SessionIds(r)[k] {
          assert r[j] == rest[j];
          if k == |rest| {
            assert rest[j] in rest;
          } else {
            assert SessionIds(rest)[j] < SessionIds(rest)[k];
          }
        }
      }
    }
  }

  /** The database: both tables and the clock their timestamps come from. */
  class Db {
    var sessions: seq<SessionRow>
    var messages: seq<MessageRow>
    var now: int

    /** Rowids ascend in both tables, messages are in creation order, and no timestamp lies in the future. */
    ghost predicate Valid()
      reads this
    {
      && Ascending(SessionIds(sessions))
      && Chronological(messages)
      && (forall r :: r in sessions ==> r.createdAt <= r.updatedAt <= now)
      && (forall m :: m in messages ==> m.createdAt <= now)
    }

    constructor ()
      ensures Valid()
      ensures sessions == [] && messages == []
    {
      sessions := [];
      messages := [];
      now := 0;
    }

    /** `datetime.now(timezone.utc)`: a timestamp later than every earlier one. */
    method Tick() returns (t: int)
      modifies this
      ensures t == old(now) + 1 && now == t
      ensures sessions == old(sessions) && messages == old(messages)
    {
      now := now + 1;
      t := now;
    }

    /** `db.add(ChatSession(...)); db.commit(); db.refresh(session)`. */
    method InsertSession(title: string, provider: string, model: string) returns (row: SessionRow)
      requires Valid()
      modifies this
      ensures Valid()
      ensures row == SessionRow(NextRowId(SessionIds(old(sessions))), title, provider, model, old(now) + 1, old(now) + 1)
      ensures sessions == old(sessions) + [row]
      ensures messages == old(messages)
      ensures now == old(now) + 1
    {
      NextRowIdFresh(SessionIds(sessions));
      var t := Tick();
      row := SessionRow(NextRowId(SessionIds(sessions)), title, provider, model, t, t);
      assert SessionIds(sessions + [row]) == SessionIds(sessions) + [row.id];
      sessions := sessions + [row];
    }

    /** `db.add(ChatMessage(...))` and its flush: the row gets the next rowid and the current time. */
    method InsertMessage(
      sessionId: int, role: string, content: string,
      images: MediaField, videos: MediaField, audios: MediaField,
      thoughtProcess: Option<string>, provider: Option<string>, model: Option<string>)
      returns (row: MessageRow)
      requires Valid()
      modifies this
      ensures Valid()
      ensures row == MessageRow(NextRowId(MessageIds(old(messages))), sessionId, role, content,
        images, videos, audios, thoughtProcess, provider, model, old(now) + 1)
      ensures messages == old(messages) + [row]
      ensures sessions == old(sessions)
      ensures now == old(now) + 1
    {
      NextRowIdFresh(MessageIds(messages));
      var t := Tick();
      row := MessageRow(NextRowId(MessageIds(messages)), sessionId, role, content,
        images, videos, audios, thoughtProcess, provider, model, t);
      assert MessageIds(messages + [row]) == MessageIds(messages) + [row.id];
      messages := messages + [row];
    }

    /** `db.delete(session)` without its cascade: the other session rows remain. */
    method DeleteSession(id: int)
      requires Valid()
      modifies this
      ensures Valid()
      ensures sessions == SessionsExcept(old(sessions), id)
      ensures messages == old(messages) && now == old(now)
    {
      SessionsExceptAscending(sessions, id);
      sessions := SessionsExcept(sessions, id);
    }

    /** `query(ChatMessage).filter(...).delete()`: the message rows that pass `t` remain. */
    method DeleteMessages(t: MessageTest)
      requires Valid()
      modifies this
      ensures Valid()
      ensures messages == KeepMessages(old(messages), t)
      ensures sessions == old(sessions) && now == old(now)
    {
      KeepMessagesChronological(messages, t);
      KeepMessagesMembers(messages, t);
      messages := KeepMessages(messages, t);
    }

    /** `query(ChatSession).delete()` and `query(ChatMessage).delete()`. */
    method Clear()
      modifies this
      ensures Valid()
      ensures sessions == [] && messages == [] && now == old(now)
    {
      sessions := [];
      messages := [];
    }

    /** Replaces the session row at position `i` by `row`, which keeps its id. */
    method UpdateSession(i: nat, row: SessionRow)
      requires Valid()
      requires i < |sessions| && row.id == sessions[i].id
      requires row.createdAt <= row.updatedAt <= now
      modifies this
      ensures Valid()
      ensures sessions == old(sessions)[i := row]
      ensures messages == old(messages) && now == old(now)
    {
      assert SessionIds(sessions[i := row]) == SessionIds(sessions);
      sessions := sessions[i := row];
    }
  }
}
