/** The chat history: a list of sessions, newest first, each holding its
    messages in order, the id of the session being shown, and the trimmed
    copy of the list kept in storage. */
module ChatHistory {
  import opened Wrappers
  import opened Collections

  datatype Role = User | Assistant

  datatype Message = Message(id: string, role: Role, content: string, timestamp: int)

  datatype Session = Session(id: string, title: string, messages: seq<Message>, createdAt: int, updatedAt: int)

  /** At most this many sessions are written to storage. */
  const MaxSessions := 50

  /** Length at which a session title is cut. */
  const TitleLength := 30

  function Min(a: int, b: int): int {
    if a <= b then a else b
  }

  /** `sessions.slice(0, MAX_SESSIONS)`: what `saveSessions` writes. */
  function SavedSessions(sessions: seq<Session>): (r: seq<Session>)
    ensures |r| == Min(|sessions|, MaxSessions)
    ensures r <= sessions
    ensures |sessions| <= MaxSessions ==> r == sessions
  {
    if |sessions| <= MaxSessions then sessions else sessions[..MaxSessions]
  }

  /** `loadSessions()`: `data` is the stored text (None when absent) and
      `decode` stands for `JSON.parse`, None when it throws. */
  function LoadSessions(data: Option<string>, decode: string -> Option<seq<Session>>): (r: seq<Session>)
    ensures data.None? || data.value == "" ==> r == []
    ensures data.Some? && data.value != "" && decode(data.value).None? ==> r == []
    ensures data.Some? && data.value != "" && decode(data.value).Some? ==> r == decode(data.value).value
  {
    if data.None? || data.value == "" then []
    else decode(data.value).GetOr([])
  }

  /** The title a session takes from its first user message: the first 30
      characters, with `...` added exactly when something was cut off. */
  function Title(content: string): (r: string)
    ensures |content| <= TitleLength ==> r == content
    ensures |content| > TitleLength ==> |r| == TitleLength + 3 && r[..TitleLength] == content[..TitleLength] && r[TitleLength..] == "..."
  {
    content[..Min(TitleLength, |content|)] + (if |content| > TitleLength then "..." else "")
  }

  /** The session after `addMessage` appended `message` to it at time `now`. */
  function AppendMessage(session: Session, message: Message, now: int): (r: Session)
    ensures r.id == session.id && r.createdAt == session.createdAt && r.updatedAt == now
    ensures r.messages == session.messages + [message]
    ensures message.role == User && session.messages == [] ==> r.title == Title(message.content)
    ensures !(message.role == User && session.messages == []) ==> r.title == session.title
  {
    var title := if message.role == User && |session.messages| == 0 then Title(message.content) else session.title;
    session.(title := title, messages := session.messages + [message], updatedAt := now)
  }

  /** The list after `addMessage(sessionId, …)`. */
  function WithMessage(sessions: seq<Session>, sessionId: string, message: Message, now: int): (r: seq<Session>)
    ensures |r| == |sessions|
  {
    MapSeq(sessions, (s: Session) => if s.id != sessionId then s else AppendMessage(s, message, now))
  }

  /** `addMessage` appends the message to the end of every session with that
      id and leaves every other session as it was. */
  lemma WithMessageEffect(sessions: seq<Session>, sessionId: string, message: Message, now: int)
    ensures var r := WithMessage(sessions, sessionId, message, now);
            && |r| == |sessions|
            && (forall i :: 0 <= i < |sessions| && sessions[i].id != sessionId ==> r[i] == sessions[i])
            && (forall i :: 0 <= i < |sessions| && sessions[i].id == sessionId ==>
                  r[i].id == sessionId && r[i].messages == sessions[i].messages + [message])
  {
  }

  /** The message with its content replaced when it has the given id. */
  function Reword(msg: Message, messageId: string, content: string): (r: Message)
    ensures r.id == msg.id && r.role == msg.role && r.timestamp == msg.timestamp
    ensures msg.id == messageId ==> r.content == content
    ensures msg.id != messageId ==> r == msg
  {
    if msg.id == messageId then msg.(content := content) else msg
  }

  /** The session after `updateMessage` at time `now`. */
  function Reworded(session: Session, messageId: string, content: string, now: int): (r: Session)
    ensures r.id == session.id && r.title == session.title && r.createdAt == session.createdAt
    ensures |r.messages| == |session.messages| && r.updatedAt == now
  {
    session.(messages := MapSeq(session.messages, (m: Message) => Reword(m, messageId, content)), updatedAt := now)
  }

  /** The list after `updateMessage(sessionId, messageId, content)`. */
  function WithContent(sessions: seq<Session>, sessionId: string, messageId: string, content: string, now: int): (r: seq<Session>)
    ensures |r| == |sessions|
  {
    MapSeq(sessions, (s: Session) => if s.id != sessionId then s else Reworded(s, messageId, content, now))
  }

  /** `updateMessage` changes only the content of the messages with that id in
      the sessions with that id; every session keeps its id, title and
      creation time, and every message list keeps its length, order, ids,
      roles and timestamps. */
  lemma WithContentEffect(sessions: seq<Session>, sessionId: string, messageId: string, content: string, now: int)
    ensures var r := WithContent(sessions, sessionId, messageId, content, now);
            && |r| == |sessions|
            && (forall i :: 0 <= i < |sessions| && sessions[i].id != sessionId ==> r[i] == sessions[i])
            && (forall i :: 0 <= i < |sessions| && sessions[i].id == sessionId ==>
                  && r[i].id == sessions[i].id && r[i].title == sessions[i].title
                  && r[i].createdAt == sessions[i].createdAt && r[i].updatedAt == now
                  && |r[i].messages| == |sessions[i].messages|
                  && (forall k :: 0 <= k < |sessions[i].messages| ==>
                        r[i].messages[k] == Reword(sessions[i].messages[k], messageId, content)))
  {
  }

  /** Streaming updates to one message: the last update wins. */
  lemma {:induction false} LaterUpdateWins(sessions: seq<Session>, sessionId: string, messageId: string,
                                           c1: string, t1: int, c2: string, t2: int)
    ensures WithContent(WithContent(sessions, sessionId, messageId, c1, t1), sessionId, messageId, c2, t2) ==
            WithContent(sessions, sessionId, messageId, c2, t2)
  {
    var once := WithContent(sessions, sessionId, messageId, c1, t1);
    var twice := WithContent(once, sessionId, messageId, c2, t2);
    var direct := WithContent(sessions, sessionId, messageId, c2, t2);
    forall i | 0 <= i < |sessions|
      ensures twice[i] == direct[i]
    {
      if sessions[i].id == sessionId {
        var a := twice[i].messages;
        var b := direct[i].messages;
        assert |a| == |b|;
        forall k | 0 <= k < |a|
          ensures a[k] == b[k]
        {
          assert once[i].messages[k] == Reword(sessions[i].messages[k], messageId, c1);
        }
      }
    }
  }

  /** `currentSession`: the first session whose id is the selected one, or
      null when none is selected or none has that id. */
  function CurrentSession(sessions: seq<Session>, current: Option<string>): (r: Option<Session>)
    ensures r.Some? ==> current.Some? && r.value.id == current.value
    ensures r.Some? ==> exists i :: 0 <= i < |sessions| && sessions[i] == r.value &&
                          forall j :: 0 <= j < i ==> sessions[j].id != current.value
    ensures r.None? <==> !CurrentExists(sessions, current) || current.None?
    decreases |sessions|
  {
    if current.None? || sessions == [] then None
    else if sessions[0].id == current.value then Some(sessions[0])
    else CurrentSession(sessions[1..], current)
  }

  /** `prev.filter(s => s.id !== sessionId)` */
  function Without(sessions: seq<Session>, sessionId: string): (r: seq<Session>)
    ensures |r| <= |sessions|
    ensures forall i :: 0 <= i < |r| ==> r[i].id != sessionId && r[i] in sessions
  {
    Filter(sessions, (s: Session) => s.id != sessionId)
  }

  /** The session selected after `deleteSession(sessionId)`. */
  function NextCurrent(current: Option<string>, sessionId: string, remaining: seq<Session>): Option<string>
  {
    if current == Some(sessionId) && |remaining| > 0 then Some(remaining[0].id)
    else if |remaining| == 0 then None
    else current
  }

  /** The current session id names a session in the list, or is null. */
  predicate CurrentExists(sessions: seq<Session>, current: Option<string>) {
    current.Some? ==> exists i :: 0 <= i < |sessions| && sessions[i].id == current.value
  }

  /** After a deletion no session with that id is left, every other session
      is kept, and the selection never names the deleted id: it moves to the
      first remaining session, or to none. A selection that named a session
      still names one. */
  lemma DeleteEffect(sessions: seq<Session>, current: Option<string>, sessionId: string)
    ensures var rest := Without(sessions, sessionId);
            && (forall i :: 0 <= i < |rest| ==> rest[i].id != sessionId)
            && (forall i :: 0 <= i < |sessions| && sessions[i].id != sessionId ==> sessions[i] in rest)
            && NextCurrent(current, sessionId, rest) != Some(sessionId)
            && (CurrentExists(sessions, current) ==> CurrentExists(rest, NextCurrent(current, sessionId, rest)))
  {
    var rest := Without(sessions, sessionId);
    var next := NextCurrent(current, sessionId, rest);
    if CurrentExists(sessions, current) && next.Some? {
      if current == Some(sessionId) || next != current {
        assert rest[0].id == next.value;
      } else {
        var i :| 0 <= i < |sessions| && sessions[i].id == current.value;
        assert sessions[i] in rest;
        var j :| 0 <= j < |rest| && rest[j] == sessions[i];
      }
    }
  }

  /** The hook's state once the initial load has run: the sessions (newest
      first), the selected session, and what storage holds. */
  class ChatHistory {
    var sessions: seq<Session>
    var currentSessionId: Option<string>
    var stored: seq<Session>

    /** Storage holds the trimmed copy of the current list (the save effect
        has run). */
    predicate Saved()
      reads this
    {
      stored == SavedSessions(sessions)
    }

    /** The initial load: the stored list, with its first session selected. */
    constructor (data: Option<string>, decode: string -> Option<seq<Session>>)
      ensures sessions == LoadSessions(data, decode)
      ensures currentSessionId == (if |sessions| > 0 then Some(sessions[0].id) else None)
      ensures stored == SavedSessions(sessions)
      ensures CurrentExists(sessions, currentSessionId)
    {
      var loaded := LoadSessions(data, decode);
      sessions := loaded;
      currentSessionId := if |loaded| > 0 then Some(loaded[0].id) else None;
      stored := SavedSessions(loaded);
    }

    /** `createSession(title)`: `title` is "" when none is given,
        `defaultTitle` is the dated default, `id` the generated id and `now`
        the clock. */
    method CreateSession(title: string, defaultTitle: string, id: string, now: int) returns (sessionId: string)
      modifies this
      ensures sessionId == id
      ensures sessions == [Session(id, if title != "" then title else defaultTitle, [], now, now)] + old(sessions)
      ensures currentSessionId == Some(id)
      ensures stored == SavedSessions(sessions)
      ensures CurrentExists(sessions, currentSessionId)
    {
      var newSession := Session(id, if title != "" then title else defaultTitle, [], now, now);
      sessions := [newSession] + sessions;
      currentSessionId := Some(newSession.id);
      stored := SavedSessions(sessions);
      assert sessions[0].id == id;
      sessionId := newSession.id;
    }

    /** `addMessage(sessionId, role, content)`: `messageId` is the generated id. */
    method AddMessage(sessionId: string, role: Role, content: string, messageId: string, now: int)
      returns (id: string)
      modifies this
      ensures id == messageId
      ensures sessions == WithMessage(old(sessions), sessionId, Message(messageId, role, content, now), now)
      ensures currentSessionId == old(currentSessionId)
      ensures stored == SavedSessions(sessions)
      ensures CurrentExists(old(sessions), currentSessionId) ==> CurrentExists(sessions, currentSessionId)
    {
      var message := Message(messageId, role, content, now);
      sessions := WithMessage(sessions, sessionId, message, now);
      stored := SavedSessions(sessions);
      id := messageId;
    }

    /** `updateMessage(sessionId, messageId, content)` */
    method UpdateMessage(sessionId: string, messageId: string, content: string, now: int)
      modifies this
      ensures sessions == WithContent(old(sessions), sessionId, messageId, content, now)
      ensures currentSessionId == old(currentSessionId)
      ensures stored == SavedSessions(sessions)
      ensures CurrentExists(old(sessions), currentSessionId) ==> CurrentExists(sessions, currentSessionId)
    {
      sessions := WithContent(sessions, sessionId, messageId, content, now);
      stored := SavedSessions(sessions);
    }

    /** `deleteSession(sessionId)` */
    method DeleteSession(sessionId: string)
      modifies this
      ensures sessions == Without(old(sessions), sessionId)
      ensures currentSessionId == NextCurrent(old(currentSessionId), sessionId, sessions)
      ensures stored == SavedSessions(sessions)
      ensures currentSessionId != Some(sessionId)
      ensures CurrentExists(old(sessions), old(currentSessionId)) ==> CurrentExists(sessions, currentSessionId)
    {
      DeleteEffect(sessions, currentSessionId, sessionId);
      var filtered := Without(sessions, sessionId);
      if currentSessionId == Some(sessionId) && |filtered| > 0 {
        currentSessionId := Some(filtered[0].id);
      } else if |filtered| == 0 {
        currentSessionId := None;
      }
      sessions := filtered;
      stored := SavedSessions(sessions);
    }

    /** `clearAllSessions()` */
    method ClearAllSessions()
      modifies this
      ensures sessions == [] && currentSessionId == None && stored == []
    {
      sessions := [];
      currentSessionId := None;
      stored := SavedSessions(sessions);
    }

    /** `switchSession(sessionId)`: the id is taken as given, even one that
        names no session. */
    method SwitchSession(sessionId: string)
      modifies this
      ensures currentSessionId == Some(sessionId)
      ensures sessions == old(sessions) && stored == old(stored)
    {
      currentSessionId := Some(sessionId);
    }
  }
}
