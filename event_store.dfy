/**
 * The SQLite store (`infra/db/sqlite.py`): the `chat` and `telegram_user`
 * tables keyed by their Telegram ids, the per-user `user_state` row, and the
 * append-only `message` log. Each table is a field of `Store`; each write is a
 * method whose contract gives the new table as a function of the old one, and
 * the pure functions below carry the lemmas that relate several calls.
 * `CURRENT_TIMESTAMP` is the `now` parameter of each write.
 */
module SqliteStore {
  import opened Wrappers
  import opened TurnReconstruction

  /** A `chat` row, keyed by `telegram_chat_id`. */
  datatype ChatRow = ChatRow(chatType: Option<string>, title: Option<string>, modifiedAt: string, createdAt: string)

  /** A `telegram_user` row, keyed by `telegram_user_id`. */
  datatype UserRow = UserRow(
    isBot: Option<int>,
    firstName: Option<string>,
    lastName: Option<string>,
    languageCode: Option<string>,
    modifiedAt: string,
    createdAt: string)

  /** A `user_state` row, keyed by `telegram_user_id`; the description is NOT NULL. */
  datatype UserState = UserState(description: string, modifiedAt: string, createdAt: string)

  /** The constraint an `sqlite3.IntegrityError` reports. */
  datatype Constraint = UniqueUpdateId | ForeignKey

  datatype WriteStatus = Committed | IntegrityError(violated: Constraint)

  /** The `is_bot` argument, `bool | int | None`. */
  datatype BotFlag = FlagBool(b: bool) | FlagInt(n: int)

  /** `None if is_bot is None else int(is_bot)`. */
  function BotFlagValue(isBot: Option<BotFlag>): (r: Option<int>)
    ensures r.None? <==> isBot.None?
    ensures isBot == Some(FlagBool(true)) ==> r == Some(1)
    ensures isBot == Some(FlagBool(false)) ==> r == Some(0)
    ensures forall n :: isBot == Some(FlagInt(n)) ==> r == Some(n)
  {
    match isBot
    case None => None
    case Some(FlagBool(b)) => Some(if b then 1 else 0)
    case Some(FlagInt(n)) => Some(n)
  }

  /** The arguments of `insert_message`. */
  datatype NewMessage = NewMessage(
    updateId: Option<int>,
    telegramMessageId: Option<int>,
    chatId: int,
    fromUserId: Option<int>,
    role: string,
    text: Option<string>,
    telegramDate: Option<int>)

  /** Some row of `log` already holds update id `u`. */
  predicate UpdateIdTaken(log: seq<MessageRow>, u: int) {
    exists k :: 0 <= k < |log| && log[k].updateId == Some(u)
  }

  /** The constraints the `message` table keeps. */
  ghost predicate LogWellFormed(log: seq<MessageRow>, chatIds: set<int>, userIds: set<int>) {
    && (forall k :: 0 <= k < |log| ==> log[k].id == k + 1)
    && (forall a, b :: 0 <= a < b < |log| && log[a].updateId.Some? ==> log[a].updateId != log[b].updateId)
    && (forall k :: 0 <= k < |log| ==> log[k].chatId in chatIds)
    && (forall k :: 0 <= k < |log| && log[k].fromUserId.Some? ==> log[k].fromUserId.value in userIds)
  }

  /** The row `insert_message` appends: the next rowid, both timestamps `now`. */
  function RowOf(m: NewMessage, id: nat, now: string): MessageRow {
    MessageRow(id, m.updateId, m.telegramMessageId, m.chatId, m.fromUserId, m.role, m.text, m.telegramDate, now, now)
  }

  /**
   * `insert_message` on the log: the unique index on `update_id` is checked
   * while the row goes in, the foreign keys at the end of the statement; a
   * violation rolls the statement back.
   */
  function InsertRow(log: seq<MessageRow>, chatIds: set<int>, userIds: set<int>, m: NewMessage, now: string): (r: (WriteStatus, seq<MessageRow>))
    ensures r.0 == IntegrityError(UniqueUpdateId) <==> m.updateId.Some? && UpdateIdTaken(log, m.updateId.value)
    ensures r.0 == IntegrityError(ForeignKey) <==>
      && !(m.updateId.Some? && UpdateIdTaken(log, m.updateId.value))
      && (m.chatId !in chatIds || (m.fromUserId.Some? && m.fromUserId.value !in userIds))
    ensures r.0.IntegrityError? ==> r.1 == log
    ensures r.0 == Committed ==> |r.1| == |log| + 1 && r.1[..|log|] == log && r.1[|log|] == RowOf(m, |log| + 1, now)
  {
    if m.updateId.Some? && UpdateIdTaken(log, m.updateId.value) then (IntegrityError(UniqueUpdateId), log)
    else if m.chatId !in chatIds || (m.fromUserId.Some? && m.fromUserId.value !in userIds) then (IntegrityError(ForeignKey), log)
    else (Committed, log + [RowOf(m, |log| + 1, now)])
  }

  /** A committed insert keeps the table's constraints. */
  lemma InsertKeepsLogWellFormed(log: seq<MessageRow>, chatIds: set<int>, userIds: set<int>, m: NewMessage, now: string)
    requires LogWellFormed(log, chatIds, userIds)
    ensures LogWellFormed(InsertRow(log, chatIds, userIds, m, now).1, chatIds, userIds)
  {
    var (status, log') := InsertRow(log, chatIds, userIds, m, now);
    if status == Committed {
      forall a, b | 0 <= a < b < |log'| && log'[a].updateId.Some? ensures log'[a].updateId != log'[b].updateId {
        if b == |log| {
          assert log'[a] == log[a];
        }
      }
    }
  }

  /** A second event with the same update id is refused and leaves the log as it was. */
  lemma DuplicateUpdateIdRejected(log: seq<MessageRow>, chatIds: set<int>, userIds: set<int>, m: NewMessage, m': NewMessage, now: string, now': string)
    requires m.updateId.Some? && m'.updateId == m.updateId
    requires InsertRow(log, chatIds, userIds, m, now).0 == Committed
    ensures var log1 := InsertRow(log, chatIds, userIds, m, now).1;
      InsertRow(log1, chatIds, userIds, m', now') == (IntegrityError(UniqueUpdateId), log1)
  {
    var log1 := InsertRow(log, chatIds, userIds, m, now).1;
    assert log1[|log|].updateId == m.updateId;
  }

  /** Events without an update id never clash on the unique index: only the foreign keys can refuse them. */
  lemma NullUpdateIdNeverConflicts(log: seq<MessageRow>, chatIds: set<int>, userIds: set<int>, m: NewMessage, now: string)
    requires m.updateId.None?
    ensures InsertRow(log, chatIds, userIds, m, now).0 != IntegrityError(UniqueUpdateId)
    ensures m.chatId in chatIds && (m.fromUserId.Some? ==> m.fromUserId.value in userIds) ==>
      InsertRow(log, chatIds, userIds, m, now).0 == Committed
  {
  }

  /**
   * Storing a user message and then the assistant's reply in the same chat
   * makes that exchange the newest turn `fetch_recent_events` returns, with
   * the user row's `created_at` as its timestamp unless that is empty.
   */
  lemma StoredExchangeIsNewestTurn(log: seq<MessageRow>, chatIds: set<int>, userIds: set<int>,
                                   q: NewMessage, a: NewMessage, now1: string, now2: string, limitTurns: int)
    requires limitTurns >= 1 && q.chatId == a.chatId
    requires PyText.Strip(q.role) == "user" && PyText.Strip(a.role) == "assistant"
    requires InsertRow(log, chatIds, userIds, q, now1).0 == Committed
    requires InsertRow(InsertRow(log, chatIds, userIds, q, now1).1, chatIds, userIds, a, now2).0 == Committed
    ensures InsertRow(InsertRow(log, chatIds, userIds, q, now1).1, chatIds, userIds, a, now2).1 ==
      log + [RowOf(q, |log| + 1, now1), RowOf(a, |log| + 2, now2)]
    ensures var r := RecentTurns(log + [RowOf(q, |log| + 1, now1), RowOf(a, |log| + 2, now2)], q.chatId, limitTurns);
      && |r| >= 1
      && r[|r| - 1] == Turn(if now1 != [] then now1 else now2, PyText.Strip(OrEmpty(q.text)), PyText.Strip(OrEmpty(a.text)))
  {
    var log1 := InsertRow(log, chatIds, userIds, q, now1).1;
    var u := RowOf(q, |log| + 1, now1);
    var v := RowOf(a, |log| + 2, now2);
    assert log1 == log + [u];
    assert log1 + [v] == log + [u, v];
    assert Kind(u) == UserEvent && Kind(v) == AssistantEvent;
    ReplyAfterPromptIsNewestTurn(log, u, v, limitTurns);
    var r := RecentTurns(log + [u, v], q.chatId, limitTurns);
    var t := r[|r| - 1];
    assert t.timestamp == TimestampOf(Some(now1), now2);
    assert t.user == TextOf(u) == PyText.Strip(OrEmpty(q.text));
    assert t.assistant == TextOf(v) == PyText.Strip(OrEmpty(a.text));
  }

  /** The rowids of a well-formed log grow along it, so `ORDER BY id` is log order. */
  lemma IdsFollowLog(log: seq<MessageRow>, chatIds: set<int>, userIds: set<int>)
    requires LogWellFormed(log, chatIds, userIds)
    ensures IdsIncrease(log)
  {
  }

  /**
   * `get_user_description`: the stored text when the row exists; otherwise an
   * empty row is created and "" returned, which the foreign key on
   * `telegram_user` refuses for an unknown user.
   */
  function ReadDescription(states: map<int, UserState>, userIds: set<int>, u: int, now: string): (r: (Result<string, Constraint>, map<int, UserState>))
    ensures u in states ==> r == (Ok(states[u].description), states)
    ensures u !in states && u !in userIds ==> r == (Err(ForeignKey), states)
    ensures u !in states && u in userIds ==> r.0 == Ok("") && r.1 == states[u := UserState("", now, now)]
  {
    if u in states then (Ok(states[u].description), states)
    else if u !in userIds then (Err(ForeignKey), states)
    else (Ok(""), states[u := UserState("", now, now)])
  }

  /**
   * `update_user_description`: an upsert of `user_description or ""`, which
   * keeps `created_at` of an existing row.
   */
  function WriteDescription(states: map<int, UserState>, userIds: set<int>, u: int, d: Option<string>, now: string): (r: (WriteStatus, map<int, UserState>))
    ensures u in states ==> r == (Committed, states[u := UserState(OrEmpty(d), now, states[u].createdAt)])
    ensures u !in states && u !in userIds ==> r == (IntegrityError(ForeignKey), states)
    ensures u !in states && u in userIds ==> r == (Committed, states[u := UserState(OrEmpty(d), now, now)])
  {
    if u in states then (Committed, states[u := UserState(OrEmpty(d), now, states[u].createdAt)])
    else if u !in userIds then (IntegrityError(ForeignKey), states)
    else (Committed, states[u := UserState(OrEmpty(d), now, now)])
  }

  /** Reading a description twice gives what the first read gave and changes nothing more. */
  lemma ReadIdempotent(states: map<int, UserState>, userIds: set<int>, u: int, now: string, now': string)
    ensures var (r1, s1) := ReadDescription(states, userIds, u, now);
      ReadDescription(s1, userIds, u, now') == (r1, s1)
  {
  }

  /** A read returns the stored text, or "" when there was none to store. */
  lemma ReadReturnsStoredOrEmpty(states: map<int, UserState>, userIds: set<int>, u: int, now: string)
    requires u in states || u in userIds
    ensures ReadDescription(states, userIds, u, now).0 == Ok(if u in states then states[u].description else "")
  {
  }

  /** After a committed write, reading returns the written text (`None` written as ""). */
  lemma WriteThenRead(states: map<int, UserState>, userIds: set<int>, u: int, d: Option<string>, now: string, now': string)
    requires WriteDescription(states, userIds, u, d, now).0 == Committed
    ensures var s1 := WriteDescription(states, userIds, u, d, now).1;
      ReadDescription(s1, userIds, u, now') == (Ok(OrEmpty(d)), s1)
  {
  }

  /** Reads and writes for one user leave every other user's row as it was. */
  lemma OtherUsersUntouched(states: map<int, UserState>, userIds: set<int>, u: int, v: int, d: Option<string>, now: string)
    requires v != u
    ensures var s1 := WriteDescription(states, userIds, u, d, now).1;
      (v in s1 <==> v in states) && (v in states ==> s1[v] == states[v])
    ensures var s2 := ReadDescription(states, userIds, u, now).1;
      (v in s2 <==> v in states) && (v in states ==> s2[v] == states[v])
  {
  }

  /** `rows.reverse()`: the list reversed in place. */
  method ReverseInPlace<T>(a: array<T>)
    modifies a
    ensures a[..] == Reverse(old(a[..]))
  {
    var n := a.Length;
    var i := 0;
    while i < n / 2
      invariant 0 <= i <= n / 2
      invariant forall k :: 0 <= k < i ==> a[k] == old(a[n - 1 - k]) && a[n - 1 - k] == old(a[k])
      invariant forall k :: i <= k < n - i ==> a[k] == old(a[k])
    {
      a[i], a[n - 1 - i] := a[n - 1 - i], a[i];
      i := i + 1;
    }
    assert forall k :: 0 <= k < n ==> a[k] == old(a[..])[n - 1 - k];
  }

  /**
   * The loop of `fetch_recent_events` over the chronological rows: a user row
   * becomes the pending prompt, an assistant row closes a turn when a prompt
   * is pending, and any other role is skipped.
   */
  method PairTurns(rows: array<MessageRow>) returns (turns: seq<Turn>)
    ensures turns == Scan(Events(rows[..])).turns
  {
    turns := [];
    var pendingText: Option<string> := None;
    var pendingTs: Option<string> := None;
    for i := 0 to rows.Length
      invariant ScanState(turns, pendingText, pendingTs) == Scan(Events(rows[..i]))
    {
      var row := rows[i];
      var role := PyText.Strip(row.role);
      var text := PyText.Strip(OrEmpty(row.text));
      var ts := row.createdAt;
      ScanRowCases(rows[..], i);
      assert rows[..][..i + 1] == rows[..i + 1] && rows[..][..i] == rows[..i];
      if role == "user" {
        pendingText := Some(text);
        pendingTs := Some(ts);
      } else if role == "assistant" {
        if pendingText.None? {
          continue;
        }
        turns := turns + [Turn(TimestampOf(pendingTs, ts), pendingText.value, text)];
        pendingText := None;
        pendingTs := None;
      }
    }
    assert rows[..rows.Length] == rows[..];
  }

  /** The fetched rows as a fresh Python list. */
  method RowsOf<T>(s: seq<T>) returns (a: array<T>)
    ensures fresh(a) && a[..] == s
  {
    a := new T[|s|](k requires 0 <= k < |s| => s[k]);
  }

  /**
   * The body of `fetch_recent_events` over the message log: the query's rows
   * (newest first) are reversed in place and scanned once, and the last
   * `limit_turns` turns are kept.
   */
  method ReadRecentTurns(log: seq<MessageRow>, chatId: int, limitTurns: int) returns (turns: seq<Turn>)
    ensures turns == RecentTurns(log, chatId, limitTurns)
  {
    var rows := RowsOf(QueryRecentDesc(log, chatId, WindowSize(limitTurns)));
    ReverseInPlace(rows);
    turns := PairTurns(rows);
    if |turns| > limitTurns {
      turns := PySliceFrom(turns, -limitTurns);
    }
  }

  class Store {
    var chats: map<int, ChatRow>
    var users: map<int, UserRow>
    var userStates: map<int, UserState>
    var messages: seq<MessageRow>

    /** The schema's constraints: foreign keys, the unique index and the rowids. */
    ghost predicate Valid()
      reads this
    {
      && userStates.Keys <= users.Keys
      && LogWellFormed(messages, chats.Keys, users.Keys)
    }

    /** `init_db` on an empty database file. */
    constructor ()
      ensures Valid()
      ensures chats == map[] && users == map[] && userStates == map[] && messages == []
    {
      chats := map[];
      users := map[];
      userStates := map[];
      messages := [];
    }

    /** `upsert_chat`: insert, or overwrite `type`, `title` and `modified_at` keeping `created_at`. */
    method UpsertChat(chatId: int, chatType: Option<string>, title: Option<string>, now: string)
      modifies this
      requires Valid()
      ensures Valid()
      ensures chats == old(chats)[chatId := ChatRow(chatType, title, now,
        if chatId in old(chats) then old(chats)[chatId].createdAt else now)]
      ensures users == old(users) && userStates == old(userStates) && messages == old(messages)
    {
      var createdAt := if chatId in chats then chats[chatId].createdAt else now;
      chats := chats[chatId := ChatRow(chatType, title, now, createdAt)];
    }

    /** `upsert_telegram_user`: the same upsert on `telegram_user`, with `is_bot` stored as an integer. */
    method UpsertTelegramUser(userId: int, isBot: Option<BotFlag>, firstName: Option<string>,
                              lastName: Option<string>, languageCode: Option<string>, now: string)
      modifies this
      requires Valid()
      ensures Valid()
      ensures users == old(users)[userId := UserRow(BotFlagValue(isBot), firstName, lastName, languageCode, now,
        if userId in old(users) then old(users)[userId].createdAt else now)]
      ensures chats == old(chats) && userStates == old(userStates) && messages == old(messages)
    {
      var isBotValue: Option<int>;
      if isBot.None? {
        isBotValue := None;
      } else {
        isBotValue := BotFlagValue(isBot);
      }
      var createdAt := if userId in users then users[userId].createdAt else now;
      users := users[userId := UserRow(isBotValue, firstName, lastName, languageCode, now, createdAt)];
    }

    /** `get_user_description`. */
    method GetUserDescription(u: int, now: string) returns (r: Result<string, Constraint>)
      modifies this
      requires Valid()
      ensures Valid()
      ensures (r, userStates) == ReadDescription(old(userStates), users.Keys, u, now)
      ensures chats == old(chats) && users == old(users) && messages == old(messages)
    {
      if u in userStates {
        return Ok(userStates[u].description);
      }
      if u !in users {
        return Err(ForeignKey);
      }
      userStates := userStates[u := UserState("", now, now)];
      return Ok("");
    }

    /** `update_user_description`. */
    method UpdateUserDescription(u: int, d: Option<string>, now: string) returns (status: WriteStatus)
      modifies this
      requires Valid()
      ensures Valid()
      ensures (status, userStates) == WriteDescription(old(userStates), users.Keys, u, d, now)
      ensures chats == old(chats) && users == old(users) && messages == old(messages)
    {
      var description := if d.Some? then d.value else "";
      if u in userStates {
        userStates := userStates[u := UserState(description, now, userStates[u].createdAt)];
        return Committed;
      }
      if u !in users {
        return IntegrityError(ForeignKey);
      }
      userStates := userStates[u := UserState(description, now, now)];
      return Committed;
    }

    /** `insert_message`. */
    method InsertMessage(updateId: Option<int>, telegramMessageId: Option<int>, chatId: int,
                         fromUserId: Option<int>, role: string, text: Option<string>,
                         telegramDate: Option<int>, now: string) returns (status: WriteStatus)
      modifies this
      requires Valid()
      ensures Valid()
      ensures (status, messages) == InsertRow(old(messages), chats.Keys, users.Keys,
        NewMessage(updateId, telegramMessageId, chatId, fromUserId, role, text, telegramDate), now)
      ensures chats == old(chats) && users == old(users) && userStates == old(userStates)
    {
      var m := NewMessage(updateId, telegramMessageId, chatId, fromUserId, role, text, telegramDate);
      InsertKeepsLogWellFormed(messages, chats.Keys, users.Keys, m, now);
      if updateId.Some? && UpdateIdTaken(messages, updateId.value) {
        return IntegrityError(UniqueUpdateId);
      }
      if chatId !in chats || (fromUserId.Some? && fromUserId.value !in users) {
        return IntegrityError(ForeignKey);
      }
      messages := messages + [RowOf(m, |messages| + 1, now)];
      return Committed;
    }

    /**
     * `fetch_recent_events(chat_id, limit_turns)`. Under `Valid()` ids grow
     * along the log (`IdsFollowLog`), so log order is `ORDER BY id`.
     */
    method FetchRecentEvents(chatId: int, limitTurns: int) returns (turns: seq<Turn>)
      requires Valid()
      ensures turns == RecentTurns(messages, chatId, limitTurns)
    {
      turns := ReadRecentTurns(messages, chatId, limitTurns);
    }
  }
}
