/**
 * Turn reconstruction from the message log (`fetch_recent_events` in
 * `infra/db/sqlite.py`): the rows of one chat, a single scan that pairs each
 * `user` event with the next `assistant` event, and the cut to the most
 * recent turns. Everything here is a pure specification; the store's method
 * in `SqliteStore` runs it step by step and is proved equal to it.
 */
module TurnReconstruction {
  import opened Wrappers
  import opened PyText

  /** A row of the `message` table. `createdAt` is the `CURRENT_TIMESTAMP` default, never NULL. */
  datatype MessageRow = MessageRow(
    id: nat,
    updateId: Option<int>,
    telegramMessageId: Option<int>,
    chatId: int,
    fromUserId: Option<int>,
    role: string,
    text: Option<string>,
    telegramDate: Option<int>,
    modifiedAt: string,
    createdAt: string)

  /** `{"timestamp": ..., "user": ..., "assistant": ...}`. */
  datatype Turn = Turn(timestamp: string, user: string, assistant: string)

  /** `(role or "").strip()`; the column is NOT NULL. */
  function RoleOf(row: MessageRow): string { Strip(row.role) }

  /** `(text or "").strip()`. */
  function TextOf(row: MessageRow): string { Strip(OrEmpty(row.text)) }

  /** What the scan does with a row: hold it as pending, answer with it, or skip it. */
  datatype Role = UserEvent | AssistantEvent | OtherEvent

  function Kind(row: MessageRow): Role {
    var role := RoleOf(row);
    if role == "user" then UserEvent
    else if role == "assistant" then AssistantEvent
    else OtherEvent
  }

  /** What the loop body reads off a row: its role, its stripped text and its timestamp. */
  datatype Event = Event(kind: Role, text: string, ts: string)

  function EventOf(row: MessageRow): Event {
    Event(Kind(row), TextOf(row), row.createdAt)
  }

  /** The events of `rows`, in the same order. */
  function Events(rows: seq<MessageRow>): (evs: seq<Event>)
    ensures |evs| == |rows|
  {
    if rows == [] then [] else Events(rows[..|rows| - 1]) + [EventOf(rows[|rows| - 1])]
  }

  /** Event `k` is the event of row `k`. */
  lemma {:induction false} EventsPointwise(rows: seq<MessageRow>)
    ensures forall k :: 0 <= k < |rows| ==> Events(rows)[k] == EventOf(rows[k])
  {
    if rows != [] {
      var init := rows[..|rows| - 1];
      EventsPointwise(init);
      assert forall k :: 0 <= k < |init| ==> init[k] == rows[k];
    }
  }

  lemma EventsSnoc(rows: seq<MessageRow>, r: MessageRow)
    ensures Events(rows + [r]) == Events(rows) + [EventOf(r)]
  {
    assert (rows + [r])[..|rows|] == rows;
  }

  /** `pending_ts or ts or ""`. */
  function TimestampOf(pendingTs: Option<string>, ts: string): (r: string)
    ensures pendingTs.Some? && pendingTs.value != [] ==> r == pendingTs.value
    ensures !(pendingTs.Some? && pendingTs.value != []) ==> r == ts
  {
    if pendingTs.Some? && pendingTs.value != [] then pendingTs.value else ts
  }

  /** The scan's variables: `turns`, `pending_user_text`, `pending_ts`. */
  datatype ScanState = ScanState(turns: seq<Turn>, pendingText: Option<string>, pendingTs: Option<string>)

  const Start := ScanState([], None, None)

  /** One iteration of the scan loop. */
  function Step(s: ScanState, e: Event): (s': ScanState)
    ensures e.kind == OtherEvent ==> s' == s
    ensures e.kind == AssistantEvent && s.pendingText.None? ==> s' == s
    ensures e.kind == UserEvent ==> s' == ScanState(s.turns, Some(e.text), Some(e.ts))
    ensures e.kind == AssistantEvent && s.pendingText.Some? ==>
      s' == ScanState(s.turns + [Turn(TimestampOf(s.pendingTs, e.ts), s.pendingText.value, e.text)], None, None)
  {
    match e.kind
    case UserEvent => ScanState(s.turns, Some(e.text), Some(e.ts))
    case AssistantEvent =>
      if s.pendingText.None? then s
      else ScanState(s.turns + [Turn(TimestampOf(s.pendingTs, e.ts), s.pendingText.value, e.text)], None, None)
    case OtherEvent => s
  }

  /** The scan over `evs` in order, from no turns and nothing pending. */
  function Scan(evs: seq<Event>): ScanState {
    if evs == [] then Start else Step(Scan(evs[..|evs| - 1]), evs[|evs| - 1])
  }

  /** Scanning one more row is one more `Step`. */
  lemma ScanSnoc(evs: seq<Event>, e: Event)
    ensures Scan(evs + [e]) == Step(Scan(evs), e)
  {
    assert (evs + [e])[..|evs|] == evs;
  }

  lemma ScanOneMore(rows: seq<MessageRow>, i: nat)
    requires i < |rows|
    ensures Scan(Events(rows[..i + 1])) == Step(Scan(Events(rows[..i])), EventOf(rows[i]))
  {
    assert rows[..i + 1] == rows[..i] + [rows[i]];
    EventsSnoc(rows[..i], rows[i]);
    ScanSnoc(Events(rows[..i]), EventOf(rows[i]));
  }

  /**
   * The loop body's view of one more row: a `user` row becomes the pending
   * prompt, an `assistant` row closes a pending prompt into a turn, and any
   * other row (or an assistant row with nothing pending) changes nothing.
   */
  lemma ScanRowCases(rows: seq<MessageRow>, i: nat)
    requires i < |rows|
    ensures var s := Scan(Events(rows[..i]));
      var role := Strip(rows[i].role);
      var text := Strip(OrEmpty(rows[i].text));
      Scan(Events(rows[..i + 1])) ==
        if role == "user" then ScanState(s.turns, Some(text), Some(rows[i].createdAt))
        else if role == "assistant" && s.pendingText.Some? then
          ScanState(s.turns + [Turn(TimestampOf(s.pendingTs, rows[i].createdAt), s.pendingText.value, text)], None, None)
        else s
  {
    ScanOneMore(rows, i);
  }

  /**
   * Event `j` answers event `i`: a user event, then an assistant event, with
   * neither a user nor an assistant event in between.
   */
  ghost predicate Answers(evs: seq<Event>, i: int, j: int) {
    && 0 <= i < j < |evs|
    && evs[i].kind == UserEvent && evs[j].kind == AssistantEvent
    && forall k :: i < k < j ==> evs[k].kind == OtherEvent
  }

  /** Event `p` is a user event still waiting for an answer after all of `evs`. */
  ghost predicate Open(evs: seq<Event>, p: int) {
    && 0 <= p < |evs|
    && evs[p].kind == UserEvent
    && forall k :: p < k < |evs| ==> evs[k].kind == OtherEvent
  }

  /** The turn made of the user event at `i` and the assistant event at `j`. */
  function TurnOf(evs: seq<Event>, i: nat, j: nat): Turn
    requires i < j < |evs|
  {
    Turn(TimestampOf(Some(evs[i].ts), evs[j].ts), evs[i].text, evs[j].text)
  }

  /** The scan again, keeping the indices of the paired events and of the pending one. */
  ghost function Track(evs: seq<Event>): (seq<(nat, nat)>, Option<nat>) {
    if evs == [] then ([], None)
    else TrackStep(Track(evs[..|evs| - 1]), evs[|evs| - 1].kind, |evs| - 1)
  }

  /** One step of `Track`, for an event of kind `kind` at index `n`. */
  ghost function TrackStep(t: (seq<(nat, nat)>, Option<nat>), kind: Role, n: nat): (seq<(nat, nat)>, Option<nat>) {
    var (pairs, pending) := t;
    match kind
    case UserEvent => (pairs, Some(n))
    case AssistantEvent => if pending.None? then (pairs, None) else (pairs + [(pending.value, n)], None)
    case OtherEvent => (pairs, pending)
  }

  /** The index pairs behind the reconstructed turns, oldest first. */
  ghost function Origins(evs: seq<Event>): seq<(nat, nat)> {
    Track(evs).0
  }

  lemma AnswersExtend(evs: seq<Event>, i: int, j: int)
    requires evs != [] && 0 <= i < j < |evs| - 1
    ensures Answers(evs, i, j) <==> Answers(evs[..|evs| - 1], i, j)
  {
  }

  lemma AnswersLast(evs: seq<Event>, i: int)
    requires evs != [] && 0 <= i < |evs| - 1
    ensures Answers(evs, i, |evs| - 1) <==> evs[|evs| - 1].kind == AssistantEvent && Open(evs[..|evs| - 1], i)
  {
  }

  lemma OpenExtend(evs: seq<Event>, p: int)
    requires evs != [] && 0 <= p < |evs| - 1
    ensures Open(evs, p) <==> Open(evs[..|evs| - 1], p) && evs[|evs| - 1].kind == OtherEvent
  {
  }

  /** The pending index is the one user event still open. */
  lemma {:induction false} TrackPending(evs: seq<Event>)
    ensures forall p :: Open(evs, p) <==> Track(evs).1 == Some(p)
  {
    if evs != [] {
      var n := |evs| - 1;
      TrackPending(evs[..n]);
      forall p ensures Open(evs, p) <==> Track(evs).1 == Some(p) {
        if 0 <= p < n {
          OpenExtend(evs, p);
        }
      }
    }
  }

  /** Each recorded pair is an answer, the pairs are ordered, and they lie before the pending event. */
  lemma {:induction false} TrackSound(evs: seq<Event>)
    ensures var (pairs, pending) := Track(evs);
      && (forall k :: 0 <= k < |pairs| ==> Answers(evs, pairs[k].0, pairs[k].1))
      && (forall k, l :: 0 <= k < l < |pairs| ==> pairs[k].1 < pairs[l].0)
      && (pending.Some? ==> pending.value < |evs| && forall k :: 0 <= k < |pairs| ==> pairs[k].1 < pending.value)
  {
    if evs != [] {
      var n := |evs| - 1;
      TrackSound(evs[..n]);
      TrackPending(evs[..n]);
      var (pairs0, pending0) := Track(evs[..n]);
      forall k | 0 <= k < |pairs0| ensures Answers(evs, pairs0[k].0, pairs0[k].1) {
        AnswersExtend(evs, pairs0[k].0, pairs0[k].1);
      }
      if evs[n].kind == AssistantEvent && pending0.Some? {
        AnswersLast(evs, pending0.value);
      }
    }
  }

  /** Every answer is recorded. */
  lemma {:induction false} TrackComplete(evs: seq<Event>)
    ensures forall i, j :: Answers(evs, i, j) ==> (i, j) in Track(evs).0
  {
    if evs != [] {
      var n := |evs| - 1;
      TrackComplete(evs[..n]);
      TrackPending(evs[..n]);
      forall i, j | Answers(evs, i, j) ensures (i, j) in Track(evs).0 {
        if j < n {
          AnswersExtend(evs, i, j);
        } else {
          AnswersLast(evs, i);
        }
      }
    }
  }

  /** The relation the scan keeps between its state and the tracked indices. */
  ghost predicate Follows(evs: seq<Event>, s: ScanState, pairs: seq<(nat, nat)>, pending: Option<nat>) {
    && |s.turns| == |pairs|
    && (forall k :: 0 <= k < |pairs| ==> pairs[k].0 < pairs[k].1 < |evs|)
    && (forall k :: 0 <= k < |pairs| ==> s.turns[k] == TurnOf(evs, pairs[k].0, pairs[k].1))
    && (s.pendingText.Some? <==> pending.Some?)
    && (pending.Some? ==>
          && pending.value < |evs|
          && s.pendingText == Some(evs[pending.value].text)
          && s.pendingTs == Some(evs[pending.value].ts))
  }

  /** `Follows` survives adding an event that the state does not yet mention. */
  lemma FollowsExtend(evs: seq<Event>, s: ScanState, pairs: seq<(nat, nat)>, pending: Option<nat>)
    requires evs != []
    requires Follows(evs[..|evs| - 1], s, pairs, pending)
    ensures Follows(evs, s, pairs, pending)
  {
  }

  /** An assistant event closing the pending user event appends that pair's turn. */
  lemma AnswerFollows(evs: seq<Event>, s: ScanState, pairs: seq<(nat, nat)>, p: nat)
    requires evs != [] && evs[|evs| - 1].kind == AssistantEvent
    requires Follows(evs, s, pairs, Some(p))
    requires p < |evs| - 1
    ensures Follows(evs, Step(s, evs[|evs| - 1]), pairs + [(p, |evs| - 1)], None)
  {
    var n := |evs| - 1;
    var turns' := s.turns + [TurnOf(evs, p, n)];
    var pairs' := pairs + [(p, n)];
    assert Step(s, evs[n]).turns == turns';
    forall k | 0 <= k < |pairs'| ensures turns'[k] == TurnOf(evs, pairs'[k].0, pairs'[k].1) {
      if k < |pairs| {
        assert turns'[k] == s.turns[k] && pairs'[k] == pairs[k];
      }
    }
  }

  /** One scan step and one tracking step keep `Follows`. */
  lemma StepFollows(evs: seq<Event>, s: ScanState, t: (seq<(nat, nat)>, Option<nat>))
    requires evs != []
    requires Follows(evs, s, t.0, t.1)
    requires t.1.Some? ==> t.1.value < |evs| - 1
    ensures var n := |evs| - 1;
      var t' := TrackStep(t, evs[n].kind, n);
      Follows(evs, Step(s, evs[n]), t'.0, t'.1)
  {
    var n := |evs| - 1;
    if evs[n].kind == AssistantEvent && t.1.Some? {
      AnswerFollows(evs, s, t.0, t.1.value);
    }
  }

  lemma {:induction false} ScanFollowsTrack(evs: seq<Event>)
    ensures Follows(evs, Scan(evs), Track(evs).0, Track(evs).1)
  {
    if evs != [] {
      var n := |evs| - 1;
      ScanFollowsTrack(evs[..n]);
      var t := Track(evs[..n]);
      FollowsExtend(evs, Scan(evs[..n]), t.0, t.1);
      StepFollows(evs, Scan(evs[..n]), t);
    }
  }

  /**
   * Turn reconstruction is exactly the pairing relation: the turns are the
   * pairs `(i, j)` with event `j` answering event `i`, every such pair gives
   * a turn, and the turns come out oldest to newest.
   */
  lemma ReconstructionCorrect(evs: seq<Event>)
    ensures |Scan(evs).turns| == |Origins(evs)|
    ensures forall k :: 0 <= k < |Origins(evs)| ==>
      && Answers(evs, Origins(evs)[k].0, Origins(evs)[k].1)
      && Scan(evs).turns[k] == TurnOf(evs, Origins(evs)[k].0, Origins(evs)[k].1)
    ensures forall i, j :: Answers(evs, i, j) ==> (i, j) in Origins(evs)
    ensures forall k, l :: 0 <= k < l < |Origins(evs)| ==> Origins(evs)[k].1 < Origins(evs)[l].0
  {
    TrackSound(evs);
    TrackComplete(evs);
    ScanFollowsTrack(evs);
  }

  /** A user event overwritten by a later user event before any assistant reply produces no turn. */
  lemma OverwrittenUserDropped(evs: seq<Event>, i: nat, later: nat)
    requires i < later < |evs| && evs[i].kind == UserEvent && evs[later].kind == UserEvent
    requires forall k :: i < k < later ==> evs[k].kind != AssistantEvent
    ensures forall k :: 0 <= k < |Origins(evs)| ==> Origins(evs)[k].0 != i
  {
    TrackSound(evs);
    forall k | 0 <= k < |Origins(evs)| ensures Origins(evs)[k].0 != i {
      var (i', j) := Origins(evs)[k];
      assert Answers(evs, i', j);
    }
  }

  /** A user event that nothing answers by the end of the window produces no turn. */
  lemma TrailingUserDropped(evs: seq<Event>, p: nat)
    requires Open(evs, p)
    ensures forall k :: 0 <= k < |Origins(evs)| ==> Origins(evs)[k].0 != p
  {
    TrackSound(evs);
  }

  /** An assistant event yields a turn only for the user event open just before it. */
  lemma AnsweredOnlyWhenPending(evs: seq<Event>, k: nat)
    requires k < |Origins(evs)|
    ensures Origins(evs)[k].1 < |evs| && Open(evs[..Origins(evs)[k].1], Origins(evs)[k].0)
  {
    TrackSound(evs);
  }

  /** An assistant event with no pending user event produces no turn. */
  lemma UnpromptedAssistantDropped(evs: seq<Event>, j: nat)
    requires j < |evs| && evs[j].kind == AssistantEvent
    requires forall p :: !Open(evs[..j], p)
    ensures forall k :: 0 <= k < |Origins(evs)| ==> Origins(evs)[k].1 != j
  {
    forall k | 0 <= k < |Origins(evs)| ensures Origins(evs)[k].1 != j {
      AnsweredOnlyWhenPending(evs, k);
    }
  }

  // ---------------------------------------------------------------------
  // The window the query reads and the cut to the last `limit_turns` turns.

  /** The rows of chat `chat`, in log order (`WHERE chat_telegram_id = ?`). */
  function ChatRows(log: seq<MessageRow>, chat: int): (r: seq<MessageRow>)
    ensures |r| <= |log|
    ensures forall k :: 0 <= k < |r| ==> r[k].chatId == chat
  {
    if log == [] then []
    else
      var last := log[|log| - 1];
      ChatRows(log[..|log| - 1], chat) + (if last.chatId == chat then [last] else [])
  }

  /** A row is kept exactly when it is in the log and belongs to the chat. */
  lemma {:induction false} ChatRowsKeepsExactlyChat(log: seq<MessageRow>, chat: int)
    ensures forall x :: x in ChatRows(log, chat) <==> x in log && x.chatId == chat
  {
    if log != [] {
      var init := log[..|log| - 1];
      ChatRowsKeepsExactlyChat(init, chat);
      assert log == init + [log[|log| - 1]];
    }
  }

  /** Filtering keeps log order: the chat's rows of a concatenation are the concatenated chat rows. */
  lemma {:induction false} ChatRowsAppend(a: seq<MessageRow>, b: seq<MessageRow>, chat: int)
    ensures ChatRows(a + b, chat) == ChatRows(a, chat) + ChatRows(b, chat)
  {
    if b == [] {
      assert a + b == a;
    } else {
      var b0 := b[..|b| - 1];
      assert (a + b)[..|a + b| - 1] == a + b0;
      assert (a + b)[|a + b| - 1] == b[|b| - 1];
      ChatRowsAppend(a, b0, chat);
    }
  }

  /** `max(20, limit_turns * 4)`. */
  function WindowSize(limitTurns: int): (n: nat)
    ensures n >= 20 && n >= 4 * limitTurns
    ensures n == 20 || n == 4 * limitTurns
  {
    if 4 * limitTurns > 20 then 4 * limitTurns else 20
  }

  /** The last `n` elements of `s`, or all of `s` when it is shorter. */
  function LastN<T>(s: seq<T>, n: nat): (r: seq<T>)
    ensures |r| == if n < |s| then n else |s|
    ensures r == s[|s| - |r|..]
  {
    if n < |s| then s[|s| - n..] else s
  }

  function Reverse<T>(s: seq<T>): (r: seq<T>)
    ensures |r| == |s|
    ensures forall k :: 0 <= k < |s| ==> r[k] == s[|s| - 1 - k]
  {
    if s == [] then [] else [s[|s| - 1]] + Reverse(s[..|s| - 1])
  }

  lemma ReverseInvolution<T>(s: seq<T>)
    ensures Reverse(Reverse(s)) == s
  {
  }

  /** Log ids grow along the log, as an AUTOINCREMENT key does. */
  ghost predicate IdsIncrease(log: seq<MessageRow>) {
    forall a, b :: 0 <= a < b < |log| ==> log[a].id < log[b].id
  }

  /**
   * `SELECT ... WHERE chat_telegram_id = ? ORDER BY id DESC LIMIT ?`: the
   * newest `limit` rows of the chat, newest first (see `QueryIdsDecrease`).
   */
  function QueryRecentDesc(log: seq<MessageRow>, chat: int, limit: nat): seq<MessageRow> {
    Reverse(LastN(ChatRows(log, chat), limit))
  }

  /** Python's `s[start:]`. */
  function PySliceFrom<T>(s: seq<T>, start: int): (r: seq<T>)
    ensures start >= 0 ==> r == s[if start <= |s| then start else |s|..]
    ensures start < 0 ==> r == s[if |s| + start >= 0 then |s| + start else 0..]
  {
    if start < 0 then (if |s| + start < 0 then s else s[|s| + start..])
    else if start > |s| then []
    else s[start..]
  }

  /** `if len(turns) > limit_turns: turns = turns[-limit_turns:]`. */
  function KeepRecent(turns: seq<Turn>, limitTurns: int): (r: seq<Turn>)
    ensures limitTurns >= 1 ==> |r| == (if |turns| < limitTurns then |turns| else limitTurns)
    ensures limitTurns >= 1 ==> r == turns[|turns| - |r|..]
    ensures limitTurns == 0 ==> r == turns
    ensures limitTurns < 0 ==> r == turns[if -limitTurns <= |turns| then -limitTurns else |turns|..]
  {
    if |turns| > limitTurns then PySliceFrom(turns, -limitTurns) else turns
  }

  /** The chronological window that the scan reads. */
  function Window(log: seq<MessageRow>, chat: int, limitTurns: int): seq<MessageRow> {
    Reverse(QueryRecentDesc(log, chat, WindowSize(limitTurns)))
  }

  /** What `fetch_recent_events(chat, limit_turns)` returns for the log `log`. */
  function RecentTurns(log: seq<MessageRow>, chat: int, limitTurns: int): seq<Turn> {
    KeepRecent(Scan(Events(Window(log, chat, limitTurns))).turns, limitTurns)
  }

  /** The window is the chat's last `max(20, 4 * limit_turns)` rows, oldest first. */
  lemma WindowIsChatTail(log: seq<MessageRow>, chat: int, limitTurns: int)
    ensures Window(log, chat, limitTurns) == LastN(ChatRows(log, chat), WindowSize(limitTurns))
    ensures forall k :: 0 <= k < |Window(log, chat, limitTurns)| ==> Window(log, chat, limitTurns)[k].chatId == chat
  {
    ReverseInvolution(LastN(ChatRows(log, chat), WindowSize(limitTurns)));
  }

  /** Every id in `rows` is below `bound`. */
  ghost predicate IdsBelow(rows: seq<MessageRow>, bound: int) {
    forall k :: 0 <= k < |rows| ==> rows[k].id < bound
  }

  /** The chat's rows are rows of the log, so they keep any bound on the log's ids. */
  lemma {:induction false} ChatRowsIdsBelow(log: seq<MessageRow>, chat: int, bound: int)
    requires IdsBelow(log, bound)
    ensures IdsBelow(ChatRows(log, chat), bound)
  {
    if log != [] {
      ChatRowsIdsBelow(log[..|log| - 1], chat, bound);
    }
  }

  /** The chat's rows keep the log's order, so their ids grow too. */
  lemma {:induction false} ChatRowsIdsIncrease(log: seq<MessageRow>, chat: int)
    requires IdsIncrease(log)
    ensures IdsIncrease(ChatRows(log, chat))
  {
    if log != [] {
      var init := log[..|log| - 1];
      ChatRowsIdsIncrease(init, chat);
      ChatRowsIdsBelow(init, chat, log[|log| - 1].id);
    }
  }

  /** Along the query's result the ids strictly decrease. */
  lemma QueryIdsDecrease(log: seq<MessageRow>, chat: int, limit: nat)
    requires IdsIncrease(log)
    ensures var q := QueryRecentDesc(log, chat, limit);
      forall a, b :: 0 <= a < b < |q| ==> q[a].id > q[b].id
  {
    ChatRowsIdsIncrease(log, chat);
    var tail := LastN(ChatRows(log, chat), limit);
    TailIdsIncrease(ChatRows(log, chat), |tail|);
    ReverseIdsDecrease(tail, Reverse(tail));
  }

  lemma TailIdsIncrease(s: seq<MessageRow>, m: nat)
    requires IdsIncrease(s) && m <= |s|
    ensures IdsIncrease(s[|s| - m..])
  {
    var t := s[|s| - m..];
    forall a, b | 0 <= a < b < |t| ensures t[a].id < t[b].id {
      assert t[a] == s[|s| - m + a] && t[b] == s[|s| - m + b];
    }
  }

  lemma ReverseIdsDecrease(t: seq<MessageRow>, q: seq<MessageRow>)
    requires IdsIncrease(t) && q == Reverse(t)
    ensures forall a, b :: 0 <= a < b < |q| ==> q[a].id > q[b].id
  {
    forall a, b | 0 <= a < b < |q| ensures q[a].id > q[b].id {
      assert q[a] == t[|t| - 1 - a] && q[b] == t[|t| - 1 - b];
    }
  }

  /** The query reads `limit` rows of the chat, or all of them when there are fewer. */
  lemma QueryLength(log: seq<MessageRow>, chat: int, limit: nat)
    ensures |QueryRecentDesc(log, chat, limit)| == (if limit < |ChatRows(log, chat)| then limit else |ChatRows(log, chat)|)
  {
  }

  /**
   * The query reads the newest end of the chat's rows: it is that tail,
   * newest first, and every chat row before the tail is older than every row
   * the query reads.
   */
  lemma QuerySkipsOnlyOlder(log: seq<MessageRow>, chat: int, limit: nat)
    requires IdsIncrease(log)
    ensures var s := ChatRows(log, chat);
      var q := QueryRecentDesc(log, chat, limit);
      && |q| <= |s|
      && q == Reverse(s[|s| - |q|..])
      && forall i, k :: 0 <= i < |s| - |q| && 0 <= k < |q| ==> s[i].id < q[k].id
  {
    ChatRowsIdsIncrease(log, chat);
    var s := ChatRows(log, chat);
    var q := QueryRecentDesc(log, chat, limit);
    assert q == Reverse(s[|s| - |q|..]);
    ReversedTailIsNewer(s, |q|, q);
  }

  /** With growing ids, every row before the last `m` is older than each of them, in any order. */
  lemma ReversedTailIsNewer(s: seq<MessageRow>, m: nat, t: seq<MessageRow>)
    requires IdsIncrease(s) && m <= |s| && t == Reverse(s[|s| - m..])
    ensures forall i, k :: 0 <= i < |s| - m && 0 <= k < m ==> s[i].id < t[k].id
  {
    forall i, k | 0 <= i < |s| - m && 0 <= k < m ensures s[i].id < t[k].id {
      assert t[k] == s[|s| - 1 - k];
    }
  }

  /** Filtering by chat twice is filtering once. */
  lemma {:induction false} ChatRowsIdempotent(log: seq<MessageRow>, chat: int)
    ensures ChatRows(ChatRows(log, chat), chat) == ChatRows(log, chat)
  {
    if log != [] {
      var init := log[..|log| - 1];
      var last := log[|log| - 1];
      ChatRowsIdempotent(init, chat);
      var r := ChatRows(log, chat);
      if last.chatId == chat {
        assert r[..|r| - 1] == ChatRows(init, chat);
      } else {
        assert r == ChatRows(init, chat);
      }
    }
  }

  /** Other chats' events never contribute: the result depends only on the chat's own rows. */
  lemma OnlyChatRowsMatter(log: seq<MessageRow>, chat: int, limitTurns: int)
    ensures RecentTurns(log, chat, limitTurns) == RecentTurns(ChatRows(log, chat), chat, limitTurns)
  {
    ChatRowsIdempotent(log, chat);
  }

  /** Appending another chat's event leaves this chat's turns as they were. */
  lemma OtherChatAppendIgnored(log: seq<MessageRow>, row: MessageRow, chat: int, limitTurns: int)
    requires row.chatId != chat
    ensures RecentTurns(log + [row], chat, limitTurns) == RecentTurns(log, chat, limitTurns)
  {
    assert (log + [row])[..|log|] == log;
    assert ChatRows(log + [row], chat) == ChatRows(log, chat);
    assert Window(log + [row], chat, limitTurns) == Window(log, chat, limitTurns);
  }

  /** The turns come from scanning the chat's last `max(20, 4 * limit_turns)` rows, oldest first. */
  lemma RecentTurnsReadChatTail(log: seq<MessageRow>, chat: int, limitTurns: int)
    ensures RecentTurns(log, chat, limitTurns) ==
      KeepRecent(Scan(Events(LastN(ChatRows(log, chat), WindowSize(limitTurns)))).turns, limitTurns)
  {
    WindowIsChatTail(log, chat, limitTurns);
  }

  /** Appending two rows of the chat appends them to the chat's rows. */
  lemma ChatRowsAppendTwo(log: seq<MessageRow>, u: MessageRow, a: MessageRow)
    requires a.chatId == u.chatId
    ensures ChatRows(log + [u, a], u.chatId) == ChatRows(log, u.chatId) + [u, a]
  {
    assert (log + [u, a])[..|log| + 1] == log + [u];
    assert (log + [u])[..|log|] == log;
  }

  lemma AppendTwo<T>(pre: seq<T>, x: T, y: T)
    ensures pre + [x, y] == (pre + [x]) + [y]
  {
  }

  /** The last `n >= 2` elements of `s + [x, y]` end with `x, y`. */
  lemma LastNEndsWithTwo<T>(s: seq<T>, x: T, y: T, n: nat)
    requires n >= 2
    ensures var w := LastN(s + [x, y], n);
      |w| >= 2 && w == w[..|w| - 2] + [x, y]
  {
    var w := LastN(s + [x, y], n);
    assert w[|w| - 2] == x && w[|w| - 1] == y;
  }

  /** A user event and then an assistant event, scanned after any events, add their turn. */
  lemma ScanAppendPair(pre: seq<Event>, eu: Event, ea: Event)
    requires eu.kind == UserEvent && ea.kind == AssistantEvent
    ensures Scan(pre + [eu, ea]).turns == Scan(pre).turns + [Turn(TimestampOf(Some(eu.ts), ea.ts), eu.text, ea.text)]
  {
    AppendTwo(pre, eu, ea);
    ScanSnoc(pre + [eu], ea);
    ScanSnoc(pre, eu);
  }

  lemma EventsAppendTwo(pre: seq<MessageRow>, u: MessageRow, a: MessageRow)
    ensures Events(pre + [u, a]) == Events(pre) + [EventOf(u), EventOf(a)]
  {
    AppendTwo(pre, u, a);
    EventsSnoc(pre + [u], a);
    EventsSnoc(pre, u);
    AppendTwo(Events(pre), EventOf(u), EventOf(a));
  }

  /** Keeping the most recent turns keeps the newest one. */
  lemma KeepRecentKeepsNewest(all: seq<Turn>, limitTurns: int)
    requires |all| >= 1 && limitTurns >= 1
    ensures var r := KeepRecent(all, limitTurns);
      |r| >= 1 && r[|r| - 1] == all[|all| - 1]
  {
  }

  /** After two rows of one chat are appended, the window is the tail of the chat's rows and those two. */
  lemma RecentTurnsAfterAppend(log: seq<MessageRow>, u: MessageRow, a: MessageRow, limitTurns: int)
    requires a.chatId == u.chatId
    ensures RecentTurns(log + [u, a], u.chatId, limitTurns) ==
      KeepRecent(Scan(Events(LastN(ChatRows(log, u.chatId) + [u, a], WindowSize(limitTurns)))).turns, limitTurns)
  {
    ChatRowsAppendTwo(log, u, a);
    RecentTurnsReadChatTail(log + [u, a], u.chatId, limitTurns);
  }

  /** A window that ends with a user row and then an assistant row yields their turn last. */
  lemma WindowEndingInPair(s: seq<MessageRow>, u: MessageRow, a: MessageRow, n: nat)
    requires n >= 2
    requires Kind(u) == UserEvent && Kind(a) == AssistantEvent
    ensures var all := Scan(Events(LastN(s + [u, a], n))).turns;
      |all| >= 1 && all[|all| - 1] == Turn(TimestampOf(Some(u.createdAt), a.createdAt), TextOf(u), TextOf(a))
  {
    var w := LastN(s + [u, a], n);
    LastNEndsWithTwo(s, u, a, n);
    var w0 := w[..|w| - 2];
    EventsAppendTwo(w0, u, a);
    ScanAppendPair(Events(w0), EventOf(u), EventOf(a));
  }

  /**
   * A prompt followed directly by its reply in the same chat is the newest
   * turn `fetch_recent_events` returns, for any `limit_turns >= 1`.
   */
  lemma ReplyAfterPromptIsNewestTurn(log: seq<MessageRow>, u: MessageRow, a: MessageRow, limitTurns: int)
    requires a.chatId == u.chatId
    requires Kind(u) == UserEvent && Kind(a) == AssistantEvent
    requires limitTurns >= 1
    ensures var r := RecentTurns(log + [u, a], u.chatId, limitTurns);
      |r| >= 1 && r[|r| - 1] == Turn(TimestampOf(Some(u.createdAt), a.createdAt), TextOf(u), TextOf(a))
  {
    var chat := u.chatId;
    var all := Scan(Events(LastN(ChatRows(log, chat) + [u, a], WindowSize(limitTurns)))).turns;
    RecentTurnsAfterAppend(log, u, a, limitTurns);
    WindowEndingInPair(ChatRows(log, chat), u, a, WindowSize(limitTurns));
    KeepRecentKeepsNewest(all, limitTurns);
    var r := RecentTurns(log + [u, a], chat, limitTurns);
    assert |r| >= 1;
    assert r[|r| - 1] == all[|all| - 1];
  }
}
