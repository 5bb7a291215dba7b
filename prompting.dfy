/**
 * The plain-text prompt builder (`app/prompting.py`, `build_prompt`): fixed
 * rules, a header naming the user and chat type, a transcript of earlier
 * turns, and the new message awaiting the assistant's answer.
 */
module Prompting {
  import opened Wrappers
  import opened PyText

  const SystemRules := "You are a helpful assistant.\nRules:\n- Be clear and brief.\n- If you don't know, say so.\n"

  /** `chat_type or 'unknown'`. */
  function ChatTypeLabel(chatType: Option<string>): (shown: string)
    ensures OrEmpty(chatType) == [] ==> shown == "unknown"
    ensures OrEmpty(chatType) != [] ==> shown == chatType.value
  {
    if OrEmpty(chatType) == [] then "unknown" else chatType.value
  }

  function Header(userName: string, chatType: Option<string>): string {
    "User: " + userName + "\nChatType: " + ChatTypeLabel(chatType) + "\n"
  }

  function UserLine(u: string): string { "User: " + u }

  function AssistantLine(a: string): string { "Assistant: " + a }

  /** `transcript_lines` once the loop has run over `history`. */
  function TranscriptLines(history: seq<(string, string)>): seq<string> {
    if history == [] then []
    else
      var (u, a) := history[|history| - 1];
      TranscriptLines(history[..|history| - 1]) + [UserLine(u), AssistantLine(a)]
  }

  /** Each pair becomes a user line then an assistant line, in history order. */
  lemma {:induction false} TranscriptLinesShape(history: seq<(string, string)>)
    ensures |TranscriptLines(history)| == 2 * |history|
    ensures forall k :: 0 <= k < |history| ==>
      TranscriptLines(history)[2 * k] == UserLine(history[k].0)
      && TranscriptLines(history)[2 * k + 1] == AssistantLine(history[k].1)
  {
    if history != [] {
      var init := history[..|history| - 1];
      TranscriptLinesShape(init);
      assert forall k :: 0 <= k < |init| ==> init[k] == history[k];
    }
  }

  /** The transcript section: empty, or a heading, the stripped joined lines and a newline. */
  function Transcript(history: seq<(string, string)>): string {
    var t := Strip(Join("\n", TranscriptLines(history)));
    if t != [] then "Conversation so far:\n" + t + "\n" else ""
  }

  /**
   * The transcript section is empty exactly when the history is; otherwise
   * `strip()` only trims the trailing whitespace of the last line.
   */
  lemma TranscriptEmptyIff(history: seq<(string, string)>)
    ensures Transcript(history) == [] <==> history == []
    ensures history != [] ==>
      Transcript(history) == "Conversation so far:\n" + TrimEnd(Join("\n", TranscriptLines(history))) + "\n"
  {
    if history != [] {
      var lines := TranscriptLines(history);
      TranscriptLinesShape(history);
      assert lines[0] == UserLine(history[0].0);
      var joined := Join("\n", lines);
      JoinStartsWithFirst("\n", lines);
      assert joined[0] == 'U' by {
        assert joined[..|lines[0]|] == lines[0];
        assert lines[0][0] == 'U';
      }
      assert !IsSpace(joined[0]);
      assert TrimStart(joined) == joined;
      TrimEndFacts(joined);
      assert TrimEnd(joined) != [];
    }
  }

  function NewMessage(userText: string): string {
    "User: " + userText + "\nAssistant:"
  }

  /** The whole prompt, as `build_prompt` assembles it. */
  function Prompt(userText: string, userName: string, chatType: Option<string>,
                  history: seq<(string, string)>): string {
    SystemRules + "\n" + Header(userName, chatType) + "\n" + Transcript(history) + NewMessage(userText)
  }

  /** `build_prompt(user_text, user_name, chat_type, history)`. */
  method BuildPrompt(userText: string, userName: string, chatType: Option<string>,
                     history: seq<(string, string)>) returns (prompt: string)
    ensures prompt == Prompt(userText, userName, chatType, history)
  {
    var header := "User: " + userName + "\nChatType: " + ChatTypeLabel(chatType) + "\n";
    var lines: seq<string> := [];
    for i := 0 to |history|
      invariant lines == TranscriptLines(history[..i])
    {
      var (u, a) := history[i];
      assert history[..i + 1][..i] == history[..i];
      lines := lines + ["User: " + u];
      lines := lines + ["Assistant: " + a];
    }
    assert history[..|history|] == history;
    var transcript := Strip(Join("\n", lines));
    if transcript != [] {
      transcript := "Conversation so far:\n" + transcript + "\n";
    }
    var newMsg := "User: " + userText + "\nAssistant:";
    prompt := SystemRules + "\n" + header + "\n" + transcript + newMsg;
  }

  lemma PrefixOfAppend<T>(x: seq<T>, y: seq<T>, k: nat)
    requires k <= |x|
    ensures (x + y)[..k] == x[..k]
  {
  }

  /** The fixed rules always open the prompt. */
  lemma PromptStartsWithRules(userText: string, userName: string, chatType: Option<string>,
                              history: seq<(string, string)>)
    ensures var p := Prompt(userText, userName, chatType, history);
      |SystemRules| <= |p| && p[..|SystemRules|] == SystemRules
  {
    var a := SystemRules + "\n";
    var b := a + Header(userName, chatType);
    var c := b + "\n";
    var d := c + Transcript(history);
    var k := |SystemRules|;
    PrefixOfAppend(SystemRules, "\n", k);
    PrefixOfAppend(a, Header(userName, chatType), k);
    PrefixOfAppend(b, "\n", k);
    PrefixOfAppend(c, Transcript(history), k);
    PrefixOfAppend(d, NewMessage(userText), k);
  }

  /** The prompt always ends with the new message and the cue for the assistant. */
  lemma PromptEndsWithNewMessage(userText: string, userName: string, chatType: Option<string>,
                                 history: seq<(string, string)>)
    ensures var p := Prompt(userText, userName, chatType, history);
      var m := "User: " + userText + "\nAssistant:";
      |m| <= |p| && p[|p| - |m|..] == m
  {
  }
}
