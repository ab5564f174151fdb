/** The chat messages sent to the completion endpoint: `{"role": ..., "content": ...}`
    records, and the two-message list a long-response request starts from. */
module Messages {

  datatype Role = System | User

  datatype Message = Message(role: Role, content: string)

  /** `generate_system_message`: a system-role record holding the given text. */
  function SystemMessage(content: string): (m: Message)
    ensures m.role == System && m.content == content
  {
    Message(System, content)
  }

  /** `generate_user_message`: a user-role record holding the given text. */
  function UserMessage(content: string): (m: Message)
    ensures m.role == User && m.content == content
  {
    Message(User, content)
  }

  /** The list a long-response request starts from: the system instruction, then the
      user prompt whose content the drivers rewrite every round. */
  function InitialMessages(system: string, prompt: string): (ms: seq<Message>)
    ensures |ms| == 2
    ensures ms[0].role == System && ms[0].content == system
    ensures ms[|ms| - 1].role == User && ms[|ms| - 1].content == prompt
  {
    [SystemMessage(system), UserMessage(prompt)]
  }

  /** The list after `messages[-1]['content'] = content`: every earlier message and the
      role of the last one are kept, only the last content is replaced. */
  function WithLastContent(ms: seq<Message>, content: string): (r: seq<Message>)
    requires |ms| > 0
    ensures |r| == |ms|
    ensures r[..|r| - 1] == ms[..|ms| - 1]
    ensures r[|r| - 1].role == ms[|ms| - 1].role && r[|r| - 1].content == content
  {
    ms[|ms| - 1 := Message(ms[|ms| - 1].role, content)]
  }

  /** Rewriting the last content twice is rewriting it once, to the second value. */
  lemma WithLastContentTwice(ms: seq<Message>, first: string, second: string)
    requires |ms| > 0
    ensures WithLastContent(WithLastContent(ms, first), second) == WithLastContent(ms, second)
  {
  }

  /** `messages[-1]['content'] = content`: the last message gets the new content in place,
      keeping its role; no other message changes. */
  method SetLastContent(messages: array<Message>, content: string)
    requires messages.Length > 0
    modifies messages
    ensures messages[..] == WithLastContent(old(messages[..]), content)
  {
    messages[messages.Length - 1] := Message(messages[messages.Length - 1].role, content);
  }
}
