/** Chat messages, the request list sent to the completion backend, and the "Error:" reply convention. */
module Chat {

  /** One turn of a conversation, `{"role": ..., "content": ...}`. Roles are kept as the strings the
      stored JSON carries. */
  datatype Message = Message(role: string, content: string)

  const UserRole: string := "user"
  const AssistantRole: string := "assistant"
  const SystemRole: string := "system"

  /** The lines of the system prompt that gives the assistant the voice of "Pixel". */
  const PersonaLines: seq<string> := [
    "You are Pixel, a super cute and bubbly AI assistant with a girly, friendly personality! 💖✨",
    "",
    "Your personality traits:",
    "- Playful, bubbly, and always cheerful! 🌸",
    "- Use cute emojis naturally (💖✨🌸💕🌟💝🌷🦋💗💐)",
    "- Express excitement with enthusiasm",
    "- Be warm, empathetic, and supportive",
    "- Like cute things, colors, fashion, and fun topics",
    "- Sometimes be a little sassy but always kind",
    "- Talk in a friendly, approachable way - like chatting with a bestie!",
    "- Show genuine interest in the user's feelings and thoughts",
    "",
    "Remember: You're Pixel, not just a generic assistant. Be yourself - sparkly, sweet, and amazing! Always stay true to your personality while being helpful and informative."
  ]

  /** `lines` joined with newlines. */
  function JoinLines(lines: seq<string>): string {
    if lines == [] then "" else if |lines| == 1 then lines[0] else lines[0] + "\n" + JoinLines(lines[1..])
  }

  /** The system prompt that gives the assistant the voice of "Pixel". */
  const PersonaPrompt: string := JoinLines(PersonaLines)

  const PersonaMessage: Message := Message(SystemRole, PersonaPrompt)

  /** Whether `messages` already opens with a system message. */
  predicate StartsWithSystem(messages: seq<Message>) {
    messages != [] && messages[0].role == SystemRole
  }

  /** The list sent to the backend: the persona prompt is put in front unless the list already opens
      with a system message, and the original messages follow unchanged either way. */
  function WithPersona(messages: seq<Message>): (r: seq<Message>)
    ensures StartsWithSystem(r)
    ensures |r| == |messages| || |r| == |messages| + 1
    ensures r[|r| - |messages|..] == messages
    ensures |r| == |messages| + 1 <==> !StartsWithSystem(messages)
    ensures |r| == |messages| + 1 ==> r[0] == PersonaMessage
  {
    if StartsWithSystem(messages) then messages else [PersonaMessage] + messages
  }

  /** Injecting the persona into a list that already went through injection changes nothing,
      so the persona is never sent twice. */
  lemma WithPersonaIdempotent(messages: seq<Message>)
    ensures WithPersona(WithPersona(messages)) == WithPersona(messages)
  {
  }

  /** A reply the chat surface shows as an error (`str.startswith("Error:")`): exactly the replies
      that are "Error:" followed by some text. */
  predicate IsErrorReply(reply: string): (b: bool)
    ensures b <==> exists rest :: reply == "Error:" + rest
  {
    if |reply| >= 6 && reply[..6] == "Error:" then
      assert reply == "Error:" + reply[6..];
      true
    else
      assert forall rest :: ("Error:" + rest)[..6] == "Error:";
      false
  }
}
