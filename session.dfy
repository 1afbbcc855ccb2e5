/** The live chat session and the archive it is saved into: the state the chat script keeps in its
    session store (`messages`, `conversations`, `current_conversation_id`) and the five operations
    that change it (save, load, new chat, delete current, submit).

    Each operation is first given as a function on a `SessionState` value; the class `ChatSession`
    then performs it in place, step by step, and is proved to reach that function's result. The wall
    clock and the completion backend are parameters: `nowId` is the `YYYYMMDD_HHMMSS` id the clock
    would give, `stamp` the ISO timestamp, `reply` the backend's answer and `hasClient` whether a
    backend client is configured. */
module Session {
  import opened Wrappers
  import opened Chat
  import opened Archive
  import opened Sidebar

  datatype SessionState = SessionState(
    messages: seq<Message>,
    conversations: seq<Conversation>,
    currentId: Option<string>)

  /** Python truthiness of the current id: set and not the empty string. */
  predicate Truthy(id: Option<string>) {
    id.Some? && id.value != ""
  }

  /** An id of the form the wall clock produces, `YYYYMMDD_HHMMSS`. */
  predicate ClockId(id: string) {
    && |id| == 15
    && id[8] == '_'
    && forall k :: 0 <= k < |id| && k != 8 ==> '0' <= id[k] <= '9'
  }

  /** The session's own invariant: a set current id names a conversation in the archive. */
  predicate Consistent(s: SessionState) {
    Truthy(s.currentId) ==> HasId(s.conversations, s.currentId.value)
  }

  /** The id the next save would use for a session that has no current id yet is not in the archive. */
  predicate FreshId(s: SessionState, nowId: string) {
    nowId != "" && (!Truthy(s.currentId) ==> !HasId(s.conversations, nowId))
  }

  /** The id a save files the session under: the current id when set, else the clock id. */
  function SaveId(s: SessionState, nowId: string): string {
    if Truthy(s.currentId) then s.currentId.value else nowId
  }

  /** Saving the session into the archive (`save_current_conversation`). An empty session saves
      nothing. Otherwise, when the current id is set and some entry has it, the first such entry is
      replaced; in every other case the conversation is appended and its id becomes the current id. */
  function Saved(s: SessionState, nowId: string, stamp: string): (t: SessionState)
    ensures t.messages == s.messages
    ensures |t.conversations| == |s.conversations| || |t.conversations| == |s.conversations| + 1
    ensures s.messages != [] ==> t.currentId.Some? && HasId(t.conversations, t.currentId.value)
  {
    if s.messages == [] then s
    else
      var c := Conversation(SaveId(s, nowId), stamp, s.messages);
      var existing := if Truthy(s.currentId) then FirstIndexOf(s.conversations, c.id) else None;
      match existing
      case Some(i) =>
        assert s.conversations[i := c][i] == c;
        s.(conversations := s.conversations[i := c])
      case None =>
        assert (s.conversations + [c])[|s.conversations|] == c;
        s.(conversations := s.conversations + [c], currentId := Some(c.id))
  }

  /** Loading an archived conversation (`load_conversation`): the first entry with `id` supplies the
      session's messages and `id` becomes current; with no such entry nothing changes. */
  function Loaded(s: SessionState, id: string): (t: SessionState)
    ensures t.conversations == s.conversations
    ensures !HasId(s.conversations, id) ==> t == s
    ensures HasId(s.conversations, id) ==> t.currentId == Some(id) && exists i ::
      && 0 <= i < |s.conversations|
      && s.conversations[i].id == id
      && (forall j :: 0 <= j < i ==> s.conversations[j].id != id)
      && t.messages == s.conversations[i].messages
  {
    match FirstIndexOf(s.conversations, id)
    case Some(i) => s.(messages := s.conversations[i].messages, currentId := Some(id))
    case None => s
  }

  /** "New Chat": an empty session with no current id; the archive is kept. */
  function Cleared(s: SessionState): (t: SessionState)
    ensures t.conversations == s.conversations
    ensures t.messages == [] && t.currentId == None
  {
    SessionState([], s.conversations, None)
  }

  /** Whether "Delete Current" is offered: the archive is not empty and the current id is set. */
  predicate CanDelete(s: SessionState): (b: bool)
    ensures b ==> Truthy(s.currentId) && s.conversations != []
    ensures Consistent(s) ==> (b <==> Truthy(s.currentId))
  {
    s.conversations != [] && Truthy(s.currentId)
  }

  /** "Delete Current": every entry carrying the current id is dropped and the session is cleared. */
  function Deleted(s: SessionState): (t: SessionState)
    ensures !CanDelete(s) ==> t == s
    ensures CanDelete(s) ==> t.messages == [] && t.currentId.None?
    ensures CanDelete(s) ==> !HasId(t.conversations, s.currentId.value)
  {
    if CanDelete(s) then SessionState([], RemoveById(s.conversations, s.currentId.value), None) else s
  }

  /** A chat-input submission. An empty prompt does nothing. Otherwise the user turn is appended;
      with a backend client the reply is appended as an assistant turn, whatever it says, and the
      session is saved; without one nothing else happens. */
  function Submitted(s: SessionState, prompt: string, hasClient: bool, reply: string, nowId: string, stamp: string): (t: SessionState)
    ensures prompt == "" ==> t == s
    ensures |t.messages| >= |s.messages| && t.messages[..|s.messages|] == s.messages
    ensures !hasClient ==> t.conversations == s.conversations && t.currentId == s.currentId
  {
    if prompt == "" then s
    else
      var asked := s.(messages := s.messages + [Message(UserRole, prompt)]);
      if !hasClient then asked
      else Saved(asked.(messages := asked.messages + [Message(AssistantRole, reply)]), nowId, stamp)
  }

  // ---------------------------------------------------------------- save

  /** Saving an empty session changes nothing: neither the archive nor the current id. */
  lemma SaveEmptyIsNoop(s: SessionState, nowId: string, stamp: string)
    requires s.messages == []
    ensures Saved(s, nowId, stamp) == s
  {
  }

  /** When the current id is set and archived, saving replaces the first entry with that id in place:
      the archive keeps its length, that entry now holds the session, every other entry and the
      current id are untouched. */
  lemma SaveReplacesFirstMatch(s: SessionState, nowId: string, stamp: string)
    requires s.messages != [] && Truthy(s.currentId) && HasId(s.conversations, s.currentId.value)
    ensures var t := Saved(s, nowId, stamp);
      var i := FirstIndexOf(s.conversations, s.currentId.value).value;
      && |t.conversations| == |s.conversations|
      && t.conversations[i] == Conversation(s.currentId.value, stamp, s.messages)
      && (forall j :: 0 <= j < |s.conversations| && j != i ==> t.conversations[j] == s.conversations[j])
      && t.currentId == s.currentId
  {
  }

  /** Otherwise saving a non-empty session appends it: earlier entries are untouched, the new last
      entry holds the session under the current id if set or else the clock id, and that id becomes
      the current id. */
  lemma SaveAppendsOtherwise(s: SessionState, nowId: string, stamp: string)
    requires s.messages != [] && !(Truthy(s.currentId) && HasId(s.conversations, s.currentId.value))
    ensures var t := Saved(s, nowId, stamp);
      var id := if Truthy(s.currentId) then s.currentId.value else nowId;
      && t.conversations == s.conversations + [Conversation(id, stamp, s.messages)]
      && t.currentId == Some(id)
  {
  }

  /** Saving keeps the session's invariant. */
  lemma SaveKeepsConsistent(s: SessionState, nowId: string, stamp: string)
    requires Consistent(s)
    ensures Consistent(Saved(s, nowId, stamp))
  {
  }

  /** Saving twice with the same timestamp is saving once, provided a new conversation gets an id not
      already archived: the second save finds the entry the first one wrote and rewrites it as is. */
  lemma SaveIdempotent(s: SessionState, nowId: string, laterId: string, stamp: string)
    requires FreshId(s, nowId)
    ensures Saved(Saved(s, nowId, stamp), laterId, stamp) == Saved(s, nowId, stamp)
  {
    if s.messages != [] {
      var c := Conversation(SaveId(s, nowId), stamp, s.messages);
      var t := Saved(s, nowId, stamp);
      if Truthy(s.currentId) && HasId(s.conversations, c.id) {
        var i := FirstIndexOf(s.conversations, c.id).value;
        FirstIndexOfReplaced(s.conversations, i, c);
        assert t.conversations[i := c] == t.conversations;
      } else {
        FirstIndexOfAppended(s.conversations, c);
        assert t.conversations[|s.conversations| := c] == t.conversations;
      }
    }
  }

  /** Loading the conversation just saved gives back the same session, provided a new conversation
      gets an id not already archived. */
  lemma SaveThenLoad(s: SessionState, nowId: string, stamp: string)
    requires FreshId(s, nowId) && s.messages != []
    ensures var t := Saved(s, nowId, stamp);
      t.currentId.Some? && Loaded(t, t.currentId.value) == t
  {
    var c := Conversation(SaveId(s, nowId), stamp, s.messages);
    if Truthy(s.currentId) && HasId(s.conversations, c.id) {
      FirstIndexOfReplaced(s.conversations, FirstIndexOf(s.conversations, c.id).value, c);
    } else {
      FirstIndexOfAppended(s.conversations, c);
    }
  }

  /** Saving keeps archive ids distinct when a new conversation gets an id not already archived. */
  lemma SaveKeepsUniqueIds(s: SessionState, nowId: string, stamp: string)
    requires UniqueIds(s.conversations) && FreshId(s, nowId)
    ensures UniqueIds(Saved(s, nowId, stamp).conversations)
  {
    var t := Saved(s, nowId, stamp);
    if s.messages != [] && !(Truthy(s.currentId) && HasId(s.conversations, s.currentId.value)) {
      var id := SaveId(s, nowId);
      forall i, j | 0 <= i < j < |t.conversations| ensures t.conversations[i].id != t.conversations[j].id {
        if j == |s.conversations| {
          assert t.conversations[i] == s.conversations[i];
        }
      }
    }
  }

  /** As written, ids can collide: saving a session with no current id under a clock id that is
      already archived appends a second entry with that id, and the next save of that session then
      overwrites the OLDER entry (the first match), leaving the entry it appended stale. */
  lemma SaveCollisionOverwritesOlder(s: SessionState, nowId: string, stamp: string,
                                     more: seq<Message>, laterId: string, laterStamp: string)
    requires s.messages != [] && !Truthy(s.currentId) && nowId != "" && HasId(s.conversations, nowId)
    ensures var t := Saved(s, nowId, stamp);
      var i := FirstIndexOf(s.conversations, nowId).value;
      var u := Saved(t.(messages := t.messages + more), laterId, laterStamp);
      && !UniqueIds(t.conversations)
      && i < |s.conversations|
      && u.conversations[i] == Conversation(nowId, laterStamp, s.messages + more)
      && u.conversations[|s.conversations|] == Conversation(nowId, stamp, s.messages)
  {
    var t := Saved(s, nowId, stamp);
    var c := Conversation(nowId, stamp, s.messages);
    var i := FirstIndexOf(s.conversations, nowId).value;
    assert t.conversations == s.conversations + [c];
    assert t.conversations[i].id == t.conversations[|s.conversations|].id;
    assert FirstIndexOf(t.conversations, nowId) == Some(i) by {
      assert forall j :: 0 <= j <= i ==> t.conversations[j] == s.conversations[j];
    }
  }

  // ---------------------------------------------------------------- load, new chat, delete

  /** Loading keeps the session's invariant. */
  lemma LoadKeepsConsistent(s: SessionState, id: string)
    requires Consistent(s)
    ensures Consistent(Loaded(s, id))
  {
  }

  /** Deleting keeps the session's invariant. */
  lemma DeleteKeepsConsistent(s: SessionState)
    requires Consistent(s)
    ensures Consistent(Deleted(s))
  {
  }

  /** Delete drops exactly the entries with the current id and keeps all others in their order; with
      distinct ids and a consistent session that is exactly one entry, so the archive shrinks by one. */
  lemma DeleteRemovesExactlyCurrent(s: SessionState)
    requires CanDelete(s)
    ensures Deleted(s).conversations == RemoveById(s.conversations, s.currentId.value)
    ensures Consistent(s) && UniqueIds(s.conversations) ==>
      var i := FirstIndexOf(s.conversations, s.currentId.value).value;
      Deleted(s).conversations == s.conversations[..i] + s.conversations[i + 1..]
  {
    if Consistent(s) && UniqueIds(s.conversations) {
      RemoveByIdSplice(s.conversations, FirstIndexOf(s.conversations, s.currentId.value).value);
    }
  }

  /** Deleting keeps archive ids distinct. */
  lemma DeleteKeepsUniqueIds(s: SessionState)
    requires UniqueIds(s.conversations)
    ensures UniqueIds(Deleted(s).conversations)
  {
    if CanDelete(s) {
      RemoveByIdKeepsUnique(s.conversations, s.currentId.value);
    }
  }

  /** After "Delete Current" the deleted id can no longer be loaded: loading it changes nothing. */
  lemma DeleteThenLoad(s: SessionState)
    requires CanDelete(s)
    ensures Loaded(Deleted(s), s.currentId.value) == Deleted(s)
  {
  }

  // ---------------------------------------------------------------- submit

  /** With a client, a submission grows the session by exactly two turns, the user's prompt and then
      the reply as an assistant turn (an "Error: ..." reply included), adds one user message to the
      count, and leaves the session filed under a current id that the archive holds. */
  lemma SubmitAppendsTurnPair(s: SessionState, prompt: string, reply: string, nowId: string, stamp: string)
    requires prompt != ""
    ensures var t := Submitted(s, prompt, true, reply, nowId, stamp);
      && |t.messages| == |s.messages| + 2
      && t.messages[..|s.messages|] == s.messages
      && t.messages[|s.messages|] == Message(UserRole, prompt)
      && t.messages[|s.messages| + 1] == Message(AssistantRole, reply)
      && UserMessageCount(t.messages) == UserMessageCount(s.messages) + 1
      && t.currentId.Some? && HasId(t.conversations, t.currentId.value)
  {
    var t := Submitted(s, prompt, true, reply, nowId, stamp);
    assert t.messages == s.messages + [Message(UserRole, prompt), Message(AssistantRole, reply)];
    UserMessageCountConcat(s.messages, [Message(UserRole, prompt), Message(AssistantRole, reply)]);
    assert UserMessageCount([Message(UserRole, prompt), Message(AssistantRole, reply)]) == 1;
  }

  /** A submission with a client persists the session: loading the current id afterwards gives back
      the same session, provided a new conversation gets an id not already archived. */
  lemma SubmitPersists(s: SessionState, prompt: string, reply: string, nowId: string, stamp: string)
    requires prompt != "" && FreshId(s, nowId)
    ensures var t := Submitted(s, prompt, true, reply, nowId, stamp);
      t.currentId.Some? && Loaded(t, t.currentId.value) == t
  {
    var full := s.(messages := s.messages + [Message(UserRole, prompt), Message(AssistantRole, reply)]);
    assert full.messages == s.messages + [Message(UserRole, prompt)] + [Message(AssistantRole, reply)];
    SaveThenLoad(full, nowId, stamp);
  }

  /** A submission on a session already filed in the archive updates that entry in place: the archive
      keeps its length and the current id does not change. */
  lemma SubmitOnSavedSessionUpdatesInPlace(s: SessionState, prompt: string, reply: string, nowId: string, stamp: string)
    requires Consistent(s) && Truthy(s.currentId) && prompt != ""
    ensures var t := Submitted(s, prompt, true, reply, nowId, stamp);
      |t.conversations| == |s.conversations| && t.currentId == s.currentId
  {
    var full := s.(messages := s.messages + [Message(UserRole, prompt)] + [Message(AssistantRole, reply)]);
    SaveReplacesFirstMatch(full, nowId, stamp);
  }

  /** The first submission of a fresh start files one conversation under the clock id, holding the
      prompt and the reply. */
  lemma SubmitFromFreshStart(prompt: string, reply: string, nowId: string, stamp: string)
    requires prompt != "" && ClockId(nowId)
    ensures Submitted(SessionState([], [], None), prompt, true, reply, nowId, stamp)
      == SessionState([Message(UserRole, prompt), Message(AssistantRole, reply)],
                      [Conversation(nowId, stamp, [Message(UserRole, prompt), Message(AssistantRole, reply)])],
                      Some(nowId))
  {
    var turns := [Message(UserRole, prompt), Message(AssistantRole, reply)];
    var full := SessionState([] + [Message(UserRole, prompt)] + [Message(AssistantRole, reply)], [], None);
    assert full.messages == turns;
    assert Saved(full, nowId, stamp).conversations == [] + [Conversation(nowId, stamp, turns)];
  }

  /** Without a client only the user turn is appended; nothing is saved. */
  lemma SubmitWithoutClient(s: SessionState, prompt: string, reply: string, nowId: string, stamp: string)
    requires prompt != ""
    ensures var t := Submitted(s, prompt, false, reply, nowId, stamp);
      && t.messages == s.messages + [Message(UserRole, prompt)]
      && t.conversations == s.conversations
      && t.currentId == s.currentId
  {
  }

  /** Submitting keeps the session's invariant. */
  lemma SubmitKeepsConsistent(s: SessionState, prompt: string, hasClient: bool, reply: string, nowId: string, stamp: string)
    requires Consistent(s)
    ensures Consistent(Submitted(s, prompt, hasClient, reply, nowId, stamp))
  {
    if prompt != "" && hasClient {
      var full := s.(messages := s.messages + [Message(UserRole, prompt)] + [Message(AssistantRole, reply)]);
      SaveKeepsConsistent(full, nowId, stamp);
    }
  }

  /** A freshly saved conversation heads the sidebar's recent list. */
  lemma SavedConversationListedFirst(s: SessionState, nowId: string, stamp: string)
    requires s.messages != [] && !(Truthy(s.currentId) && HasId(s.conversations, s.currentId.value))
    ensures var t := Saved(s, nowId, stamp);
      Recent(t.conversations)[0] == Conversation(t.currentId.value, stamp, s.messages)
  {
    var t := Saved(s, nowId, stamp);
    assert t.conversations[|t.conversations| - 1] == Conversation(t.currentId.value, stamp, s.messages);
  }

  // ---------------------------------------------------------------- the session object

  /** The session as the chat script holds it: three fields updated in place. */
  class ChatSession {
    var messages: seq<Message>
    var conversations: seq<Conversation>
    var currentId: Option<string>

    /** The session's current value. */
    function State(): SessionState
      reads this
    {
      SessionState(messages, conversations, currentId)
    }

    /** Start-up: an empty session over the archive read from storage. */
    constructor (archive: seq<Conversation>)
      ensures State() == SessionState([], archive, None)
      ensures Consistent(State())
    {
      messages := [];
      conversations := archive;
      currentId := None;
    }

    method SaveCurrentConversation(nowId: string, stamp: string)
      modifies this
      ensures State() == Saved(old(State()), nowId, stamp)
      ensures Consistent(old(State())) ==> Consistent(State())
    {
      if Consistent(State()) {
        SaveKeepsConsistent(State(), nowId, stamp);
      }
      if messages != [] {
        var id := if Truthy(currentId) then currentId.value else nowId;
        var conversation := Conversation(id, stamp, messages);
        var existing: Option<nat> := None;
        if Truthy(currentId) {
          existing := FindById(conversations, currentId.value);
        }
        match existing {
          case Some(i) =>
            conversations := conversations[i := conversation];
          case None =>
            conversations := conversations + [conversation];
            currentId := Some(id);
        }
      }
    }

    method LoadConversation(id: string)
      modifies this
      ensures State() == Loaded(old(State()), id)
      ensures Consistent(old(State())) ==> Consistent(State())
    {
      if Consistent(State()) {
        LoadKeepsConsistent(State(), id);
      }
      var found := FindById(conversations, id);
      match found {
        case Some(i) =>
          messages := conversations[i].messages;
          currentId := Some(id);
        case None =>
      }
    }

    method NewChat()
      modifies this
      ensures State() == Cleared(old(State()))
      ensures Consistent(State())
    {
      messages := [];
      currentId := None;
    }

    /** Reports whether the deletion was available (and so took place). */
    method DeleteCurrent() returns (deleted: bool)
      modifies this
      ensures deleted == CanDelete(old(State()))
      ensures State() == Deleted(old(State()))
      ensures Consistent(old(State())) ==> Consistent(State())
    {
      if Consistent(State()) {
        DeleteKeepsConsistent(State());
      }
      deleted := conversations != [] && Truthy(currentId);
      if deleted {
        conversations := RemoveById(conversations, currentId.value);
        messages := [];
        currentId := None;
      }
    }

    /** Returns the request list handed to the backend (None when no request is made) and whether the
        reply is shown as an error. */
    method Submit(prompt: string, hasClient: bool, reply: string, nowId: string, stamp: string)
      returns (request: Option<seq<Message>>, shownAsError: bool)
      modifies this
      ensures State() == Submitted(old(State()), prompt, hasClient, reply, nowId, stamp)
      ensures request == if prompt != "" && hasClient
        then Some(WithPersona(old(messages) + [Message(UserRole, prompt)])) else None
      ensures shownAsError <==> request.Some? && IsErrorReply(reply)
      ensures Consistent(old(State())) ==> Consistent(State())
    {
      if Consistent(State()) {
        SubmitKeepsConsistent(State(), prompt, hasClient, reply, nowId, stamp);
      }
      request, shownAsError := None, false;
      if prompt != "" {
        messages := messages + [Message(UserRole, prompt)];
        if hasClient {
          request := Some(WithPersona(messages));
          shownAsError := IsErrorReply(reply);
          messages := messages + [Message(AssistantRole, reply)];
          SaveCurrentConversation(nowId, stamp);
        }
      }
    }
  }
}
