/** What the sidebar derives from the session: each listed conversation's title and user-message
    count, and which model the model picker preselects. */
module Sidebar {
  import opened Wrappers
  import opened Text
  import opened Chat

  /** The content of the first message whose role is "user", or None when there is none. */
  function FirstUserContent(messages: seq<Message>): (r: Option<string>)
    ensures r.None? <==> forall k :: 0 <= k < |messages| ==> messages[k].role != UserRole
    ensures r.Some? ==> exists i ::
      && 0 <= i < |messages|
      && messages[i].role == UserRole
      && messages[i].content == r.value
      && (forall k :: 0 <= k < i ==> messages[k].role != UserRole)
  {
    if messages == [] then None
    else if messages[0].role == UserRole then Some(messages[0].content)
    else
      var rest := FirstUserContent(messages[1..]);
      assert forall k :: 1 <= k < |messages| ==> messages[k] == messages[1..][k - 1];
      rest
  }

  /** How many messages have role "user". */
  function UserMessageCount(messages: seq<Message>): (n: nat)
    ensures n <= |messages|
    ensures n == 0 <==> forall k :: 0 <= k < |messages| ==> messages[k].role != UserRole
    ensures n == |messages| <==> forall k :: 0 <= k < |messages| ==> messages[k].role == UserRole
  {
    if messages == [] then 0
    else (if messages[0].role == UserRole then 1 else 0) + UserMessageCount(messages[1..])
  }

  /** Counting user messages distributes over concatenation. */
  lemma {:induction false} UserMessageCountConcat(a: seq<Message>, b: seq<Message>)
    ensures UserMessageCount(a + b) == UserMessageCount(a) + UserMessageCount(b)
  {
    if a == [] {
      assert a + b == b;
    } else {
      assert (a + b)[1..] == a[1..] + b;
      UserMessageCountConcat(a[1..], b);
    }
  }

  /** A conversation has a user message, and so a title source, exactly when its count is positive. */
  lemma {:induction false} UserMessageCountPositive(messages: seq<Message>)
    ensures UserMessageCount(messages) > 0 <==> FirstUserContent(messages).Some?
  {
    if messages != [] && messages[0].role != UserRole {
      UserMessageCountPositive(messages[1..]);
    }
  }

  /** How long the sidebar title may be before it is cut. */
  const TitleLimit: nat := 40
  /** How long the button label may be before it is cut again. */
  const LabelLimit: nat := 35
  /** The label shown for a conversation that has no user message. */
  const EmptyLabel: string := "Empty conversation"

  /** The sidebar title of a conversation: its first user message, stripped of surrounding whitespace
      and cut to 40 characters with "..." appended when it was longer; "" when there is no user message. */
  function SidebarTitle(messages: seq<Message>): (r: string)
    ensures FirstUserContent(messages).None? ==> r == ""
    ensures |r| <= TitleLimit + 3
    ensures r != "" ==> !IsSpace(r[0])
  {
    match FirstUserContent(messages)
    case None => ""
    case Some(content) => Truncate(Strip(content), TitleLimit)
  }

  /** What the title says about the first user message, case by case. */
  lemma SidebarTitleCases(messages: seq<Message>)
    ensures FirstUserContent(messages).None? ==> SidebarTitle(messages) == ""
    ensures FirstUserContent(messages).Some? ==>
      var t := Strip(FirstUserContent(messages).value);
      && (|t| <= TitleLimit ==> SidebarTitle(messages) == t)
      && (|t| > TitleLimit ==> SidebarTitle(messages) == t[..TitleLimit] + "...")
    ensures |SidebarTitle(messages)| <= TitleLimit + 3
  {
    if FirstUserContent(messages).Some? {
      var t := Strip(FirstUserContent(messages).value);
      var r := SidebarTitle(messages);
      if |t| > TitleLimit {
        assert r == r[..TitleLimit] + r[TitleLimit..];
      }
    }
  }

  /** The label on a conversation's button: the title, or "Empty conversation" when the title is
      empty, cut to 35 characters, with "..." appended when the title itself is longer than 35. */
  function DisplayTitle(title: string): (r: string)
    ensures r != "" && |r| <= LabelLimit + 3
    ensures title != "" && |title| <= LabelLimit ==> r == title
    ensures |title| > LabelLimit ==> r == title[..LabelLimit] + "..."
  {
    Take(if title != "" then title else EmptyLabel, LabelLimit) + (if |title| > LabelLimit then "..." else "")
  }

  /** Cutting a title that was already cut at 40 characters again at 35 is the same as cutting the
      original text at 35 once. */
  lemma DisplayTitleOfTruncated(t: string)
    ensures DisplayTitle(Truncate(t, TitleLimit)) == if t == "" then EmptyLabel else Truncate(t, LabelLimit)
  {
    var title := Truncate(t, TitleLimit);
    if |t| > TitleLimit {
      assert |title| > LabelLimit;
      assert title[..LabelLimit] == title[..TitleLimit][..LabelLimit] == t[..LabelLimit];
    } else if t != "" {
      assert title == t;
    }
  }

  /** The two cuts compose into one: the label is the stripped first user message cut at 35
      characters (with "..." exactly when it is longer), or "Empty conversation" when that is empty. */
  lemma DisplayTitleOfSidebarTitle(messages: seq<Message>)
    ensures FirstUserContent(messages).None? ==> DisplayTitle(SidebarTitle(messages)) == EmptyLabel
    ensures FirstUserContent(messages).Some? ==>
      var t := Strip(FirstUserContent(messages).value);
      DisplayTitle(SidebarTitle(messages)) == if t == "" then EmptyLabel else Truncate(t, LabelLimit)
  {
    if FirstUserContent(messages).Some? {
      DisplayTitleOfTruncated(Strip(FirstUserContent(messages).value));
    }
  }

  /** The models the picker offers, in order. */
  const ModelOptions: seq<string> := ["gpt-3.5-turbo", "gpt-4", "gpt-4-turbo-preview", "gpt-4o-mini", "gpt-4o"]
  /** The model used when the preferences name none. */
  const DefaultModel: string := "gpt-3.5-turbo"

  /** The position of the first occurrence of `x` in `options` (Python's `list.index`). */
  function IndexOf(options: seq<string>, x: string): (r: nat)
    requires x in options
    ensures r < |options| && options[r] == x
    ensures forall k :: 0 <= k < r ==> options[k] != x
  {
    if options[0] == x then 0 else 1 + IndexOf(options[1..], x)
  }

  /** The option the model picker preselects: the stored model's position among the options, or 0
      when the stored model is missing or not offered. */
  function DefaultModelIndex(storedModel: Option<string>): (r: nat)
    ensures r < |ModelOptions|
    ensures storedModel.GetOr(DefaultModel) in ModelOptions ==> ModelOptions[r] == storedModel.GetOr(DefaultModel)
    ensures storedModel.GetOr(DefaultModel) !in ModelOptions ==> r == 0
  {
    var model := storedModel.GetOr(DefaultModel);
    if model in ModelOptions then IndexOf(ModelOptions, model) else 0
  }

  /** Whatever the preferences hold, the picker opens on an offered model, and a missing or unknown
      stored model opens it on the default model. */
  lemma DefaultModelIndexFallsBack(storedModel: Option<string>)
    ensures storedModel.GetOr(DefaultModel) !in ModelOptions ==> ModelOptions[DefaultModelIndex(storedModel)] == DefaultModel
    ensures storedModel.None? ==> DefaultModelIndex(storedModel) == 0
  {
  }
}
