/** Concrete runs of `stream()`. */
module RelayExamples {
  import opened Common
  import opened Router
  import opened RouterExamples
  import opened Relay

  /** A caller-supplied system message followed by a question about emotions. */
  const Conversation: seq<Message> := [
    Message(Some(Str("system")), Some(Str("answer briefly"))),
    Message(Some(Str("user")), Some(Str(EmotionsQuestion)))
  ]

  /** An upstream completion that keeps sending after it reports that it is done. */
  const Completion: seq<Event> := [
    ContentDelta("Breathe."), ContentDelta(""), OtherEvent,
    ContentDelta(" Then listen."), ContentDone, ContentDelta("ignored")
  ]

  /** An upstream completion whose client raises after the first delta. */
  const Interrupted: seq<Event> := [ContentDelta("Breathe."), Raised("Connection error.")]

  /** Empty deltas and other events are dropped, and nothing after `content.done`
      is relayed. */
  lemma CompletionRelayed()
    ensures Relayed(Completion) == ["Breathe.", " Then listen."]
  {
    RelayedStopsAtDone(Completion[..4], Completion[5..]);
    assert Completion == Completion[..4] + [ContentDone] + Completion[5..];
  }

  lemma ConversationRoutedToEidos()
    ensures UserText(Conversation) == Ok(EmotionsQuestion)
    ensures DetectAgent(UserText(Conversation).value) == Eidos
  {
    UserContentIsLatest(Conversation, 1);
    EmotionsQuestionDetected();
  }

  lemma ConversationOutbound()
    ensures Assemble(Eidos, Conversation) ==
      [SystemPrompt(Eidos), Forwarded(Conversation[0]), Forwarded(Conversation[1])]
  {
  }

  /** The question goes to Eidos; the upstream request carries Eidos' prompt and then
      both caller messages, the caller's own system message included. */
  lemma EmotionsConversation()
    ensures Respond(Conversation, Completion) ==
      Reply(["Breathe.", " Then listen."],
            Some([SystemPrompt(Eidos), Forwarded(Conversation[0]), Forwarded(Conversation[1])]))
  {
    ConversationRoutedToEidos();
    CompletionRelayed();
    ConversationOutbound();
  }

  lemma InterruptedRelayed()
    ensures Relayed(Interrupted) == ["Breathe.", ErrorFragment("Connection error.")]
  {
    assert Interrupted[1..] == [Raised("Connection error.")];
  }

  /** The upstream client fails after the first delta: the text so far stays, and the
      error text follows it. */
  lemma FailureMidStream()
    ensures Respond(Conversation, Interrupted).fragments ==
      ["Breathe.", ErrorFragment("Connection error.")]
  {
    ConversationRoutedToEidos();
    InScopeIsRelayed(Conversation, Interrupted);
    InterruptedRelayed();
  }
}
