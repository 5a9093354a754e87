/** The chat screen's local message list and send button
    (src/screens/main/ChatScreen.js). Message ids and clock times are parameters. */
module Chat {
  import opened Seqs
  import opened Text

  datatype Sender = Me | Them

  datatype Message = Message(id: string, text: string, sender: Sender, time: string)

  datatype ChatState = ChatState(messages: seq<Message>, input: string)

  /** The three messages the screen opens with. */
  const InitialMessages: seq<Message> := [
    Message("1", "E aí, tudo certo para o jogo amanhã?", Them, "10:30"),
    Message("2", "Opa, tudo certo! Levo as bolas.", Me, "10:32"),
    Message("3", "Fechado! Nos vemos na quadra 3.", Them, "10:33")
  ]

  function Initial(): (st: ChatState)
    ensures |st.messages| == 3 && st.input == ""
  {
    ChatState(InitialMessages, "")
  }

  /** `handleSend`: blank input is ignored; otherwise one message from "me" carrying the
      untrimmed input is appended and the input is cleared. */
  function Send(st: ChatState, id: string, time: string): (r: ChatState)
    ensures IsBlank(st.input) ==> r == st
    ensures !IsBlank(st.input) ==>
      && |r.messages| == |st.messages| + 1
      && r.messages[..|st.messages|] == st.messages
      && r.messages[|st.messages|] == Message(id, st.input, Me, time)
      && r.input == ""
  {
    if |Trim(st.input)| == 0 then st
    else ChatState(st.messages + [Message(id, st.input, Me, time)], "")
  }

  /** The send button is drawn highlighted when `inputText.trim()` is a non-empty string. */
  function SendHighlighted(input: string): (b: bool)
    ensures b <==> exists i :: 0 <= i < |input| && !IsWhite(input[i])
  {
    Trim(input) != ""
  }

  /** The list handed to the inverted list view: newest first. */
  function Displayed(st: ChatState): (r: seq<Message>)
    ensures |r| == |st.messages|
    ensures forall i :: 0 <= i < |r| ==> r[i] == st.messages[|st.messages| - 1 - i]
  {
    Reverse(st.messages)
  }

  /** The button is highlighted exactly when pressing it would send. */
  lemma HighlightedIffSendChanges(st: ChatState, id: string, time: string)
    ensures SendHighlighted(st.input) <==> Send(st, id, time) != st
  {
    if SendHighlighted(st.input) {
      assert |Send(st, id, time).messages| != |st.messages|;
    }
  }

  /** After a send, the new message heads the displayed list and the rest is the old display. */
  lemma SendShowsNewestFirst(st: ChatState, id: string, time: string)
    requires !IsBlank(st.input)
    ensures Displayed(Send(st, id, time)) == [Message(id, st.input, Me, time)] + Displayed(st)
  {
    var m := Message(id, st.input, Me, time);
    assert Send(st, id, time).messages == st.messages + [m];
    ReverseAppend(st.messages, m);
  }

  datatype ChatEvent = Typed(text: string) | Pressed(id: string, time: string)

  function Apply(st: ChatState, e: ChatEvent): ChatState {
    match e
    case Typed(text) => st.(input := text)
    case Pressed(id, time) => Send(st, id, time)
  }

  function Run(st: ChatState, events: seq<ChatEvent>): ChatState
    decreases |events|
  {
    if |events| == 0 then st else Run(Apply(st, events[0]), events[1..])
  }

  /** A message the user sent from this screen: from "me", with non-blank text. */
  predicate SentHere(m: Message) {
    m.sender == Me && !IsBlank(m.text)
  }

  /** The list starts with the three seeded messages; every later one was sent here. */
  predicate WellFormedLog(msgs: seq<Message>) {
    && InitialMessages <= msgs
    && forall i :: |InitialMessages| <= i < |msgs| ==> SentHere(msgs[i])
  }

  /** One event only ever appends a message sent here. */
  lemma ApplyKeepsLog(st: ChatState, e: ChatEvent)
    requires WellFormedLog(st.messages)
    ensures st.messages <= Apply(st, e).messages
    ensures WellFormedLog(Apply(st, e).messages)
  {
    var next := Apply(st, e);
    if next.messages != st.messages {
      assert e.Pressed? && !IsBlank(st.input);
      assert next.messages == st.messages + [Message(e.id, st.input, Me, e.time)];
    }
  }

  lemma {:induction false} RunKeepsLog(st: ChatState, events: seq<ChatEvent>)
    requires WellFormedLog(st.messages)
    ensures WellFormedLog(Run(st, events).messages)
    ensures st.messages <= Run(st, events).messages
    decreases |events|
  {
    if |events| > 0 {
      var next := Apply(st, events[0]);
      ApplyKeepsLog(st, events[0]);
      RunKeepsLog(next, events[1..]);
    }
  }

  /** Whatever is typed and sent, the seeded messages stay first and in order. */
  lemma ReachableLog(events: seq<ChatEvent>)
    ensures WellFormedLog(Run(Initial(), events).messages)
  {
    RunKeepsLog(Initial(), events);
  }
}
