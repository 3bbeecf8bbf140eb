/** The Muse chat widget (components/AiMuse.tsx): a transcript that grows by
    one user message per accepted send and by one assistant message per
    successful reply, with a busy flag that blocks overlapping sends. */
module AiMuse {
  import opened Optional
  import opened JsText

  datatype Sender = User | Ai

  datatype Message = Message(id: string, text: string, sender: Sender)

  /** What the awaited call to the language-model service gives back: a
      reply text, or a thrown error. */
  datatype Reply = Ok(text: string) | Fail

  /** The assistant's greeting that opens every transcript. */
  const GREETING: Message := Message("0", "你好！我是 Muse，你的创意助手。有什么我可以帮你的吗？", Ai)

  /** The greeting is an assistant message with id "0" and a non-empty text. */
  lemma GreetingSpec()
    ensures GREETING.sender == Ai && GREETING.id == "0" && GREETING.text != ""
  {
  }

  /** Shown in place of an empty reply text. */
  const PLACEHOLDER: string := "..."

  /** The text of the assistant message for a reply text (`text || '...'`):
      never empty, and the reply itself whenever that is not empty. */
  function ShownText(text: string): (r: string)
    ensures r != ""
    ensures text != "" ==> r == text
    ensures text == "" ==> r == PLACEHOLDER
  {
    if text == "" then PLACEHOLDER else text
  }

  /** The messages a completed call appends: one assistant message on a
      reply, none on an error. */
  function ReplyMessages(reply: Reply, aiId: string): (r: seq<Message>)
    ensures reply.Fail? ==> r == []
    ensures reply.Ok? ==> |r| == 1 && r[0].sender == Ai && r[0].id == aiId && r[0].text == ShownText(reply.text)
  {
    match reply
    case Ok(text) => [Message(aiId, ShownText(text), Ai)]
    case Fail => []
  }

  /** The number of messages in `ms` from `who`. */
  function CountFrom(ms: seq<Message>, who: Sender): nat
  {
    if ms == [] then 0 else (if ms[0].sender == who then 1 else 0) + CountFrom(ms[1..], who)
  }

  lemma {:induction false} CountFromAppend(a: seq<Message>, b: seq<Message>, who: Sender)
    ensures CountFrom(a + b, who) == CountFrom(a, who) + CountFrom(b, who)
  {
    if a == [] {
      assert a + b == b;
    } else {
      assert (a + b)[1..] == a[1..] + b;
      CountFromAppend(a[1..], b, who);
    }
  }

  /** One accepted exchange adds exactly one user message, and one assistant
      message when the call gives a reply and none when it throws. */
  lemma ExchangeCounts(ms: seq<Message>, input: string, userId: string, reply: Reply, aiId: string)
    ensures CountFrom(ms + [Message(userId, input, User)] + ReplyMessages(reply, aiId), User) == CountFrom(ms, User) + 1
    ensures CountFrom(ms + [Message(userId, input, User)] + ReplyMessages(reply, aiId), Ai) ==
      CountFrom(ms, Ai) + (if reply.Ok? then 1 else 0)
  {
    var u := [Message(userId, input, User)];
    var r := ReplyMessages(reply, aiId);
    forall who: Sender
      ensures CountFrom(ms + u + r, who) == CountFrom(ms, who) + CountFrom(u, who) + CountFrom(r, who)
    {
      CountFromAppend(ms + u, r, who);
      CountFromAppend(ms, u, who);
    }
    assert CountFrom(u, User) == 1 && CountFrom(u, Ai) == 0;
    if reply.Ok? {
      assert CountFrom(r, User) == 0 && CountFrom(r, Ai) == 1;
    }
  }

  /** The state of the chat widget. */
  class MuseChat {
    var messages: seq<Message>
    var inputText: string
    var isLoading: bool

    /** The transcript only ever grows after the opening greeting. */
    ghost predicate Valid()
      reads this
    {
      |messages| >= 1 && messages[0] == GREETING
    }

    /** The widget as first rendered: the greeting alone, empty input, idle. */
    constructor ()
      ensures Valid()
      ensures messages == [GREETING]
      ensures inputText == "" && !isLoading
    {
      messages := [GREETING];
      inputText := "";
      isLoading := false;
    }

    /** The send button is enabled while the input holds more than white
        space and no call is in flight. */
    function SendEnabled(): (r: bool)
      reads this
      ensures r <==> !IsBlank(inputText) && !isLoading
    {
      TrimEmptyIffBlank(inputText);
      !(Trim(inputText) == "" || isLoading)
    }

    /** Typing into the input field. */
    method SetInput(text: string)
      requires Valid()
      modifies this
      ensures Valid()
      ensures inputText == text && messages == old(messages) && isLoading == old(isLoading)
    {
      inputText := text;
    }

    /** The synchronous part of a send: rejected (nothing changes, `None`)
        when the trimmed input is empty or a call is in flight; otherwise the
        input becomes a user message, the input is cleared, the widget turns
        busy, and the text handed to the service is the input as it was
        before clearing. */
    method Submit(userId: string) returns (request: Option<string>)
      requires Valid()
      modifies this
      ensures Valid()
      ensures request.Some? <==> old(SendEnabled())
      ensures request.None? ==>
        messages == old(messages) && inputText == old(inputText) && isLoading == old(isLoading)
      ensures request.Some? ==>
        && request.value == old(inputText)
        && messages == old(messages) + [Message(userId, old(inputText), User)]
        && inputText == "" && isLoading
        && !SendEnabled()
    {
      if Trim(inputText) == "" || isLoading {
        return None;
      }
      var sent := inputText;
      messages := messages + [Message(userId, sent, User)];
      inputText := "";
      isLoading := true;
      request := Some(sent);
    }

    /** The continuation after the awaited call: a reply appends one
        assistant message, an error appends nothing, and either way the
        widget is idle afterwards. The input is left as the user has it. */
    method Complete(reply: Reply, aiId: string)
      requires Valid()
      modifies this
      ensures Valid()
      ensures messages == old(messages) + ReplyMessages(reply, aiId)
      ensures inputText == old(inputText) && !isLoading
    {
      if reply.Ok? {
        messages := messages + [Message(aiId, ShownText(reply.text), Ai)];
      }
      isLoading := false;
    }

    /** A whole send whose call settles before the user edits the input:
        `Submit` followed, when accepted, by `Complete` with the outcome the
        service gives for the submitted text. */
    method HandleSend(userId: string, reply: Reply, aiId: string) returns (request: Option<string>)
      requires Valid()
      modifies this
      ensures Valid()
      ensures request.Some? <==> old(SendEnabled())
      ensures old(messages) <= messages
      ensures request.None? ==>
        messages == old(messages) && inputText == old(inputText) && isLoading == old(isLoading)
      ensures request.Some? ==>
        && request.value == old(inputText)
        && messages == old(messages) + [Message(userId, old(inputText), User)] + ReplyMessages(reply, aiId)
        && CountFrom(messages, User) == CountFrom(old(messages), User) + 1
        && CountFrom(messages, Ai) == CountFrom(old(messages), Ai) + (if reply.Ok? then 1 else 0)
        && inputText == "" && !isLoading
    {
      request := Submit(userId);
      if request.Some? {
        Complete(reply, aiId);
        ExchangeCounts(old(messages), old(inputText), userId, reply, aiId);
      }
    }
  }
}
