/**
 * The chat component (ChatInterface.jsx): an input box that sends its trimmed text,
 * Enter to send, a microphone toggle, and a Regenerate button that resends the last
 * question the user asked.
 */
module ChatInterface {
  import opened Wrappers
  import opened Seqs
  import opened Text
  import opened Entities
  import opened Conversation

  /** A call of `onSendMessage(message, isRegeneration)`. */
  datatype SendRequest = SendRequest(message: string, isRegeneration: bool)

  /** The send button is enabled: `!(!inputMessage.trim() || isLoading)`. */
  predicate SendEnabled(input: string, isLoading: bool)
  {
    Trim(input) != "" && !isLoading
  }

  /** `regenerateLastResponse`: resend the last user message, or do nothing when there is none. */
  function RegenerateRequest(messages: seq<ChatMessage>): Option<SendRequest>
  {
    match FindFirst(Reverse(messages), IsUser)
    case None => None
    case Some(m) => Some(SendRequest(m.message, true))
  }

  /** The resent text is that of the last user message; there is a request exactly when there is a user message. */
  lemma RegenerateResendsLastQuestion(messages: seq<ChatMessage>)
    ensures RegenerateRequest(messages).None? <==> forall j :: 0 <= j < |messages| ==> !IsUser(messages[j])
    ensures RegenerateRequest(messages).Some? ==>
              RegenerateRequest(messages).value.isRegeneration &&
              exists k :: 0 <= k < |messages| && IsUser(messages[k]) &&
                          RegenerateRequest(messages).value.message == messages[k].message &&
                          forall j :: k < j < |messages| ==> !IsUser(messages[j])
  {
    FindFirstOfReverse(messages, IsUser);
    var k := LastIndexWhere(messages, IsUser);
    if k >= 0 {
      assert IsUser(messages[k]);
    }
  }

  /** After a regeneration on the pages, the question it resent is still the last one shown. */
  lemma RegenerationKeepsItsQuestion(messages: seq<ChatMessage>, reply: ChatMessage)
    requires IsAssistant(reply)
    ensures RegenerateRequest(ReplaceLastAssistant(messages, reply)) == RegenerateRequest(messages)
  {
    var r := ReplaceLastAssistant(messages, reply);
    var k := LastAssistantIndex(messages);
    assert forall j :: 0 <= j < |messages| ==> (IsUser(r[j]) <==> IsUser(messages[j]));
    FindFirstOfReverse(messages, IsUser);
    FindFirstOfReverse(r, IsUser);
    var u := LastIndexWhere(messages, IsUser);
    var v := LastIndexWhere(r, IsUser);
    assert u == v by {
      if u >= 0 {
        assert IsUser(r[u]);
      }
      if v >= 0 {
        assert IsUser(messages[v]);
      }
    }
    if u >= 0 {
      assert r[u] == messages[u];
    }
  }

  /** Text that is sent starts and ends with a character other than white space. */
  lemma SentTextIsTrimmed(input: string)
    requires Trim(input) != ""
    ensures !IsWhitespace(Trim(input)[0]) && !IsWhitespace(Trim(input)[|Trim(input)| - 1])
  {
    TrimIsInnerSlice(input);
  }

  /** The component's own state; `isLoading` and `messages` are props passed to each handler. */
  class ChatInput {
    var inputMessage: string
    var isListening: bool

    constructor ()
      ensures inputMessage == "" && !isListening
    {
      inputMessage, isListening := "", false;
    }

    /** The input box's `onChange`. */
    method Edit(value: string)
      modifies this
      ensures inputMessage == value && isListening == old(isListening)
    {
      inputMessage := value;
    }

    /** `handleSendMessage`: when enabled, send the trimmed text and clear the box; otherwise nothing. */
    method HandleSendMessage(isLoading: bool) returns (sent: Option<SendRequest>)
      modifies this
      ensures SendEnabled(old(inputMessage), isLoading) ==>
                sent == Some(SendRequest(Trim(old(inputMessage)), false)) && inputMessage == ""
      ensures !SendEnabled(old(inputMessage), isLoading) ==> sent == None && inputMessage == old(inputMessage)
      ensures isListening == old(isListening)
    {
      var trimmed := Trim(inputMessage);
      if trimmed != "" && !isLoading {
        sent := Some(SendRequest(trimmed, false));
        inputMessage := "";
      } else {
        sent := None;
      }
    }

    /** `handleKeyPress`: Enter without Shift sends; any other key does nothing. */
    method HandleKeyPress(key: string, shiftKey: bool, isLoading: bool) returns (sent: Option<SendRequest>)
      modifies this
      ensures key == "Enter" && !shiftKey && SendEnabled(old(inputMessage), isLoading) ==>
                sent == Some(SendRequest(Trim(old(inputMessage)), false)) && inputMessage == ""
      ensures !(key == "Enter" && !shiftKey && SendEnabled(old(inputMessage), isLoading)) ==>
                sent == None && inputMessage == old(inputMessage)
      ensures isListening == old(isListening)
    {
      if key == "Enter" && !shiftKey {
        sent := HandleSendMessage(isLoading);
      } else {
        sent := None;
      }
    }

    /**
     * `toggleListening`: stop when listening; otherwise start, if the browser offers
     * speech recognition.
     */
    method ToggleListening(recognitionAvailable: bool)
      modifies this
      ensures isListening == (!old(isListening) && recognitionAvailable)
      ensures inputMessage == old(inputMessage)
    {
      if isListening {
        isListening := false;
      } else if recognitionAvailable {
        isListening := true;
      }
    }

    /** The recogniser's `onresult`: the transcript replaces the input. */
    method HandleTranscript(transcript: string)
      modifies this
      ensures inputMessage == transcript && !isListening
    {
      inputMessage := transcript;
      isListening := false;
    }

    /** The recogniser's `onerror` and `onend`. */
    method HandleRecognitionEnd()
      modifies this
      ensures !isListening && inputMessage == old(inputMessage)
    {
      isListening := false;
    }
  }
}
