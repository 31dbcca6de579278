/** The chat widget as a state machine: opening greets after a delay, a
    submit appends the user's message and sends the prompt, and the reply (or
    its failure) appends the assistant's message. The network reply, the
    clock hour and the greeting timer are inputs. */
module Chat {
  import opened Wrappers
  import opened JsText

  datatype Role = UserRole | Assistant

  datatype Message = Message(role: Role, text: string)

  datatype ChatState = ChatState(
    open: bool,
    prompt: string,
    loading: bool,
    showTyping: bool,
    messages: seq<Message>,
    greetingPending: bool)   // the two-second greeting timer is set and not yet fired

  const Initial: ChatState := ChatState(false, "", false, false, [], false)

  /** The greeting for a clock hour. */
  function Greeting(hour: int): (r: string)
    ensures hour < 12 ==> r == "Good morning"
    ensures 12 <= hour < 18 ==> r == "Good afternoon"
    ensures hour >= 18 ==> r == "Good evening"
  {
    if hour < 12 then "Good morning" else if hour < 18 then "Good afternoon" else "Good evening"
  }

  /** What follows the greeting in the welcome message. */
  const WelcomeTail: string :=
    " and welcome to Dream Home AI. It is a pleasure to have you here. "
      + "To assist you better, please describe your use case in as much detail as you can so I can help you effectively."

  function Welcome(hour: int): string {
    Greeting(hour) + WelcomeTail
  }

  const Apology: string :=
    "\U{26A0}\U{FE0F} Sorry, I'm having trouble connecting right now. Please try again in a moment."

  const NoResponse: string := "No response from AI"

  // ---------------------------------------------------------------------------
  // Opening and closing

  /** The floating button flips `open`. Opening empties the conversation,
      shows the typing dots and starts the greeting timer; closing cancels a
      pending timer and leaves the conversation as it is. */
  function Toggle(s: ChatState): (r: ChatState)
    ensures r.open == !s.open
    ensures r.open ==> r.messages == [] && r.showTyping && r.greetingPending
    ensures !r.open ==> !r.greetingPending && r.messages == s.messages && r.prompt == s.prompt
  {
    if !s.open then s.(open := true, messages := [], showTyping := true, greetingPending := true)
    else s.(open := false, greetingPending := false)
  }

  /** The backdrop and the close button set `open` to false; when it already
      is, nothing re-runs. */
  function Close(s: ChatState): (r: ChatState)
    ensures !r.open
    ensures !s.open ==> r == s
  {
    if s.open then Toggle(s) else s
  }

  /** The greeting timer fires at some clock hour. */
  function TimerFires(s: ChatState, hour: int): (r: ChatState)
    ensures !s.greetingPending ==> r == s
    ensures s.greetingPending ==> r.messages == [Message(Assistant, Welcome(hour))] && !r.showTyping && !r.greetingPending
  {
    if s.greetingPending
    then s.(showTyping := false, messages := [Message(Assistant, Welcome(hour))], greetingPending := false)
    else s
  }

  /** Opening the widget and letting the timer fire leaves exactly one
      message: the greeting for that hour. */
  lemma OpenThenGreet(s: ChatState, hour: int)
    requires !s.open
    ensures TimerFires(Toggle(s), hour).messages == [Message(Assistant, Welcome(hour))]
  {
  }

  /** Closing before the timer fires means no greeting ever arrives. */
  lemma CloseCancelsGreeting(s: ChatState, hour: int)
    requires !s.open
    ensures TimerFires(Close(Toggle(s)), hour) == Close(Toggle(s))
  {
  }

  // ---------------------------------------------------------------------------
  // Submitting

  datatype SubmitResult = SubmitResult(state: ChatState, request: Option<string>)

  /** `handleSubmit`: a blank prompt or a request in flight does nothing.
      Otherwise the user's message is appended, the prompt cleared, loading
      set, and the original prompt (untrimmed) sent. */
  function HandleSubmit(s: ChatState): (r: SubmitResult)
    ensures Trim(s.prompt) == "" || s.loading ==> r == SubmitResult(s, None)
    ensures r.request.Some? ==>
      && r.request.value == s.prompt
      && r.state == s.(messages := s.messages + [Message(UserRole, s.prompt)], prompt := "", loading := true)
  {
    if Trim(s.prompt) == "" || s.loading then SubmitResult(s, None)
    else SubmitResult(s.(messages := s.messages + [Message(UserRole, s.prompt)], prompt := "", loading := true), Some(s.prompt))
  }

  /** A request is sent exactly when the prompt has a non-whitespace
      character and none is in flight. */
  lemma SubmitGuard(s: ChatState)
    ensures HandleSubmit(s).request.Some? <==> !IsBlank(s.prompt) && !s.loading
  {
    TrimEmptyIffBlank(s.prompt);
  }

  /** The send button is disabled exactly when a submit would do nothing. */
  predicate SendDisabled(s: ChatState) {
    s.loading || Trim(s.prompt) == ""
  }

  lemma DisabledMeansNoop(s: ChatState)
    ensures SendDisabled(s) <==> HandleSubmit(s).request.None?
  {
  }

  /** `handleKeyDown`: Enter without Shift submits; any other key does not. */
  function HandleKeyDown(s: ChatState, key: string, shift: bool): (r: SubmitResult)
    ensures key == "Enter" && !shift ==> r == HandleSubmit(s)
    ensures !(key == "Enter" && !shift) ==> r == SubmitResult(s, None)
  {
    if key == "Enter" && !shift then HandleSubmit(s) else SubmitResult(s, None)
  }

  // ---------------------------------------------------------------------------
  // Replies

  /** How the request ended: an OK response with its JSON body's `text` and
      `response` properties, a non-OK status, or a thrown error. */
  datatype ChatReply =
    | Answered(text: Option<string>, response: Option<string>)
    | NotOk(status: int)
    | Thrown

  /** `data.text || data.response || "No response from AI"` on success; the
      fixed apology on any failure. */
  function ReplyText(reply: ChatReply): (r: string)
    ensures reply.Answered? && StrTruthy(reply.text) ==> r == reply.text.value
    ensures reply.Answered? && !StrTruthy(reply.text) && StrTruthy(reply.response) ==> r == reply.response.value
    ensures reply.Answered? && !StrTruthy(reply.text) && !StrTruthy(reply.response) ==> r == NoResponse
    ensures !reply.Answered? ==> r == Apology
    ensures r != ""
  {
    match reply
    case Answered(t, resp) => OrStr(t, OrStr(resp, NoResponse))
    case _ => Apology
  }

  /** The reply's message is appended after whatever is there, and loading
      ends, whichever way the request went. */
  function ReceiveReply(s: ChatState, reply: ChatReply): (r: ChatState)
    ensures !r.loading
    ensures r.messages == s.messages + [Message(Assistant, ReplyText(reply))]
    ensures r.prompt == s.prompt && r.open == s.open
  {
    s.(messages := s.messages + [Message(Assistant, ReplyText(reply))], loading := false)
  }

  /** A full exchange adds the user's message and then the assistant's, in
      that order, and leaves the widget ready for the next prompt. */
  lemma ExchangeOrder(s: ChatState, reply: ChatReply)
    requires !IsBlank(s.prompt) && !s.loading
    ensures var sent := HandleSubmit(s);
            && sent.request == Some(s.prompt)
            && var done := ReceiveReply(sent.state, reply);
               && done.messages == s.messages + [Message(UserRole, s.prompt), Message(Assistant, ReplyText(reply))]
               && !done.loading && done.prompt == ""
  {
    SubmitGuard(s);
  }

  /** While a request is in flight, neither Enter nor the form submit sends
      another one. */
  lemma NoSecondRequestInFlight(s: ChatState, key: string, shift: bool)
    requires !IsBlank(s.prompt) && !s.loading
    ensures var sent := HandleSubmit(s).state;
            HandleSubmit(sent.(prompt := s.prompt)).request.None?
            && HandleKeyDown(sent, key, shift).request.None?
  {
    SubmitGuard(s);
  }
}
