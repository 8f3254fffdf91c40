/** The browser's chat controller: a state machine over the transcript, the
    pending-send flag, the current session id and the connection state. Each
    network call is atomic and its outcome is a parameter. DOM updates,
    notifications and sounds are not part of the state. */
module Client {
  import opened Options
  import opened Text
  import Store
  import Title

  datatype Sender = User | Bot

  /** A transcript entry: one the browser added itself while chatting, or a
      row loaded from the server's history. */
  datatype Entry =
    | Local(text: string, sender: Sender, service: Option<string>)
    | Stored(row: Store.HistoryEntry)

  datatype Connection = Online | Offline

  /** `hasTypingIndicator` says whether the page has the typing-indicator
      element; it never changes while the page is open. */
  datatype State = State(
    transcript: seq<Entry>,
    isTyping: bool,
    currentSessionId: Option<nat>,
    connection: Connection,
    lastActivity: nat,
    hasTypingIndicator: bool)

  /** What a fetch of an endpoint whose body is not used came to: a 2xx
      answer, another status, or no answer at all. */
  datatype Http = Ok | NotOk | Unreachable

  /** The body of a 2xx answer to a chat request. */
  datatype Reply = Reply(response: string, service: string)

  const SendErrorText: string := "Sorry, I encountered an error while processing your message. Please try again."
  const ErrorService: string := "error"
  const DefaultService: string := "auto"
  const DefaultSessionName: string := "New Chat"

  // ----- activity and connection -----

  /** Any user activity records the time and brings an offline page back
      online. */
  function UpdateActivity(st: State, now: nat): (r: State)
    ensures r.connection == Online && r.lastActivity == now
    ensures r.(connection := st.connection, lastActivity := st.lastActivity) == st
  {
    st.(lastActivity := now, connection := if st.connection.Offline? then Online else st.connection)
  }

  /** The effect of one health probe: online exactly when it answered 2xx. */
  function ProbeHealth(st: State, probe: Http): (r: State)
    ensures r.connection == Online <==> probe == Ok
    ensures r.(connection := st.connection) == st
  {
    st.(connection := if probe == Ok then Online else Offline)
  }

  // ----- sending -----

  /** The send button: disabled when the trimmed input is empty or a reply
      is pending. */
  predicate SendButtonDisabled(st: State, input: string) {
    JsTrim(input) == [] || st.isTyping
  }

  /** `this.aiServiceSelect?.value || 'auto'`: a missing or empty selection
      asks for automatic routing. */
  function RequestedService(selected: Option<string>): (r: string)
    ensures r != []
    ensures selected.Some? && selected.value != [] ==> r == selected.value
    ensures !(selected.Some? && selected.value != []) ==> r == DefaultService
  {
    if selected.Some? && selected.value != [] then selected.value else DefaultService
  }

  /** An accepted send: the state while the reply is pending, the request
      (trimmed message and service) and the auto-rename it triggers. */
  datatype Started = Started(state: State, message: string, service: string, rename: Option<Title.RenameCall>)

  /** The synchronous part of `sendMessage`, up to the chat request. The
      pending flag is only raised when the typing indicator exists. */
  function BeginSend(st: State, input: string, selected: Option<string>, now: nat): (r: Option<Started>)
    ensures r.None? <==> JsTrim(input) == [] || st.isTyping
    ensures r.Some? ==>
      var s := r.value;
      && s.message == JsTrim(input) && s.message != []
      && s.service == RequestedService(selected)
      && s.state.transcript == st.transcript + [Local(s.message, User, None)]
      && s.state.isTyping == st.hasTypingIndicator
      && s.state.currentSessionId == st.currentSessionId
      && s.state.hasTypingIndicator == st.hasTypingIndicator
      && s.state.connection == Online && s.state.lastActivity == now
    ensures r.Some? ==> (r.value.rename.Some? ==> |st.transcript| == 0)
    ensures r.Some? && |st.transcript| == 0 ==> r.value.rename == Title.AutoRename(st.currentSessionId, r.value.message)
  {
    var message := JsTrim(input);
    if message == [] || st.isTyping then None
    else
      var active := UpdateActivity(st, now);
      var rename := if |st.transcript| == 0 then Title.AutoRename(st.currentSessionId, message) else None;
      var shown := active.(transcript := st.transcript + [Local(message, User, None)]);
      Some(Started(shown.(isTyping := st.hasTypingIndicator || shown.isTyping), message, RequestedService(selected), rename))
  }

  /** The entry the answer to a chat request adds: the reply tagged with its
      service on a 2xx answer, the error text tagged 'error' otherwise. */
  function ReplyEntry(outcome: Option<Reply>): (e: Entry)
    ensures e.Local? && e.sender == Bot && e.service.Some?
    ensures outcome.Some? ==> e.text == outcome.value.response && e.service == Some(outcome.value.service)
    ensures outcome.None? ==> e.text == SendErrorText && e.service == Some(ErrorService)
  {
    match outcome
    case Some(reply) => Local(reply.response, Bot, Some(reply.service))
    case None => Local(SendErrorText, Bot, Some(ErrorService))
  }

  /** The rest of `sendMessage` once the chat request is answered (Some: a
      2xx answer; None: another status or no answer). */
  function SettleSend(st: State, outcome: Option<Reply>): (r: State)
    ensures r.transcript == st.transcript + [ReplyEntry(outcome)]
    ensures r.isTyping == (st.isTyping && !st.hasTypingIndicator)
    ensures r.connection == if outcome.None? then Offline else st.connection
    ensures r.currentSessionId == st.currentSessionId && r.lastActivity == st.lastActivity
    ensures r.hasTypingIndicator == st.hasTypingIndicator
  {
    var hidden := st.(isTyping := if st.hasTypingIndicator then false else st.isTyping);
    var answered := hidden.(transcript := hidden.transcript + [ReplyEntry(outcome)]);
    if outcome.None? then answered.(connection := Offline) else answered
  }

  /** A whole send with nothing interleaved: None when the send is refused.
      Exactly one reply per accepted send: the user's entry, then one bot
      entry, and the pending flag is down again. */
  function Send(st: State, input: string, selected: Option<string>, now: nat, outcome: Option<Reply>): (r: Option<State>)
    ensures r.None? <==> SendButtonDisabled(st, input)
    ensures r.Some? ==>
      && r.value.transcript == st.transcript + [Local(JsTrim(input), User, None), ReplyEntry(outcome)]
      && !r.value.isTyping
      && r.value.currentSessionId == st.currentSessionId
      && r.value.connection == (if outcome.None? then Offline else Online)
      && r.value.lastActivity == now
  {
    match BeginSend(st, input, selected, now)
    case None => None
    case Some(started) => Some(SettleSend(started.state, outcome))
  }

  /** `updateSendButton` disables the button exactly when `sendMessage`
      would return without sending. */
  lemma SendButtonMatchesGuard(st: State, input: string, selected: Option<string>, now: nat)
    ensures SendButtonDisabled(st, input) <==> BeginSend(st, input, selected, now).None?
  {
  }

  /** With the typing indicator on the page, a pending send refuses any
      other send. */
  lemma PendingSendBlocks(st: State, input: string, selected: Option<string>, now: nat, input2: string, selected2: Option<string>, now2: nat)
    requires st.hasTypingIndicator
    requires BeginSend(st, input, selected, now).Some?
    ensures BeginSend(BeginSend(st, input, selected, now).value.state, input2, selected2, now2).None?
  {
  }

  /** Without the typing indicator the pending flag is never raised, so a
      second message goes out before the first is answered. */
  lemma NoIndicatorAllowsDoubleSend()
    ensures var st := State([], false, Some(1), Online, 0, false);
      && BeginSend(st, "a", None, 1).Some?
      && BeginSend(BeginSend(st, "a", None, 1).value.state, "b", None, 2).Some?
      && |BeginSend(BeginSend(st, "a", None, 1).value.state, "b", None, 2).value.state.transcript| == 2
  {
    assert JsTrim("a") == "a" by { Title.TrimFixes("a"); }
    assert JsTrim("b") == "b" by { Title.TrimFixes("b"); }
  }

  // ----- history -----

  /** A bubble on screen: text, sender and the service tag shown. */
  datatype Bubble = Bubble(text: string, sender: Sender, tag: Option<string>)

  /** `getServiceDisplayName`: the four known service keys get a label; any
      other name is shown as it is. */
  function DisplayName(service: string): (r: string)
    ensures service == "gemini" ==> r == "Gemini AI"
    ensures service == "deepseek" ==> r == "Free Backup AI"
    ensures service == "auto" ==> r == "Auto Select"
    ensures service == "error" ==> r == "Error"
    ensures service !in {"gemini", "deepseek", "auto", "error"} ==> r == service
  {
    if service == "gemini" then "Gemini AI"
    else if service == "deepseek" then "Free Backup AI"
    else if service == "auto" then "Auto Select"
    else if service == "error" then "Error"
    else service
  }

  /** A label is shown as itself: translating twice changes nothing. */
  lemma DisplayNameSettles(service: string)
    ensures DisplayName(DisplayName(service)) == DisplayName(service)
  {
  }

  /** The service tag of a bubble: only bot bubbles with a non-empty service
      have one. */
  function ServiceTag(service: Option<string>, sender: Sender): (r: Option<string>)
    ensures r.Some? <==> sender == Bot && service.Some? && service.value != []
    ensures r.Some? ==> r.value == DisplayName(service.value)
  {
    if sender == Bot && service.Some? && service.value != [] then Some(DisplayName(service.value)) else None
  }

  /** `renderChatHistory`: one bubble per loaded row, in order, without a
      service tag; the type 'user' shows as the user and every other type as
      the bot. */
  function Render(rows: seq<Store.HistoryEntry>): (r: seq<Bubble>)
    ensures |r| == |rows|
    ensures forall i :: 0 <= i < |rows| ==> r[i].text == rows[i].content && r[i].tag.None?
    ensures forall i :: 0 <= i < |rows| ==> (r[i].sender == User <==> rows[i].kind == "user")
  {
    seq(|rows|, i requires 0 <= i < |rows| => Bubble(rows[i].content, if rows[i].kind == "user" then User else Bot, ServiceTag(None, Bot)))
  }

  datatype HistoryLoad = HistoryLoad(state: State, shown: Option<seq<Bubble>>)

  /** `loadChatHistory`. `fetched` is the history list of a 2xx answer (the
      empty list when the body has none); None is another status or no
      answer, and then the transcript and the screen are left alone. */
  function LoadHistory(st: State, fetched: Option<seq<Store.HistoryEntry>>): (r: HistoryLoad)
    ensures fetched.None? ==> r == HistoryLoad(st, None)
    ensures fetched.Some? ==>
      && |r.state.transcript| == |fetched.value|
      && (forall i :: 0 <= i < |fetched.value| ==> r.state.transcript[i] == Stored(fetched.value[i]))
      && r.shown == Some(Render(fetched.value))
    ensures r.state.(transcript := st.transcript) == st
  {
    match fetched
    case None => HistoryLoad(st, None)
    case Some(rows) =>
      HistoryLoad(st.(transcript := seq(|rows|, i requires 0 <= i < |rows| => Stored(rows[i]))), Some(Render(rows)))
  }

  // ----- sessions -----

  /** `getCurrentSession` as part of reloading the session list: a 2xx
      answer sets the current id to the server's (which may be none). */
  function RefreshCurrentSession(st: State, fetched: Option<Option<nat>>): (r: State)
    ensures fetched.Some? ==> r.currentSessionId == fetched.value
    ensures fetched.None? ==> r == st
    ensures r.(currentSessionId := st.currentSessionId) == st
  {
    match fetched
    case None => st
    case Some(id) => st.(currentSessionId := id)
  }

  /** The outcome of `switchSession`: the new state and whether the welcome
      message is shown. */
  datatype Switched = Switched(state: State, welcome: bool)

  /** `switchSession`. On a 2xx answer the id becomes current, the history
      is reloaded, the session list (and with it the current id) refreshed,
      and the welcome message shown when the transcript is empty. Otherwise
      nothing changes. */
  function SwitchSession(st: State, sid: nat, answer: Http, history: Option<seq<Store.HistoryEntry>>, current: Option<Option<nat>>): (r: Switched)
    ensures answer != Ok ==> r == Switched(st, false)
    ensures answer == Ok ==>
      && r.state.currentSessionId == (if current.Some? then current.value else Some(sid))
      && r.state.transcript == LoadHistory(st, history).state.transcript
      && r.welcome == (|r.state.transcript| == 0)
    ensures r.state.isTyping == st.isTyping && r.state.connection == st.connection
  {
    if answer != Ok then Switched(st, false)
    else
      var switched := st.(currentSessionId := Some(sid));
      var loaded := LoadHistory(switched, history).state;
      var refreshed := RefreshCurrentSession(loaded, current);
      Switched(refreshed, |refreshed.transcript| == 0)
  }

  /** The name `createNewSession` asks for: 'New Chat' when none is given. */
  function NewSessionName(name: Option<string>): (r: string)
    ensures r != []
    ensures name.Some? && name.value != [] ==> r == name.value
    ensures !(name.Some? && name.value != []) ==> r == DefaultSessionName
  {
    if name.Some? && name.value != [] then name.value else DefaultSessionName
  }

  /** `createNewSession`: on a 2xx answer the created session is switched
      to; otherwise nothing changes. */
  function CreateNewSession(st: State, created: Option<nat>, answer: Http, history: Option<seq<Store.HistoryEntry>>, current: Option<Option<nat>>): (r: Switched)
    ensures created.None? ==> r == Switched(st, false)
    ensures created.Some? ==> r == SwitchSession(st, created.value, answer, history, current)
  {
    match created
    case None => Switched(st, false)
    case Some(id) => SwitchSession(st, id, answer, history, current)
  }

  /** `deleteSession`: nothing happens unless the user confirms and the
      server answers 2xx; then the session list (with the current id) and
      the history are reloaded. */
  function DeleteSession(st: State, confirmed: bool, answer: Http, current: Option<Option<nat>>, history: Option<seq<Store.HistoryEntry>>): (r: State)
    ensures !confirmed || answer != Ok ==> r == st
    ensures confirmed && answer == Ok ==>
      && r.currentSessionId == RefreshCurrentSession(st, current).currentSessionId
      && r.transcript == LoadHistory(st, history).state.transcript
    ensures r.isTyping == st.isTyping && r.connection == st.connection
  {
    if !confirmed || answer != Ok then st
    else LoadHistory(RefreshCurrentSession(st, current), history).state
  }

  /** `renameSession`: a 2xx answer reloads the session list, which
      refreshes the current id; the transcript never changes. */
  function RenameSession(st: State, answer: Http, current: Option<Option<nat>>): (r: State)
    ensures r.transcript == st.transcript && r.isTyping == st.isTyping
    ensures answer != Ok ==> r == st
    ensures answer == Ok ==> r == RefreshCurrentSession(st, current)
  {
    if answer == Ok then RefreshCurrentSession(st, current) else st
  }

  /** The inline rename editor: a request goes out only for a trimmed name
      that is non-empty and differs from the original; otherwise the
      original title is restored. */
  function RenameDecision(original: string, edited: string): (r: Option<string>)
    ensures r.Some? <==> JsTrim(edited) != [] && JsTrim(edited) != original
    ensures r.Some? ==> r.value == JsTrim(edited)
  {
    var name := JsTrim(edited);
    if name != [] && name != original then Some(name) else None
  }
}
