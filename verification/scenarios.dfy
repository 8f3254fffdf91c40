/** Properties that span the browser, the request handlers and the store:
    a chat round trip, deleting the current session, and two places where
    the pieces disagree (the shared anonymous user and the two notions of
    white space). */
module Scenarios {
  import opened Options
  import opened Text
  import Store
  import Server
  import Client

  /** The chat request the browser sends for an accepted send. */
  function RequestOf(s: Client.Started): Server.ChatRequest {
    Server.ChatRequest(Some(s.message), Some(s.service))
  }

  /** How the browser reads a chat answer: only a 2xx reply body counts. */
  function ReplyOf(r: Server.Response): (o: Option<Client.Reply>)
    ensures o.Some? <==> 200 <= r.status < 300 && r.body.Reply?
  {
    if 200 <= r.status < 300 && r.body.Reply? then Some(Client.Reply(r.body.response, r.body.service)) else None
  }

  /** A send the server accepts ends with a bot entry that shows exactly the
      stored answer and the service stored with it; the stored question is
      the browser's message stripped once more by the server. */
  lemma {:induction false} SendRoundTrip(st: Client.State, input: string, selected: Option<string>, now: nat,
                                         db: Store.Db, c: Server.Cookie, gemini: Option<string>, t: nat)
    requires Client.BeginSend(st, input, selected, now).Some?
    requires PyStrip(Client.BeginSend(st, input, selected, now).value.message) != []
    ensures var started := Client.BeginSend(st, input, selected, now).value;
      var o := Server.Chat(db, c, Some(RequestOf(started)), gemini, t);
      var after := Client.SettleSend(started.state, ReplyOf(o.response));
      && |o.db.messages| == |db.messages| + 2
      && o.db.messages[|db.messages|].content == PyStrip(started.message)
      && o.db.messages[|db.messages| + 1].metadata.Some?
      && "service" in o.db.messages[|db.messages| + 1].metadata.value
      && after.transcript == started.state.transcript + [Client.Local(
           o.db.messages[|db.messages| + 1].content, Client.Bot,
           Some(o.db.messages[|db.messages| + 1].metadata.value["service"]))]
  {
    var started := Client.BeginSend(st, input, selected, now).value;
    var o := Server.Chat(db, c, Some(RequestOf(started)), gemini, t);
    assert Server.Accepted(Some(RequestOf(started)));
  }

  /** The service labels the server answers with are shown unchanged. */
  lemma ServerLabelsShownAsIs()
    ensures Client.DisplayName(Server.GeminiLabel) == Server.GeminiLabel
    ensures Client.DisplayName(Server.BackupLabel) == Server.BackupLabel
    ensures Client.DisplayName(Server.GeminiFailedLabel) == Server.GeminiFailedLabel
    ensures Client.DisplayName(Server.ErrorHandlerLabel) == Server.ErrorHandlerLabel
  {
  }

  /** Whatever service the chat handler routes to, the browser shows its
      label unchanged: the handler's labels are not among the keys the
      browser translates. */
  lemma RoutedLabelsShownAsIs(service: string, message: string, gemini: Option<string>)
    ensures var routed := Server.Route(service, message, gemini);
      Client.DisplayName(routed.service) == routed.service
  {
    ServerLabelsShownAsIs();
  }

  /** A session without messages has an empty history. */
  lemma EmptySessionHistory(db: Store.Db, c: Server.Cookie)
    requires c.sessionId.Some? && Store.MessageCount(db, c.sessionId.value) == 0
    ensures Server.ChatHistory(db, c, None).response.body.history == []
  {
    assert Server.HistoryLimit >= 0;
  }

  /** Reloading an empty history leaves an empty transcript. */
  lemma ReloadEmpty(st: Client.State, current: Option<Option<nat>>)
    ensures Client.DeleteSession(st, true, Client.Ok, current, Some([])).transcript == []
  {
    var loaded := Client.LoadHistory(Client.RefreshCurrentSession(st, current), Some([]));
    assert |loaded.state.transcript| == 0;
  }

  /** After the current session is deleted, the history the browser reloads
      is empty: the replacement session has no messages. */
  lemma DeleteCurrentThenReload(db: Store.Db, c: Server.Cookie, sid: nat, now: nat, st: Client.State)
    requires Server.Consistent(db, c)
    requires c.userId.Some? && c.sessionId == Some(sid)
    ensures var o := Server.DeleteSession(db, c, sid, now);
      var h := Server.ChatHistory(o.db, o.cookie, None).response.body.history;
      && o.response.status == 200
      && h == []
      && Client.DeleteSession(st, true, Client.Ok, Some(o.cookie.sessionId), Some(h)).transcript == []
  {
    var o := Server.DeleteSession(db, c, sid, now);
    assert sid in Store.OwnedIds(db, c.userId.value);
    EmptySessionHistory(o.db, o.cookie);
    ReloadEmpty(st, Some(o.cookie.sessionId));
  }

  /** Creating a session from the browser: the new session is listed for
      the visitor, switching to it succeeds, its history is empty, and the
      browser ends up on it showing the welcome message. */
  lemma NewSessionRoundTrip(db: Store.Db, c: Server.Cookie, name: Option<string>, now: nat, st: Client.State)
    requires Server.Consistent(db, c)
    ensures var o1 := Server.CreateSession(db, c, Some(Server.NameRequest(Some(Client.NewSessionName(name)))), now);
      var id := o1.response.body.newSessionId;
      var o2 := Server.SwitchSession(o1.db, o1.cookie, id);
      var h := Server.ChatHistory(o2.db, o2.cookie, None).response.body.history;
      var shown := Client.CreateNewSession(st, Some(id), Client.Ok, Some(h),
                                           Some(Server.CurrentSession(o2.db, o2.cookie).response.body.currentSession));
      && id in Store.SummaryIds(Server.UserSessions(o1.db, o1.cookie).response.body.sessions)
      && o2.response.status == 200
      && h == []
      && shown.state.currentSessionId == Some(id)
      && shown.state.transcript == []
      && shown.welcome
  {
    var o1 := Server.CreateSession(db, c, Some(Server.NameRequest(Some(Client.NewSessionName(name)))), now);
    var id := o1.response.body.newSessionId;
    var o2 := Server.SwitchSession(o1.db, o1.cookie, id);
    EmptySessionHistory(o2.db, o2.cookie);
  }

  /** The first visitor's first page load on an empty store. */
  const A0: Server.Outcome := Server.Index(Store.Empty, Server.NoCookie, 0)

  /** The first visitor's store and cookie. */
  lemma FirstVisit()
    ensures A0.cookie == Server.Cookie(Some(1), Some(1))
    ensures A0.db == Store.Db([Store.User(1, Store.DefaultUsername, None, 0)],
                              [Store.ChatSession(1, 1, Store.DefaultSessionName, 0, 0)], [], [])
  {
    var u := Store.CreateUser(Store.Empty, Store.DefaultUsername, None, 0);
    assert u.db.users == [Store.User(1, Store.DefaultUsername, None, 0)];
    var s := Store.CreateChatSession(u.db, 1, Store.DefaultSessionName, 0);
    assert s.db.sessions == [Store.ChatSession(1, 1, Store.DefaultSessionName, 0, 0)];
  }

  /** A second visitor's first page load. */
  const B0: Server.Outcome := Server.Index(A0.db, Server.NoCookie, 1)

  /** A second visitor gets the first visitor's user and a session of its
      own. */
  lemma SecondVisit()
    ensures B0.cookie == Server.Cookie(Some(1), Some(2))
    ensures B0.db.sessions == A0.db.sessions + [Store.ChatSession(2, 1, Store.DefaultSessionName, 1, 1)]
  {
    FirstVisit();
    assert Store.FindUser(A0.db.users, Store.DefaultUsername) == Some(0);
    var u := Server.EnsureUser(A0.db, Server.NoCookie, 1);
    assert u == Server.Visit(A0.db, Server.Cookie(Some(1), None));
  }

  /** The first visitor starts out consistent. */
  lemma FirstVisitConsistent()
    ensures Server.Consistent(A0.db, A0.cookie)
  {
    Store.EmptyIsValid();
    assert Server.Consistent(Store.Empty, Server.NoCookie);
  }

  /** A session owned by the visitor's user, other than the visitor's
      current one, is deleted outright. */
  lemma DeleteOtherSession(db: Store.Db, c: Server.Cookie, sid: nat, now: nat)
    requires c.userId.Some? && sid in Store.OwnedIds(db, c.userId.value) && c.sessionId != Some(sid)
    ensures Server.DeleteSession(db, c, sid, now).response.status == 200
    ensures !Store.HasSession(Server.DeleteSession(db, c, sid, now).db, sid)
  {
  }

  /** A cookie naming a session that is gone is not consistent. */
  lemma MissingSessionInconsistent(db: Store.Db, c: Server.Cookie)
    requires c.sessionId.Some? && !Store.HasSession(db, c.sessionId.value)
    ensures !Server.Consistent(db, c)
  {
  }

  /** The second visitor's user owns the first visitor's session. */
  lemma SecondVisitorOwnsFirstSession()
    ensures B0.cookie.userId == A0.cookie.userId == Some(1)
    ensures A0.cookie.sessionId == Some(1) && B0.cookie.sessionId == Some(2)
    ensures 1 in Store.OwnedIds(B0.db, 1)
  {
    FirstVisit();
    SecondVisit();
    assert B0.db.sessions[0] == Store.ChatSession(1, 1, Store.DefaultSessionName, 0, 0);
  }

  /** Every visitor gets the same anonymous user, so a second visitor may
      delete the first visitor's current session: the first visitor's cookie
      then names a session that no longer exists. */
  lemma SharedUserBreaksIsolation()
    ensures Server.Consistent(A0.db, A0.cookie)
    ensures var d := Server.DeleteSession(B0.db, B0.cookie, 1, 2);
      && B0.cookie.userId == A0.cookie.userId
      && A0.cookie.sessionId == Some(1)
      && d.response.status == 200
      && !Store.HasSession(d.db, 1)
      && !Server.Consistent(d.db, A0.cookie)
  {
    FirstVisitConsistent();
    SecondVisitorOwnsFirstSession();
    DeleteOtherSession(B0.db, B0.cookie, 1, 2);
    MissingSessionInconsistent(Server.DeleteSession(B0.db, B0.cookie, 1, 2).db, A0.cookie);
  }

  /** A chat sent with a cookie whose session no longer exists is still
      saved, to that missing session: the store then holds messages of no
      session. The first visitor's cookie after `SharedUserBreaksIsolation`
      is such a cookie. */
  lemma StaleCookieOrphansMessages(db: Store.Db, c: Server.Cookie, req: Option<Server.ChatRequest>, gemini: Option<string>, now: nat)
    requires c.userId.Some? && c.sessionId.Some? && !Store.HasSession(db, c.sessionId.value)
    requires Server.Accepted(req)
    ensures !Store.NoOrphans(Server.Chat(db, c, req, gemini, now).db)
  {
    var o := Server.Chat(db, c, req, gemini, now);
    var m := o.db.messages[|db.messages|];
    assert m in o.db.messages;
    assert m.sessionId == c.sessionId.value;
  }

  /** Deleting the newest session while it is current hands out its id
      again: the replacement session reuses the deleted session's id. */
  lemma DeletedIdReused()
    ensures var d := Server.DeleteSession(A0.db, A0.cookie, 1, 5);
      && d.response.status == 200
      && A0.cookie.sessionId == Some(1)
      && d.cookie.sessionId == Some(1)
      && d.db.sessions == [Store.ChatSession(1, 1, Store.DefaultSessionName, 5, 5)]
  {
    FirstVisit();
    assert 1 in Store.OwnedIds(A0.db, 1);
    assert Store.DeleteSession(A0.db, 1).sessions == [];
  }

  const Separator: string := "\U{001C}"

  /** U+001C survives the browser's trim and not the server's strip. */
  lemma SeparatorTrims()
    ensures JsTrim(Separator) == Separator && PyStrip(Separator) == []
  {
    assert !JsIsSpace(Separator[0]) && PyIsSpace(Separator[0]);
    assert LeadingSpaces(Separator, JsIsSpace) == 0;
  }

  /** The browser trims JavaScript white space and the server strips Python
      white space. The information separator U+001C is only the latter: the
      browser sends a message of it, the server refuses it with 400, and the
      browser shows the send error and marks itself offline. */
  lemma SeparatorMessageLooksLikeOutage(st: Client.State, db: Store.Db, c: Server.Cookie, gemini: Option<string>, t: nat)
    requires !st.isTyping
    ensures var started := Client.BeginSend(st, Separator, None, t);
      && started.Some?
      && var o := Server.Chat(db, c, Some(RequestOf(started.value)), gemini, t);
      && o == Server.Outcome(db, c, Server.Response(400, Server.Failure("No message provided")))
      && Client.SettleSend(started.value.state, ReplyOf(o.response)).connection == Client.Offline
  {
    SeparatorTrims();
    var started := Client.BeginSend(st, Separator, None, t);
    assert started.Some? && started.value.message == Separator;
    var o := Server.Chat(db, c, Some(RequestOf(started.value)), gemini, t);
    assert !Server.Accepted(Some(RequestOf(started.value)));
    assert o.response.status == 400;
  }

  /** The byte order mark U+FEFF is JavaScript white space but not Python
      white space: the browser refuses to send it although the server would
      accept it. */
  lemma ByteOrderMarkRefused(st: Client.State, t: nat)
    ensures JsTrim("\U{FEFF}") == [] && PyStrip("\U{FEFF}") == "\U{FEFF}"
    ensures Client.BeginSend(st, "\U{FEFF}", None, t).None?
  {
    assert JsIsSpace("\U{FEFF}"[0]) && !PyIsSpace("\U{FEFF}"[0]);
  }

  /** An inline rename to U+001C passes the browser's check and fails the
      server's. */
  lemma SeparatorRenameRefused(db: Store.Db, c: Server.Cookie, sid: nat, t: nat)
    requires c.userId.Some?
    ensures Client.RenameDecision("Chat", Separator) == Some(Separator)
    ensures Server.RenameSession(db, c, sid, Some(Server.NameRequest(Some(Separator))), t).response
            == Server.Response(400, Server.Failure("Name is required"))
  {
    SeparatorTrims();
    assert Separator != "Chat";
  }
}
