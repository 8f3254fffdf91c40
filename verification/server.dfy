/** The chat server's request handlers. A visitor's signed cookie session is
    the value `Cookie` ({user_id?, session_id?}); each handler maps the store,
    the cookie, the request and any external result (the Gemini reply, the
    clock) to a new store, a new cookie and an HTTP response. */
module Server {
  import opened Options
  import opened Text
  import Seqs
  import Store

  datatype Cookie = Cookie(userId: Option<nat>, sessionId: Option<nat>)

  const NoCookie: Cookie := Cookie(None, None)

  /** The JSON bodies the handlers answer with. */
  datatype Body =
    | Page
    | Health(status: string, message: string)
    | Reply(response: string, service: string)
    | Failure(error: string)
    | Info(message: string)
    | History(history: seq<Store.HistoryEntry>)
    | Sessions(sessions: seq<Store.SessionSummary>)
    | NewSession(newSessionId: nat, message: string)
    | Stats(totalUsers: nat, totalSessions: nat, totalMessages: nat, userSessions: nat, userMessages: nat)
    | Current(currentSession: Option<nat>, currentUser: Option<nat>)

  datatype Response = Response(status: nat, body: Body)

  datatype Outcome = Outcome(db: Store.Db, cookie: Cookie, response: Response)

  /** The JSON body of POST /api/chat; None fields are absent keys. */
  datatype ChatRequest = ChatRequest(message: Option<string>, preferredService: Option<string>)

  /** The JSON body of session creation and rename. */
  datatype NameRequest = NameRequest(name: Option<string>)

  const HistoryLimit: int := 50

  // ----- the backup responder -----

  const GreetingReply: string := "Hello! I'm your AI assistant. How can I help you today?"
  const WellbeingReply: string := "I'm doing well, thank you! I'm here to help with any questions you have."
  const NameReply: string := "I'm your AI chatbot assistant. What would you like to know?"
  const HelpReply: string := "I'm here to help! You can ask me questions or have a conversation."
  const FarewellReply: string := "Goodbye! It was nice chatting with you."
  const EchoPrefix: string := "I understand you said: '"
  const EchoSuffix: string := "'. I'm a simple backup AI. For better responses, try the Gemini AI option!"

  function EchoReply(message: string): (r: string)
    ensures |r| == |EchoPrefix| + |message| + |EchoSuffix|
  {
    EchoPrefix + message + EchoSuffix
  }

  predicate Greets(t: string) { Contains(t, "hello") || Contains(t, "hi") }
  predicate AsksWellbeing(t: string) { Contains(t, "how are you") }
  predicate AsksName(t: string) { Contains(t, "name") }
  predicate AsksHelp(t: string) { Contains(t, "help") }
  predicate SaysBye(t: string) { Contains(t, "bye") }

  /** Which rule of the backup responder answers a message. */
  datatype Rule = Greeting | Wellbeing | AskedName | AskedHelp | Farewell | Echo

  /** The rules are case-insensitive substring tests tried in a fixed order:
      hello/hi, then "how are you", name, help, bye; Echo when none applies. */
  function Classify(message: string): (r: Rule)
    ensures var t := Lower(message);
      && (r == Greeting <==> Greets(t))
      && (r == Wellbeing <==> !Greets(t) && AsksWellbeing(t))
      && (r == AskedName <==> !Greets(t) && !AsksWellbeing(t) && AsksName(t))
      && (r == AskedHelp <==> !Greets(t) && !AsksWellbeing(t) && !AsksName(t) && AsksHelp(t))
      && (r == Farewell <==> !Greets(t) && !AsksWellbeing(t) && !AsksName(t) && !AsksHelp(t) && SaysBye(t))
      && (r == Echo <==> !Greets(t) && !AsksWellbeing(t) && !AsksName(t) && !AsksHelp(t) && !SaysBye(t))
  {
    var t := Lower(message);
    if Greets(t) then Greeting
    else if AsksWellbeing(t) then Wellbeing
    else if AsksName(t) then AskedName
    else if AsksHelp(t) then AskedHelp
    else if SaysBye(t) then Farewell
    else Echo
  }

  /** The reply text of each rule. */
  function RuleReply(rule: Rule, message: string): string {
    match rule
    case Greeting => GreetingReply
    case Wellbeing => WellbeingReply
    case AskedName => NameReply
    case AskedHelp => HelpReply
    case Farewell => FarewellReply
    case Echo => EchoReply(message)
  }

  /** `get_backup_response`: the first rule that applies to the lower-cased
      message picks a fixed reply; only a message no rule matches is echoed
      back, whole. */
  function BackupResponse(message: string): (r: string)
    ensures var t := Lower(message);
      && (Greets(t) ==> r == GreetingReply)
      && (!Greets(t) && AsksWellbeing(t) ==> r == WellbeingReply)
      && (!Greets(t) && !AsksWellbeing(t) && AsksName(t) ==> r == NameReply)
      && (!Greets(t) && !AsksWellbeing(t) && !AsksName(t) && AsksHelp(t) ==> r == HelpReply)
      && (!Greets(t) && !AsksWellbeing(t) && !AsksName(t) && !AsksHelp(t) && SaysBye(t) ==> r == FarewellReply)
    ensures r == EchoReply(message) <==> Classify(message) == Echo
  {
    RuleReply(Classify(message), message)
  }

  /** Messages that differ only in ASCII letter case get the same rule, and
      the same reply unless the reply echoes the message. */
  lemma BackupIgnoresCase(m1: string, m2: string)
    requires Lower(m1) == Lower(m2)
    ensures Classify(m1) == Classify(m2)
    ensures Classify(m1) != Echo ==> BackupResponse(m1) == BackupResponse(m2)
  {
  }

  /** The rules match substrings, not words: "this" contains "hi". */
  lemma GreetingMatchesInsideWords()
    ensures Classify("Is this working?") == Greeting
    ensures BackupResponse("Is this working?") == GreetingReply
  {
    var t := Lower("Is this working?");
    assert t[4..][..2] == "hi";
  }

  // ----- service routing -----

  const GeminiLabel: string := "Gemini AI"
  const BackupLabel: string := "Backup AI"
  const GeminiFailedLabel: string := "Backup AI (Gemini failed)"
  const ErrorHandlerLabel: string := "Error Handler"
  const ErrorHandlerReply: string := "Sorry, something went wrong. Please try again."

  datatype Routed = Routed(response: string, service: string)

  /** `if response:` on the Gemini result: None and the empty string fail. */
  predicate GeminiAnswered(gemini: Option<string>) {
    gemini.Some? && gemini.value != ""
  }

  /** The service selection of the chat handler. `gemini` is what the Gemini
      call would return; 'deepseek' never makes that call. */
  function Route(service: string, message: string, gemini: Option<string>): (r: Routed)
    ensures r.service == GeminiLabel <==> service != "deepseek" && GeminiAnswered(gemini)
    ensures r.service == GeminiLabel ==> r.response == gemini.value
    ensures r.service != GeminiLabel ==> r.response == BackupResponse(message)
    ensures r.service == GeminiFailedLabel <==> service == "gemini" && !GeminiAnswered(gemini)
    ensures r.service == BackupLabel <==> service != "gemini" && (service == "deepseek" || !GeminiAnswered(gemini))
  {
    if service == "gemini" then
      if GeminiAnswered(gemini) then Routed(gemini.value, GeminiLabel)
      else Routed(BackupResponse(message), GeminiFailedLabel)
    else if service == "deepseek" then
      Routed(BackupResponse(message), BackupLabel)
    else
      if GeminiAnswered(gemini) then Routed(gemini.value, GeminiLabel)
      else Routed(BackupResponse(message), BackupLabel)
  }

  /** 'deepseek' does not depend on the Gemini result at all. */
  lemma DeepseekNeverConsultsGemini(message: string, g1: Option<string>, g2: Option<string>)
    ensures Route("deepseek", message, g1) == Route("deepseek", message, g2)
    ensures Route("deepseek", message, g1) == Routed(BackupResponse(message), BackupLabel)
  {
  }

  // ----- the cookie session -----

  /** The session named by the cookie belongs to the cookie's user. */
  ghost predicate CookieOwnsSession(db: Store.Db, c: Cookie) {
    c.sessionId.Some? ==> c.userId.Some? && c.sessionId.value in Store.OwnedIds(db, c.userId.value)
  }

  /** The invariant every handler keeps for the visitor making the request. */
  ghost predicate Consistent(db: Store.Db, c: Cookie) {
    Store.Valid(db) && Store.NoOrphans(db) && CookieOwnsSession(db, c)
  }

  datatype Visit = Visit(db: Store.Db, cookie: Cookie)

  /** `if 'user_id' not in session: session['user_id'] = db.create_user()`. */
  function EnsureUser(db: Store.Db, c: Cookie, now: nat): (r: Visit)
    ensures r.cookie.userId.Some? && r.cookie.sessionId == c.sessionId
    ensures c.userId.Some? ==> r == Visit(db, c)
    ensures r.db.sessions == db.sessions && r.db.messages == db.messages && r.db.settings == db.settings
    ensures Consistent(db, c) ==> Consistent(r.db, r.cookie)
  {
    if c.userId.Some? then Visit(db, c)
    else
      var u := Store.CreateUser(db, Store.DefaultUsername, None, now);
      Visit(u.db, c.(userId := Some(u.id)))
  }

  /** `if 'session_id' not in session: session['session_id'] =
      db.create_chat_session(session['user_id'])`. */
  function EnsureSession(db: Store.Db, c: Cookie, now: nat): (r: Visit)
    requires c.userId.Some?
    ensures r.cookie.sessionId.Some? && r.cookie.userId == c.userId
    ensures c.sessionId.Some? ==> r == Visit(db, c)
    ensures r.db.users == db.users && r.db.messages == db.messages && r.db.settings == db.settings
    ensures r.cookie.sessionId.value in Store.OwnedIds(r.db, c.userId.value) || c.sessionId.Some?
    ensures Consistent(db, c) ==> Consistent(r.db, r.cookie)
  {
    if c.sessionId.Some? then Visit(db, c)
    else
      var s := Store.CreateChatSession(db, c.userId.value, Store.DefaultSessionName, now);
      Visit(s.db, c.(sessionId := Some(s.id)))
  }

  /** GET /: makes sure the visitor has a user and a current session. */
  function Index(db: Store.Db, c: Cookie, now: nat): (o: Outcome)
    ensures o.cookie.userId.Some? && o.cookie.sessionId.Some?
    ensures c.userId.Some? ==> o.cookie.userId == c.userId
    ensures c.sessionId.Some? ==> o.cookie.sessionId == c.sessionId
    ensures o.db.messages == db.messages
    ensures Consistent(db, c) ==> Consistent(o.db, o.cookie)
    ensures o.response == Response(200, Page)
  {
    var v := EnsureSession(EnsureUser(db, c, now).db, EnsureUser(db, c, now).cookie, now);
    Outcome(v.db, v.cookie, Response(200, Page))
  }

  // ----- chat -----

  /** A chat request that passes the emptiness check. */
  predicate Accepted(req: Option<ChatRequest>) {
    req.Some? && PyStrip(req.value.message.GetOr("")) != ""
  }

  /** The store after the visitor's user and session are in place. */
  function ChatVisit(db: Store.Db, c: Cookie, now: nat): (v: Visit)
    ensures v.cookie.userId.Some? && v.cookie.sessionId.Some?
    ensures c.userId.Some? ==> v.cookie.userId == c.userId
    ensures c.sessionId.Some? ==> v.cookie.sessionId == c.sessionId
    ensures v.db.messages == db.messages
    ensures Consistent(db, c) ==> Consistent(v.db, v.cookie)
  {
    var u := EnsureUser(db, c, now);
    EnsureSession(u.db, u.cookie, now)
  }

  /** POST /api/chat. */
  function Chat(db: Store.Db, c: Cookie, req: Option<ChatRequest>, gemini: Option<string>, now: nat): (o: Outcome)
    ensures req.None? ==> o == Outcome(db, c, Response(200, Reply(ErrorHandlerReply, ErrorHandlerLabel)))
    ensures req.Some? && !Accepted(req) ==> o == Outcome(db, c, Response(400, Failure("No message provided")))
    ensures Accepted(req) ==>
      var routed := Route(req.value.preferredService.GetOr("auto"), PyStrip(req.value.message.GetOr("")), gemini);
      o.response == Response(200, Reply(routed.response, routed.service))
    ensures Accepted(req) ==>
      && o.response.status == 200 && o.response.body.Reply?
      && o.cookie.sessionId.Some? && o.cookie.userId.Some?
      && (c.sessionId.Some? ==> o.cookie.sessionId == c.sessionId)
      && (c.userId.Some? ==> o.cookie.userId == c.userId)
      && |o.db.messages| == |db.messages| + 2
      && o.db.messages[..|db.messages|] == db.messages
      && ChatSaved(o.db.messages[|db.messages|], o.db.messages[|db.messages| + 1], o.cookie.sessionId.value,
                   PyStrip(req.value.message.GetOr("")), req.value.preferredService.GetOr("auto"), o.response.body)
    ensures Consistent(db, c) ==> Consistent(o.db, o.cookie)
  {
    match req
    case None => Outcome(db, c, Response(200, Reply(ErrorHandlerReply, ErrorHandlerLabel)))
    case Some(rq) =>
      var message := PyStrip(rq.message.GetOr(""));
      var service := rq.preferredService.GetOr("auto");
      if message == "" then Outcome(db, c, Response(400, Failure("No message provided")))
      else
        var v := ChatVisit(db, c, now);
        var sid := v.cookie.sessionId.value;
        var routed := Route(service, message, gemini);
        var answered := Exchange(v.db, sid, message, service, routed, now);
        ExchangeKeepsStore(v.db, sid, message, service, routed, now);
        Outcome(answered, v.cookie, Response(200, Reply(routed.response, routed.service)))
  }

  /** Saves the user's message and then the answer to session `sid`. */
  function Exchange(db: Store.Db, sid: nat, message: string, service: string, routed: Routed, now: nat): (r: Store.Db)
    ensures |r.messages| == |db.messages| + 2
    ensures r.messages[..|db.messages|] == db.messages
    ensures ChatSaved(r.messages[|db.messages|], r.messages[|db.messages| + 1], sid, message, service,
                      Reply(routed.response, routed.service))
    ensures r.users == db.users && r.settings == db.settings
    ensures Store.SessionIds(r) == Store.SessionIds(db)
    ensures forall uid :: Store.OwnedIds(r, uid) == Store.OwnedIds(db, uid)
  {
    var saved := SaveTagged(db, sid, "user", message, service, now);
    var answered := SaveTagged(saved, sid, "ai", routed.response, routed.service, now);
    Seqs.AppendTwice(db.messages, saved.messages[|db.messages|], answered.messages[|saved.messages|],
                     saved.messages, answered.messages);
    answered
  }

  /** Saving an exchange keeps the store valid, and keeps every message
      attached to a session when `sid` exists. */
  lemma ExchangeKeepsStore(db: Store.Db, sid: nat, message: string, service: string, routed: Routed, now: nat)
    ensures Store.Valid(db) ==> Store.Valid(Exchange(db, sid, message, service, routed, now))
    ensures Store.Valid(db) && Store.NoOrphans(db) && Store.HasSession(db, sid) ==>
      Store.NoOrphans(Exchange(db, sid, message, service, routed, now))
  {
    var saved := SaveTagged(db, sid, "user", message, service, now);
    assert Store.HasSession(db, sid) ==> Store.HasSession(saved, sid);
  }

  /** One message saved with its service as metadata; the part of
      `save_message`'s contract the chat handler relies on. */
  function SaveTagged(db: Store.Db, sid: nat, kind: string, content: string, service: string, now: nat): (r: Store.Db)
    ensures |r.messages| == |db.messages| + 1 && r.messages == db.messages + [r.messages[|db.messages|]]
    ensures var m := r.messages[|db.messages|];
      m.sessionId == sid && m.kind == kind && m.content == content && m.metadata == Some(ServiceMetadata(service))
    ensures r.users == db.users && r.settings == db.settings
    ensures Store.SessionIds(r) == Store.SessionIds(db)
    ensures forall uid :: Store.OwnedIds(r, uid) == Store.OwnedIds(db, uid)
    ensures Store.Valid(db) ==> Store.Valid(r)
    ensures Store.NoOrphans(db) && Store.HasSession(db, sid) ==> Store.NoOrphans(r)
  {
    var tag := ServiceMetadata(service);
    assert "service" in tag.Keys;
    Store.SaveMessage(db, sid, kind, content, Some(tag), now).db
  }

  /** The metadata the chat handler stores with each message: the service
      name under the key "service". It is never empty. */
  function ServiceMetadata(service: string): (m: Store.Metadata)
    ensures "service" in m && m["service"] == service && |m| == 1
  {
    map["service" := service]
  }

  /** The two rows an accepted chat stores: the user's message tagged with
      the requested service, then the answer tagged with the service that
      produced it, which is the service the reply names. */
  ghost predicate ChatSaved(u: Store.Message, a: Store.Message, sid: nat, message: string, requested: string, body: Body) {
    && body.Reply?
    && u.sessionId == sid && u.kind == "user" && u.content == message
    && u.metadata == Some(ServiceMetadata(requested))
    && a.sessionId == sid && a.kind == "ai" && a.content == body.response
    && a.metadata == Some(ServiceMetadata(body.service))
  }

  // ----- health, history and session list -----

  /** GET /api/health. */
  function HealthCheck(db: Store.Db, c: Cookie): (o: Outcome)
    ensures o.db == db && o.cookie == c && o.response.status == 200
  {
    Outcome(db, c, Response(200, Health("healthy", "Simple AI Chatbot is running!")))
  }

  /** GET /api/history. `limitArg` is the `limit` query argument, None when
      absent or not an integer (the handler then uses 50). The handler reads
      whatever session the cookie names; it does not check ownership. */
  function ChatHistory(db: Store.Db, c: Cookie, limitArg: Option<int>): (o: Outcome)
    ensures o.db == db && o.cookie == c && o.response.status == 200 && o.response.body.History?
    ensures c.sessionId.None? ==> o.response.body.history == []
    ensures c.sessionId.Some? ==>
      var h := o.response.body.history;
      var limit := limitArg.GetOr(HistoryLimit);
      && (forall e :: e in h ==> e in Store.SessionEntries(db, c.sessionId.value))
      && (limit >= 0 ==> |h| <= limit)
      && (limit >= 0 && Store.MessageCount(db, c.sessionId.value) > limit ==> |h| == limit)
      && (forall e, f :: e in h && f in Store.SessionEntries(db, c.sessionId.value) && f !in h ==> e.timestamp <= f.timestamp)
      && (forall i, j :: 0 <= i < j < |h| ==> h[i].timestamp <= h[j].timestamp)
      && (limit < 0 || Store.MessageCount(db, c.sessionId.value) <= limit ==>
            && |h| == Store.MessageCount(db, c.sessionId.value)
            && forall e :: e in Store.SessionEntries(db, c.sessionId.value) ==> e in h)
      && (Store.Valid(db) ==> forall i, j :: 0 <= i < j < |h| ==> h[i].id != h[j].id)
  {
    match c.sessionId
    case None => Outcome(db, c, Response(200, History([])))
    case Some(sid) => Outcome(db, c, Response(200, History(Store.GetChatHistory(db, sid, limitArg.GetOr(HistoryLimit)))))
  }

  /** GET /api/sessions: the visitor's own sessions only. */
  function UserSessions(db: Store.Db, c: Cookie): (o: Outcome)
    ensures o.db == db && o.cookie == c && o.response.status == 200 && o.response.body.Sessions?
    ensures c.userId.None? ==> o.response.body.sessions == []
    ensures c.userId.Some? ==> Store.SummaryIds(o.response.body.sessions) == Store.OwnedIds(db, c.userId.value)
  {
    match c.userId
    case None => Outcome(db, c, Response(200, Sessions([])))
    case Some(uid) => Outcome(db, c, Response(200, Sessions(Store.GetUserSessions(db, uid))))
  }

  // ----- session management -----

  const NoUserSession: string := "No user session"
  const NotOwned: string := "Session not found or access denied"

  /** The handlers' ownership test: the id is among those of the user's
      session list. */
  predicate Owns(db: Store.Db, uid: nat, sid: nat) {
    sid in Store.SummaryIds(Store.GetUserSessions(db, uid))
  }

  /** The ownership test through the session list agrees with the store's
      `user_id` column. */
  lemma OwnsMeansOwned(db: Store.Db, uid: nat, sid: nat)
    ensures Owns(db, uid, sid) <==> sid in Store.OwnedIds(db, uid)
  {
  }

  /** POST /api/sessions: creates a session for the visitor (creating the
      visitor's user first when needed) without making it current. A missing
      JSON body fails after the user was created. */
  function CreateSession(db: Store.Db, c: Cookie, req: Option<NameRequest>, now: nat): (o: Outcome)
    ensures o.cookie.userId.Some? && o.cookie.sessionId == c.sessionId
    ensures c.userId.Some? ==> o.cookie.userId == c.userId
    ensures o.db.messages == db.messages
    ensures req.None? ==> o.response == Response(500, Failure("Failed to create new session"))
    ensures req.Some? ==>
      && o.response.status == 200 && o.response.body.NewSession?
      && o.response.body.newSessionId in Store.OwnedIds(o.db, o.cookie.userId.value)
      && (Store.Valid(db) ==> o.response.body.newSessionId !in Store.SessionIds(db))
      && |o.db.sessions| == |db.sessions| + 1
      && o.db.sessions[|db.sessions|].name == req.value.name.GetOr(Store.DefaultSessionName)
      && o.db.sessions == db.sessions + [Store.ChatSession(o.response.body.newSessionId, o.cookie.userId.value,
                                                           req.value.name.GetOr(Store.DefaultSessionName), now, now)]
    ensures Consistent(db, c) && req.Some? ==> Store.MessageCount(o.db, o.response.body.newSessionId) == 0
    ensures Consistent(db, c) ==> Consistent(o.db, o.cookie)
  {
    var u := EnsureUser(db, c, now);
    match req
    case None => Outcome(u.db, u.cookie, Response(500, Failure("Failed to create new session")))
    case Some(rq) =>
      var s := Store.CreateChatSession(u.db, u.cookie.userId.value, rq.name.GetOr(Store.DefaultSessionName), now);
      Outcome(s.db, u.cookie, Response(200, NewSession(s.id, "New session created")))
  }

  /** POST /api/sessions/<id>/switch. */
  function SwitchSession(db: Store.Db, c: Cookie, sid: nat): (o: Outcome)
    ensures o.db == db && o.cookie.userId == c.userId
    ensures c.userId.None? ==> o == Outcome(db, c, Response(400, Failure(NoUserSession)))
    ensures c.userId.Some? && sid !in Store.OwnedIds(db, c.userId.value) ==> o == Outcome(db, c, Response(404, Failure(NotOwned)))
    ensures o.response.status == 200 <==> c.userId.Some? && sid in Store.OwnedIds(db, c.userId.value)
    ensures o.response.status == 200 ==> o.cookie.sessionId == Some(sid)
    ensures o.cookie.sessionId != c.sessionId ==> o.cookie.sessionId == Some(sid) && sid in Store.OwnedIds(db, c.userId.value)
    ensures Consistent(db, c) ==> Consistent(o.db, o.cookie)
  {
    match c.userId
    case None => Outcome(db, c, Response(400, Failure(NoUserSession)))
    case Some(uid) =>
      if !Owns(db, uid, sid) then Outcome(db, c, Response(404, Failure(NotOwned)))
      else Outcome(db, c.(sessionId := Some(sid)), Response(200, Info("Session switched successfully")))
  }

  /** DELETE /api/sessions/<id>. Deleting the current session makes a new
      one current. */
  function DeleteSession(db: Store.Db, c: Cookie, sid: nat, now: nat): (o: Outcome)
    ensures o.cookie.userId == c.userId
    ensures c.userId.None? ==> o == Outcome(db, c, Response(400, Failure(NoUserSession)))
    ensures c.userId.Some? && sid !in Store.OwnedIds(db, c.userId.value) ==> o == Outcome(db, c, Response(404, Failure(NotOwned)))
    ensures o.response.status == 200 <==> c.userId.Some? && sid in Store.OwnedIds(db, c.userId.value)
    ensures o.response.status == 200 ==>
      && (forall m :: m in o.db.messages <==> m in db.messages && m.sessionId != sid)
      && (c.sessionId != Some(sid) ==> o.cookie == c && !Store.HasSession(o.db, sid))
    ensures o.response.status == 200 && c.sessionId == Some(sid) && Consistent(db, c) ==>
      o.cookie.sessionId.Some? && Store.MessageCount(o.db, o.cookie.sessionId.value) == 0
    ensures o.response.status == 200 && c.sessionId != Some(sid) ==> o.db == Store.DeleteSession(db, sid)
    ensures o.response.status == 200 && c.sessionId == Some(sid) ==>
      var next := Store.CreateChatSession(Store.DeleteSession(db, sid), c.userId.value, Store.DefaultSessionName, now);
      o.db == next.db && o.cookie == c.(sessionId := Some(next.id))
    ensures Consistent(db, c) ==> Consistent(o.db, o.cookie)
  {
    match c.userId
    case None => Outcome(db, c, Response(400, Failure(NoUserSession)))
    case Some(uid) =>
      if !Owns(db, uid, sid) then Outcome(db, c, Response(404, Failure(NotOwned)))
      else
        var deleted := Store.DeleteSession(db, sid);
        var ok := Response(200, Info("Session deleted successfully"));
        if c.sessionId == Some(sid) then
          var next := Store.CreateChatSession(deleted, uid, Store.DefaultSessionName, now);
          Outcome(next.db, c.(sessionId := Some(next.id)), ok)
        else
          Outcome(deleted, c, ok)
  }

  /** PUT /api/sessions/<id>/rename. The name check comes before the
      ownership check; a missing JSON body fails with 500. */
  function RenameSession(db: Store.Db, c: Cookie, sid: nat, req: Option<NameRequest>, now: nat): (o: Outcome)
    ensures o.cookie == c
    ensures o.response.status != 200 ==> o.db == db
    ensures c.userId.None? ==> o.response == Response(400, Failure(NoUserSession))
    ensures c.userId.Some? && req.None? ==> o.response == Response(500, Failure("Failed to rename session"))
    ensures c.userId.Some? && req.Some? && PyStrip(req.value.name.GetOr("")) == "" ==>
      o.response == Response(400, Failure("Name is required"))
    ensures o.response.status == 200 <==>
      c.userId.Some? && req.Some? && PyStrip(req.value.name.GetOr("")) != "" && sid in Store.OwnedIds(db, c.userId.value)
    ensures o.response.status == 200 ==>
      && Store.SessionIds(o.db) == Store.SessionIds(db)
      && (forall uid :: Store.OwnedIds(o.db, uid) == Store.OwnedIds(db, uid))
      && (forall s :: s in o.db.sessions && s.id == sid ==> s.name == PyStrip(req.value.name.GetOr("")))
      && o.db.messages == db.messages && o.db.users == db.users && o.db.settings == db.settings
      && o.db == Store.UpdateSessionName(db, sid, PyStrip(req.value.name.GetOr("")), now)
    ensures Consistent(db, c) ==> Consistent(o.db, o.cookie)
  {
    match c.userId
    case None => Outcome(db, c, Response(400, Failure(NoUserSession)))
    case Some(uid) =>
      match req
      case None => Outcome(db, c, Response(500, Failure("Failed to rename session")))
      case Some(rq) =>
        var name := PyStrip(rq.name.GetOr(""));
        if name == "" then Outcome(db, c, Response(400, Failure("Name is required")))
        else if !Owns(db, uid, sid) then Outcome(db, c, Response(404, Failure(NotOwned)))
        else Outcome(Store.UpdateSessionName(db, sid, name, now), c, Response(200, Info("Session renamed successfully")))
  }

  // ----- statistics and the cookie itself -----

  /** GET /api/stats: store totals plus the visitor's own totals. */
  function DatabaseStats(db: Store.Db, c: Cookie): (o: Outcome)
    ensures o.db == db && o.cookie == c && o.response.status == 200 && o.response.body.Stats?
    ensures var b := o.response.body;
      && b.totalUsers == |db.users| && b.totalSessions == |db.sessions| && b.totalMessages == |db.messages|
    ensures c.userId.None? ==> o.response.body.userSessions == 0 && o.response.body.userMessages == 0
    ensures c.userId.Some? ==>
      o.response.body.userSessions == |Seqs.Filter(db.sessions, Store.OwnedBy(c.userId.value))|
    ensures c.userId.Some? && Store.Valid(db) ==>
      o.response.body.userMessages == Store.MessagesIn(db, Store.OwnedIds(db, c.userId.value))
  {
    var totals := Store.GetDatabaseStats(db);
    match c.userId
    case None => Outcome(db, c, Response(200, Stats(totals.users, totals.sessions, totals.messages, 0, 0)))
    case Some(uid) =>
      var mine := Store.GetUserSessions(db, uid);
      assert Store.Valid(db) ==> Seqs.SumOf(mine, Store.SummaryCount) == Store.MessagesIn(db, Store.OwnedIds(db, uid)) by {
        if Store.Valid(db) {
          Store.UserMessageTotal(db, uid);
        }
      }
      Outcome(db, c, Response(200, Stats(totals.users, totals.sessions, totals.messages, |mine|, Seqs.SumOf(mine, Store.SummaryCount))))
  }

  /** POST /api/clear-session: forgets the visitor's user and session. */
  function ClearSession(db: Store.Db, c: Cookie): (o: Outcome)
    ensures o.db == db && o.cookie == NoCookie && o.response.status == 200
    ensures Consistent(db, c) ==> Consistent(o.db, o.cookie)
  {
    Outcome(db, NoCookie, Response(200, Info("Session cleared successfully")))
  }

  /** GET /api/current-session. */
  function CurrentSession(db: Store.Db, c: Cookie): (o: Outcome)
    ensures o.db == db && o.cookie == c && o.response.status == 200 && o.response.body.Current?
    ensures o.response.body.currentSession == c.sessionId
    ensures c.sessionId.Some? ==> o.response.body.currentUser == c.userId
    ensures c.sessionId.None? ==> o.response.body.currentUser.None?
  {
    match c.sessionId
    case None => Outcome(db, c, Response(200, Current(None, None)))
    case Some(_) => Outcome(db, c, Response(200, Current(c.sessionId, c.userId)))
  }
}
