/** The chat store (`ChatDatabase` over the tables users, chat_sessions,
    messages and user_settings) as an immutable value. Each table is a
    sequence of rows in row-id order; every operation is a pure function from
    one store value to the next, with the clock reading `now` passed in.

    Row ids follow SQLite's rowid rule for a table without the AUTOINCREMENT
    keyword: a new row gets one more than the largest id present, which is the
    id of the last row. Foreign keys are not enforced (SQLite's default). */
module Store {
  import opened Options
  import Seqs

  /** A message's metadata: the JSON object the server attaches to it. */
  type Metadata = map<string, string>

  const DefaultUsername: string := "Anonymous"
  const DefaultSessionName: string := "New Chat"

  datatype User = User(id: nat, username: string, email: Option<string>, createdAt: nat)
  datatype ChatSession = ChatSession(id: nat, userId: nat, name: string, createdAt: nat, updatedAt: nat)
  datatype Message = Message(id: nat, sessionId: nat, kind: string, content: string, timestamp: nat, metadata: Option<Metadata>)
  datatype Setting = Setting(userId: nat, key: string, value: string, updatedAt: nat)

  datatype Db = Db(users: seq<User>, sessions: seq<ChatSession>, messages: seq<Message>, settings: seq<Setting>)

  const Empty: Db := Db([], [], [], [])

  /** A store after an insertion, with the id of the inserted (or found) row. */
  datatype Created = Created(db: Db, id: nat)

  /** One row of `get_chat_history`'s result. */
  datatype HistoryEntry = HistoryEntry(id: nat, kind: string, content: string, timestamp: nat, metadata: Metadata)

  /** One row of `get_user_sessions`'s result. */
  datatype SessionSummary = SessionSummary(
    id: nat, name: string, createdAt: nat, updatedAt: nat,
    messageCount: nat, lastMessageTime: Option<nat>)

  // ----- keys and selectors -----

  function UserKey(u: User): int { u.id }
  function SessionKey(s: ChatSession): int { s.id }
  function MessageKey(m: Message): int { m.id }
  function MessageTime(m: Message): int { m.timestamp }
  function NewestFirst(s: ChatSession): int { 0 - s.updatedAt as int }

  function OfSession(sid: nat): Message -> bool { (m: Message) => m.sessionId == sid }
  function NotOfSession(sid: nat): Message -> bool { (m: Message) => m.sessionId != sid }
  function OwnedBy(uid: nat): ChatSession -> bool { (s: ChatSession) => s.userId == uid }
  function NotWithId(sid: nat): ChatSession -> bool { (s: ChatSession) => s.id != sid }

  function IdsOf(ss: seq<ChatSession>): set<nat> { set s | s in ss :: s.id }
  function OwnedIdsOf(ss: seq<ChatSession>, uid: nat): set<nat> { set s | s in ss && s.userId == uid :: s.id }
  function SessionIds(db: Db): set<nat> { IdsOf(db.sessions) }
  function OwnedIds(db: Db, uid: nat): set<nat> { OwnedIdsOf(db.sessions, uid) }
  function Usernames(db: Db): set<string> { set u | u in db.users :: u.username }
  function UserIdsNamed(db: Db, username: string): set<nat> { set u | u in db.users && u.username == username :: u.id }

  predicate HasSession(db: Db, sid: nat) { sid in SessionIds(db) }

  /** Number of messages stored for session `sid` (0 when it has none). */
  function MessageCount(db: Db, sid: nat): nat {
    |Seqs.Filter(db.messages, OfSession(sid))|
  }

  // ----- invariants -----

  ghost predicate UsersValid(us: seq<User>) {
    && Seqs.StrictlyIncreasing(us, UserKey)
    && (forall u :: u in us ==> u.id >= 1)
    && (forall i, j :: 0 <= i < j < |us| ==> us[i].username != us[j].username)
  }

  ghost predicate SessionsValid(ss: seq<ChatSession>) {
    && Seqs.StrictlyIncreasing(ss, SessionKey)
    && (forall s :: s in ss ==> s.id >= 1)
  }

  ghost predicate MessagesValid(ms: seq<Message>) {
    && Seqs.StrictlyIncreasing(ms, MessageKey)
    && (forall m :: m in ms ==> m.id >= 1)
  }

  /** The unique constraint on (user_id, setting_key). */
  ghost predicate SettingsValid(ss: seq<Setting>) {
    forall i, j :: 0 <= i < j < |ss| ==> !(ss[i].userId == ss[j].userId && ss[i].key == ss[j].key)
  }

  /** What the schema guarantees of every reachable store: unique positive
      row ids in insertion order, unique usernames, one setting per key. */
  ghost predicate Valid(db: Db) {
    && UsersValid(db.users)
    && SessionsValid(db.sessions)
    && MessagesValid(db.messages)
    && SettingsValid(db.settings)
  }

  /** Every message belongs to a session that exists. SQLite does not enforce
      this; the server keeps it as long as a visitor's current session is not
      deleted by someone else. */
  ghost predicate NoOrphans(db: Db) {
    forall m :: m in db.messages ==> m.sessionId in SessionIds(db)
  }

  lemma EmptyIsValid()
    ensures Valid(Empty) && NoOrphans(Empty)
  {
  }

  // ----- users -----

  /** Position of the user named `username`, if any. */
  function FindUser(us: seq<User>, username: string): (r: Option<nat>)
    ensures r.Some? ==> r.value < |us| && us[r.value].username == username
    ensures r.None? ==> forall u :: u in us ==> u.username != username
  {
    if |us| == 0 then None
    else if us[|us| - 1].username == username then Some(|us| - 1)
    else FindUser(us[..|us| - 1], username)
  }

  function NextUserId(us: seq<User>): nat {
    if |us| == 0 then 1 else us[|us| - 1].id + 1
  }

  /** The next user id exceeds every id in a valid users table. */
  lemma NextUserIdIsFresh(us: seq<User>)
    requires UsersValid(us)
    ensures forall v :: v in us ==> v.id < NextUserId(us)
  {
    forall v | v in us
      ensures v.id < NextUserId(us)
    {
      Seqs.LastIsLargest(us, UserKey, v);
    }
  }

  /** `create_user`: inserts a user; when the unique username is already
      taken the insert fails and the existing user's id is returned. */
  function CreateUser(db: Db, username: string, email: Option<string>, now: nat): (r: Created)
    ensures r.id in UserIdsNamed(r.db, username)
    ensures username in Usernames(db) <==> r.db == db
    ensures username !in Usernames(db) ==> r.db.users == db.users + [User(r.id, username, email, now)]
    ensures r.db.sessions == db.sessions && r.db.messages == db.messages && r.db.settings == db.settings
    ensures Valid(db) ==> Valid(r.db) && r.id >= 1
    ensures Valid(db) && username !in Usernames(db) ==> forall v :: v in db.users ==> v.id < r.id
    ensures NoOrphans(db) ==> NoOrphans(r.db)
  {
    match FindUser(db.users, username)
    case Some(i) =>
      assert db.users[i] in db.users;
      Created(db, db.users[i].id)
    case None =>
      var u := User(NextUserId(db.users), username, email, now);
      var users := db.users + [u];
      assert u in users;
      assert username !in Usernames(db);
      assert UsersValid(db.users) ==> UsersValid(users) by {
        if UsersValid(db.users) {
          NextUserIdIsFresh(db.users);
          Seqs.AppendKeepsIncreasing(db.users, u, UserKey);
        }
      }
      assert UsersValid(db.users) ==> forall v :: v in db.users ==> v.id < u.id by {
        if UsersValid(db.users) {
          NextUserIdIsFresh(db.users);
        }
      }
      Created(db.(users := users), u.id)
  }

  /** Every visitor is created with the default username, which is unique, so
      the second and later calls find the first visitor's user: they all share
      one user id and add nothing to the store. */
  lemma {:induction false} SharedAnonymousUser(db: Db, email1: Option<string>, email2: Option<string>, t1: nat, t2: nat)
    requires Valid(db)
    ensures var a := CreateUser(db, DefaultUsername, email1, t1);
            var b := CreateUser(a.db, DefaultUsername, email2, t2);
            b.id == a.id && b.db == a.db
  {
    var a := CreateUser(db, DefaultUsername, email1, t1);
    var b := CreateUser(a.db, DefaultUsername, email2, t2);
    assert DefaultUsername in Usernames(a.db);
    assert b.id in UserIdsNamed(a.db, DefaultUsername);
    assert a.id in UserIdsNamed(a.db, DefaultUsername);
    var ub :| ub in a.db.users && ub.username == DefaultUsername && ub.id == b.id;
    var ua :| ua in a.db.users && ua.username == DefaultUsername && ua.id == a.id;
    var i :| 0 <= i < |a.db.users| && a.db.users[i] == ua;
    var j :| 0 <= j < |a.db.users| && a.db.users[j] == ub;
    assert i == j;
  }

  // ----- sessions -----

  function NextSessionId(ss: seq<ChatSession>): nat {
    if |ss| == 0 then 1 else ss[|ss| - 1].id + 1
  }

  lemma NextSessionIdIsFresh(ss: seq<ChatSession>)
    requires SessionsValid(ss)
    ensures forall v :: v in ss ==> v.id < NextSessionId(ss)
  {
    forall v | v in ss
      ensures v.id < NextSessionId(ss)
    {
      Seqs.LastIsLargest(ss, SessionKey, v);
    }
  }

  /** A filter that keeps nothing yields nothing. */
  lemma FilterOfNoneIsEmpty(ms: seq<Message>, sid: nat)
    requires forall m :: m in ms ==> m.sessionId != sid
    ensures Seqs.Filter(ms, OfSession(sid)) == []
  {
  }

  /** `create_chat_session`: a new session row owned by `userId`, named
      `name`, stamped `now`, under an id that no session has. */
  function CreateChatSession(db: Db, userId: nat, name: string, now: nat): (r: Created)
    ensures r.db.sessions == db.sessions + [ChatSession(r.id, userId, name, now, now)]
    ensures r.db.users == db.users && r.db.messages == db.messages && r.db.settings == db.settings
    ensures r.id in OwnedIds(r.db, userId)
    ensures Valid(db) ==> Valid(r.db) && r.id >= 1 && r.id !in SessionIds(db)
    ensures Valid(db) && NoOrphans(db) ==> NoOrphans(r.db) && MessageCount(r.db, r.id) == 0
  {
    var c := ChatSession(NextSessionId(db.sessions), userId, name, now, now);
    var r := Created(db.(sessions := db.sessions + [c]), c.id);
    assert c in r.db.sessions;
    assert Valid(db) ==> Valid(r.db) && c.id !in SessionIds(db) by {
      if Valid(db) {
        NextSessionIdIsFresh(db.sessions);
        Seqs.AppendKeepsIncreasing(db.sessions, c, SessionKey);
      }
    }
    assert Valid(db) && NoOrphans(db) ==> MessageCount(r.db, r.id) == 0 by {
      if Valid(db) && NoOrphans(db) {
        NextSessionIdIsFresh(db.sessions);
        FilterOfNoneIsEmpty(db.messages, c.id);
      }
    }
    r
  }

  // ----- messages -----

  function NextMessageId(ms: seq<Message>): nat {
    if |ms| == 0 then 1 else ms[|ms| - 1].id + 1
  }

  lemma NextMessageIdIsFresh(ms: seq<Message>)
    requires MessagesValid(ms)
    ensures forall v :: v in ms ==> v.id < NextMessageId(ms)
  {
    forall v | v in ms
      ensures v.id < NextMessageId(ms)
    {
      Seqs.LastIsLargest(ms, MessageKey, v);
    }
  }

  /** The metadata column: `json.dumps(metadata) if metadata else None`, so
      an absent or empty object is stored as NULL. */
  function StoredMetadata(metadata: Option<Metadata>): Option<Metadata> {
    if metadata.Some? && |metadata.value| > 0 then metadata else None
  }

  /** Reading the column back: NULL reads as the empty object. */
  function ReadMetadata(stored: Option<Metadata>): Metadata {
    stored.GetOr(map[])
  }

  /** Metadata reads back as written, an absent object reading as `{}`. */
  lemma MetadataRoundTrip(metadata: Option<Metadata>)
    ensures ReadMetadata(StoredMetadata(metadata)) == metadata.GetOr(map[])
    ensures StoredMetadata(metadata).Some? ==> |StoredMetadata(metadata).value| > 0
  {
    if metadata.Some? && |metadata.value| == 0 {
      assert metadata.value.Keys == {};
      assert metadata.value == map[];
    }
  }

  /** `updated_at` bumped to `now` on the session `sid`, if it exists. */
  function Touch(ss: seq<ChatSession>, sid: nat, now: nat): (r: seq<ChatSession>)
    ensures |r| == |ss|
    ensures forall i :: 0 <= i < |ss| ==> r[i] == if ss[i].id == sid then ss[i].(updatedAt := now) else ss[i]
  {
    seq(|ss|, i requires 0 <= i < |ss| => if ss[i].id == sid then ss[i].(updatedAt := now) else ss[i])
  }

  /** Rewriting sessions in place without touching their ids or owners keeps
      the table valid and keeps every id and ownership. */
  lemma SameIdsAndOwners(a: seq<ChatSession>, b: seq<ChatSession>)
    requires |a| == |b|
    requires forall i :: 0 <= i < |a| ==> b[i].id == a[i].id && b[i].userId == a[i].userId
    ensures SessionsValid(a) ==> SessionsValid(b)
    ensures IdsOf(b) == IdsOf(a)
    ensures forall uid :: OwnedIdsOf(b, uid) == OwnedIdsOf(a, uid)
  {
    forall uid
      ensures OwnedIdsOf(b, uid) == OwnedIdsOf(a, uid)
    {
      OwnedIdsIncluded(a, b, uid);
      OwnedIdsIncluded(b, a, uid);
    }
    IdsIncluded(a, b);
    IdsIncluded(b, a);
    if SessionsValid(a) {
      forall s | s in b
        ensures s.id >= 1
      {
        var i :| 0 <= i < |b| && b[i] == s;
        assert a[i] in a;
      }
    }
  }

  lemma IdsIncluded(a: seq<ChatSession>, b: seq<ChatSession>)
    requires |a| == |b|
    requires forall i :: 0 <= i < |a| ==> b[i].id == a[i].id
    ensures IdsOf(a) <= IdsOf(b)
  {
    forall x | x in IdsOf(a)
      ensures x in IdsOf(b)
    {
      var s :| s in a && s.id == x;
      var i :| 0 <= i < |a| && a[i] == s;
      assert b[i] in b;
    }
  }

  lemma OwnedIdsIncluded(a: seq<ChatSession>, b: seq<ChatSession>, uid: nat)
    requires |a| == |b|
    requires forall i :: 0 <= i < |a| ==> b[i].id == a[i].id && b[i].userId == a[i].userId
    ensures OwnedIdsOf(a, uid) <= OwnedIdsOf(b, uid)
  {
    forall x | x in OwnedIdsOf(a, uid)
      ensures x in OwnedIdsOf(b, uid)
    {
      var s :| s in a && s.userId == uid && s.id == x;
      var i :| 0 <= i < |a| && a[i] == s;
      assert b[i] in b;
    }
  }

  /** `save_message`: appends exactly one message (timestamped `now`, with its
      metadata stored only when non-empty) and bumps the session's
      `updated_at`. The insert succeeds even when `sid` names no session. */
  function SaveMessage(db: Db, sid: nat, kind: string, content: string, metadata: Option<Metadata>, now: nat): (r: Created)
    ensures r.db.messages == db.messages + [Message(r.id, sid, kind, content, now, StoredMetadata(metadata))]
    ensures |r.db.sessions| == |db.sessions|
    ensures forall i :: 0 <= i < |db.sessions| ==>
      r.db.sessions[i] == if db.sessions[i].id == sid then db.sessions[i].(updatedAt := now) else db.sessions[i]
    ensures r.db.users == db.users && r.db.settings == db.settings
    ensures SessionIds(r.db) == SessionIds(db)
    ensures forall uid :: OwnedIds(r.db, uid) == OwnedIds(db, uid)
    ensures MessageCount(r.db, sid) == MessageCount(db, sid) + 1
    ensures forall other :: other != sid ==> MessageCount(r.db, other) == MessageCount(db, other)
    ensures Valid(db) ==> Valid(r.db) && r.id >= 1 && forall m :: m in db.messages ==> m.id < r.id
    ensures NoOrphans(db) && HasSession(db, sid) ==> NoOrphans(r.db)
  {
    var m := Message(NextMessageId(db.messages), sid, kind, content, now, StoredMetadata(metadata));
    var ss := Touch(db.sessions, sid, now);
    var r := Created(Db(db.users, ss, db.messages + [m], db.settings), m.id);
    SameIdsAndOwners(db.sessions, ss);
    forall other
      ensures MessageCount(r.db, other) == MessageCount(db, other) + (if other == sid then 1 else 0)
    {
      Seqs.FilterAppend(db.messages, m, OfSession(other));
    }
    assert Valid(db) ==> Valid(r.db) && forall v :: v in db.messages ==> v.id < r.id by {
      if Valid(db) {
        NextMessageIdIsFresh(db.messages);
        Seqs.AppendKeepsIncreasing(db.messages, m, MessageKey);
      }
    }
    r
  }

  // ----- history -----

  function ToEntry(m: Message): HistoryEntry {
    HistoryEntry(m.id, m.kind, m.content, m.timestamp, ReadMetadata(m.metadata))
  }

  /** Everything `get_chat_history` may return for session `sid`. */
  function SessionEntries(db: Db, sid: nat): set<HistoryEntry> {
    set m | m in db.messages && m.sessionId == sid :: ToEntry(m)
  }

  /** The rows of the history query: the session's messages ordered by
      timestamp, cut to `limit` (SQLite reads a negative LIMIT as no limit). */
  function HistoryRows(db: Db, sid: nat, limit: int): (r: seq<Message>)
    ensures Seqs.SortedBy(r, MessageTime)
    ensures forall m :: m in r ==> m in db.messages && m.sessionId == sid
    ensures limit >= 0 ==> |r| <= limit
    ensures limit >= 0 && MessageCount(db, sid) > limit ==> |r| == limit
    ensures limit < 0 || MessageCount(db, sid) <= limit ==>
      |r| == MessageCount(db, sid) && forall m :: m in db.messages && m.sessionId == sid ==> m in r
    ensures forall m, n :: m in r && n in db.messages && n.sessionId == sid && n !in r ==> m.timestamp <= n.timestamp
    ensures multiset(r) <= multiset(db.messages)
  {
    var all := SessionRows(db, sid);
    var r := if limit < 0 then all else Seqs.Prefix(all, limit);
    SortedCut(all, |r|);
    assert r == all[..|r|];
    assert multiset(r) <= multiset(all) by {
      Seqs.SliceIsSubMultiset(all, 0, |r|);
      assert all[0..|r|] == r;
    }
    r
  }

  /** All of the session's messages, ordered by timestamp. */
  function SessionRows(db: Db, sid: nat): (r: seq<Message>)
    ensures Seqs.SortedBy(r, MessageTime)
    ensures |r| == MessageCount(db, sid)
    ensures forall m :: m in r <==> m in db.messages && m.sessionId == sid
    ensures multiset(r) <= multiset(db.messages)
  {
    Seqs.SortBy(Seqs.Filter(db.messages, OfSession(sid)), MessageTime)
  }

  /** Rows drawn without repetition from messages with distinct ids have
      distinct ids. */
  lemma DistinctRows(ms: seq<Message>, r: seq<Message>)
    requires Seqs.StrictlyIncreasing(ms, MessageKey)
    requires multiset(r) <= multiset(ms)
    ensures forall i, j :: 0 <= i < j < |r| ==> r[i].id != r[j].id
  {
    forall i, j | 0 <= i < j < |r|
      ensures r[i].id != r[j].id
    {
      if r[i].id == r[j].id {
        assert r[i] in multiset(ms) && r[j] in multiset(ms);
        SameIdSameMessage(ms, r[i], r[j]);
        RepeatCounted(r, i, j);
        UniqueInIncreasing(ms, r[i]);
        assert false;
      }
    }
  }

  /** Messages with distinct ids: an id names one message. */
  lemma SameIdSameMessage(ms: seq<Message>, x: Message, y: Message)
    requires Seqs.StrictlyIncreasing(ms, MessageKey)
    requires x in ms && y in ms && x.id == y.id
    ensures x == y
  {
    var i :| 0 <= i < |ms| && ms[i] == x;
    var j :| 0 <= j < |ms| && ms[j] == y;
    assert MessageKey(ms[i]) == MessageKey(ms[j]);
  }

  /** An element at two positions is counted at least twice. */
  lemma RepeatCounted(r: seq<Message>, i: nat, j: nat)
    requires i < j < |r| && r[i] == r[j]
    ensures multiset(r)[r[i]] >= 2
  {
    var front, back := r[..j], r[j..];
    assert r == front + back;
    assert r[i] in front && r[j] in back;
  }

  /** In a sequence with strictly increasing ids no message occurs twice. */
  lemma {:induction false} UniqueInIncreasing(ms: seq<Message>, x: Message)
    requires Seqs.StrictlyIncreasing(ms, MessageKey)
    ensures multiset(ms)[x] <= 1
    decreases |ms|
  {
    if |ms| > 0 {
      var rest := ms[1..];
      assert ms == [ms[0]] + rest;
      assert Seqs.StrictlyIncreasing(rest, MessageKey) by {
        forall i, j | 0 <= i < j < |rest|
          ensures MessageKey(rest[i]) < MessageKey(rest[j])
        {
          assert rest[i] == ms[i + 1] && rest[j] == ms[j + 1];
        }
      }
      UniqueInIncreasing(rest, x);
      if x == ms[0] {
        assert x !in rest by {
          forall k | 0 <= k < |rest|
            ensures rest[k] != x
          {
            assert MessageKey(ms[0]) < MessageKey(ms[k + 1]);
          }
        }
      }
    }
  }

  /** A cut of a sorted row list is sorted, and holds the earliest rows. */
  lemma SortedCut(all: seq<Message>, k: nat)
    requires Seqs.SortedBy(all, MessageTime) && k <= |all|
    ensures Seqs.SortedBy(all[..k], MessageTime)
    ensures forall m :: m in all[..k] ==> m in all
    ensures forall m, n :: m in all[..k] && n in all && n !in all[..k] ==> m.timestamp <= n.timestamp
  {
    var r := all[..k];
    forall m, n | m in r && n in all && n !in r
      ensures m.timestamp <= n.timestamp
    {
      Seqs.SortedPrefixKeepsSmallest(all, k, MessageTime, n, m);
    }
    forall i, j | 0 <= i < j < k
      ensures MessageTime(r[i]) <= MessageTime(r[j])
    {
      assert r[i] == all[i] && r[j] == all[j];
    }
  }

  function Entries(rows: seq<Message>): (r: seq<HistoryEntry>)
    ensures |r| == |rows| && forall i :: 0 <= i < |rows| ==> r[i] == ToEntry(rows[i])
  {
    seq(|rows|, i requires 0 <= i < |rows| => ToEntry(rows[i]))
  }

  lemma EntriesOrdered(rows: seq<Message>)
    requires Seqs.SortedBy(rows, MessageTime)
    ensures forall i, j :: 0 <= i < j < |rows| ==> Entries(rows)[i].timestamp <= Entries(rows)[j].timestamp
  {
    var r := Entries(rows);
    forall i, j | 0 <= i < j < |rows|
      ensures r[i].timestamp <= r[j].timestamp
    {
      assert MessageTime(rows[i]) <= MessageTime(rows[j]);
    }
  }

  lemma EntriesBelong(db: Db, sid: nat, rows: seq<Message>)
    requires forall m :: m in rows ==> m in db.messages && m.sessionId == sid
    ensures forall e :: e in Entries(rows) ==> e in SessionEntries(db, sid)
  {
    var r := Entries(rows);
    forall e | e in r
      ensures e in SessionEntries(db, sid)
    {
      var i :| 0 <= i < |r| && r[i] == e;
      assert rows[i] in rows;
    }
  }

  lemma EntriesComplete(db: Db, sid: nat, rows: seq<Message>)
    requires forall m :: m in db.messages && m.sessionId == sid ==> m in rows
    ensures forall e :: e in SessionEntries(db, sid) ==> e in Entries(rows)
  {
    var r := Entries(rows);
    forall e | e in SessionEntries(db, sid)
      ensures e in r
    {
      var m :| m in db.messages && m.sessionId == sid && e == ToEntry(m);
      var i :| 0 <= i < |rows| && rows[i] == m;
      assert r[i] == e;
    }
  }

  lemma EntriesEarliest(db: Db, sid: nat, rows: seq<Message>)
    requires forall m, n :: m in rows && n in db.messages && n.sessionId == sid && n !in rows ==> m.timestamp <= n.timestamp
    ensures forall e, f :: e in Entries(rows) && f in SessionEntries(db, sid) && f !in Entries(rows) ==> e.timestamp <= f.timestamp
  {
    var r := Entries(rows);
    forall e, f | e in r && f in SessionEntries(db, sid) && f !in r
      ensures e.timestamp <= f.timestamp
    {
      var i :| 0 <= i < |r| && r[i] == e;
      assert rows[i] in rows;
    }
  }

  /** In a valid store the history lists no row twice. */
  lemma EntriesDistinct(db: Db, sid: nat, limit: int)
    ensures var r := Entries(HistoryRows(db, sid, limit));
      Valid(db) ==> forall i, j :: 0 <= i < j < |r| ==> r[i].id != r[j].id
  {
    if Valid(db) {
      var rows := HistoryRows(db, sid, limit);
      DistinctRows(db.messages, rows);
    }
  }

  /** `get_chat_history(session_id, limit)`: only that session's messages,
      in non-decreasing timestamp order (ties are possible), at most `limit`
      of them and the earliest ones when cut; metadata NULL reads as `{}`. */
  function GetChatHistory(db: Db, sid: nat, limit: int): (r: seq<HistoryEntry>)
    ensures limit >= 0 ==> |r| <= limit
    ensures limit >= 0 && MessageCount(db, sid) > limit ==> |r| == limit
    ensures forall i, j :: 0 <= i < j < |r| ==> r[i].timestamp <= r[j].timestamp
    ensures forall e :: e in r ==> e in SessionEntries(db, sid)
    ensures limit < 0 || MessageCount(db, sid) <= limit ==>
      |r| == MessageCount(db, sid) && forall e :: e in SessionEntries(db, sid) ==> e in r
    ensures forall e, f :: e in r && f in SessionEntries(db, sid) && f !in r ==> e.timestamp <= f.timestamp
    ensures Valid(db) ==> forall i, j :: 0 <= i < j < |r| ==> r[i].id != r[j].id
  {
    var rows := HistoryRows(db, sid, limit);
    EntriesDistinct(db, sid, limit);
    EntriesOrdered(rows);
    EntriesBelong(db, sid, rows);
    EntriesEarliest(db, sid, rows);
    assert limit < 0 || MessageCount(db, sid) <= limit ==> forall e :: e in SessionEntries(db, sid) ==> e in Entries(rows) by {
      if limit < 0 || MessageCount(db, sid) <= limit {
        EntriesComplete(db, sid, rows);
      }
    }
    Entries(rows)
  }

  // ----- session list -----

  /** Largest timestamp among `ms`, or None for no messages. */
  function MaxTime(ms: seq<Message>): (r: Option<nat>)
    ensures r.None? <==> |ms| == 0
    ensures r.Some? ==> (exists m :: m in ms && m.timestamp == r.value) && forall m :: m in ms ==> m.timestamp <= r.value
  {
    if |ms| == 0 then None
    else
      var rest := MaxTime(ms[1..]);
      assert forall m :: m in ms ==> m == ms[0] || m in ms[1..];
      if rest.Some? && rest.value > ms[0].timestamp then rest else Some(ms[0].timestamp)
  }

  /** The session list's `last_message_time`. */
  function LastMessageTime(db: Db, sid: nat): Option<nat> {
    MaxTime(Seqs.Filter(db.messages, OfSession(sid)))
  }

  function Summarize(db: Db, s: ChatSession): SessionSummary {
    SessionSummary(s.id, s.name, s.createdAt, s.updatedAt, MessageCount(db, s.id), LastMessageTime(db, s.id))
  }

  function SummaryIds(r: seq<SessionSummary>): set<nat> { set x | x in r :: x.id }

  function Summaries(db: Db, owned: seq<ChatSession>): (r: seq<SessionSummary>)
    ensures |r| == |owned| && forall i :: 0 <= i < |owned| ==> r[i] == Summarize(db, owned[i])
  {
    seq(|owned|, i requires 0 <= i < |owned| => Summarize(db, owned[i]))
  }

  lemma SummariesMatch(db: Db, uid: nat, owned: seq<ChatSession>)
    requires forall s :: s in owned <==> s in db.sessions && s.userId == uid
    ensures forall x :: x in Summaries(db, owned) <==> exists s :: s in db.sessions && s.userId == uid && x == Summarize(db, s)
    ensures SummaryIds(Summaries(db, owned)) == OwnedIds(db, uid)
  {
    var r := Summaries(db, owned);
    forall x | x in r
      ensures exists s :: s in db.sessions && s.userId == uid && x == Summarize(db, s)
    {
      var i :| 0 <= i < |r| && r[i] == x;
      assert owned[i] in owned;
    }
    forall s | s in db.sessions && s.userId == uid
      ensures Summarize(db, s) in r
    {
      var i :| 0 <= i < |owned| && owned[i] == s;
      assert r[i] == Summarize(db, s);
    }
    forall sid | sid in OwnedIds(db, uid)
      ensures sid in SummaryIds(r)
    {
      var s :| s in db.sessions && s.userId == uid && s.id == sid;
      assert Summarize(db, s) in r;
    }
  }

  lemma SummariesOrdered(db: Db, owned: seq<ChatSession>)
    requires Seqs.SortedBy(owned, NewestFirst)
    ensures forall i, j :: 0 <= i < j < |owned| ==> Summaries(db, owned)[i].updatedAt >= Summaries(db, owned)[j].updatedAt
  {
    forall i, j | 0 <= i < j < |owned|
      ensures Summaries(db, owned)[i].updatedAt >= Summaries(db, owned)[j].updatedAt
    {
      assert NewestFirst(owned[i]) <= NewestFirst(owned[j]);
    }
  }

  /** `get_user_sessions(user_id)`: exactly the user's sessions, most
      recently updated first, each with its message count (0 for none). */
  function GetUserSessions(db: Db, uid: nat): (r: seq<SessionSummary>)
    ensures SummaryIds(r) == OwnedIds(db, uid)
    ensures forall x :: x in r <==> exists s :: s in db.sessions && s.userId == uid && x == Summarize(db, s)
    ensures |r| == |Seqs.Filter(db.sessions, OwnedBy(uid))|
    ensures forall i, j :: 0 <= i < j < |r| ==> r[i].updatedAt >= r[j].updatedAt
    ensures forall x :: x in r ==> x.messageCount == MessageCount(db, x.id)
  {
    var owned := Seqs.SortBy(Seqs.Filter(db.sessions, OwnedBy(uid)), NewestFirst);
    SummariesMatch(db, uid, owned);
    SummariesOrdered(db, owned);
    Summaries(db, owned)
  }

  // ----- message totals -----

  function InSessions(ids: set<nat>): Message -> bool { (m: Message) => m.sessionId in ids }

  /** The number of stored messages that belong to any of the sessions `ids`. */
  function MessagesIn(db: Db, ids: set<nat>): nat {
    |Seqs.Filter(db.messages, InSessions(ids))|
  }

  function SessionMessages(db: Db): ChatSession -> nat { (s: ChatSession) => MessageCount(db, s.id) }
  function SummaryCount(x: SessionSummary): nat { x.messageCount }

  /** Summing the `message_count` column of summaries sums the sessions'
      message counts. */
  lemma {:induction false} SummaryCounts(db: Db, ss: seq<ChatSession>)
    ensures Seqs.SumOf(Summaries(db, ss), SummaryCount) == Seqs.SumOf(ss, SessionMessages(db))
    decreases |ss|
  {
    if |ss| > 0 {
      assert Summaries(db, ss)[1..] == Summaries(db, ss[1..]);
      SummaryCounts(db, ss[1..]);
    }
  }

  lemma IdsOfCons(ss: seq<ChatSession>)
    requires |ss| > 0
    ensures IdsOf(ss) == {ss[0].id} + IdsOf(ss[1..])
  {
    assert forall s :: s in ss <==> s == ss[0] || s in ss[1..];
  }

  /** Over sessions with distinct ids, the per-session counts add up to the
      messages of all of them. */
  lemma {:induction false} CountOverSessions(db: Db, ss: seq<ChatSession>)
    requires Seqs.StrictlyIncreasing(ss, SessionKey)
    ensures Seqs.SumOf(ss, SessionMessages(db)) == MessagesIn(db, IdsOf(ss))
    decreases |ss|
  {
    if |ss| == 0 {
      assert db.messages[|db.messages|..] == [];
      Seqs.FilterSkipsRejected(db.messages, |db.messages|, InSessions(IdsOf(ss)));
    } else {
      IncreasingTail(ss);
      CountOverSessions(db, ss[1..]);
      MessagesInCons(db, ss);
    }
  }

  /** The rest of a strictly increasing session list is strictly increasing
      and does not hold the first id. */
  lemma IncreasingTail(ss: seq<ChatSession>)
    requires |ss| > 0 && Seqs.StrictlyIncreasing(ss, SessionKey)
    ensures Seqs.StrictlyIncreasing(ss[1..], SessionKey)
    ensures ss[0].id !in IdsOf(ss[1..])
  {
    var rest := ss[1..];
    forall i, j | 0 <= i < j < |rest|
      ensures SessionKey(rest[i]) < SessionKey(rest[j])
    {
      assert rest[i] == ss[i + 1] && rest[j] == ss[j + 1];
    }
    forall s | s in rest
      ensures s.id != ss[0].id
    {
      var j :| 0 <= j < |rest| && rest[j] == s;
      assert SessionKey(ss[0]) < SessionKey(ss[j + 1]);
    }
  }

  /** The messages of a list of sessions are those of its first session plus
      those of the rest, when the first id is not repeated. */
  lemma MessagesInCons(db: Db, ss: seq<ChatSession>)
    requires |ss| > 0 && ss[0].id !in IdsOf(ss[1..])
    ensures MessagesIn(db, IdsOf(ss)) == MessageCount(db, ss[0].id) + MessagesIn(db, IdsOf(ss[1..]))
  {
    IdsOfCons(ss);
    Seqs.FilterCountSplit(db.messages, OfSession(ss[0].id), InSessions(IdsOf(ss[1..])), InSessions(IdsOf(ss)));
  }

  lemma OwnedSessionIds(db: Db, uid: nat)
    ensures IdsOf(Seqs.Filter(db.sessions, OwnedBy(uid))) == OwnedIds(db, uid)
  {
    var owned := Seqs.Filter(db.sessions, OwnedBy(uid));
    assert forall s :: s in owned <==> s in db.sessions && s.userId == uid;
  }

  /** The total the stats handler adds up from `get_user_sessions` is the
      number of messages stored in the user's sessions. */
  lemma UserMessageTotal(db: Db, uid: nat)
    requires Valid(db)
    ensures Seqs.SumOf(GetUserSessions(db, uid), SummaryCount) == MessagesIn(db, OwnedIds(db, uid))
  {
    var owned := Seqs.Filter(db.sessions, OwnedBy(uid));
    var sorted := Seqs.SortBy(owned, NewestFirst);
    SummaryCounts(db, sorted);
    Seqs.SumOfPermutation(sorted, owned, SessionMessages(db));
    Seqs.FilterKeepsIncreasing(db.sessions, OwnedBy(uid), SessionKey);
    CountOverSessions(db, owned);
    OwnedSessionIds(db, uid);
  }

  // ----- rename and delete -----

  /** `update_session_name`: on an existing session, a new name and
      `updated_at`; every other session, and an unknown id, untouched. */
  function UpdateSessionName(db: Db, sid: nat, name: string, now: nat): (r: Db)
    ensures |r.sessions| == |db.sessions|
    ensures forall i :: 0 <= i < |db.sessions| ==>
      r.sessions[i] == if db.sessions[i].id == sid then db.sessions[i].(name := name, updatedAt := now) else db.sessions[i]
    ensures !HasSession(db, sid) ==> r == db
    ensures forall s :: s in r.sessions && s.id == sid ==> s.name == name
    ensures r.users == db.users && r.messages == db.messages && r.settings == db.settings
    ensures SessionIds(r) == SessionIds(db) && forall uid :: OwnedIds(r, uid) == OwnedIds(db, uid)
    ensures Valid(db) ==> Valid(r)
    ensures NoOrphans(db) ==> NoOrphans(r)
  {
    var ss := seq(|db.sessions|, i requires 0 <= i < |db.sessions| =>
      if db.sessions[i].id == sid then db.sessions[i].(name := name, updatedAt := now) else db.sessions[i]);
    var r := db.(sessions := ss);
    SameIdsAndOwners(db.sessions, ss);
    forall s | s in ss && s.id == sid
      ensures s.name == name
    {
      var i :| 0 <= i < |ss| && ss[i] == s;
    }
    assert !HasSession(db, sid) ==> ss == db.sessions by {
      if !HasSession(db, sid) {
        assert forall i :: 0 <= i < |db.sessions| ==> db.sessions[i] in db.sessions;
      }
    }
    r
  }

  /** `delete_session`: an existing session goes together with all of its
      messages (the ORM's delete-orphan cascade); nothing else changes, and
      an unknown id changes nothing at all. */
  function DeleteSession(db: Db, sid: nat): (r: Db)
    ensures !HasSession(r, sid)
    ensures forall s :: s in r.sessions <==> s in db.sessions && s.id != sid
    ensures HasSession(db, sid) ==> forall m :: m in r.messages <==> m in db.messages && m.sessionId != sid
    ensures !HasSession(db, sid) ==> r == db
    ensures r.users == db.users && r.settings == db.settings
    ensures Valid(db) ==> Valid(r)
    ensures NoOrphans(db) ==> NoOrphans(r)
  {
    if HasSession(db, sid) then
      var r := db.(sessions := Seqs.Filter(db.sessions, NotWithId(sid)),
                   messages := Seqs.Filter(db.messages, NotOfSession(sid)));
      assert Valid(db) ==> Valid(r) by {
        if Valid(db) {
          Seqs.FilterKeepsIncreasing(db.sessions, NotWithId(sid), SessionKey);
          Seqs.FilterKeepsIncreasing(db.messages, NotOfSession(sid), MessageKey);
        }
      }
      assert NoOrphans(db) ==> NoOrphans(r) by {
        if NoOrphans(db) {
          forall m | m in r.messages
            ensures m.sessionId in SessionIds(r)
          {
            var s :| s in db.sessions && s.id == m.sessionId;
            assert s in r.sessions;
          }
        }
      }
      r
    else
      db
  }

  // ----- settings -----

  /** Position of the setting (`uid`, `key`), if present. */
  function FindSetting(ss: seq<Setting>, uid: nat, key: string): (r: Option<nat>)
    ensures r.Some? ==> r.value < |ss| && ss[r.value].userId == uid && ss[r.value].key == key
    ensures r.None? ==> forall i :: 0 <= i < |ss| ==> !(ss[i].userId == uid && ss[i].key == key)
  {
    if |ss| == 0 then None
    else if ss[|ss| - 1].userId == uid && ss[|ss| - 1].key == key then Some(|ss| - 1)
    else
      var r := FindSetting(ss[..|ss| - 1], uid, key);
      assert forall i :: 0 <= i < |ss| - 1 ==> ss[..|ss| - 1][i] == ss[i];
      r
  }

  /** `save_user_setting`: an upsert. An existing row gets the new value (its
      `updated_at` has no on-update default and stays as it was); otherwise a
      row is added. */
  function SaveUserSetting(db: Db, uid: nat, key: string, value: string, now: nat): (r: Db)
    ensures r.users == db.users && r.sessions == db.sessions && r.messages == db.messages
    ensures |db.settings| <= |r.settings| <= |db.settings| + 1
    ensures FindSetting(db.settings, uid, key).Some? <==> |r.settings| == |db.settings|
    ensures Valid(db) ==> Valid(r)
    ensures NoOrphans(db) ==> NoOrphans(r)
  {
    match FindSetting(db.settings, uid, key)
    case Some(i) => db.(settings := db.settings[i := db.settings[i].(value := value)])
    case None => db.(settings := db.settings + [Setting(uid, key, value, now)])
  }

  /** `get_user_setting`: the stored value, or `default` when there is none. */
  function GetUserSetting(db: Db, uid: nat, key: string, default: Option<string>): (r: Option<string>)
    ensures FindSetting(db.settings, uid, key).None? ==> r == default
  {
    match FindSetting(db.settings, uid, key)
    case Some(i) => Some(db.settings[i].value)
    case None => default
  }

  /** Upsert round trip: the last saved value is what is read back. */
  lemma {:induction false} SettingRoundTrip(db: Db, uid: nat, key: string, value: string, now: nat, default: Option<string>)
    ensures GetUserSetting(SaveUserSetting(db, uid, key, value, now), uid, key, default) == Some(value)
  {
    var r := SaveUserSetting(db, uid, key, value, now);
    match FindSetting(db.settings, uid, key)
    case Some(i) =>
      FindSettingIgnores(db.settings, r.settings, uid, key);
    case None =>
      assert r.settings == db.settings + [Setting(uid, key, value, now)];
      assert r.settings[|r.settings| - 1].userId == uid && r.settings[|r.settings| - 1].key == key;
  }

  /** Saving one setting leaves every other (user, key) as it was. */
  lemma {:induction false} SettingFrame(db: Db, uid: nat, key: string, value: string, now: nat, uid': nat, key': string, default: Option<string>)
    requires uid' != uid || key' != key
    ensures GetUserSetting(SaveUserSetting(db, uid, key, value, now), uid', key', default) == GetUserSetting(db, uid', key', default)
  {
    var r := SaveUserSetting(db, uid, key, value, now);
    assert forall i :: 0 <= i < |db.settings| ==> r.settings[i].userId == db.settings[i].userId && r.settings[i].key == db.settings[i].key;
    FindSettingIgnores(db.settings, r.settings, uid', key');
    match FindSetting(db.settings, uid', key')
    case Some(i) =>
      assert r.settings[i].value == db.settings[i].value;
    case None =>
  }

  /** The lookup of (`uid`, `key`) only depends on rows for other keys through
      their keys, and on rows with that key through their position. */
  lemma {:induction false} FindSettingIgnores(a: seq<Setting>, b: seq<Setting>, uid: nat, key: string)
    requires |a| <= |b|
    requires forall i :: 0 <= i < |a| ==> b[i].userId == a[i].userId && b[i].key == a[i].key
    requires forall i :: |a| <= i < |b| ==> !(b[i].userId == uid && b[i].key == key)
    ensures FindSetting(b, uid, key) == FindSetting(a, uid, key)
    decreases |b|
  {
    if |b| > 0 {
      if |b| == |a| {
        if !(b[|b| - 1].userId == uid && b[|b| - 1].key == key) {
          FindSettingIgnores(a[..|a| - 1], b[..|b| - 1], uid, key);
        }
      } else {
        FindSettingIgnores(a, b[..|b| - 1], uid, key);
      }
    }
  }

  datatype DbStats = DbStats(users: nat, sessions: nat, messages: nat)

  /** Sessions in increasing id order all have different ids. */
  lemma {:induction false} DistinctIdsCount(ss: seq<ChatSession>)
    requires Seqs.StrictlyIncreasing(ss, SessionKey)
    ensures |IdsOf(ss)| == |ss|
    decreases |ss|
  {
    if |ss| > 0 {
      IdsOfCons(ss);
      IncreasingTail(ss);
      DistinctIdsCount(ss[1..]);
    }
  }

  /** `get_database_stats`: row counts of the three tables. Session ids are
      a primary key, so the session count is the number of session ids. */
  function GetDatabaseStats(db: Db): (r: DbStats)
    ensures r.users == |db.users| && r.sessions == |db.sessions| && r.messages == |db.messages|
    ensures Valid(db) ==> r.sessions == |SessionIds(db)|
  {
    assert Valid(db) ==> |SessionIds(db)| == |db.sessions| by {
      if Valid(db) { DistinctIdsCount(db.sessions); }
    }
    DbStats(|db.users|, |db.sessions|, |db.messages|)
  }
}
