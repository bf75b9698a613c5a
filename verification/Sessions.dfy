/** Login sessions: a table whose expired rows go only when someone asks for them
    (internal/store/store.go, internal/auth/auth.go). */
module Sessions {
  import opened Clock
  import opened Options

  /** time.Time.Unix, for times counted in nanoseconds. */
  function Unix(t: nat): nat {
    t / SECOND
  }

  datatype Session = Session(user: nat, expiresAt: nat)

  // ---- history ----

  /** What happened to the sessions, with the clock reading at which it happened. */
  datatype Event =
    | LoggedIn(sid: string, user: nat, expiresAt: nat, at: nat)
    | Checked(sid: string, at: nat)
    | LoggedOut(sid: string, at: nat)

  predicate Ordered(events: seq<Event>) {
    forall i, j :: 0 <= i < j < |events| ==> events[i].at <= events[j].at
  }

  /** Session ids are 256 random bits: none is given out twice. */
  predicate FreshIds(events: seq<Event>) {
    forall i, j :: 0 <= i < j < |events| && events[i].LoggedIn? && events[j].LoggedIn? ==>
      events[i].sid != events[j].sid
  }

  /** Event i logged sid in and nothing has logged it out since. */
  ghost predicate Open(events: seq<Event>, i: nat, sid: string) {
    && i < |events| && events[i].LoggedIn? && events[i].sid == sid
    && forall j :: i < j < |events| ==> events[j] != LoggedOut(sid, events[j].at)
  }

  /** Who a session id stands for at a time: the user it was created for, if it was not logged
      out and the time is before its expiry second. */
  ghost predicate Entitled(events: seq<Event>, sid: string, user: nat, at: nat) {
    exists i: nat :: Open(events, i, sid) && events[i].user == user && Unix(at) < events[i].expiresAt
  }

  // ---- the table ----

  function Apply(table: map<string, Session>, e: Event): map<string, Session> {
    match e
    case LoggedIn(sid, user, expiresAt, _) => table[sid := Session(user, expiresAt)]
    case Checked(sid, at) =>
      if sid in table && Unix(at) >= table[sid].expiresAt then table - {sid} else table
    case LoggedOut(sid, _) => table - {sid}
  }

  /** The rows left after a history, lazily deleted ones gone. */
  function TableAfter(events: seq<Event>): map<string, Session> {
    if events == [] then map[]
    else Apply(TableAfter(events[..|events| - 1]), events[|events| - 1])
  }

  lemma TableSnoc(events: seq<Event>, e: Event)
    ensures TableAfter(events + [e]) == Apply(TableAfter(events), e)
  {
    assert (events + [e])[..|events|] == events;
  }

  function Answer(table: map<string, Session>, sid: string, at: nat): Option<nat> {
    if sid in table && Unix(at) < table[sid].expiresAt then Some(table[sid].user) else None
  }

  /** A check drops an expired row and changes nothing else. */
  lemma TableAfterCheck(events: seq<Event>, sid: string, now: nat)
    ensures TableAfter(events + [Checked(sid, now)]) ==
      if sid in TableAfter(events) && Answer(TableAfter(events), sid, now).None? then TableAfter(events) - {sid}
      else TableAfter(events)
  {
    TableSnoc(events, Checked(sid, now));
  }

  /** A row is the record of an open login. */
  lemma {:induction false} RowIsOpen(events: seq<Event>, sid: string) returns (i: nat)
    requires FreshIds(events) && sid in TableAfter(events)
    ensures Open(events, i, sid)
    ensures TableAfter(events)[sid] == Session(events[i].user, events[i].expiresAt)
  {
    var last := |events| - 1;
    if events[last].LoggedIn? && events[last].sid == sid {
      i := last;
    } else {
      i := RowIsOpen(events[..last], sid);
      assert events[..last][i] == events[i];
      assert forall j :: 0 <= j < last ==> events[..last][j] == events[j];
    }
  }

  /** No check of the session read the clock at or past the expiry of the login at i. */
  ghost predicate Unnoticed(events: seq<Event>, i: nat, sid: string)
    requires i < |events| && events[i].LoggedIn?
  {
    forall j :: i < j < |events| && events[j].Checked? && events[j].sid == sid ==>
      Unix(events[j].at) < events[i].expiresAt
  }

  /** An open login has a row exactly if no check has found it expired. */
  lemma {:induction false} RowIffUnnoticed(events: seq<Event>, i: nat, sid: string)
    requires FreshIds(events) && Open(events, i, sid)
    ensures sid in TableAfter(events) <==> Unnoticed(events, i, sid)
  {
    var last := |events| - 1;
    if i < last {
      var init := events[..last];
      assert forall j :: 0 <= j < last ==> init[j] == events[j];
      RowIffUnnoticed(init, i, sid);
      assert events[last] != LoggedOut(sid, events[last].at);
      if sid in TableAfter(init) {
        var k := RowIsOpen(init, sid);
        assert k == i;
      }
    }
  }

  lemma UnixMonotone(t: nat, u: nat)
    requires t <= u
    ensures Unix(t) <= Unix(u)
  {
  }

  /** What the table answers, whatever the clock did: the user of an open login, before its
      expiry second, none of whose checks read the clock at or past that second. */
  lemma AnswerIsUnnoticed(events: seq<Event>, sid: string, user: nat, at: nat)
    requires FreshIds(events)
    ensures Answer(TableAfter(events), sid, at) == Some(user) <==>
      exists i: nat ::
        && Open(events, i, sid) && events[i].user == user && Unix(at) < events[i].expiresAt
        && Unnoticed(events, i, sid)
  {
    if sid in TableAfter(events) {
      var i := RowIsOpen(events, sid);
      RowIffUnnoticed(events, i, sid);
      assert forall k: nat :: Open(events, k, sid) ==> k == i;
    } else if k: nat :| Open(events, k, sid) && Unnoticed(events, k, sid) {
      RowIffUnnoticed(events, k, sid);
    }
  }

  ghost predicate AnswersAsHistory(events: seq<Event>, sid: string, at: nat) {
    forall user: nat :: Answer(TableAfter(events), sid, at) == Some(user) <==> Entitled(events, sid, user, at)
  }

  /** The table answers as the history does exactly if no check of a session still entitled
      at that time has read the clock at or past its expiry. */
  lemma AnswerIsHistoryIff(events: seq<Event>, sid: string, at: nat)
    requires FreshIds(events)
    ensures AnswersAsHistory(events, sid, at) <==>
      forall i: nat :: Open(events, i, sid) && Unix(at) < events[i].expiresAt ==> Unnoticed(events, i, sid)
  {
    forall user: nat ensures Answer(TableAfter(events), sid, at) == Some(user) ==> Entitled(events, sid, user, at) {
      AnswerIsUnnoticed(events, sid, user, at);
    }
    forall i: nat | Open(events, i, sid) && Unix(at) < events[i].expiresAt
      ensures Entitled(events, sid, events[i].user, at)
      ensures Answer(TableAfter(events), sid, at) == Some(events[i].user) <==> Unnoticed(events, i, sid)
    {
      AnswerIsUnnoticed(events, sid, events[i].user, at);
      assert forall k: nat :: Open(events, k, sid) ==> k == i;
    }
  }

  /** In order, no check has read a clock later than now. */
  lemma OrderedIsUnnoticed(events: seq<Event>, i: nat, sid: string, at: nat)
    requires Ordered(events) && i < |events| && events[i].LoggedIn?
    requires events[|events| - 1].at <= at && Unix(at) < events[i].expiresAt
    ensures Unnoticed(events, i, sid)
  {
    forall j | i < j < |events| ensures Unix(events[j].at) <= Unix(at) {
      assert j < |events| - 1 ==> events[j].at <= events[|events| - 1].at;
      UnixMonotone(events[j].at, at);
    }
  }

  /** With a clock that does not run back and ids that are not repeated, the table answers
      exactly as the history does; deleting expired rows late never shows. */
  lemma AnswerIsHistory(events: seq<Event>, sid: string, at: nat)
    requires FreshIds(events) && Ordered(events)
    requires events != [] ==> events[|events| - 1].at <= at
    ensures AnswersAsHistory(events, sid, at)
  {
    forall i: nat | Open(events, i, sid) && Unix(at) < events[i].expiresAt ensures Unnoticed(events, i, sid) {
      OrderedIsUnnoticed(events, i, sid, at);
    }
    AnswerIsHistoryIff(events, sid, at);
  }

  /** A login for a lifetime, and a check some time later: the user is answered until the end of
      the lifetime, rounded down to the second, and nobody from there on. */
  lemma LoginLasts(events: seq<Event>, sid: string, user: nat, now: nat, lifetime: nat, at: nat)
    ensures Answer(TableAfter(events + [LoggedIn(sid, user, (now + lifetime) / 1_000_000_000, now)]), sid, at) ==
      if at / 1_000_000_000 < (now + lifetime) / 1_000_000_000 then Some(user) else None
  {
    TableSnoc(events, LoggedIn(sid, user, (now + lifetime) / 1_000_000_000, now));
  }

  /** A row that is there after more events, none of which logs it in, was there before. */
  lemma {:induction false} RowStays(events: seq<Event>, more: seq<Event>, sid: string)
    requires forall j :: 0 <= j < |more| && more[j].LoggedIn? ==> more[j].sid != sid
    requires sid in TableAfter(events + more)
    ensures sid in TableAfter(events) && TableAfter(events)[sid] == TableAfter(events + more)[sid]
  {
    if more == [] {
      assert events + more == events;
    } else {
      var last := |more| - 1;
      assert events + more == (events + more[..last]) + [more[last]];
      TableSnoc(events + more[..last], more[last]);
      RowStays(events, more[..last], sid);
    }
  }

  /** Once the table refuses a session that was created, it refuses it for good: whatever
      happens and however the clock moves, up to any later time. */
  lemma RefusedForGood(events: seq<Event>, more: seq<Event>, sid: string, i: nat, at: nat, later: nat)
    requires FreshIds(events + more) && at <= later
    requires i < |events| && events[i].LoggedIn? && events[i].sid == sid
    requires Answer(TableAfter(events), sid, at).None?
    ensures Answer(TableAfter(events + more), sid, later).None?
  {
    var all := events + more;
    UnixMonotone(at, later);
    forall j | 0 <= j < |more| && more[j].LoggedIn? ensures more[j].sid != sid {
      assert all[i] == events[i] && all[|events| + j] == more[j];
    }
    if sid in TableAfter(all) {
      RowStays(events, more, sid);
    }
  }

  /** When the clock runs back: a check past the expiry deletes the row, and a later check
      whose clock reads earlier is refused although the history still entitles the session. */
  lemma ClockRunningBackRefuses(sid: string, user: nat, expiresAt: nat, late: nat, early: nat)
    requires Unix(early) < expiresAt <= Unix(late)
    ensures var events := [LoggedIn(sid, user, expiresAt, 0), Checked(sid, late)];
            && Entitled(events, sid, user, early)
            && Answer(TableAfter(events), sid, early) == None
  {
    var login := LoggedIn(sid, user, expiresAt, 0);
    var events := [login, Checked(sid, late)];
    assert Open(events, 0, sid);
    assert events[..1] == [login] && [login][..0] == [];
    assert TableAfter([login]) == map[sid := Session(user, expiresAt)];
  }

  lemma OrderedPrefix(events: seq<Event>, e: Event)
    requires Ordered(events + [e])
    ensures Ordered(events) && (events != [] ==> events[|events| - 1].at <= e.at)
  {
    var all := events + [e];
    assert forall i :: 0 <= i < |events| ==> all[i] == events[i];
    assert all[|events|] == e;
  }

  // ---- the services ----

  datatype User = User(id: nat, username: string, passwordHash: string)

  /** A user table: rows under their ids, no user name twice. */
  ghost predicate Accounts(users: map<nat, User>) {
    && (forall u :: u in users ==> users[u].id == u)
    && (forall u, v :: u in users && v in users && users[u].username == users[v].username ==> u == v)
  }

  /** User u has this name and password. */
  ghost predicate Verifies(users: map<nat, User>, u: nat, username: string, password: string,
                           verify: (string, string) -> bool) {
    u in users && users[u].username == username && verify(password, users[u].passwordHash)
  }

  /** store.Store, as far as sessions go. Users are only ever added. */
  class Store {
    var users: map<nat, User>
    var sessions: map<string, Session>
    ghost var events: seq<Event>

    ghost predicate Valid()
      reads this
    {
      && sessions == TableAfter(events)
      && (forall s :: s in sessions ==> sessions[s].user in users)
      && Accounts(users)
    }

    constructor (users: map<nat, User>)
      requires Accounts(users)
      ensures Valid() && events == [] && this.users == users
    {
      this.users, sessions, events := users, map[], [];
    }

    /** INSERT INTO sessions: refused for an id in use or an unknown user. */
    method CreateSession(sid: string, user: nat, expiresAt: nat, now: nat) returns (ok: bool)
      requires Valid()
      modifies this`sessions, this`events
      ensures Valid()
      ensures ok <==> sid !in old(sessions) && user in users
      ensures events == if ok then old(events) + [LoggedIn(sid, user, expiresAt, now)] else old(events)
    {
      ok := sid !in sessions && user in users;
      if ok {
        TableSnoc(events, LoggedIn(sid, user, expiresAt, now));
        events := events + [LoggedIn(sid, user, expiresAt, now)];
        sessions := sessions[sid := Session(user, expiresAt)];
      }
    }

    /** SessionUser: the user of an unexpired session; an expired row goes. */
    method SessionUser(sid: string, now: nat) returns (user: Option<User>)
      requires Valid()
      modifies this`sessions, this`events
      ensures Valid() && events == old(events) + [Checked(sid, now)]
      ensures user.None? <==> Answer(TableAfter(old(events)), sid, now).None?
      ensures user.Some? ==> Answer(TableAfter(old(events)), sid, now) == Some(user.value.id)
      ensures user.Some? ==> user.value.id in users && user.value == users[user.value.id]
    {
      TableAfterCheck(events, sid, now);
      events := events + [Checked(sid, now)];
      user := None;
      if sid in sessions {
        var s := sessions[sid];
        if Unix(now) >= s.expiresAt {
          sessions := sessions - {sid};
        } else {
          user := Some(users[s.user]);
        }
      }
    }

    method DeleteSession(sid: string, now: nat)
      requires Valid()
      modifies this`sessions, this`events
      ensures Valid() && events == old(events) + [LoggedOut(sid, now)]
    {
      TableSnoc(events, LoggedOut(sid, now));
      events := events + [LoggedOut(sid, now)];
      sessions := sessions - {sid};
    }
  }

  datatype LoginError = InvalidCredentials | StoreError

  /** auth.Service; how hashes are verified is a parameter of Login. */
  class Auth {
    const store: Store
    const sessionTTL: nat

    constructor (store: Store, sessionTTL: nat)
      ensures this.store == store && this.sessionTTL == sessionTTL
    {
      this.store, this.sessionTTL := store, sessionTTL;
    }

    /** The account of a user name, if any. */
    method UserByUsername(username: string) returns (user: Option<User>)
      requires store.Valid()
      ensures user.Some? ==> user.value.id in store.users && store.users[user.value.id] == user.value
      ensures user.Some? ==> user.value.username == username
      ensures user.None? <==> forall u :: u in store.users ==> store.users[u].username != username
    {
      var left := store.users.Keys;
      while left != {}
        invariant left <= store.users.Keys
        invariant forall u :: u in store.users && u !in left ==> store.users[u].username != username
        decreases left
      {
        var u :| u in left;
        if store.users[u].username == username {
          return Some(store.users[u]);
        }
        left := left - {u};
      }
      return None;
    }

    /** Login: credentials that verify open a session until the lifetime is over, unless the
        drawn id is in use. */
    method Login(username: string, password: string, sid: string, now: nat, verify: (string, string) -> bool)
      returns (error: Option<LoginError>, user: Option<User>)
      requires store.Valid()
      modifies store`sessions, store`events
      ensures store.Valid()
      ensures error == Some(InvalidCredentials) <==>
        forall u :: !Verifies(store.users, u, username, password, verify)
      ensures error == Some(StoreError) <==>
        && (exists u :: Verifies(store.users, u, username, password, verify))
        && sid in old(store.sessions)
      ensures error.None? <==> user.Some?
      ensures user.Some? ==>
        && user.value.id in store.users && user.value == store.users[user.value.id]
        && Verifies(store.users, user.value.id, username, password, verify)
        && store.events == old(store.events) + [LoggedIn(sid, user.value.id, (now + sessionTTL) / 1_000_000_000, now)]
      ensures user.None? ==> store.events == old(store.events) && store.sessions == old(store.sessions)
    {
      var found := UserByUsername(username);
      if found.None? || !verify(password, found.value.passwordHash) {
        return Some(InvalidCredentials), None;
      }
      assert Verifies(store.users, found.value.id, username, password, verify);
      var ok := store.CreateSession(sid, found.value.id, Unix(now + sessionTTL), now);
      if !ok {
        return Some(StoreError), None;
      }
      return None, found;
    }

    /** Validate: only whom the history entitles, however the clock moves; and everyone it
        entitles, when the clock does not run back. The empty id is nobody's. */
    method Validate(sid: string, now: nat) returns (user: Option<User>)
      requires store.Valid() && FreshIds(store.events)
      modifies store`sessions, store`events
      ensures store.Valid()
      ensures sid == "" ==> user.None? && store.events == old(store.events)
      ensures sid != "" ==> store.events == old(store.events) + [Checked(sid, now)]
      ensures user.Some? ==> sid != "" && Entitled(old(store.events), sid, user.value.id, now)
      ensures sid != "" && user.None? && Ordered(store.events) ==>
        forall u :: !Entitled(old(store.events), sid, u, now)
    {
      if sid == "" {
        return None;
      }
      ghost var before := store.events;
      user := store.SessionUser(sid, now);
      if user.Some? {
        AnswerIsUnnoticed(before, sid, user.value.id, now);
      } else if Ordered(store.events) {
        OrderedPrefix(before, Checked(sid, now));
        AnswerIsHistory(before, sid, now);
      }
    }

    method Logout(sid: string, now: nat)
      requires store.Valid()
      modifies store`sessions, store`events
      ensures store.Valid() && store.events == old(store.events) + [LoggedOut(sid, now)]
    {
      store.DeleteSession(sid, now);
    }
  }
}
