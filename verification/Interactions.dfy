/**
 The table of pending authorization requests: who may start one, what is reclaimed under pressure
 and what the repair of older tables keeps.
 */
module Interactions {
  import opened Optional
  import opened Ranking

  /** A request's hash, by its place in the order in which the database compares hashes. */
  datatype Hash = Hash(place: int)
  type UserId = string
  type SessionId = string

  const PER_BROWSER := 10
  const PER_ACCOUNT := 10
  const TOTAL := 10_000

  /** A row without an account is anonymous; one with a session carries a completed proof. */
  datatype Row = Row(browser: string, user: Option<UserId>, original: Option<SessionId>, session: Option<SessionId>,
      created: int, expires: int)
  datatype Session = Session(user: UserId, expires: int)

  type Table = map<Hash, Row>

  datatype State = State(rows: Table, sessions: map<SessionId, Session>, active: set<UserId>)

  // ---- statements -----------------------------------------------------------------------------------

  function Unexpired(rows: Table, now: int): Table {
    map h | h in rows && now < rows[h].expires :: rows[h]
  }

  function Owned(row: Row, sessions: map<SessionId, Session>): Row {
    if row.user.None? && row.session.Some? && row.session.value in sessions
      then row.(user := Some(sessions[row.session.value].user)) else row
  }

  predicate Rooted(row: Row, sessions: map<SessionId, Session>) {
    row.session.None? || row.session.value in sessions
  }

  /** Completed rows get their account back; those whose session is gone leave. */
  function Settle(rows: Table, sessions: map<SessionId, Session>): Table {
    map h | h in rows && Rooted(rows[h], sessions) :: Owned(rows[h], sessions)
  }

  function OfUser(rows: Table, u: UserId): set<Hash> {
    set h | h in rows && rows[h].user == Some(u)
  }

  function OfBrowser(rows: Table, b: string): set<Hash> {
    set h | h in rows && rows[h].browser == b
  }

  /** Completed proofs first, then the newest, then by hash. */
  function Preferred(rows: Table): (Hash, Hash) -> bool {
    (a: Hash, b: Hash) =>
      a in rows && b in rows &&
      if rows[a].session.Some? != rows[b].session.Some? then rows[a].session.Some?
      else if rows[a].created != rows[b].created then rows[a].created > rows[b].created
      else a.place < b.place
  }

  function Trim(rows: Table): Table {
    map h | h in rows
      && (rows[h].user.None? || h in First(Preferred(rows), OfUser(rows, rows[h].user.value), PER_ACCOUNT)) :: rows[h]
  }

  function Repair(rows: Table, sessions: map<SessionId, Session>): Table {
    Trim(Settle(rows, sessions))
  }

  predicate Anonymous(row: Row) {
    row.session.None? && row.user.None?
  }

  function Pending(rows: Table): set<Hash> {
    set h | h in rows && Anonymous(rows[h])
  }

  function Older(rows: Table): (Hash, Hash) -> bool {
    (a: Hash, b: Hash) =>
      a in rows && b in rows &&
      if rows[a].created != rows[b].created then rows[a].created < rows[b].created else a.place < b.place
  }

  function Excess(rows: Table): nat {
    if |rows| < TOTAL then 0 else |rows| - (TOTAL - 1)
  }

  /** Makes room for one row, from the oldest anonymous pending ones only. */
  function Evict(rows: Table): Table {
    rows - First(Older(rows), Pending(rows), Excess(rows))
  }

  /** Expired rows go, and a full table is repaired. */
  function Cleaned(st: State, now: int): Table {
    var live := Unexpired(st.rows, now);
    if |live| >= TOTAL then Repair(live, st.sessions) else live
  }

  /** Then pressure is relieved. */
  function MakeRoom(st: State, now: int): Table {
    Evict(Cleaned(st, now))
  }

  predicate Fits(rows: Table, row: Row) {
    && |OfBrowser(rows, row.browser)| < PER_BROWSER
    && (row.user.Some? ==> |OfUser(rows, row.user.value)| < PER_ACCOUNT)
    && |rows| < TOTAL
  }

  function Create(st: State, h: Hash, row: Row, now: int): (State, bool) {
    var rows := MakeRoom(st, now);
    if h in rows || !Fits(rows, row) then (st, false) else (st.(rows := rows[h := row]), true)
  }

  function Cancel(st: State, h: Hash, browser: string): State {
    if h in st.rows && st.rows[h].browser == browser then st.(rows := st.rows - {h}) else st
  }

  /** A login that completes a request binds it to its session and account. */
  predicate Completes(st: State, h: Hash, browser: string, s: SessionId, u: UserId, primary: int, now: int) {
    && h in st.rows && var row := st.rows[h];
    && row.browser == browser && row.session.None? && now < row.expires
    && (row.user.None? || row.user == Some(u))
    && |OfUser(st.rows, u) - {h}| < PER_ACCOUNT
    && row.created <= primary && u in st.active
    && (row.original.None? || (row.original.value in st.sessions && now < st.sessions[row.original.value].expires))
  }

  function Complete(st: State, h: Hash, browser: string, s: SessionId, u: UserId, primary: int, until: int,
      now: int): (State, bool) {
    if !Completes(st, h, browser, s, u, primary, now) then (st, false)
    else (st.(rows := st.rows[h := st.rows[h].(session := Some(s), user := Some(u))],
      sessions := st.sessions[s := Session(u, until)]), true)
  }

  /** Spending a code's request, and every other way rows leave. */
  function Remove(st: State, gone: set<Hash>): State {
    st.(rows := st.rows - gone)
  }

  // ---- the store ------------------------------------------------------------------------------------

  class InteractionStore {
    var st: State

    constructor ()
      ensures st == State(map[], map[], {})
    {
      st := State(map[], map[], {});
    }

    /** One transaction: a refusal rolls back the cleaning too. */
    method CreateAuthorizationInteraction(h: Hash, row: Row, now: int) returns (ok: bool)
      modifies this
      ensures (st, ok) == Create(old(st), h, row, now)
    {
      var rows := MakeRoomFor(now);
      ok := h !in rows && Fits(rows, row);
      if ok {
        st := st.(rows := rows[h := row]);
      }
    }

    /** The statements that precede the insert. */
    method MakeRoomFor(now: int) returns (rows: Table)
      ensures rows == MakeRoom(st, now)
    {
      rows := Unexpired(st.rows, now);
      if |rows| >= TOTAL {
        rows := Settle(rows, st.sessions);
        rows := Trim(rows);
      }
      rows := Evict(rows);
    }

    /** Afterwards the browser no longer has the request; every request of another browser is as it was. */
    method CancelAuthorizationInteraction(h: Hash, browser: string)
      modifies this
      ensures st == Cancel(old(st), h, browser)
      ensures h !in OfBrowser(st.rows, browser) && OfBrowser(st.rows, browser) == OfBrowser(old(st).rows, browser) - {h}
      ensures forall k :: k in old(st).rows && old(st).rows[k].browser != browser ==>
        k in st.rows && st.rows[k] == old(st).rows[k]
    {
      if h in st.rows && st.rows[h].browser == browser {
        st := st.(rows := st.rows - {h});
      }
    }

    method CreateSessionForInteraction(h: Hash, browser: string, s: SessionId, u: UserId, primary: int, until: int,
        now: int) returns (ok: bool)
      modifies this
      ensures (st, ok) == Complete(old(st), h, browser, s, u, primary, until, now)
    {
      if !Completes(st, h, browser, s, u, primary, now) {
        return false;
      }
      st := st.(rows := st.rows[h := st.rows[h].(session := Some(s), user := Some(u))]);
      st := st.(sessions := st.sessions[s := Session(u, until)]);
      return true;
    }
  }

  // ---- orders ---------------------------------------------------------------------------------------

  lemma PreferredIsOrder(rows: Table, s: set<Hash>)
    requires s <= rows.Keys
    ensures StrictOrder(Preferred(rows), s)
  {
  }

  lemma OlderIsOrder(rows: Table, s: set<Hash>)
    requires s <= rows.Keys
    ensures StrictOrder(Older(rows), s)
  {
  }

  // ---- what is kept ---------------------------------------------------------------------------------

  lemma TrimmedRows(rows: Table, u: UserId)
    ensures OfUser(Trim(rows), u) == First(Preferred(rows), OfUser(rows, u), PER_ACCOUNT)
  {
  }

  /**
   Trimming keeps `min(10, n)` of an account's `n` rows, drops no completed proof while it keeps an
   unfinished request or an older proof, drops no request while it keeps an older one, and leaves rows
   without an account alone.
   */
  lemma TrimKeepsTen(rows: Table, u: UserId)
    ensures var kept := OfUser(Trim(rows), u);
      && kept <= OfUser(rows, u) && |kept| == (if |OfUser(rows, u)| < PER_ACCOUNT then |OfUser(rows, u)|
         else PER_ACCOUNT)
      && forall gone, h :: gone in OfUser(rows, u) - kept && h in kept ==>
         (rows[gone].session.Some? ==> rows[h].session.Some? && rows[gone].created <= rows[h].created) &&
         (rows[h].session.None? ==> rows[gone].created <= rows[h].created)
    ensures forall h :: h in rows && rows[h].user.None? ==> h in Trim(rows)
    ensures forall h :: h in Trim(rows) ==> h in rows && Trim(rows)[h] == rows[h]
  {
    var owned, before := OfUser(rows, u), Preferred(rows);
    PreferredIsOrder(rows, owned);
    TrimmedRows(rows, u);
    FirstSize(before, owned, PER_ACCOUNT);
    forall gone, h | gone in owned && gone !in First(before, owned, PER_ACCOUNT)
      && h in First(before, owned, PER_ACCOUNT)
      ensures rows[gone].session.Some? ==> rows[h].session.Some? && rows[gone].created <= rows[h].created
      ensures rows[h].session.None? ==> rows[gone].created <= rows[h].created
    {
      FirstIsFirst(before, owned, PER_ACCOUNT, h, gone);
    }
  }

  /** The same of the whole repair, over the rows as it settles them. */
  lemma RepairKeepsTen(rows: Table, sessions: map<SessionId, Session>, u: UserId, settled: Table)
    requires settled == Settle(rows, sessions)
    ensures var kept := OfUser(Repair(rows, sessions), u);
      && kept <= OfUser(settled, u) && |kept| == (if |OfUser(settled, u)| < PER_ACCOUNT then |OfUser(settled, u)|
         else PER_ACCOUNT)
      && forall gone, h :: gone in OfUser(settled, u) - kept && h in kept ==>
         (settled[gone].session.Some? ==> settled[h].session.Some? && settled[gone].created <= settled[h].created) &&
         (settled[h].session.None? ==> settled[gone].created <= settled[h].created)
    ensures forall h :: h in settled && settled[h].user.None? ==> h in Repair(rows, sessions)
  {
    TrimKeepsTen(settled, u);
  }

  predicate MadeBefore(rows: Table, a: Hash, b: Hash) {
    && a in rows && b in rows
    && (rows[a].created < rows[b].created || (rows[a].created == rows[b].created && a.place < b.place))
  }

  /** Pressure takes only anonymous pending rows, the oldest first, and no more than one row needs. */
  lemma EvictionTakesOldestPending(rows: Table)
    ensures var gone := rows.Keys - Evict(rows).Keys;
      && gone <= Pending(rows)
      && (forall oldest, kept :: oldest in gone && kept in Pending(rows) - gone ==> MadeBefore(rows, oldest, kept))
      && |gone| == (if Excess(rows) < |Pending(rows)| then Excess(rows) else |Pending(rows)|)
      && |Evict(rows)| == |rows| - |gone|
    ensures |Evict(rows)| >= TOTAL ==> Pending(Evict(rows)) == {}
  {
    var pending := Pending(rows);
    OlderIsOrder(rows, pending);
    var gone := First(Older(rows), pending, Excess(rows));
    FirstSize(Older(rows), pending, Excess(rows));
    assert rows.Keys - Evict(rows).Keys == gone;
    assert Evict(rows).Keys == rows.Keys - gone;
    forall oldest, kept | oldest in gone && kept in pending && kept !in gone ensures MadeBefore(rows, oldest, kept) {
      FirstIsFirst(Older(rows), pending, Excess(rows), oldest, kept);
    }
    if |Evict(rows)| >= TOTAL {
      SubsetSize(gone, pending);
      assert gone == pending;
    }
  }

  // ---- the caps -------------------------------------------------------------------------------------

  ghost predicate Bounded(rows: Table) {
    && (forall b :: |OfBrowser(rows, b)| <= PER_BROWSER)
    && (forall u :: |OfUser(rows, u)| <= PER_ACCOUNT)
    && |rows| <= TOTAL
  }

  /** Fewer rows with the same browsers and accounts. */
  predicate Within(rows': Table, rows: Table) {
    forall h :: h in rows' ==> h in rows && rows'[h].browser == rows[h].browser && rows'[h].user == rows[h].user
  }

  lemma FewerRows(rows': Table, rows: Table)
    requires Bounded(rows) && Within(rows', rows)
    ensures Bounded(rows')
  {
    forall b ensures |OfBrowser(rows', b)| <= PER_BROWSER {
      SubsetSize(OfBrowser(rows', b), OfBrowser(rows, b));
    }
    forall u ensures |OfUser(rows', u)| <= PER_ACCOUNT {
      SubsetSize(OfUser(rows', u), OfUser(rows, u));
    }
    SubsetSize(rows'.Keys, rows.Keys);
  }

  lemma RepairStaysBounded(rows: Table, sessions: map<SessionId, Session>)
    requires Bounded(rows)
    ensures Bounded(Repair(rows, sessions))
  {
    var repaired := Repair(rows, sessions);
    forall b ensures |OfBrowser(repaired, b)| <= PER_BROWSER {
      SubsetSize(OfBrowser(repaired, b), OfBrowser(rows, b));
    }
    forall u ensures |OfUser(repaired, u)| <= PER_ACCOUNT {
      RepairKeepsTen(rows, sessions, u, Settle(rows, sessions));
    }
    SubsetSize(repaired.Keys, rows.Keys);
  }

  lemma EvictOnlyRemoves(rows: Table)
    ensures Within(Evict(rows), rows)
  {
  }

  lemma CleanedStaysBounded(st: State, now: int)
    requires Bounded(st.rows)
    ensures Bounded(Cleaned(st, now))
  {
    var live := Unexpired(st.rows, now);
    FewerRows(live, st.rows);
    RepairStaysBounded(live, st.sessions);
  }

  lemma InsertCountsOnce(rows: Table, h: Hash, row: Row, b: string)
    requires h !in rows
    ensures |OfBrowser(rows[h := row], b)| <= |OfBrowser(rows, b)| + if b == row.browser then 1 else 0
  {
    var rows' := rows[h := row];
    if b == row.browser {
      SubsetSize(OfBrowser(rows', b), OfBrowser(rows, b) + {h});
    } else {
      SubsetSize(OfBrowser(rows', b), OfBrowser(rows, b));
    }
  }

  lemma InsertOwnedOnce(rows: Table, h: Hash, row: Row, u: UserId)
    requires h !in rows
    ensures |OfUser(rows[h := row], u)| <= |OfUser(rows, u)| + if row.user == Some(u) then 1 else 0
  {
    var rows' := rows[h := row];
    if row.user == Some(u) {
      SubsetSize(OfUser(rows', u), OfUser(rows, u) + {h});
    } else {
      SubsetSize(OfUser(rows', u), OfUser(rows, u));
    }
  }

  lemma InsertStaysBounded(rows: Table, h: Hash, row: Row)
    requires Bounded(rows) && h !in rows && Fits(rows, row)
    ensures Bounded(rows[h := row])
  {
    var rows' := rows[h := row];
    forall b ensures |OfBrowser(rows', b)| <= PER_BROWSER {
      InsertCountsOnce(rows, h, row, b);
    }
    forall u ensures |OfUser(rows', u)| <= PER_ACCOUNT {
      InsertOwnedOnce(rows, h, row, u);
    }
  }

  lemma CreateStaysBounded(st: State, h: Hash, row: Row, now: int)
    requires Bounded(st.rows)
    ensures Bounded(Create(st, h, row, now).0.rows)
  {
    var cleaned, rows := Cleaned(st, now), MakeRoom(st, now);
    CleanedStaysBounded(st, now);
    EvictOnlyRemoves(cleaned);
    FewerRows(rows, cleaned);
    if h !in rows && Fits(rows, row) {
      InsertStaysBounded(rows, h, row);
    }
  }

  lemma CompleteStaysBounded(st: State, h: Hash, browser: string, s: SessionId, u: UserId, primary: int, until: int,
      now: int)
    requires Bounded(st.rows)
    ensures Bounded(Complete(st, h, browser, s, u, primary, until, now).0.rows)
  {
    if Completes(st, h, browser, s, u, primary, now) {
      var rows' := st.rows[h := st.rows[h].(session := Some(s), user := Some(u))];
      forall b ensures |OfBrowser(rows', b)| <= PER_BROWSER {
        assert OfBrowser(rows', b) == OfBrowser(st.rows, b);
      }
      forall v ensures |OfUser(rows', v)| <= PER_ACCOUNT {
        if v == u {
          assert OfUser(rows', u) == (OfUser(st.rows, u) - {h}) + {h};
        } else {
          SubsetSize(OfUser(rows', v), OfUser(st.rows, v));
        }
      }
      assert rows'.Keys == st.rows.Keys;
    }
  }

  datatype Event =
    | CreateEv(hash: Hash, row: Row)
    | CancelEv(hash: Hash, browser: string)
    | CompleteEv(hash: Hash, browser: string, session: SessionId, user: UserId, primary: int, until: int)
    | ExpireEv
    | RemoveEv(gone: set<Hash>)
    | SessionsEv(sessions: map<SessionId, Session>, active: set<UserId>)

  function Step(st: State, ev: Event, now: int): State {
    match ev
    case CreateEv(h, row) => Create(st, h, row, now).0
    case CancelEv(h, browser) => Cancel(st, h, browser)
    case CompleteEv(h, browser, s, u, primary, until) => Complete(st, h, browser, s, u, primary, until, now).0
    case ExpireEv => st.(rows := Unexpired(st.rows, now))
    case RemoveEv(gone) => Remove(st, gone)
    case SessionsEv(sessions, active) => st.(sessions := sessions, active := active)
  }

  function Run(st: State, events: seq<Event>, times: seq<int>): State
    requires |events| == |times|
    decreases |events|
  {
    if events == [] then st else Run(Step(st, events[0], times[0]), events[1..], times[1..])
  }

  lemma StepStaysBounded(st: State, ev: Event, now: int)
    requires Bounded(st.rows)
    ensures Bounded(Step(st, ev, now).rows)
  {
    match ev
    case CreateEv(h, row) => CreateStaysBounded(st, h, row, now);
    case CompleteEv(h, browser, s, u, primary, until) => CompleteStaysBounded(st, h, browser, s, u, primary,
      until, now);
    case CancelEv(h, browser) => FewerRows(Step(st, ev, now).rows, st.rows);
    case ExpireEv => FewerRows(Step(st, ev, now).rows, st.rows);
    case RemoveEv(gone) => FewerRows(Step(st, ev, now).rows, st.rows);
    case SessionsEv(_, _) =>
  }

  /** Ten per browser, ten per account, ten thousand in all: in every reachable state, at any times. */
  lemma {:induction false} AlwaysBounded(st: State, events: seq<Event>, times: seq<int>)
    requires |events| == |times| && Bounded(st.rows)
    ensures Bounded(Run(st, events, times).rows)
    decreases |events|
  {
    if events != [] {
      StepStaysBounded(st, events[0], times[0]);
      AlwaysBounded(Step(st, events[0], times[0]), events[1..], times[1..]);
    }
  }

  /** Cancelling undoes the creation, but for the room it made; only the browser that asked can cancel. */
  lemma CancelUndoesCreate(st: State, h: Hash, row: Row, now: int, browser: string)
    requires Create(st, h, row, now).1
    ensures var created := Create(st, h, row, now).0;
      Cancel(created, h, browser) == if browser == row.browser then st.(rows := MakeRoom(st, now)) else created
  {
    var rows := MakeRoom(st, now);
    assert rows[h := row] - {h} == rows;
  }

  // ---- refusals -------------------------------------------------------------------------------------

  /** Unexpired rows that belong to an account or carry a completed proof. */
  function Held(rows: Table, now: int): set<Hash> {
    set h | h in rows && now < rows[h].expires && !Anonymous(rows[h])
  }

  lemma CleanedKeepsHeld(st: State, now: int, h: Hash)
    requires h in Cleaned(st, now) && !Anonymous(Cleaned(st, now)[h])
    ensures h in Held(st.rows, now)
  {
  }

  lemma RoomIsHeld(st: State, now: int)
    requires |MakeRoom(st, now)| >= TOTAL
    ensures |Held(st.rows, now)| >= TOTAL
  {
    var cleaned, rows, held := Cleaned(st, now), MakeRoom(st, now), Held(st.rows, now);
    EvictionTakesOldestPending(cleaned);
    forall h | h in rows.Keys ensures h in held {
      EvictOnlyRemoves(cleaned);
      assert rows[h] == cleaned[h] && h !in Pending(rows);
      CleanedKeepsHeld(st, now, h);
    }
    SubsetSize(rows.Keys, held);
  }

  /**
   A request is refused exactly for one of four reasons, and the global cap is one only while ten
   thousand unexpired rows belong to accounts or carry completed proofs: anonymous requests, however
   many, never fill the table against anyone.
   */
  lemma RefusedOnlyFor(st: State, h: Hash, row: Row, now: int)
    ensures var rows := MakeRoom(st, now);
      !Create(st, h, row, now).1 <==>
        || h in rows
        || |OfBrowser(rows, row.browser)| >= PER_BROWSER
        || (row.user.Some? && |OfUser(rows, row.user.value)| >= PER_ACCOUNT)
        || |rows| >= TOTAL
    ensures |MakeRoom(st, now)| >= TOTAL ==> |Held(st.rows, now)| >= TOTAL
    ensures !Create(st, h, row, now).1 ==> Create(st, h, row, now).0 == st
  {
    if |MakeRoom(st, now)| >= TOTAL {
      RoomIsHeld(st, now);
    }
  }

  /** The account the row belongs to, once settled, has no more rows than it may. */
  predicate WithinLimit(st: State, h: Hash, now: int)
    requires h in st.rows
  {
    var owner := Owned(st.rows[h], st.sessions).user;
    owner.Some? ==> |OfUser(Settle(Unexpired(st.rows, now), st.sessions), owner.value)| <= PER_ACCOUNT
  }

  /** An unexpired row that is held by a live account or session, and within its own account's limit. */
  lemma CleanedKeeps(st: State, now: int, h: Hash)
    requires h in Held(st.rows, now) && Rooted(st.rows[h], st.sessions)
    requires WithinLimit(st, h, now)
    ensures h in Cleaned(st, now) && !Anonymous(Cleaned(st, now)[h])
  {
    var live := Unexpired(st.rows, now);
    if |live| >= TOTAL {
      var settled, u := Settle(live, st.sessions), Owned(live[h], st.sessions).user.value;
      RepairKeepsTen(live, st.sessions, u, settled);
      SubsetSize(OfUser(Repair(live, st.sessions), u), OfUser(settled, u));
      assert h in OfUser(settled, u);
    }
  }

  /**
   In-limit account requests and completed proofs survive another request's creation, whatever other
   accounts hold.
   */
  lemma CreateKeepsHeldRows(st: State, h: Hash, row: Row, now: int, held: Hash)
    requires Create(st, h, row, now).1
    requires held in Held(st.rows, now) && Rooted(st.rows[held], st.sessions)
    requires WithinLimit(st, held, now)
    ensures held in Create(st, h, row, now).0.rows
  {
    CleanedKeeps(st, now, held);
    EvictionTakesOldestPending(Cleaned(st, now));
    assert held in MakeRoom(st, now);
  }

  // ---- what is written ------------------------------------------------------------------------------

  /** The same request, which may have got its session's account back. */
  predicate SameRequest(row: Row, row': Row, sessions: map<SessionId, Session>) {
    && row' == row.(user := row'.user)
    && (row'.user == row.user ||
        (row.user.None? && row.session.Some? && row.session.value in sessions &&
         row'.user == Some(sessions[row.session.value].user)))
  }

  lemma CleanedIsUnexpired(st: State, now: int, k: Hash)
    requires k in Cleaned(st, now)
    ensures k in st.rows && now < st.rows[k].expires && SameRequest(st.rows[k], Cleaned(st, now)[k], st.sessions)
  {
  }

  /**
   An accepted request is stored as it was made. Every other row there is was there and has not expired;
   and while the table has room, every unexpired row stays.
   */
  lemma CreatedAsAsked(st: State, h: Hash, row: Row, now: int, k: Hash)
    requires Create(st, h, row, now).1
    ensures var rows := Create(st, h, row, now).0.rows;
      && h in rows && rows[h] == row && Create(st, h, row, now).0.sessions == st.sessions
      && (k != h && k in rows ==>
            k in st.rows && now < st.rows[k].expires && SameRequest(st.rows[k], rows[k], st.sessions))
      && (|Unexpired(st.rows, now)| < TOTAL && k != h && k in st.rows && now < st.rows[k].expires ==>
            k in rows && rows[k] == st.rows[k])
  {
    var cleaned := Cleaned(st, now);
    EvictionTakesOldestPending(cleaned);
    if k in MakeRoom(st, now) {
      CleanedIsUnexpired(st, now, k);
    }
    if |Unexpired(st.rows, now)| < TOTAL {
      assert First(Older(cleaned), Pending(cleaned), 0) == {} by {
        OlderIsOrder(cleaned, Pending(cleaned));
        FirstSize(Older(cleaned), Pending(cleaned), 0);
      }
    }
  }

  /** The account's requests besides this one. */
  function OtherRequests(rows: Table, u: UserId, h: Hash): set<Hash> {
    set k | k in rows && k != h && rows[k].user == Some(u)
  }

  /**
   A login completes a request exactly when it is that browser's own, open, unexpired request for nobody
   else, the password was given since it was made, the account is active and has fewer than ten others,
   and the session it started from, if any, is still there.
   */
  lemma CompletedIff(st: State, h: Hash, browser: string, s: SessionId, u: UserId, primary: int, until: int, now: int)
    ensures Complete(st, h, browser, s, u, primary, until, now).1 <==>
      && h in st.rows && st.rows[h].browser == browser && st.rows[h].session == None && now < st.rows[h].expires
      && (st.rows[h].user == None || st.rows[h].user == Some(u)) && st.rows[h].created <= primary && u in st.active
      && |OtherRequests(st.rows, u, h)| < 10
      && (st.rows[h].original.Some? ==>
            && st.rows[h].original.value in st.sessions && now < st.sessions[st.rows[h].original.value].expires)
  {
    assert OfUser(st.rows, u) - {h} == OtherRequests(st.rows, u, h);
  }

  /** The request is then that session's and account's, and no other row changes; a refusal changes none. */
  lemma CompletedEffect(st: State, h: Hash, browser: string, s: SessionId, u: UserId, primary: int, until: int,
      now: int)
    ensures var (st', ok) := Complete(st, h, browser, s, u, primary, until, now);
      && (ok ==>
            && h in st.rows && h in st'.rows && st'.rows[h] == st.rows[h].(session := Some(s), user := Some(u))
            && st'.rows - {h} == st.rows - {h} && st'.active == st.active
            && s in st'.sessions && st'.sessions[s] == Session(u, until) && st'.sessions - {s} == st.sessions - {s})
      && (!ok ==> st' == st)
  {
  }

  /** And it is completed once. */
  lemma CompletedOnce(st: State, h: Hash, browser: string, s: SessionId, u: UserId, primary: int, until: int, now: int,
      browser': string, s': SessionId, v: UserId, primary': int, until': int, later: int)
    requires Complete(st, h, browser, s, u, primary, until, now).1
    ensures var done := Complete(st, h, browser, s, u, primary, until, now).0;
      Complete(done, h, browser', s', v, primary', until', later) == (done, false)
  {
  }
}
