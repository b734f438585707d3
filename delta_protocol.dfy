// The deterministic decisions of Tomcat's delta session replication
// (org.apache.catalina.ha.session.DeltaManager): what a finished request replicates, which
// received messages wait while the full session state is being transferred, which of them are
// replayed afterwards, how the session table is cut into batches and how the wait for the
// state transfer ends. Time is an explicit parameter; transport and serialization are not
// modelled, so a message carries its payload as values.

module DeltaProtocol {
  import opened Wrappers

  /** The event types of a session message. */
  datatype EventType =
    | GetAllSessions
    | AllSessionData
    | SessionCreated
    | SessionExpired
    | SessionAccessed
    | SessionDelta
    | AllSessionTransferComplete
    | ChangeSessionId
    | AllSessionNoContextManager
    | OtherEvent(code: int)

  /** A replicated session, as far as the manager's decisions look at it. */
  datatype Session = Session(
    valid: bool,
    primary: bool,
    dirty: bool,
    lastReplicated: int,
    maxInactive: int,
    creationTime: int)

  /** The payload of a message, already deserialized. */
  datatype Payload =
    | NoData
    | DeltaData
    | NewSessionId(id: string)
    | SessionsData(entries: seq<(string, Session)>)

  datatype Message = Message(eventType: EventType, sessionId: string, timestamp: int, data: Payload)

  /** A cluster member, by address. */
  type Member = string

  /** The statistics counters of the manager, and those of its base class it resets. */
  datatype Counter =
    | SessionReplace
    | ReceiveGetAllSessions | ReceiveAllSessionData | ReceiveSessionCreated | ReceiveSessionExpired
    | ReceiveSessionAccessed | ReceiveSessionDelta | ReceiveTransferComplete | ReceiveChangeSessionId
    | ReceiveNoContextManager
    | SendGetAllSessions | SendAllSessionData | SendSessionCreated | SendSessionDelta | SendSessionAccessed
    | SendSessionExpired | SendTransferComplete | SendChangeSessionId
    | NoStateTransferred
    | ProcessingTime | ExpiredSessions | RejectedSessions

  /** A counter absent from the map reads as zero. */
  type Counters = map<Counter, int>

  function Count(c: Counters, k: Counter): int {
    if k in c then c[k] else 0
  }

  /** `incrementAndGet` guarded by `enableStatistics`, repeated `n` times. */
  function BumpBy(c: Counters, k: Counter, n: nat, enabled: bool): Counters {
    if enabled then c[k := Count(c, k) + n] else c
  }

  function Bump(c: Counters, k: Counter, enabled: bool): Counters {
    BumpBy(c, k, 1, enabled)
  }

  /** `resetStatistics`: every counter is zeroed except the NOCONTEXTMANAGER receive counter. */
  function Reset(c: Counters): (r: Counters)
    ensures forall k :: Count(r, k) == (if k == ReceiveNoContextManager then Count(c, k) else 0)
  {
    map[ReceiveNoContextManager := Count(c, ReceiveNoContextManager)]
  }

  // ------------------------------------------------------------ requestCompleted

  /** What `requestCompleted` returns and leaves behind for a session it found. */
  datatype Completion = Completion(event: Option<EventType>, session: Session, counters: Counters)

  /**
   * `requestCompleted(sessionId, expires)` for a session that exists, in the order of the
   * source: a dirty session yields a delta (whose serialization may fail, `diffFails`, after
   * the delta counter has been bumped). `DeltaSession.getDiff` takes the pending changes out of
   * the session before serializing them, so a dirty session is left clean even when that
   * fails. Only without a delta may an access message follow,
   * either because the session is not primary here or because it was last replicated longer
   * ago than its maximum inactive interval.
   */
  function Complete(s: Session, expires: bool, now: int, diffFails: bool, c: Counters, enabled: bool)
    : Completion
  {
    var c1 := if s.dirty then Bump(c, SendSessionDelta, enabled) else c;
    var s1 := s.(dirty := false);
    if s.dirty && diffFails then Completion(None, s1, c1)
    else
      var ev1 := if s.dirty then Some(SessionDelta) else None;
      var ev2 := if ev1.None? && !expires && !s.primary then Some(SessionAccessed) else ev1;
      var c2 := if ev1.None? && ev2.Some? then Bump(c1, SendSessionAccessed, enabled) else c1;
      var s2 := if !expires then s1.(primary := true) else s1;
      var stale := ev2.None? && !expires && s2.maxInactive >= 0 && now - s2.lastReplicated > s2.maxInactive * 1000;
      var ev3 := if stale then Some(SessionAccessed) else ev2;
      var c3 := if stale then Bump(c2, SendSessionAccessed, enabled) else c2;
      Completion(ev3, if ev3.Some? then s2.(lastReplicated := now) else s2, c3)
  }

  /**
   * The decision stated flat: a delta exactly for a dirty session whose diff serializes; an
   * access message exactly for a clean session that is not expiring and is either a backup
   * here or overdue for replication; nothing otherwise.
   */
  lemma CompleteEvent(s: Session, expires: bool, now: int, diffFails: bool, c: Counters, enabled: bool)
    ensures var r := Complete(s, expires, now, diffFails, c, enabled);
      (r.event == Some(SessionDelta) <==> s.dirty && !diffFails)
      && (r.event == Some(SessionAccessed) <==>
            !s.dirty && !expires
            && (!s.primary || (s.maxInactive >= 0 && now - s.lastReplicated > s.maxInactive * 1000)))
      && (r.event.Some? ==> r.event == Some(SessionDelta) || r.event == Some(SessionAccessed))
  {
  }

  /**
   * The session is left clean. A request (not an expiry) leaves the session primary unless its
   * diff failed, and a failed diff changes nothing else; an expiry leaves the flag alone. A
   * message stamps the session with `now`; no message leaves the stamp alone. Only the dirty
   * flag, the primary flag and the stamp change.
   */
  lemma CompleteSession(s: Session, expires: bool, now: int, diffFails: bool, c: Counters, enabled: bool)
    ensures var r := Complete(s, expires, now, diffFails, c, enabled);
      !r.session.dirty
      && (s.dirty && diffFails ==> r.session == s.(dirty := false))
      && (!expires && !(s.dirty && diffFails) ==> r.session.primary)
      && (expires ==> r.session.primary == s.primary)
      && (r.event.Some? ==> r.session.lastReplicated == now)
      && (r.event.None? ==> r.session.lastReplicated == s.lastReplicated)
      && r.session.(dirty := s.dirty, primary := s.primary, lastReplicated := s.lastReplicated) == s
  {
  }

  /**
   * The delta counter counts dirty sessions, failed diffs included; the access counter counts
   * access messages; no other counter moves.
   */
  lemma CompleteCounters(s: Session, expires: bool, now: int, diffFails: bool, c: Counters, enabled: bool)
    ensures var r := Complete(s, expires, now, diffFails, c, enabled);
      forall k :: Count(r.counters, k) == Count(c, k)
        + (if enabled && k == SendSessionDelta && s.dirty then 1 else 0)
        + (if enabled && k == SendSessionAccessed && r.event == Some(SessionAccessed) then 1 else 0)
  {
  }

  /**
   * Right after a request that did not fail, a second one at the same instant with no new
   * change sends nothing: the first left the session clean, primary and just replicated (or
   * not overdue).
   */
  lemma CompleteQuiet(s: Session, now: int, diffFails: bool, c: Counters, enabled: bool)
    requires !(s.dirty && diffFails)
    ensures var r := Complete(s, false, now, diffFails, c, enabled);
      Complete(r.session, false, now, diffFails, r.counters, enabled).event.None?
  {
    var r := Complete(s, false, now, diffFails, c, enabled);
    if r.event.Some? {
      assert r.session.lastReplicated == now;
      assert r.session.maxInactive < 0 || 0 <= r.session.maxInactive * 1000;
    }
  }

  // ------------------------------------------------------------ receiving

  /** The message types `messageDataReceived` holds back while a state transfer is running. */
  predicate Queueable(t: EventType) {
    t in {GetAllSessions, SessionCreated, SessionExpired, SessionAccessed, SessionDelta, ChangeSessionId}
  }

  /** The manager state the message handlers change. */
  datatype ReceiveState = ReceiveState(
    sessions: map<string, Session>,
    stateTransferred: bool,
    noContextManagerReceived: bool,
    stateTransferCreateSendTime: int,
    counters: Counters,
    maxActive: int)

  /** The settings the handlers read. */
  datatype Config = Config(
    enableStatistics: bool,
    sendAllSessions: bool,
    sendAllSessionsSize: int,
    sessionTimeout: int)

  /** How many batches of `size` cover `n` sessions: the iterations of the batching loop. */
  function NumBatches(n: nat, size: int): (r: nat)
    requires size > 0
    ensures r == 0 <==> n == 0
    ensures r <= n
    decreases n
  {
    if n == 0 then 0 else if n <= size then 1 else 1 + NumBatches(n - size, size)
  }

  /**
   * One turn of the batching loop of `handleGET_ALL_SESSIONS` as written, at index `i` of `n`
   * sessions: the length of the batch it sends and the next index (`i += size`).
   */
  function BatchTurn(i: int, n: int, size: int): (int, int) {
    (if i + size > n then n - i else size, i + size)
  }

  /**
   * As written, a batch size of 0 sends an empty batch and leaves the index where it was, so
   * while any session is left the loop never ends: with one session it sends empty batches
   * forever.
   */
  lemma ZeroBatchSizeStalls(i: int, n: int)
    requires 0 <= i < n
    ensures BatchTurn(i, n, 0) == (0, i)
  {
  }

  /** How many `ALL_SESSION_DATA` messages answer a `GET_ALL_SESSIONS` for `n` sessions. */
  function DataMessages(cfg: Config, n: nat): nat
    requires cfg.sendAllSessionsSize > 0
  {
    if cfg.sendAllSessions then 1 else NumBatches(n, cfg.sendAllSessionsSize)
  }

  /**
   * The peak session count after `ManagerBase.add` has put a session in a table that now holds
   * `n` sessions: raised to `n` when `n` exceeds it.
   */
  function HighWater(maxActive: int, n: int): (r: int)
    ensures r >= maxActive && r >= n
    ensures r == maxActive || r == n
  {
    if n > maxActive then n else maxActive
  }

  /** One deserialized session as `deserializeSessions` installs it: valid, a backup, clean. */
  function Installed(s: Session): Session {
    s.(valid := true, primary := false, dirty := false)
  }

  /**
   * `deserializeSessions`: each entry in turn replaces or adds its session; a replacement
   * bumps `sessionReplaceCounter`. Defined on prefixes, as the loop runs.
   */
  function Load(sessions: map<string, Session>, c: Counters, entries: seq<(string, Session)>, enabled: bool)
    : (map<string, Session>, Counters)
    decreases |entries|
  {
    if |entries| == 0 then (sessions, c)
    else
      var (m, c1) := Load(sessions, c, entries[..|entries| - 1], enabled);
      var (id, s) := entries[|entries| - 1];
      (m[id := Installed(s)], if id in m then Bump(c1, SessionReplace, enabled) else c1)
  }

  /**
   * The peak session count `deserializeSessions` leaves: each `add` raises it to the size of
   * the table it has just grown.
   */
  function LoadPeak(sessions: map<string, Session>, c: Counters, high: int, entries: seq<(string, Session)>,
                    enabled: bool): int
    decreases |entries|
  {
    if |entries| == 0 then high
    else
      HighWater(LoadPeak(sessions, c, high, entries[..|entries| - 1], enabled),
                |Load(sessions, c, entries, enabled).0|)
  }

  /**
   * The table only grows while sessions are loaded, so the peak after loading is the old peak
   * or the final size, whichever is larger.
   */
  lemma {:induction false} LoadHighWater(sessions: map<string, Session>, c: Counters, high: int,
                                         entries: seq<(string, Session)>, enabled: bool)
    requires high >= |sessions|
    ensures var m := Load(sessions, c, entries, enabled).0;
      |m| >= |sessions| && LoadPeak(sessions, c, high, entries, enabled) == HighWater(high, |m|)
    decreases |entries|
  {
    if |entries| > 0 {
      var init := entries[..|entries| - 1];
      LoadHighWater(sessions, c, high, init, enabled);
      var m := Load(sessions, c, init, enabled).0;
      var (id, s) := entries[|entries| - 1];
      assert Load(sessions, c, entries, enabled).0 == m[id := Installed(s)];
      assert |m[id := Installed(s)]| >= |m| by {
        assert m[id := Installed(s)].Keys == m.Keys + {id};
      }
    }
  }

  /** After loading, the ids are the old ones and the loaded ones. */
  lemma {:induction false} LoadKeys(sessions: map<string, Session>, c: Counters,
                                    entries: seq<(string, Session)>, enabled: bool)
    ensures Load(sessions, c, entries, enabled).0.Keys == sessions.Keys + (set e | e in entries :: e.0)
    decreases |entries|
  {
    if |entries| > 0 {
      var init := entries[..|entries| - 1];
      LoadKeys(sessions, c, init, enabled);
      assert forall e :: e in entries <==> e in init || e == entries[|entries| - 1];
    }
  }

  /** After loading, an id no entry names keeps its session. */
  lemma {:induction false} LoadKeeps(sessions: map<string, Session>, c: Counters,
                                     entries: seq<(string, Session)>, enabled: bool, id: string)
    requires id in sessions
    requires forall e :: e in entries ==> e.0 != id
    ensures var m := Load(sessions, c, entries, enabled).0; id in m && m[id] == sessions[id]
    decreases |entries|
  {
    if |entries| > 0 {
      var init := entries[..|entries| - 1];
      assert forall e :: e in init ==> e in entries;
      LoadKeeps(sessions, c, init, enabled, id);
    }
  }

  /** After loading, an id holds the installed session of the last entry naming it. */
  lemma {:induction false} LoadInstalls(sessions: map<string, Session>, c: Counters,
                                        entries: seq<(string, Session)>, enabled: bool, i: int)
    requires 0 <= i < |entries|
    requires forall j :: i < j < |entries| ==> entries[j].0 != entries[i].0
    ensures var m := Load(sessions, c, entries, enabled).0;
      entries[i].0 in m && m[entries[i].0] == Installed(entries[i].1)
    decreases |entries|
  {
    if i < |entries| - 1 {
      var init := entries[..|entries| - 1];
      assert init[i] == entries[i];
      assert forall j :: i < j < |init| ==> init[j] == entries[j];
      LoadInstalls(sessions, c, init, enabled, i);
    }
  }

  /** `handleGET_ALL_SESSIONS`: the reply is counted as data messages and one TRANSFERCOMPLETE. */
  function OnGetAllSessions(st: ReceiveState, cfg: Config): ReceiveState
    requires cfg.sendAllSessionsSize > 0
  {
    var e := cfg.enableStatistics;
    var c := BumpBy(Bump(st.counters, ReceiveGetAllSessions, e), SendAllSessionData,
                    DataMessages(cfg, |st.sessions|), e);
    st.(counters := Bump(c, SendTransferComplete, e))
  }

  /** `handleALL_SESSION_DATA`: the transferred sessions are installed. */
  function OnAllSessionData(st: ReceiveState, cfg: Config, msg: Message): ReceiveState {
    var e := cfg.enableStatistics;
    var entries := if msg.data.SessionsData? then msg.data.entries else [];
    var c0 := Bump(st.counters, ReceiveAllSessionData, e);
    var (m, c) := Load(st.sessions, c0, entries, e);
    st.(sessions := m, counters := c, maxActive := LoadPeak(st.sessions, c0, st.maxActive, entries, e))
  }

  /** `handleALL_SESSION_TRANSFERCOMPLETE`. */
  function OnTransferComplete(st: ReceiveState, cfg: Config, msg: Message): ReceiveState {
    st.(counters := Bump(st.counters, ReceiveTransferComplete, cfg.enableStatistics),
        stateTransferCreateSendTime := msg.timestamp, stateTransferred := true)
  }

  /**
   * `handleSESSION_CREATED`: a valid backup session with the context's timeout, created `now`;
   * `setId` adds it to the table, which raises the peak session count.
   */
  function OnSessionCreated(st: ReceiveState, cfg: Config, msg: Message, now: int): ReceiveState {
    var s := Session(true, false, false, now, cfg.sessionTimeout * 60, msg.timestamp);
    var m := st.sessions[msg.sessionId := s];
    st.(counters := Bump(st.counters, ReceiveSessionCreated, cfg.enableStatistics),
        sessions := m, maxActive := HighWater(st.maxActive, |m|))
  }

  /**
   * Expiring a session (`expire` of a session that is still valid): `ManagerBase.remove(session,
   * true)` takes it out of the table and counts it in `expiredSessions`, whatever
   * `enableStatistics` says. An invalid session has been expired already and is left alone.
   */
  function Expire(sessions: map<string, Session>, c: Counters, id: string): (map<string, Session>, Counters)
  {
    if id in sessions && sessions[id].valid then (sessions - {id}, BumpBy(c, ExpiredSessions, 1, true))
    else (sessions, c)
  }

  /** `handleSESSION_EXPIRED`: a known session is expired without notifying the cluster. */
  function OnSessionExpired(st: ReceiveState, cfg: Config, msg: Message): ReceiveState {
    var (m, c) := Expire(st.sessions, Bump(st.counters, ReceiveSessionExpired, cfg.enableStatistics), msg.sessionId);
    st.(counters := c, sessions := m)
  }

  /** `handleSESSION_ACCESSED`: a known session becomes a backup here. */
  function OnSessionAccessed(st: ReceiveState, cfg: Config, msg: Message): ReceiveState {
    var id := msg.sessionId;
    var m := if id in st.sessions then st.sessions[id := st.sessions[id].(primary := false)] else st.sessions;
    st.(counters := Bump(st.counters, ReceiveSessionAccessed, cfg.enableStatistics), sessions := m)
  }

  /** `handleSESSION_DELTA`: the delta is applied inside the session, which is not modelled. */
  function OnSessionDelta(st: ReceiveState, cfg: Config): ReceiveState {
    st.(counters := Bump(st.counters, ReceiveSessionDelta, cfg.enableStatistics))
  }

  /**
   * `handleCHANGE_SESSION_ID`: a known session moves to its new id as a backup (`setId`
   * removes it under the old id and adds it under the new one, raising the peak count).
   */
  function OnChangeSessionId(st: ReceiveState, cfg: Config, msg: Message): ReceiveState {
    var id := msg.sessionId;
    var c := Bump(st.counters, ReceiveChangeSessionId, cfg.enableStatistics);
    if id in st.sessions && msg.data.NewSessionId? then
      var m := (st.sessions - {id})[msg.data.id := st.sessions[id].(primary := false)];
      st.(counters := c, sessions := m, maxActive := HighWater(st.maxActive, |m|))
    else st.(counters := c)
  }

  /** `handleALL_SESSION_NOCONTEXTMANAGER`. */
  function OnNoContextManager(st: ReceiveState, cfg: Config): ReceiveState {
    st.(counters := Bump(st.counters, ReceiveNoContextManager, cfg.enableStatistics),
        noContextManagerReceived := true)
  }

  /** `messageReceived`: the handler for the message's type; an unknown type is ignored. */
  function Dispatch(st: ReceiveState, cfg: Config, msg: Message, now: int): ReceiveState
    requires cfg.sendAllSessionsSize > 0
  {
    match msg.eventType
    case GetAllSessions => OnGetAllSessions(st, cfg)
    case AllSessionData => OnAllSessionData(st, cfg, msg)
    case AllSessionTransferComplete => OnTransferComplete(st, cfg, msg)
    case SessionCreated => OnSessionCreated(st, cfg, msg, now)
    case SessionExpired => OnSessionExpired(st, cfg, msg)
    case SessionAccessed => OnSessionAccessed(st, cfg, msg)
    case SessionDelta => OnSessionDelta(st, cfg)
    case ChangeSessionId => OnChangeSessionId(st, cfg, msg)
    case AllSessionNoContextManager => OnNoContextManager(st, cfg)
    case OtherEvent(_) => st
  }

  /** A message that can be queued never touches the state-transfer flags or reference time. */
  lemma QueueableKeepsTransferState(st: ReceiveState, cfg: Config, msg: Message, now: int)
    requires cfg.sendAllSessionsSize > 0
    requires Queueable(msg.eventType)
    ensures var r := Dispatch(st, cfg, msg, now);
      r.stateTransferred == st.stateTransferred
      && r.noContextManagerReceived == st.noContextManagerReceived
      && r.stateTransferCreateSendTime == st.stateTransferCreateSendTime
  {
  }

  /**
   * The peak session count never falls, and it stays at or above the table's size whatever
   * message is handled: every handler that puts a session in the table raises it.
   */
  lemma DispatchHighWater(st: ReceiveState, cfg: Config, msg: Message, now: int)
    requires cfg.sendAllSessionsSize > 0
    requires st.maxActive >= |st.sessions|
    ensures var r := Dispatch(st, cfg, msg, now);
      r.maxActive >= st.maxActive && r.maxActive >= |r.sessions|
  {
    match msg.eventType
    case AllSessionData =>
      var e := cfg.enableStatistics;
      var entries := if msg.data.SessionsData? then msg.data.entries else [];
      LoadHighWater(st.sessions, Bump(st.counters, ReceiveAllSessionData, e), st.maxActive, entries, e);
    case SessionExpired =>
      var id := msg.sessionId;
      if id in st.sessions && st.sessions[id].valid {
        assert (st.sessions - {id}).Keys == st.sessions.Keys - {id};
      }
    case _ =>
  }

  /**
   * SESSION_EXPIRED removes a known session that is still valid and counts it in
   * `expiredSessions`; an unknown or already invalid session leaves the table and that counter
   * as they were. The peak session count does not move.
   */
  lemma ExpiredEffect(st: ReceiveState, cfg: Config, msg: Message, now: int)
    requires cfg.sendAllSessionsSize > 0
    requires msg.eventType == SessionExpired
    ensures var r := Dispatch(st, cfg, msg, now);
      var id := msg.sessionId;
      var hit := id in st.sessions && st.sessions[id].valid;
      r.sessions == (if hit then st.sessions - {id} else st.sessions)
      && Count(r.counters, ExpiredSessions) == Count(st.counters, ExpiredSessions) + (if hit then 1 else 0)
      && r.maxActive == st.maxActive
  {
  }

  /** TRANSFERCOMPLETE marks the state as transferred at the message's timestamp. */
  lemma TransferCompleteEffect(st: ReceiveState, cfg: Config, msg: Message, now: int)
    requires cfg.sendAllSessionsSize > 0
    requires msg.eventType == AllSessionTransferComplete
    ensures var r := Dispatch(st, cfg, msg, now);
      r.stateTransferred && r.stateTransferCreateSendTime == msg.timestamp && r.sessions == st.sessions
  {
  }

  /**
   * ACCESSED makes the session a backup here and touches nothing else of it; handling it twice
   * leaves the sessions as handling it once.
   */
  lemma AccessedEffect(st: ReceiveState, cfg: Config, msg: Message, now: int)
    requires cfg.sendAllSessionsSize > 0
    requires msg.eventType == SessionAccessed
    ensures var r := Dispatch(st, cfg, msg, now);
      r.sessions.Keys == st.sessions.Keys
      && (msg.sessionId in st.sessions ==>
            r.sessions[msg.sessionId] == st.sessions[msg.sessionId].(primary := false))
      && (forall id :: id in st.sessions && id != msg.sessionId ==> r.sessions[id] == st.sessions[id])
      && Dispatch(r, cfg, msg, now).sessions == r.sessions
  {
  }

  /** The effect of handling messages in order; defined on prefixes, as a loop replays them. */
  function DispatchAll(st: ReceiveState, cfg: Config, ms: seq<Message>, now: int): ReceiveState
    requires cfg.sendAllSessionsSize > 0
    decreases |ms|
  {
    if |ms| == 0 then st else Dispatch(DispatchAll(st, cfg, ms[..|ms| - 1], now), cfg, ms[|ms| - 1], now)
  }

  /** Replaying only queueable messages keeps the state-transfer flags and reference time. */
  lemma {:induction false} DispatchAllKeepsTransferState(st: ReceiveState, cfg: Config, ms: seq<Message>, now: int)
    requires cfg.sendAllSessionsSize > 0
    requires forall m :: m in ms ==> Queueable(m.eventType)
    ensures var r := DispatchAll(st, cfg, ms, now);
      r.stateTransferred == st.stateTransferred
      && r.noContextManagerReceived == st.noContextManagerReceived
      && r.stateTransferCreateSendTime == st.stateTransferCreateSendTime
    decreases |ms|
  {
    if |ms| > 0 {
      var init := ms[..|ms| - 1];
      assert forall m :: m in init ==> m in ms;
      DispatchAllKeepsTransferState(st, cfg, init, now);
      QueueableKeepsTransferState(DispatchAll(st, cfg, init, now), cfg, ms[|ms| - 1], now);
    }
  }

  // ------------------------------------------------------------ draining the queue

  /** The drain filter: with `stateTimestampDrop`, GET_ALL and messages older than `t` go. */
  predicate Replays(m: Message, drop: bool, t: int) {
    !drop || (m.eventType != GetAllSessions && m.timestamp >= t)
  }

  /** The queued messages the drain hands to `messageReceived`, in arrival order. */
  function Replayed(q: seq<Message>, drop: bool, t: int): (r: seq<Message>)
    ensures |r| <= |q|
    decreases |q|
  {
    if |q| == 0 then []
    else Replayed(q[..|q| - 1], drop, t) + (if Replays(q[|q| - 1], drop, t) then [q[|q| - 1]] else [])
  }

  /** One more queued message: it is handled after the earlier ones if the filter keeps it. */
  lemma ReplayStep(st: ReceiveState, cfg: Config, q: seq<Message>, k: int, drop: bool, t: int, now: int)
    requires cfg.sendAllSessionsSize > 0
    requires 0 <= k < |q|
    ensures var before := DispatchAll(st, cfg, Replayed(q[..k], drop, t), now);
      DispatchAll(st, cfg, Replayed(q[..k + 1], drop, t), now)
      == if Replays(q[k], drop, t) then Dispatch(before, cfg, q[k], now) else before
  {
    var done := Replayed(q[..k], drop, t);
    var q1 := q[..k + 1];
    assert q1[..|q1| - 1] == q[..k] && q1[|q1| - 1] == q[k];
    assert Replayed(q1, drop, t) == done + if Replays(q[k], drop, t) then [q[k]] else [];
    if Replays(q[k], drop, t) {
      var ms := done + [q[k]];
      assert ms[..|ms| - 1] == done && ms[|ms| - 1] == q[k];
    } else {
      assert done + [] == done;
    }
  }

  /** A message is replayed exactly when it was queued and passes the filter. */
  lemma {:induction false} ReplayedMembers(q: seq<Message>, drop: bool, t: int)
    ensures forall m :: m in Replayed(q, drop, t) <==> m in q && Replays(m, drop, t)
    decreases |q|
  {
    if |q| > 0 {
      ReplayedMembers(q[..|q| - 1], drop, t);
      assert forall m :: m in q <==> m in q[..|q| - 1] || m == q[|q| - 1];
    }
  }

  /** Without `stateTimestampDrop` every queued message is replayed, in order. */
  lemma {:induction false} ReplayedAll(q: seq<Message>, t: int)
    ensures Replayed(q, false, t) == q
    decreases |q|
  {
    if |q| > 0 {
      ReplayedAll(q[..|q| - 1], t);
      assert q[..|q| - 1] + [q[|q| - 1]] == q;
    }
  }

  /**
   * Replayed messages keep their arrival order: the replay is the queue with some messages
   * left out, given as the increasing positions it keeps.
   */
  lemma {:induction false} ReplayedInOrder(q: seq<Message>, drop: bool, t: int)
    returns (pos: seq<nat>)
    ensures |pos| == |Replayed(q, drop, t)|
    ensures forall i :: 0 <= i < |pos| ==> pos[i] < |q| && q[pos[i]] == Replayed(q, drop, t)[i]
    ensures forall i, j :: 0 <= i < j < |pos| ==> pos[i] < pos[j]
    decreases |q|
  {
    if |q| == 0 {
      pos := [];
    } else {
      pos := ReplayedInOrder(q[..|q| - 1], drop, t);
      if Replays(q[|q| - 1], drop, t) {
        pos := pos + [|q| - 1];
      }
    }
  }

  // ------------------------------------------------------------ batching and members

  /** The batches laid end to end. */
  function Flatten<T>(bs: seq<seq<T>>): seq<T>
    decreases |bs|
  {
    if |bs| == 0 then [] else Flatten(bs[..|bs| - 1]) + bs[|bs| - 1]
  }

  /** `findSessionMasterMember`: the first member, or none when the cluster is empty. */
  function FindSessionMasterMember(members: seq<Member>): (r: Option<Member>)
    ensures r.None? <==> |members| == 0
    ensures r.Some? ==> r.value == members[0] && r.value in members
  {
    if |members| != 0 then Some(members[0]) else None
  }

  // ------------------------------------------------------------ expiring

  /** A session `expireAllLocalSessions` expires: primary here and still valid. */
  predicate ExpiresLocally(s: Session) {
    s.primary && s.valid
  }

  /** The sessions left after `expireAllLocalSessions`. */
  function Unexpired(m: map<string, Session>): (r: map<string, Session>)
    ensures forall id :: id in r <==> id in m && !ExpiresLocally(m[id])
    ensures forall id :: id in r ==> r[id] == m[id]
  {
    map id | id in m && !ExpiresLocally(m[id]) :: m[id]
  }

  /** `Unexpired` is the one table that keeps exactly the sessions not expiring locally. */
  lemma UnexpiredExactly(m: map<string, Session>, r: map<string, Session>)
    requires forall id :: id in r <==> id in m && !ExpiresLocally(m[id])
    requires forall id :: id in r ==> r[id] == m[id]
    ensures r == Unexpired(m)
  {
    assert r.Keys == Unexpired(m).Keys;
  }

  /** Expiring the local sessions a second time changes nothing. */
  lemma UnexpiredIdempotent(m: map<string, Session>)
    ensures Unexpired(Unexpired(m)) == Unexpired(m)
  {
    var r := Unexpired(m);
    assert Unexpired(r).Keys == r.Keys;
  }

  // ------------------------------------------------------------ waiting for the state

  /** How `waitForSendAllSessions` ends. */
  datatype WaitOutcome = TimedOut | NoContextManager | SessionsReceived | WaitsForever

  /**
   * The outcome of `waitForSendAllSessions` for `stateTransferTimeout` seconds. `arrival` is
   * the elapsed milliseconds at the first poll that sees the state transferred or a
   * NOCONTEXTMANAGER reply (none if neither ever comes); `noContext` is the NOCONTEXTMANAGER
   * flag when the wait ends. A positive timeout polls until the deadline; only -1 waits without
   * limit; zero and other negative values do not wait at all.
   */
  function Wait(timeout: int, arrival: Option<int>, noContext: bool): WaitOutcome {
    if timeout > 0 then
      if arrival.None? || arrival.value > 1000 * timeout then TimedOut
      else if noContext then NoContextManager else SessionsReceived
    else if timeout == -1 && arrival.None? then WaitsForever
    else if noContext then NoContextManager else SessionsReceived
  }

  /**
   * Only a positive timeout can time out; only -1 can block; with any other non-positive
   * timeout the wait reports the sessions received (or NOCONTEXTMANAGER) at once, whatever
   * has arrived.
   */
  lemma WaitCases(timeout: int, arrival: Option<int>, noContext: bool)
    ensures Wait(timeout, arrival, noContext) == TimedOut <==>
      timeout > 0 && (arrival.None? || arrival.value > 1000 * timeout)
    ensures Wait(timeout, arrival, noContext) == WaitsForever <==> timeout == -1 && arrival.None?
    ensures timeout <= 0 && timeout != -1 ==>
      Wait(timeout, arrival, noContext) == (if noContext then NoContextManager else SessionsReceived)
  {
  }
}
