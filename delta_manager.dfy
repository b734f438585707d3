// The replication state of one `DeltaManager`: its sessions, the state-transfer flags, the
// queue of messages held back during a transfer and the statistics counters, with the methods
// that change them. The decisions themselves are the functions of DeltaProtocol.

module DeltaManagers {
  import opened Wrappers
  import opened DeltaProtocol
  import Lists

  /**
   * The batching loop of `handleGET_ALL_SESSIONS`: consecutive slices of `size` sessions, the
   * last one possibly shorter.
   */
  method SplitBatches<T>(a: seq<T>, size: int) returns (batches: seq<seq<T>>)
    requires size > 0
    ensures Flatten(batches) == a
    ensures |batches| == NumBatches(|a|, size)
    ensures forall b :: 0 <= b < |batches| ==> 0 < |batches[b]| <= size
    ensures forall b :: 0 <= b < |batches| - 1 ==> |batches[b]| == size
  {
    batches := [];
    var i := 0;
    while i < |a|
      invariant 0 <= i
      invariant i <= |a| ==> Flatten(batches) == a[..i] && |batches| + NumBatches(|a| - i, size) == NumBatches(|a|, size)
      invariant i > |a| ==> Flatten(batches) == a && |batches| == NumBatches(|a|, size)
      invariant forall b :: 0 <= b < |batches| ==> 0 < |batches[b]| <= size
      invariant i <= |a| ==> forall b :: 0 <= b < |batches| ==> |batches[b]| == size
      invariant forall b :: 0 <= b < |batches| - 1 ==> |batches[b]| == size
      decreases |a| - i
    {
      var (len, next) := BatchTurn(i, |a|, size);
      var batch := a[i..i + len];
      assert Flatten(batches + [batch]) == Flatten(batches) + batch by {
        assert (batches + [batch])[..|batches|] == batches;
      }
      assert a[..i] + batch == a[..i + len];
      batches := batches + [batch];
      i := next;
    }
  }

  /** The message `requestCompleted` returns for a decided event. */
  function ReplicationMessage(event: Option<EventType>, sessionId: string, now: int): (r: Option<Message>)
    ensures r.Some? <==> event.Some?
    ensures r.Some? ==> r.value.eventType == event.value && r.value.sessionId == sessionId && r.value.timestamp == now
  {
    if event.None? then None
    else Some(Message(event.value, sessionId, now, if event.value == SessionDelta then DeltaData else NoData))
  }

  /**
   * What `expireAllLocalSessions` sends and counts for the sessions `ids` it expires, in turn.
   * `session.expire()` first calls `requestCompleted(id, true)`, which yields a delta for a
   * dirty session whose diff serializes (`failing` holds the ids whose diff throws); then the
   * session is removed and counted in `expiredSessions`; then `sessionExpired(id)` sends
   * SESSION_EXPIRED when the cluster has members. Defined on prefixes, as the loop runs.
   */
  function ExpireRun(m: map<string, Session>, ids: seq<string>, members: bool, now: int,
                     failing: set<string>, c: Counters, enabled: bool): (seq<Message>, Counters)
    requires forall id :: id in ids ==> id in m
    decreases |ids|
  {
    if |ids| == 0 then ([], c)
    else
      var id := ids[|ids| - 1];
      var (sent, c1) := ExpireRun(m, ids[..|ids| - 1], members, now, failing, c, enabled);
      var (more, c2) := ExpireOne(m[id], id, members, now, id in failing, c1, enabled);
      (sent + more, c2)
  }

  /** The messages and counters of expiring one session `s` with id `id`. */
  function ExpireOne(s: Session, id: string, members: bool, now: int, diffFails: bool, c: Counters,
                     enabled: bool): (seq<Message>, Counters)
  {
    var r := Complete(s, true, now, diffFails, c, enabled);
    var delta := ReplicationMessage(r.event, id, now);
    var sent := if delta.Some? then [delta.value] else [];
    var c1 := BumpBy(r.counters, ExpiredSessions, 1, true);
    if members then (sent + [Message(SessionExpired, id, now, NoData)], Bump(c1, SendSessionExpired, enabled))
    else (sent, c1)
  }

  /** One expiry: the counter changes of `ExpireRunCounters` for a single session. */
  lemma ExpireOneCounters(s: Session, id: string, members: bool, now: int, diffFails: bool, c: Counters,
                          enabled: bool, k: Counter)
    ensures Count(ExpireOne(s, id, members, now, diffFails, c, enabled).1, k) == Count(c, k)
      + (if k == ExpiredSessions then 1 else 0)
      + (if enabled && members && k == SendSessionExpired then 1 else 0)
      + (if enabled && k == SendSessionDelta && s.dirty then 1 else 0)
  {
    CompleteEvent(s, true, now, diffFails, c, enabled);
    CompleteCounters(s, true, now, diffFails, c, enabled);
  }

  /**
   * One expiry sends a delta exactly when the session is dirty and its diff serializes, and
   * SESSION_EXPIRED exactly when the cluster has members, both for `id` and stamped `now`.
   */
  lemma ExpireOneMessages(s: Session, id: string, members: bool, now: int, diffFails: bool, c: Counters,
                          enabled: bool)
    ensures var sent := ExpireOne(s, id, members, now, diffFails, c, enabled).0;
      (forall msg :: msg in sent ==>
        msg == Message(SessionDelta, id, now, DeltaData) || (members && msg == Message(SessionExpired, id, now, NoData)))
      && (Message(SessionDelta, id, now, DeltaData) in sent <==> s.dirty && !diffFails)
      && (members ==> Message(SessionExpired, id, now, NoData) in sent)
  {
    CompleteEvent(s, true, now, diffFails, c, enabled);
  }

  /** Expiring one more session appends its messages and counts to those of the ones before. */
  lemma ExpireRunSnoc(m: map<string, Session>, ids: seq<string>, id: string, members: bool, now: int,
                      failing: set<string>, c: Counters, enabled: bool)
    requires forall x :: x in ids ==> x in m
    requires id in m
    ensures var (sent, c1) := ExpireRun(m, ids, members, now, failing, c, enabled);
      var (more, c2) := ExpireOne(m[id], id, members, now, id in failing, c1, enabled);
      ExpireRun(m, ids + [id], members, now, failing, c, enabled) == (sent + more, c2)
  {
    assert (ids + [id])[..|ids|] == ids;
  }

  /** How many of the sessions `ids` are dirty. */
  function DirtyCount(m: map<string, Session>, ids: seq<string>): nat
    requires forall id :: id in ids ==> id in m
    decreases |ids|
  {
    if |ids| == 0 then 0
    else DirtyCount(m, ids[..|ids| - 1]) + (if m[ids[|ids| - 1]].dirty then 1 else 0)
  }

  /**
   * Expiring the sessions `ids` counts each of them in `expiredSessions`, each of them in the
   * SESSION_EXPIRED send counter when the cluster has members, and each dirty one in the delta
   * send counter; no other counter moves (an expiry never yields an access message).
   */
  lemma {:induction false} ExpireRunCounters(m: map<string, Session>, ids: seq<string>, members: bool,
                                             now: int, failing: set<string>, c: Counters, enabled: bool,
                                             k: Counter)
    requires forall id :: id in ids ==> id in m
    ensures Count(ExpireRun(m, ids, members, now, failing, c, enabled).1, k) == Count(c, k)
      + (if k == ExpiredSessions then |ids| else 0)
      + (if enabled && members && k == SendSessionExpired then |ids| else 0)
      + (if enabled && k == SendSessionDelta then DirtyCount(m, ids) else 0)
    decreases |ids|
  {
    if |ids| > 0 {
      var init := ids[..|ids| - 1];
      var id := ids[|ids| - 1];
      assert forall x :: x in init ==> x in ids;
      ExpireRunCounters(m, init, members, now, failing, c, enabled, k);
      var c1 := ExpireRun(m, init, members, now, failing, c, enabled).1;
      ExpireOneCounters(m[id], id, members, now, id in failing, c1, enabled, k);
    }
  }

  /**
   * Expiring the sessions `ids` sends, stamped `now`, a delta exactly for each dirty session
   * whose diff serializes, SESSION_EXPIRED for each session when the cluster has members, and
   * nothing else.
   */
  lemma {:induction false} ExpireRunMessages(m: map<string, Session>, ids: seq<string>, members: bool,
                                             now: int, failing: set<string>, c: Counters, enabled: bool)
    requires forall id :: id in ids ==> id in m
    ensures var sent := ExpireRun(m, ids, members, now, failing, c, enabled).0;
      (forall msg :: msg in sent ==>
        msg.sessionId in ids
        && (msg == Message(SessionDelta, msg.sessionId, now, DeltaData)
            || (members && msg == Message(SessionExpired, msg.sessionId, now, NoData))))
      && (forall id :: id in ids ==>
            (Message(SessionDelta, id, now, DeltaData) in sent <==> m[id].dirty && id !in failing))
      && (forall id :: id in ids && members ==> Message(SessionExpired, id, now, NoData) in sent)
    decreases |ids|
  {
    if |ids| > 0 {
      var init := ids[..|ids| - 1];
      var id := ids[|ids| - 1];
      assert forall x :: x in ids <==> x in init || x == id;
      ExpireRunMessages(m, init, members, now, failing, c, enabled);
      var c1 := ExpireRun(m, init, members, now, failing, c, enabled).1;
      ExpireOneMessages(m[id], id, members, now, id in failing, c1, enabled);
    }
  }

  /**
   * The body of `requestCompleted` once the session is found: the message, the session as
   * left behind (`getDiff` has taken the pending changes, so it is clean, even when a failed
   * diff returns at once) and the counters.
   */
  method CompleteRequest(found: Session, sessionId: string, expires: bool, now: int, diffFails: bool,
                         counters: Counters, enableStatistics: bool)
    returns (msg: Option<Message>, session: Session, c: Counters)
    ensures var r := Complete(found, expires, now, diffFails, counters, enableStatistics);
      session == r.session && c == r.counters && msg == ReplicationMessage(r.event, sessionId, now)
  {
    session := found;
    c := counters;
    msg := None;
    if session.dirty {
      c := Bump(c, SendSessionDelta, enableStatistics);
      session := session.(dirty := false);
      if diffFails {
        return None, session, c;
      }
      msg := Some(Message(SessionDelta, sessionId, now, DeltaData));
    }
    if msg.None? && !expires && !session.primary {
      c := Bump(c, SendSessionAccessed, enableStatistics);
      msg := Some(Message(SessionAccessed, sessionId, now, NoData));
    }
    if !expires {
      session := session.(primary := true);
    }
    if !expires && msg.None? {
      var replDelta := now - session.lastReplicated;
      if session.maxInactive >= 0 && replDelta > session.maxInactive * 1000 {
        c := Bump(c, SendSessionAccessed, enableStatistics);
        msg := Some(Message(SessionAccessed, sessionId, now, NoData));
      }
    }
    if msg.Some? {
      session := session.(lastReplicated := now);
      msg := Some(msg.value.(timestamp := session.lastReplicated));
    }
  }

  /** All sessions in one batch, or in batches of `size` (`sendAllSessions` chooses). */
  method Batches<T>(a: seq<T>, sendAllSessions: bool, size: int) returns (batches: seq<seq<T>>)
    requires size > 0
    ensures Flatten(batches) == a
    ensures |batches| == DataMessages(Config(false, sendAllSessions, size, 0), |a|)
    ensures sendAllSessions ==> batches == [a]
    ensures !sendAllSessions ==>
      (forall b :: 0 <= b < |batches| ==> 0 < |batches[b]| <= size)
      && (forall b :: 0 <= b < |batches| - 1 ==> |batches[b]| == size)
  {
    if sendAllSessions {
      batches := [a];
      assert Flatten(batches) == Flatten(batches[..0]) + a;
    } else {
      batches := SplitBatches(a, size);
    }
  }

  /** A `DeltaManager` with the fields its replication code reads and writes. */
  class DeltaManager {
    // settings
    var stateTransferTimeout: int
    var sendAllSessions: bool
    var sendAllSessionsSize: int
    var enableStatistics: bool
    var stateTimestampDrop: bool
    /** The context's session timeout, in minutes. */
    var sessionTimeout: int

    // state
    var sessions: map<string, Session>
    var stateTransferred: bool
    var noContextManagerReceived: bool
    var stateTransferCreateSendTime: int
    var receivedMessageQueue: seq<Message>
    var receiverQueue: bool
    var counters: Counters
    var maxActive: int

    /**
     * Only the six queueable types ever wait in the queue, and the queue is empty whenever
     * queueing is off; the batch size is positive.
     */
    ghost predicate Valid()
      reads this
    {
      sendAllSessionsSize > 0
      && (forall m :: m in receivedMessageQueue ==> Queueable(m.eventType))
      && (!receiverQueue ==> receivedMessageQueue == [])
    }

    /** The settings the message handlers read. */
    function Settings(): Config
      reads this
    {
      Config(enableStatistics, sendAllSessions, sendAllSessionsSize, sessionTimeout)
    }

    /** The state the message handlers change. */
    function Received(): ReceiveState
      reads this
    {
      ReceiveState(sessions, stateTransferred, noContextManagerReceived, stateTransferCreateSendTime, counters,
                   maxActive)
    }

    /** What the handlers leave alone: the other settings and the queue. */
    function Rest(): (int, bool, seq<Message>, bool)
      reads this
    {
      (stateTransferTimeout, stateTimestampDrop, receivedMessageQueue, receiverQueue)
    }

    constructor (sessionTimeout: int)
      ensures Valid()
      ensures stateTransferTimeout == 60 && sendAllSessions && sendAllSessionsSize == 1000
      ensures enableStatistics && stateTimestampDrop && this.sessionTimeout == sessionTimeout
      ensures sessions == map[] && !stateTransferred && !noContextManagerReceived
      ensures receivedMessageQueue == [] && !receiverQueue
      ensures forall k :: Count(counters, k) == 0
      ensures maxActive == 0
    {
      stateTransferTimeout := 60;
      sendAllSessions := true;
      sendAllSessionsSize := 1000;
      enableStatistics := true;
      stateTimestampDrop := true;
      this.sessionTimeout := sessionTimeout;
      sessions := map[];
      stateTransferred := false;
      noContextManagerReceived := false;
      stateTransferCreateSendTime := 0;
      receivedMessageQueue := [];
      receiverQueue := false;
      counters := map[];
      maxActive := 0;
    }

    method SetSendAllSessions(b: bool)
      requires Valid()
      modifies this
      ensures Valid()
      ensures sendAllSessions == b
      ensures Received() == old(Received()) && Rest() == old(Rest())
      ensures Settings() == old(Settings()).(sendAllSessions := b)
    {
      sendAllSessions := b;
    }

    /**
     * `setSendAllSessionsSize`, corrected: a size that is not positive is ignored, since the
     * batching loop never advances on 0 (`ZeroBatchSizeStalls`) and a negative size cannot
     * allocate a batch.
     */
    method SetSendAllSessionsSize(size: int)
      requires Valid()
      modifies this
      ensures Valid()
      ensures Received() == old(Received()) && Rest() == old(Rest())
      ensures size > 0 ==> Settings() == old(Settings()).(sendAllSessionsSize := size)
      ensures size <= 0 ==> Settings() == old(Settings())
    {
      if size > 0 {
        sendAllSessionsSize := size;
      }
    }

    method SetStateTimestampDrop(b: bool)
      requires Valid()
      modifies this
      ensures Valid()
      ensures Received() == old(Received()) && Settings() == old(Settings())
      ensures Rest() == old(Rest()).(1 := b)
    {
      stateTimestampDrop := b;
    }

    method SetStateTransferTimeout(t: int)
      requires Valid()
      modifies this
      ensures Valid()
      ensures Received() == old(Received()) && Settings() == old(Settings())
      ensures Rest() == old(Rest()).(0 := t)
    {
      stateTransferTimeout := t;
    }

    method SetEnableStatistics(b: bool)
      requires Valid()
      modifies this
      ensures Valid()
      ensures Received() == old(Received()) && Rest() == old(Rest())
      ensures Settings() == old(Settings()).(enableStatistics := b)
    {
      enableStatistics := b;
    }

    /** `counter.incrementAndGet()` when statistics are enabled. */
    method Tally(k: Counter)
      modifies this
      ensures counters == Bump(old(counters), k, enableStatistics)
      ensures sessions == old(sessions) && stateTransferred == old(stateTransferred)
      ensures noContextManagerReceived == old(noContextManagerReceived)
      ensures stateTransferCreateSendTime == old(stateTransferCreateSendTime) && maxActive == old(maxActive)
      ensures Settings() == old(Settings()) && Rest() == old(Rest())
    {
      if enableStatistics {
        counters := counters[k := Count(counters, k) + 1];
      }
    }

    // -------------------------------------------------------------- requestCompleted

    /**
     * `requestCompleted(sessionId, expires)` at time `now`; `diffFails` says whether
     * serializing the session's delta throws.
     */
    method RequestCompleted(sessionId: string, expires: bool, now: int, diffFails: bool)
      returns (msg: Option<Message>)
      requires Valid()
      modifies this
      ensures Valid()
      ensures Settings() == old(Settings()) && Rest() == old(Rest())
      ensures stateTransferred == old(stateTransferred) && noContextManagerReceived == old(noContextManagerReceived)
      ensures stateTransferCreateSendTime == old(stateTransferCreateSendTime) && maxActive == old(maxActive)
      ensures sessionId !in old(sessions) ==> msg.None? && sessions == old(sessions) && counters == old(counters)
      ensures sessionId in old(sessions) ==>
        var r := Complete(old(sessions)[sessionId], expires, now, diffFails, old(counters), enableStatistics);
        sessions == old(sessions)[sessionId := r.session]
        && counters == r.counters
        && msg == ReplicationMessage(r.event, sessionId, now)
    {
      if sessionId !in sessions {
        return None;
      }
      var session, c;
      msg, session, c := CompleteRequest(sessions[sessionId], sessionId, expires, now, diffFails, counters,
                                         enableStatistics);
      sessions := sessions[sessionId := session];
      counters := c;
    }

    // -------------------------------------------------------------- receiving

    /**
     * `messageDataReceived`: while queueing is on, the six queueable types are appended to the
     * queue and not handled; every other message is handled at once.
     */
    method MessageDataReceived(msg: Message, now: int)
      requires Valid()
      modifies this
      ensures Valid()
      ensures Settings() == old(Settings())
      ensures stateTransferTimeout == old(stateTransferTimeout) && stateTimestampDrop == old(stateTimestampDrop)
      ensures receiverQueue == old(receiverQueue)
      ensures Queueable(msg.eventType) && receiverQueue ==>
        receivedMessageQueue == old(receivedMessageQueue) + [msg] && Received() == old(Received())
      ensures !(Queueable(msg.eventType) && receiverQueue) ==>
        receivedMessageQueue == old(receivedMessageQueue)
        && Received() == Dispatch(old(Received()), Settings(), msg, now)
    {
      if Queueable(msg.eventType) && receiverQueue {
        receivedMessageQueue := receivedMessageQueue + [msg];
        return;
      }
      MessageReceived(msg, now);
    }

    /** `messageReceived`: hands the message to the handler for its type. */
    method MessageReceived(msg: Message, now: int)
      requires Valid()
      modifies this
      ensures Valid()
      ensures Settings() == old(Settings()) && Rest() == old(Rest())
      ensures Received() == Dispatch(old(Received()), Settings(), msg, now)
    {
      match msg.eventType
      case GetAllSessions =>
        var _, _ := HandleGetAllSessions(msg, now);
      case AllSessionData => HandleAllSessionData(msg);
      case AllSessionTransferComplete => HandleAllSessionTransferComplete(msg);
      case SessionCreated => HandleSessionCreated(msg, now);
      case SessionExpired => HandleSessionExpired(msg);
      case SessionAccessed => HandleSessionAccessed(msg);
      case SessionDelta => HandleSessionDelta(msg);
      case ChangeSessionId => HandleChangeSessionId(msg);
      case AllSessionNoContextManager => HandleAllSessionNoContextManager(msg);
      case OtherEvent(_) =>
    }

    /** `findSessions`: the ids of all sessions, each once, in no particular order. */
    method FindSessions() returns (ids: seq<string>)
      ensures Lists.Distinct(ids)
      ensures forall id :: id in ids <==> id in sessions
      ensures |ids| == |sessions|
    {
      ids := [];
      var rest := sessions.Keys;
      while rest != {}
        invariant rest <= sessions.Keys
        invariant forall id :: id in ids ==> id in sessions && id !in rest
        invariant forall id :: id in sessions ==> id in ids || id in rest
        invariant Lists.Distinct(ids)
        invariant |ids| + |rest| == |sessions|
        decreases |rest|
      {
        var id :| id in rest;
        ids := ids + [id];
        rest := rest - {id};
      }
    }

    /** The session ids `handleGET_ALL_SESSIONS` sends, batch by batch. */
    method SessionBatches() returns (batches: seq<seq<string>>)
      requires Valid()
      ensures Lists.Distinct(Flatten(batches))
      ensures forall id :: id in Flatten(batches) <==> id in sessions
      ensures |batches| == DataMessages(Settings(), |sessions|)
      ensures sendAllSessions ==> |batches| == 1
      ensures !sendAllSessions ==>
        (forall b :: 0 <= b < |batches| ==> 0 < |batches[b]| <= sendAllSessionsSize)
        && (forall b :: 0 <= b < |batches| - 1 ==> |batches[b]| == sendAllSessionsSize)
    {
      var currentSessions := FindSessions();
      batches := Batches(currentSessions, sendAllSessions, sendAllSessionsSize);
    }

    /**
     * `handleGET_ALL_SESSIONS`: the session ids in one batch, or in batches of
     * `sendAllSessionsSize`, each sent as ALL_SESSION_DATA; then one TRANSFERCOMPLETE stamped
     * with the instant the sessions were listed.
     */
    method HandleGetAllSessions(msg: Message, now: int) returns (batches: seq<seq<string>>, complete: Message)
      requires Valid()
      requires msg.eventType == GetAllSessions
      modifies this
      ensures Valid()
      ensures Settings() == old(Settings()) && Rest() == old(Rest())
      ensures Received() == OnGetAllSessions(old(Received()), Settings())
      ensures Lists.Distinct(Flatten(batches))
      ensures forall id :: id in Flatten(batches) <==> id in sessions
      ensures sendAllSessions ==> |batches| == 1
      ensures !sendAllSessions ==>
        (forall b :: 0 <= b < |batches| ==> 0 < |batches[b]| <= sendAllSessionsSize)
        && (forall b :: 0 <= b < |batches| - 1 ==> |batches[b]| == sendAllSessionsSize)
      ensures complete == Message(AllSessionTransferComplete, "SESSION-STATE-TRANSFERRED", now, NoData)
    {
      var c := Bump(counters, ReceiveGetAllSessions, enableStatistics);
      batches := SessionBatches();
      c := BumpBy(c, SendAllSessionData, |batches|, enableStatistics);
      complete := Message(AllSessionTransferComplete, "SESSION-STATE-TRANSFERRED", now, NoData);
      counters := Bump(c, SendTransferComplete, enableStatistics);
    }

    /**
     * The loop of `deserializeSessions`: each entry is installed in turn, a replacement is
     * counted, and each `add` raises the peak session count.
     */
    static method DeserializeSessions(sessions: map<string, Session>, counters: Counters, maxActive: int,
                                      entries: seq<(string, Session)>, enableStatistics: bool)
      returns (loaded: map<string, Session>, c: Counters, high: int)
      ensures (loaded, c) == Load(sessions, counters, entries, enableStatistics)
      ensures high == LoadPeak(sessions, counters, maxActive, entries, enableStatistics)
    {
      loaded, c, high := sessions, counters, maxActive;
      var i := 0;
      while i < |entries|
        invariant 0 <= i <= |entries|
        invariant (loaded, c) == Load(sessions, counters, entries[..i], enableStatistics)
        invariant high == LoadPeak(sessions, counters, maxActive, entries[..i], enableStatistics)
      {
        var (id, s) := entries[i];
        if id in loaded {
          c := Bump(c, SessionReplace, enableStatistics);
        }
        loaded := loaded[id := Installed(s)];
        if |loaded| > high {
          high := |loaded|;
        }
        assert entries[..i + 1][..i] == entries[..i];
        i := i + 1;
      }
      assert entries[..i] == entries;
    }

    /** `handleALL_SESSION_DATA`: installs the transferred sessions one by one. */
    method HandleAllSessionData(msg: Message)
      requires Valid()
      requires msg.eventType == AllSessionData
      modifies this
      ensures Valid()
      ensures Settings() == old(Settings()) && Rest() == old(Rest())
      ensures Received() == OnAllSessionData(old(Received()), Settings(), msg)
    {
      Tally(ReceiveAllSessionData);
      var entries := if msg.data.SessionsData? then msg.data.entries else [];
      sessions, counters, maxActive := DeserializeSessions(sessions, counters, maxActive, entries, enableStatistics);
    }

    /** `handleALL_SESSION_TRANSFERCOMPLETE`. */
    method HandleAllSessionTransferComplete(msg: Message)
      requires Valid()
      requires msg.eventType == AllSessionTransferComplete
      modifies this
      ensures Valid()
      ensures Settings() == old(Settings()) && Rest() == old(Rest())
      ensures Received() == OnTransferComplete(old(Received()), Settings(), msg)
    {
      Tally(ReceiveTransferComplete);
      stateTransferCreateSendTime := msg.timestamp;
      stateTransferred := true;
    }

    /** `handleSESSION_CREATED`: a valid backup session with the context's timeout. */
    method HandleSessionCreated(msg: Message, now: int)
      requires Valid()
      requires msg.eventType == SessionCreated
      modifies this
      ensures Valid()
      ensures Settings() == old(Settings()) && Rest() == old(Rest())
      ensures Received() == OnSessionCreated(old(Received()), Settings(), msg, now)
    {
      Tally(ReceiveSessionCreated);
      var session := Session(true, false, false, now, sessionTimeout * 60, msg.timestamp);
      sessions := sessions[msg.sessionId := session];
      if |sessions| > maxActive {
        maxActive := |sessions|;
      }
    }

    /**
     * `handleSESSION_EXPIRED`: a known session is expired without notifying the cluster; if it
     * is still valid it is removed and counted in `expiredSessions`.
     */
    method HandleSessionExpired(msg: Message)
      requires Valid()
      requires msg.eventType == SessionExpired
      modifies this
      ensures Valid()
      ensures Settings() == old(Settings()) && Rest() == old(Rest())
      ensures Received() == OnSessionExpired(old(Received()), Settings(), msg)
    {
      Tally(ReceiveSessionExpired);
      if msg.sessionId in sessions && sessions[msg.sessionId].valid {
        sessions := sessions - {msg.sessionId};
        counters := counters[ExpiredSessions := Count(counters, ExpiredSessions) + 1];
      }
    }

    /** `handleSESSION_ACCESSED`: a known session becomes a backup here. */
    method HandleSessionAccessed(msg: Message)
      requires Valid()
      requires msg.eventType == SessionAccessed
      modifies this
      ensures Valid()
      ensures Settings() == old(Settings()) && Rest() == old(Rest())
      ensures Received() == OnSessionAccessed(old(Received()), Settings(), msg)
    {
      Tally(ReceiveSessionAccessed);
      if msg.sessionId in sessions {
        var session := sessions[msg.sessionId];
        sessions := sessions[msg.sessionId := session.(primary := false)];
      }
    }

    /** `handleSESSION_DELTA`: the delta itself is applied inside the session. */
    method HandleSessionDelta(msg: Message)
      requires Valid()
      requires msg.eventType == SessionDelta
      modifies this
      ensures Valid()
      ensures Settings() == old(Settings()) && Rest() == old(Rest())
      ensures Received() == OnSessionDelta(old(Received()), Settings())
    {
      Tally(ReceiveSessionDelta);
    }

    /** `handleCHANGE_SESSION_ID`: a known session moves to its new id as a backup. */
    method HandleChangeSessionId(msg: Message)
      requires Valid()
      requires msg.eventType == ChangeSessionId
      modifies this
      ensures Valid()
      ensures Settings() == old(Settings()) && Rest() == old(Rest())
      ensures Received() == OnChangeSessionId(old(Received()), Settings(), msg)
    {
      Tally(ReceiveChangeSessionId);
      if msg.sessionId in sessions && msg.data.NewSessionId? {
        var session := sessions[msg.sessionId].(primary := false);
        sessions := (sessions - {msg.sessionId})[msg.data.id := session];
        if |sessions| > maxActive {
          maxActive := |sessions|;
        }
      }
    }

    /** `handleALL_SESSION_NOCONTEXTMANAGER`. */
    method HandleAllSessionNoContextManager(msg: Message)
      requires Valid()
      requires msg.eventType == AllSessionNoContextManager
      modifies this
      ensures Valid()
      ensures Settings() == old(Settings()) && Rest() == old(Rest())
      ensures Received() == OnNoContextManager(old(Received()), Settings())
    {
      Tally(ReceiveNoContextManager);
      noContextManagerReceived := true;
    }

    // -------------------------------------------------------------- state transfer

    /**
     * The first half of `getAllClusterSessions`: with members present, ask the first one for
     * all sessions, note the reference time and start queueing.
     */
    method StartStateTransfer(members: seq<Member>, now: int) returns (request: Option<(Member, Message)>)
      requires Valid()
      modifies this
      ensures Valid()
      ensures Settings() == old(Settings()) && sessions == old(sessions)
      ensures noContextManagerReceived == old(noContextManagerReceived)
      ensures stateTransferTimeout == old(stateTransferTimeout) && stateTimestampDrop == old(stateTimestampDrop)
      ensures receivedMessageQueue == old(receivedMessageQueue) && maxActive == old(maxActive)
      ensures |members| == 0 ==> request.None? && Received() == old(Received()) && receiverQueue == old(receiverQueue)
      ensures |members| > 0 ==>
        request == Some((members[0], Message(GetAllSessions, "GET-ALL", now, NoData)))
        && stateTransferCreateSendTime == now && !stateTransferred && receiverQueue
        && counters == Bump(old(counters), SendGetAllSessions, enableStatistics)
    {
      request := None;
      if |members| > 0 {
        var mbr := FindSessionMasterMember(members);
        var msg := Message(GetAllSessions, "GET-ALL", now, NoData);
        stateTransferCreateSendTime := now;
        Tally(SendGetAllSessions);
        stateTransferred := false;
        receiverQueue := true;
        request := Some((mbr.value, msg));
      }
    }

    /**
     * The outcome of `waitForSendAllSessions`, given when the awaited reply is first seen
     * (`arrival`, in elapsed milliseconds); a timeout is counted.
     */
    method WaitForSendAllSessions(arrival: Option<int>) returns (outcome: WaitOutcome)
      requires Valid()
      modifies this
      ensures Valid()
      ensures outcome == Wait(stateTransferTimeout, arrival, noContextManagerReceived)
      ensures counters == if outcome == TimedOut then Bump(old(counters), NoStateTransferred, enableStatistics)
                          else old(counters)
      ensures sessions == old(sessions) && stateTransferred == old(stateTransferred) && maxActive == old(maxActive)
      ensures noContextManagerReceived == old(noContextManagerReceived)
      ensures stateTransferCreateSendTime == old(stateTransferCreateSendTime)
      ensures Settings() == old(Settings()) && Rest() == old(Rest())
    {
      var isTimeout := false;
      if stateTransferTimeout > 0 {
        isTimeout := arrival.None? || arrival.value > 1000 * stateTransferTimeout;
      } else if stateTransferTimeout == -1 && arrival.None? {
        return WaitsForever;
      }
      if isTimeout {
        Tally(NoStateTransferred);
        outcome := TimedOut;
      } else if noContextManagerReceived {
        outcome := NoContextManager;
      } else {
        outcome := SessionsReceived;
      }
    }

    /** One turn of the drain loop: the message is handled if the filter lets it through. */
    method ReplayOne(smsg: Message, now: int)
      requires Valid()
      requires Queueable(smsg.eventType)
      modifies this
      ensures Valid()
      ensures Settings() == old(Settings()) && Rest() == old(Rest())
      ensures Received() == if Replays(smsg, stateTimestampDrop, old(stateTransferCreateSendTime))
                            then Dispatch(old(Received()), Settings(), smsg, now) else old(Received())
      ensures stateTransferCreateSendTime == old(stateTransferCreateSendTime)
    {
      ghost var before := Received();
      if !stateTimestampDrop {
        MessageReceived(smsg, now);
      } else if smsg.eventType != GetAllSessions && smsg.timestamp >= stateTransferCreateSendTime {
        MessageReceived(smsg, now);
      }
      QueueableKeepsTransferState(before, Settings(), smsg, now);
    }

    /**
     * The `finally` block of `getAllClusterSessions`: replay the queue in order, dropping
     * GET_ALL and stale messages when `stateTimestampDrop` is set, then stop queueing.
     */
    method DrainQueue(now: int)
      requires Valid()
      modifies this
      ensures Valid()
      ensures Received() == DispatchAll(old(Received()), Settings(),
        Replayed(old(receivedMessageQueue), stateTimestampDrop, old(stateTransferCreateSendTime)), now)
      ensures stateTransferCreateSendTime == old(stateTransferCreateSendTime)
      ensures receivedMessageQueue == [] && !receiverQueue
      ensures Settings() == old(Settings()) && stateTransferTimeout == old(stateTransferTimeout)
      ensures stateTimestampDrop == old(stateTimestampDrop)
    {
      ReplayQueue(receivedMessageQueue, now);
      receivedMessageQueue := [];
      receiverQueue := false;
    }

    /** The loop of the `finally` block: each queued message in turn, through `ReplayOne`. */
    method ReplayQueue(q: seq<Message>, now: int)
      requires Valid()
      requires forall m :: m in q ==> Queueable(m.eventType)
      modifies this
      ensures Valid() && Settings() == old(Settings()) && Rest() == old(Rest())
      ensures stateTransferCreateSendTime == old(stateTransferCreateSendTime)
      ensures Received() == DispatchAll(old(Received()), Settings(),
        Replayed(q, stateTimestampDrop, old(stateTransferCreateSendTime)), now)
    {
      ghost var st0 := Received();
      var k := 0;
      while k < |q|
        invariant 0 <= k <= |q|
        invariant Valid() && Settings() == old(Settings()) && Rest() == old(Rest())
        invariant Received() == DispatchAll(st0, Settings(), Replayed(q[..k], stateTimestampDrop, st0.stateTransferCreateSendTime), now)
        invariant stateTransferCreateSendTime == st0.stateTransferCreateSendTime
      {
        assert q[k] in q;
        ReplayOne(q[k], now);
        ReplayStep(st0, Settings(), q, k, stateTimestampDrop, st0.stateTransferCreateSendTime, now);
        k := k + 1;
      }
      assert q[..k] == q;
    }

    /**
     * Where the loop of `expireAllLocalSessions` stands after looking at the ids `done`: the
     * sessions expired so far are gone from the table and listed, once each, in `expired`.
     */
    static ghost predicate ExpiredSoFar(m: map<string, Session>, done: set<string>,
                                        remaining: map<string, Session>, expired: seq<string>)
    {
      done <= m.Keys
      && (forall id :: id in remaining <==> id in m && !(id in done && ExpiresLocally(m[id])))
      && (forall id :: id in remaining ==> remaining[id] == m[id])
      && Lists.Distinct(expired)
      && (forall id :: id in expired <==> id in done && ExpiresLocally(m[id]))
    }

    /** `session.expire()` for the session `id`, after the sessions `expired`. */
    static method ExpireSession(m: map<string, Session>, expired: seq<string>, id: string, members: bool,
                                now: int, failing: set<string>, counters: Counters, enabled: bool,
                                sent: seq<Message>, c: Counters)
      returns (sent': seq<Message>, c': Counters)
      requires (forall x :: x in expired ==> x in m) && id in m
      requires (sent, c) == ExpireRun(m, expired, members, now, failing, counters, enabled)
      ensures (sent', c') == ExpireRun(m, expired + [id], members, now, failing, counters, enabled)
    {
      var (more, c1) := ExpireOne(m[id], id, members, now, id in failing, c, enabled);
      ExpireRunSnoc(m, expired, id, members, now, failing, counters, enabled);
      sent', c' := sent + more, c1;
    }

    static lemma ExpiredOneMore(m: map<string, Session>, done: set<string>, remaining: map<string, Session>,
                                expired: seq<string>, id: string)
      requires ExpiredSoFar(m, done, remaining, expired)
      requires id in m && id !in done && ExpiresLocally(m[id])
      ensures ExpiredSoFar(m, done + {id}, remaining - {id}, expired + [id])
    {
    }

    /** Once every id has been looked at, exactly the sessions that expire locally are gone. */
    static lemma ExpiredAll(m: map<string, Session>, done: set<string>, remaining: map<string, Session>,
                            expired: seq<string>)
      requires ExpiredSoFar(m, done, remaining, expired)
      requires m.Keys <= done
      ensures forall id :: id in remaining <==> id in m && !ExpiresLocally(m[id])
      ensures forall id :: id in expired <==> id in m && ExpiresLocally(m[id])
    {
    }

    /** The sessions kept and the sessions expired, each listed once, add up to the table. */
    static lemma ExpiredCount(m: map<string, Session>, remaining: map<string, Session>, expired: seq<string>)
      requires forall id :: id in remaining <==> id in m && !ExpiresLocally(m[id])
      requires Lists.Distinct(expired)
      requires forall id :: id in expired <==> id in m && ExpiresLocally(m[id])
      ensures |remaining| + |expired| == |m|
    {
      Lists.DistinctCard(expired);
      var gone := set id | id in expired;
      assert m.Keys == remaining.Keys + gone;
      assert remaining.Keys * gone == {};
    }

    static lemma KeptOneMore(m: map<string, Session>, done: set<string>, remaining: map<string, Session>,
                             expired: seq<string>, id: string)
      requires ExpiredSoFar(m, done, remaining, expired)
      requires id in m && id !in done && !ExpiresLocally(m[id])
      ensures ExpiredSoFar(m, done + {id}, remaining, expired)
    {
    }

    /**
     * The loop of `expireAllLocalSessions` over the listed ids `ids` of the table `m`: each
     * valid primary session is expired in turn (`ExpireOne`), which removes it from the table.
     */
    static method ExpireLocal(m: map<string, Session>, ids: seq<string>, members: bool, now: int,
                              failing: set<string>, counters: Counters, enabled: bool)
      returns (remaining: map<string, Session>, expired: seq<string>, sent: seq<Message>, c: Counters)
      requires Lists.Distinct(ids) && forall id :: id in ids <==> id in m
      ensures forall id :: id in remaining <==> id in m && !ExpiresLocally(m[id])
      ensures forall id :: id in remaining ==> remaining[id] == m[id]
      ensures Lists.Distinct(expired)
      ensures forall id :: id in expired <==> id in m && ExpiresLocally(m[id])
      ensures (sent, c) == ExpireRun(m, expired, members, now, failing, counters, enabled)
    {
      remaining, expired, sent, c := m, [], [], counters;
      ghost var done: set<string> := {};
      var k := 0;
      while k < |ids|
        invariant 0 <= k <= |ids|
        invariant forall j :: 0 <= j < k ==> ids[j] in done
        invariant forall j :: k <= j < |ids| ==> ids[j] !in done
        invariant ExpiredSoFar(m, done, remaining, expired)
        invariant (sent, c) == ExpireRun(m, expired, members, now, failing, counters, enabled)
      {
        var id := ids[k];
        var session := remaining[id];
        if session.primary {
          if session.valid {
            sent, c := ExpireSession(m, expired, id, members, now, failing, counters, enabled, sent, c);
            ExpiredOneMore(m, done, remaining, expired, id);
            remaining := remaining - {id};
            expired := expired + [id];
          } else {
            KeptOneMore(m, done, remaining, expired, id);
          }
        } else {
          KeptOneMore(m, done, remaining, expired, id);
        }
        done := done + {id};
        k := k + 1;
      }
      assert forall id :: id in m ==> id in done by {
        forall id | id in m ensures id in done {
          var j :| 0 <= j < |ids| && ids[j] == id;
        }
      }
      ExpiredAll(m, done, remaining, expired);
    }

    /**
     * `expireAllLocalSessions`, with `members` the cluster's members and `failing` the sessions
     * whose diff throws: every valid primary session is expired through `session.expire()`,
     * which removes it, counts it and tells the cluster. Answers the expired ids, in the order
     * they were expired, and the messages sent.
     */
    method ExpireAllLocalSessions(members: seq<Member>, now: int, failing: set<string>)
      returns (expired: seq<string>, sent: seq<Message>)
      requires Valid()
      modifies this
      ensures Valid()
      ensures sessions == Unexpired(old(sessions))
      ensures Lists.Distinct(expired)
      ensures forall id :: id in expired <==> id in old(sessions) && ExpiresLocally(old(sessions)[id])
      ensures |sessions| + |expired| == |old(sessions)|
      ensures (sent, counters)
        == ExpireRun(old(sessions), expired, |members| > 0, now, failing, old(counters), enableStatistics)
      ensures stateTransferred == old(stateTransferred) && maxActive == old(maxActive)
      ensures noContextManagerReceived == old(noContextManagerReceived)
      ensures stateTransferCreateSendTime == old(stateTransferCreateSendTime)
      ensures Settings() == old(Settings()) && Rest() == old(Rest())
    {
      var ids := FindSessions();
      var remaining, c;
      remaining, expired, sent, c := ExpireLocal(sessions, ids, |members| > 0, now, failing, counters,
                                                 enableStatistics);
      UnexpiredExactly(sessions, remaining);
      ExpiredCount(sessions, remaining, expired);
      sessions, counters := remaining, c;
    }

    /**
     * `resetStatistics`: zeroes the counters (all but the NOCONTEXTMANAGER receive counter)
     * and sets `maxActive` to the number of sessions.
     */
    method ResetStatistics()
      requires Valid()
      modifies this
      ensures Valid()
      ensures counters == Reset(old(counters))
      ensures maxActive == |sessions|
      ensures sessions == old(sessions) && stateTransferred == old(stateTransferred)
      ensures noContextManagerReceived == old(noContextManagerReceived)
      ensures stateTransferCreateSendTime == old(stateTransferCreateSendTime)
      ensures Settings() == old(Settings())
      ensures stateTransferTimeout == old(stateTransferTimeout) && stateTimestampDrop == old(stateTimestampDrop)
      ensures receivedMessageQueue == old(receivedMessageQueue) && receiverQueue == old(receiverQueue)
    {
      counters := Reset(counters);
      maxActive := |sessions|;
    }
  }
}
