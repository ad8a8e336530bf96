/** All IAX2 calls: one store of sessions and two indexes into it, by the caller's leg and by the
    called party's leg. Sessions are referred to by number where the source shares pointers. */
module Iax2Sessions {
  import opened Common
  import opened Iax2Session

  datatype Table = Table(
    sessions: map<nat, Session>,
    bySrc: map<Key, nat>,
    byDest: map<Key, nat>,
    nextId: nat,
    log: map<nat, seq<Event>>)

  const EMPTY := Table(map[], map[], map[], 0, map[])

  datatype Step =
    | New(src: Key, now: int)
    | Authreq(src: Key, dest: Key)
    | Accept(src: Key, dest: Key)
    | Hangup(receiver: Key, sender: Key)
    | Voice(packet: Packet)
    | Hoover(now: int, timeout: int, srcOrder: seq<Key>, destOrder: seq<Key>)

  function LogOf(t: Table, id: nat): seq<Event> { if id in t.log then t.log[id] else [] }

  /** Session `id` becomes `s` and has reported `events`. */
  function Update(t: Table, id: nat, s: Session, events: seq<Event>): (r: Table) {
    t.(sessions := t.sessions[id := s], log := t.log[id := LogOf(t, id) + events])
  }

  /** Both keys are erased, whatever they are mapped to. */
  function StopSession(t: Table, id: nat): (r: Table)
    requires id in t.sessions
  {
    var (s, events) := Stop(t.sessions[id]);
    var u := Update(t, id, s, events);
    u.(bySrc := u.bySrc - {s.srcKey}, byDest := if s.destKey.Some? then u.byDest - {s.destKey.value} else u.byDest)
  }

  /** Inserting into an index does not overwrite. */
  function InsertKey(index: map<Key, nat>, key: Key, id: nat): (r: map<Key, nat>) {
    if key in index then index else index[key := id]
  }

  function AddNew(t: Table, src: Key, now: int): (r: Table) {
    t.(sessions := t.sessions[t.nextId := NewSession(src, now)],
       bySrc := InsertKey(t.bySrc, src, t.nextId), nextId := t.nextId + 1, log := t.log[t.nextId := []])
  }

  /** The session an index finds, if the store has it. */
  function Lookup(t: Table, index: map<Key, nat>, key: Key): (r: Option<nat>)
    ensures r.Some? ==> r.value in t.sessions
  {
    if key in index && index[key] in t.sessions then Some(index[key]) else None
  }

  function OnNew(t: Table, src: Key, now: int): (r: Table) {
    match Lookup(t, t.bySrc, src)
    case None => AddNew(t, src, now)
    case Some(id) =>
      if t.sessions[id].state == Up then t else AddNew(StopSession(t, id), src, now)
  }

  function OnAuthreq(t: Table, src: Key, dest: Key): (r: Table) {
    match Lookup(t, t.bySrc, src)
    case None => t
    case Some(id) =>
      Update(t, id, t.sessions[id].(destKey := Some(dest), state := Waiting), [])
        .(byDest := InsertKey(t.byDest, dest, id))
  }

  /** When the called leg is already known, the session it leads to is linked. */
  function OnAccept(t: Table, src: Key, dest: Key): (r: Table) {
    match Lookup(t, t.bySrc, src)
    case None => t
    case Some(id) =>
      match Lookup(t, t.byDest, dest)
      case Some(other) => Update(t, other, t.sessions[other].(state := Linked), [])
      case None =>
        Update(t, id, t.sessions[id].(destKey := Some(dest), state := Linked), [])
          .(byDest := InsertKey(t.byDest, dest, id))
  }

  function StopIf(t: Table, id: Option<nat>): (r: Table)
    requires id.Some? ==> id.value in t.sessions
  {
    if id.Some? then StopSession(t, id.value) else t
  }

  /** Either party may have called: four lookups, each stopping what it finds. */
  function OnHangup(t: Table, receiver: Key, sender: Key): (r: Table) {
    var t1 := StopIf(t, Lookup(t, t.bySrc, receiver));
    var t2 := StopIf(t1, Lookup(t1, t1.bySrc, sender));
    var t3 := StopIf(t2, Lookup(t2, t2.byDest, receiver));
    StopIf(t3, Lookup(t3, t3.byDest, sender))
  }

  /** A packet out of order stops its session. */
  function Deliver(t: Table, id: nat, p: Packet, rewrite: bool): (r: Table)
    requires id in t.sessions
  {
    var (s, inOrder, events) := AddPacket(t.sessions[id], p, rewrite);
    var u := Update(t, id, s, events);
    if inOrder then u else StopSession(u, id)
  }

  function OnVoice(t: Table, p: Packet, rewrite: bool): (r: Table) {
    match Lookup(t, t.bySrc, p.source)
    case Some(id) => Deliver(t, id, p, rewrite)
    case None =>
      match Lookup(t, t.byDest, p.source)
      case Some(id) => Deliver(t, id, p, rewrite)
      case None => t
  }

  /** The idle sessions of an index, in the order its keys are walked. */
  function Expired(t: Table, index: map<Key, nat>, order: seq<Key>, now: int, timeout: int): (r: seq<nat>)
    ensures forall i | 0 <= i < |r| :: r[i] in t.sessions
  {
    if order == [] then []
    else
      var rest := Expired(t, index, order[1..], now, timeout);
      match Lookup(t, index, order[0])
      case Some(id) => if now - t.sessions[id].lastUpdated > timeout then [id] + rest else rest
      case None => rest
  }

  function StopAll(t: Table, ids: seq<nat>): (r: Table)
    decreases |ids|
  {
    if ids == [] then t
    else StopAll(if ids[0] in t.sessions then StopSession(t, ids[0]) else t, ids[1..])
  }

  function OnHoover(t: Table, now: int, timeout: int, srcOrder: seq<Key>, destOrder: seq<Key>): (r: Table) {
    var t1 := StopAll(t, Expired(t, t.bySrc, srcOrder, now, timeout));
    StopAll(t1, Expired(t1, t1.byDest, destOrder, now, timeout))
  }

  function Next(t: Table, step: Step, rewrite: bool): (r: Table) {
    match step
    case New(src, now) => OnNew(t, src, now)
    case Authreq(src, dest) => OnAuthreq(t, src, dest)
    case Accept(src, dest) => OnAccept(t, src, dest)
    case Hangup(receiver, sender) => OnHangup(t, receiver, sender)
    case Voice(p) => OnVoice(t, p, rewrite)
    case Hoover(now, timeout, srcOrder, destOrder) => OnHoover(t, now, timeout, srcOrder, destOrder)
  }

  function Run(t: Table, steps: seq<Step>, rewrite: bool): (r: Table)
    decreases |steps|
  {
    if steps == [] then t else Run(Next(t, steps[0], rewrite), steps[1..], rewrite)
  }

  // ---------------------------------------------------------------------------------------------
  // When the indexes agree

  /** Learning a called leg: the session has none yet or this very one, and no other session has it. */
  predicate OneInvitee(t: Table, src: Key, dest: Key) {
    var id := Lookup(t, t.bySrc, src);
    id.Some? ==>
      && t.sessions[id.value].destKey in {None, Some(dest)}
      && (dest in t.byDest ==> t.byDest[dest] == id.value)
  }

  /** An ACCEPT learns nothing when its called leg is known already. */
  predicate OneInviteeOrKnown(t: Table, src: Key, dest: Key) {
    dest in t.byDest || OneInvitee(t, src, dest)
  }

  predicate Disciplined(t: Table, step: Step) {
    match step
    case Authreq(src, dest) => OneInvitee(t, src, dest)
    case Accept(src, dest) => OneInviteeOrKnown(t, src, dest)
    case Hoover(now, timeout, srcOrder, destOrder) => IsOrderOf(srcOrder, t.bySrc)
    case _ => true
  }

  /** Walking an index visits each of its keys once. */
  predicate IsOrderOf(order: seq<Key>, index: map<Key, nat>) {
    && (forall i, j | 0 <= i < j < |order| :: order[i] != order[j])
    && (forall k | k in index :: k in order)
  }

  predicate DisciplinedRun(t: Table, steps: seq<Step>, rewrite: bool)
    decreases |steps|
  {
    steps == [] || (Disciplined(t, steps[0]) && DisciplinedRun(Next(t, steps[0], rewrite), steps[1..], rewrite))
  }

  predicate Live(t: Table, id: nat) {
    id in t.sessions && t.sessions[id].srcKey in t.bySrc && t.bySrc[t.sessions[id].srcKey] == id
  }

  /** A source key leads to the session with that key. */
  ghost predicate SrcAgrees(t: Table) {
    forall k | k in t.bySrc :: t.bySrc[k] in t.sessions && t.sessions[t.bySrc[k]].srcKey == k
  }

  /** A destination key leads to a live session with that key, and every live session with a
      destination key is found by it. */
  ghost predicate DestAgrees(t: Table) {
    && (forall k | k in t.byDest :: Live(t, t.byDest[k]) && t.sessions[t.byDest[k]].destKey == Some(k))
    && (forall id | id in t.sessions && Live(t, id) && t.sessions[id].destKey.Some? ::
          t.sessions[id].destKey.value in t.byDest && t.byDest[t.sessions[id].destKey.value] == id)
  }

  /** A session is sound, its log is in order, and it is stopped, if it ever started, exactly when it
      is no longer live. */
  ghost predicate SessionOk(t: Table, id: nat)
    requires id in t.sessions
  {
    && id < t.nextId
    && ValidSession(t.sessions[id])
    && (Live(t, id) ==> !t.sessions[id].stopped)
    && (!Live(t, id) && t.sessions[id].started ==> t.sessions[id].stopped)
    && FollowAll(FIRST, LogOf(t, id)) == Some(FollowerOf(t.sessions[id]))
  }

  ghost predicate Inv(t: Table) {
    && SrcAgrees(t) && DestAgrees(t)
    && (forall id | id in t.sessions :: SessionOk(t, id))
    && (forall id | id in t.log :: id in t.sessions)
  }

  lemma EmptyInv()
    ensures Inv(EMPTY)
  {}

  /** A session that was dead stays dead and silent. */
  ghost predicate DeadKept(t: Table, n: Table) {
    forall i | i in t.sessions && !Live(t, i) :: i in n.sessions && !Live(n, i) && LogOf(n, i) == LogOf(t, i)
  }

  lemma StopSessionIndexes(t: Table, id: nat)
    requires SrcAgrees(t) && DestAgrees(t) && Live(t, id)
    ensures var n := StopSession(t, id);
      && SrcAgrees(n) && DestAgrees(n) && !Live(n, id)
      && (forall i | Live(n, i) :: Live(t, i) && n.sessions[i] == t.sessions[i])
      && (forall i | Live(t, i) && i != id :: Live(n, i))
      && (forall i | i in t.sessions && !Live(t, i) :: i in n.sessions && !Live(n, i))
  {}

  lemma StopSessionInv(t: Table, id: nat)
    requires Inv(t) && Live(t, id)
    ensures Inv(StopSession(t, id)) && !Live(StopSession(t, id), id)
    ensures forall i | Live(StopSession(t, id), i) :: Live(t, i) && StopSession(t, id).sessions[i] == t.sessions[i]
    ensures forall i | Live(t, i) && i != id :: Live(StopSession(t, id), i)
    ensures DeadKept(t, StopSession(t, id))
  {
    hide Stop, ValidSession, FollowAll, FollowerOf, SrcAgrees, DestAgrees;
    StopSessionIndexes(t, id);
    var n := StopSession(t, id);
    StopFollows(t.sessions[id]);
    assert SessionOk(t, id);
    FollowSum(FIRST, LogOf(t, id), Stop(t.sessions[id]).1);
    forall i | i in n.sessions ensures SessionOk(n, i) {
      assert SessionOk(t, i);
    }
  }

  lemma IdsAreOld(t: Table)
    requires Inv(t)
    ensures forall i | i in t.sessions :: i < t.nextId
  {
    forall i | i in t.sessions ensures i < t.nextId {
      assert SessionOk(t, i);
    }
  }

  lemma AddNewIndexes(t: Table, src: Key, now: int)
    requires SrcAgrees(t) && DestAgrees(t) && src !in t.bySrc && t.nextId !in t.sessions
    ensures var n := AddNew(t, src, now);
      && SrcAgrees(n) && DestAgrees(n)
      && (forall i | i in t.sessions :: Live(n, i) <==> Live(t, i)) && Live(n, t.nextId)
  {}

  lemma AddNewInv(t: Table, src: Key, now: int)
    requires Inv(t) && src !in t.bySrc
    ensures Inv(AddNew(t, src, now)) && DeadKept(t, AddNew(t, src, now))
  {
    hide ValidSession, FollowAll, FollowerOf, SrcAgrees, DestAgrees;
    var n := AddNew(t, src, now);
    IdsAreOld(t);
    AddNewIndexes(t, src, now);
    NewSessionOk(src, now);
    forall i | i in n.sessions ensures SessionOk(n, i) {
      if i in t.sessions { assert SessionOk(t, i); }
    }
  }

  lemma NewSessionOk(src: Key, now: int)
    ensures var s := NewSession(src, now);
      ValidSession(s) && !s.started && !s.stopped && FollowAll(FIRST, []) == Some(FollowerOf(s))
  {}

  /** A live session changes without starting, stopping or reporting. */
  ghost predicate QuietUpdate(t: Table, n: Table, id: nat)
    requires id in t.sessions
  {
    && id in n.sessions && n.sessions == t.sessions[id := n.sessions[id]]
    && n.sessions[id].state != Up
    && n.sessions[id] == t.sessions[id].(destKey := n.sessions[id].destKey, state := n.sessions[id].state)
    && n.bySrc == t.bySrc && n.nextId == t.nextId
    && n.log == t.log[id := LogOf(t, id)]
  }

  lemma QuietUpdateInv(t: Table, n: Table, id: nat)
    requires Inv(t) && Live(t, id) && QuietUpdate(t, n, id) && SrcAgrees(n) && DestAgrees(n)
    ensures Inv(n) && DeadKept(t, n)
  {
    hide FollowAll, SrcAgrees, DestAgrees;
    forall i | i in n.sessions ensures SessionOk(n, i) {
      assert SessionOk(t, i);
    }
  }

  /** A live session learns its called leg. */
  lemma LearnDestInv(t: Table, src: Key, dest: Key, state: CallState)
    requires Inv(t) && OneInvitee(t, src, dest) && Lookup(t, t.bySrc, src).Some? && state != Up
    ensures var id := Lookup(t, t.bySrc, src).value;
      var n := Update(t, id, t.sessions[id].(destKey := Some(dest), state := state), [])
                 .(byDest := InsertKey(t.byDest, dest, id));
      Inv(n) && DeadKept(t, n)
  {
    hide FollowAll, ValidSession, FollowerOf, SessionOk;
    var id := Lookup(t, t.bySrc, src).value;
    var n := Update(t, id, t.sessions[id].(destKey := Some(dest), state := state), [])
               .(byDest := InsertKey(t.byDest, dest, id));
    assert LogOf(t, id) + [] == LogOf(t, id);
    LearnDestIndexes(t, id, dest, n);
    QuietUpdateInv(t, n, id);
  }

  lemma LearnDestIndexes(t: Table, id: nat, dest: Key, n: Table)
    requires SrcAgrees(t) && DestAgrees(t) && Live(t, id)
    requires t.sessions[id].destKey in {None, Some(dest)} && (dest in t.byDest ==> t.byDest[dest] == id)
    requires n.bySrc == t.bySrc && n.byDest == InsertKey(t.byDest, dest, id)
    requires id in n.sessions && n.sessions == t.sessions[id := n.sessions[id]]
    requires n.sessions[id].srcKey == t.sessions[id].srcKey && n.sessions[id].destKey == Some(dest)
    ensures SrcAgrees(n) && DestAgrees(n)
  {}

  lemma OnNewInv(t: Table, src: Key, now: int)
    requires Inv(t)
    ensures Inv(OnNew(t, src, now)) && DeadKept(t, OnNew(t, src, now))
  {
    hide SessionOk;
    var id := Lookup(t, t.bySrc, src);
    if id.None? {
      AddNewInv(t, src, now);
    } else if t.sessions[id.value].state != Up {
      StopSessionInv(t, id.value);
      AddNewInv(StopSession(t, id.value), src, now);
      DeadKeptTwice(t, StopSession(t, id.value), OnNew(t, src, now));
    }
  }

  lemma DeadKeptTwice(t: Table, u: Table, n: Table)
    requires DeadKept(t, u) && DeadKept(u, n)
    ensures DeadKept(t, n)
  {}

  lemma OnAuthreqInv(t: Table, src: Key, dest: Key)
    requires Inv(t) && OneInvitee(t, src, dest)
    ensures Inv(OnAuthreq(t, src, dest)) && DeadKept(t, OnAuthreq(t, src, dest))
  {
    hide Inv;
    if Lookup(t, t.bySrc, src).Some? {
      LearnDestInv(t, src, dest, Waiting);
    }
  }

  lemma OnAcceptInv(t: Table, src: Key, dest: Key)
    requires Inv(t) && OneInviteeOrKnown(t, src, dest)
    ensures Inv(OnAccept(t, src, dest)) && DeadKept(t, OnAccept(t, src, dest))
  {
    hide SessionOk;
    if Lookup(t, t.bySrc, src).Some? {
      var other := Lookup(t, t.byDest, dest);
      if other.Some? {
        assert LogOf(t, other.value) + [] == LogOf(t, other.value);
        QuietUpdateInv(t, OnAccept(t, src, dest), other.value);
      } else {
        LearnDestInv(t, src, dest, Linked);
      }
    }
  }

  /** What the indexes find is live. */
  lemma FoundIsLive(t: Table, key: Key)
    requires Inv(t)
    ensures Lookup(t, t.bySrc, key).Some? ==> Live(t, Lookup(t, t.bySrc, key).value)
    ensures Lookup(t, t.byDest, key).Some? ==> Live(t, Lookup(t, t.byDest, key).value)
  {}

  lemma StopIfInv(t: Table, id: Option<nat>)
    requires Inv(t) && (id.Some? ==> Live(t, id.value))
    ensures Inv(StopIf(t, id)) && DeadKept(t, StopIf(t, id))
  {
    hide Inv;
    if id.Some? { StopSessionInv(t, id.value); }
  }

  lemma OnHangupInv(t: Table, receiver: Key, sender: Key)
    requires Inv(t)
    ensures Inv(OnHangup(t, receiver, sender)) && DeadKept(t, OnHangup(t, receiver, sender))
  {
    hide Inv, Lookup, StopIf, DeadKept;
    FoundIsLive(t, receiver);
    StopIfInv(t, Lookup(t, t.bySrc, receiver));
    var t1 := StopIf(t, Lookup(t, t.bySrc, receiver));
    FoundIsLive(t1, sender);
    StopIfInv(t1, Lookup(t1, t1.bySrc, sender));
    var t2 := StopIf(t1, Lookup(t1, t1.bySrc, sender));
    FoundIsLive(t2, receiver);
    StopIfInv(t2, Lookup(t2, t2.byDest, receiver));
    var t3 := StopIf(t2, Lookup(t2, t2.byDest, receiver));
    FoundIsLive(t3, sender);
    StopIfInv(t3, Lookup(t3, t3.byDest, sender));
    DeadKeptTwice(t, t1, t2);
    DeadKeptTwice(t, t2, t3);
    DeadKeptTwice(t, t3, StopIf(t3, Lookup(t3, t3.byDest, sender)));
  }

  lemma UpdateIndexes(t: Table, id: nat, s: Session, events: seq<Event>)
    requires SrcAgrees(t) && DestAgrees(t) && Live(t, id)
    requires s.srcKey == t.sessions[id].srcKey && s.destKey == t.sessions[id].destKey
    ensures SrcAgrees(Update(t, id, s, events)) && DestAgrees(Update(t, id, s, events))
    ensures forall i :: Live(Update(t, id, s, events), i) <==> Live(t, i)
  {}

  lemma ReportedInv(t: Table, id: nat, p: Packet, rewrite: bool)
    requires Inv(t) && Live(t, id)
    ensures var (s, _, events) := AddPacket(t.sessions[id], p, rewrite);
      var u := Update(t, id, s, events);
      Inv(u) && Live(u, id) && DeadKept(t, u)
  {
    hide AddPacket, ValidSession, FollowAll, FollowerOf, SrcAgrees, DestAgrees;
    assert SessionOk(t, id);
    AddPacketFollows(t.sessions[id], p, rewrite);
    var (s, _, events) := AddPacket(t.sessions[id], p, rewrite);
    FollowSum(FIRST, LogOf(t, id), events);
    var u := Update(t, id, s, events);
    UpdateIndexes(t, id, s, events);
    forall i | i in u.sessions ensures SessionOk(u, i) {
      assert SessionOk(t, i);
    }
  }

  lemma DeliverInv(t: Table, id: nat, p: Packet, rewrite: bool)
    requires Inv(t) && Live(t, id)
    ensures Inv(Deliver(t, id, p, rewrite)) && DeadKept(t, Deliver(t, id, p, rewrite))
  {
    hide AddPacket, Inv, Update, StopSession;
    ReportedInv(t, id, p, rewrite);
    var (s, inOrder, events) := AddPacket(t.sessions[id], p, rewrite);
    if !inOrder {
      var u := Update(t, id, s, events);
      StopSessionInv(u, id);
      DeadKeptTwice(t, u, StopSession(u, id));
    }
  }

  // ---------------------------------------------------------------------------------------------
  // Idle sessions

  predicate Idle(t: Table, id: nat, now: int, timeout: int)
    requires id in t.sessions
  {
    now - t.sessions[id].lastUpdated > timeout
  }

  /** `ids` are the idle live sessions with a source key in `order`, each once. */
  ghost predicate AreIdle(t: Table, ids: seq<nat>, order: seq<Key>, now: int, timeout: int) {
    && (forall i | 0 <= i < |ids| :: Live(t, ids[i]) && Idle(t, ids[i], now, timeout) && t.sessions[ids[i]].srcKey in order)
    && (forall i, j | 0 <= i < j < |ids| :: ids[i] != ids[j])
    && (forall id | Live(t, id) && t.sessions[id].srcKey in order && Idle(t, id, now, timeout) :: id in ids)
  }

  lemma {:induction false} ExpiredBySrc(t: Table, order: seq<Key>, now: int, timeout: int)
    requires Inv(t) && forall i, j | 0 <= i < j < |order| :: order[i] != order[j]
    ensures AreIdle(t, Expired(t, t.bySrc, order, now, timeout), order, now, timeout)
  {
    hide Inv, AreIdle;
    if order == [] {
      assert AreIdle(t, [], [], now, timeout) by { NoKeysNoneIdle(t, now, timeout); }
    } else {
      ExpiredBySrc(t, order[1..], now, timeout);
      var rest := Expired(t, t.bySrc, order[1..], now, timeout);
      assert order[0] !in order[1..];
      OneMoreKey(t, rest, order, now, timeout);
      assert [] + rest == rest;
    }
  }

  lemma NoKeysNoneIdle(t: Table, now: int, timeout: int)
    ensures AreIdle(t, [], [], now, timeout)
  {}

  lemma OneMoreKey(t: Table, rest: seq<nat>, order: seq<Key>, now: int, timeout: int)
    requires Inv(t) && order != [] && order[0] !in order[1..] && AreIdle(t, rest, order[1..], now, timeout)
    ensures var id := Lookup(t, t.bySrc, order[0]);
      AreIdle(t, (if id.Some? && Idle(t, id.value, now, timeout) then [id.value] else []) + rest, order, now, timeout)
  {
    hide ValidSession, SessionOk, DestAgrees;
    assert forall k | k in order :: k == order[0] || k in order[1..];
  }

  lemma {:induction false} StopAllInv(t: Table, ids: seq<nat>)
    requires Inv(t) && (forall i | 0 <= i < |ids| :: Live(t, ids[i]))
    requires forall i, j | 0 <= i < j < |ids| :: ids[i] != ids[j]
    ensures Inv(StopAll(t, ids)) && DeadKept(t, StopAll(t, ids))
    ensures forall i | Live(StopAll(t, ids), i) :: Live(t, i) && i !in ids && StopAll(t, ids).sessions[i] == t.sessions[i]
    decreases |ids|
  {
    hide Inv, DeadKept;
    if ids == [] {
      assert DeadKept(t, t) by { DeadKeptSelf(t); }
    } else {
      StopSessionInv(t, ids[0]);
      StopAllInv(StopSession(t, ids[0]), ids[1..]);
      DeadKeptTwice(t, StopSession(t, ids[0]), StopAll(t, ids));
      assert forall i | i in ids :: i == ids[0] || i in ids[1..];
    }
  }

  lemma DeadKeptSelf(t: Table)
    ensures DeadKept(t, t)
  {}

  lemma {:induction false} NothingExpired(t: Table, order: seq<Key>, now: int, timeout: int)
    requires Inv(t) && forall id | Live(t, id) :: !Idle(t, id, now, timeout)
    ensures Expired(t, t.byDest, order, now, timeout) == []
  {
    if order == [] {
    } else {
      FoundIsLive(t, order[0]);
      NothingExpired(t, order[1..], now, timeout);
    }
  }

  /** Stopping them leaves no idle session. */
  lemma NoneIdleLeft(t: Table, ids: seq<nat>, order: seq<Key>, now: int, timeout: int)
    requires Inv(t) && AreIdle(t, ids, order, now, timeout) && IsOrderOf(order, t.bySrc)
    ensures Inv(StopAll(t, ids)) && DeadKept(t, StopAll(t, ids))
    ensures forall id | Live(StopAll(t, ids), id) :: !Idle(StopAll(t, ids), id, now, timeout)
  {
    hide Inv, DeadKept, StopAll;
    StopAllInv(t, ids);
  }

  /** Idle sessions are all stopped by the walk over the first index; the walk over the second one
      never finds any. */
  lemma OnHooverInv(t: Table, now: int, timeout: int, srcOrder: seq<Key>, destOrder: seq<Key>)
    requires Inv(t) && IsOrderOf(srcOrder, t.bySrc)
    ensures var n, ids := OnHoover(t, now, timeout, srcOrder, destOrder), Expired(t, t.bySrc, srcOrder, now, timeout);
      && Inv(n) && DeadKept(t, n)
      && n == StopAll(t, ids)
      && (forall id | Live(n, id) :: !Idle(n, id, now, timeout))
      && AreIdle(t, ids, srcOrder, now, timeout)
  {
    hide Inv, DeadKept, AreIdle, Expired;
    ExpiredBySrc(t, srcOrder, now, timeout);
    var ids := Expired(t, t.bySrc, srcOrder, now, timeout);
    NoneIdleLeft(t, ids, srcOrder, now, timeout);
    NothingExpired(StopAll(t, ids), destOrder, now, timeout);
    assert StopAll(StopAll(t, ids), []) == StopAll(t, ids);
  }

  // ---------------------------------------------------------------------------------------------
  // Every run

  lemma InvNext(t: Table, step: Step, rewrite: bool)
    requires Inv(t) && Disciplined(t, step)
    ensures Inv(Next(t, step, rewrite)) && DeadKept(t, Next(t, step, rewrite))
  {
    hide Inv, OneInvitee, OneInviteeOrKnown, OnNew, OnAuthreq, OnAccept, OnHangup, OnHoover, Deliver, DeadKept;
    match step
    case New(src, now) => OnNewInv(t, src, now);
    case Authreq(src, dest) => OnAuthreqInv(t, src, dest);
    case Accept(src, dest) => OnAcceptInv(t, src, dest);
    case Hangup(receiver, sender) => OnHangupInv(t, receiver, sender);
    case Hoover(now, timeout, srcOrder, destOrder) => OnHooverInv(t, now, timeout, srcOrder, destOrder);
    case Voice(p) =>
      FoundIsLive(t, p.source);
      if Lookup(t, t.bySrc, p.source).Some? {
        DeliverInv(t, Lookup(t, t.bySrc, p.source).value, p, rewrite);
      } else if Lookup(t, t.byDest, p.source).Some? {
        DeliverInv(t, Lookup(t, t.byDest, p.source).value, p, rewrite);
      } else {
        DeadKeptSelf(t);
      }
  }

  lemma {:induction false} InvRun(t: Table, steps: seq<Step>, rewrite: bool)
    requires Inv(t) && DisciplinedRun(t, steps, rewrite)
    ensures Inv(Run(t, steps, rewrite)) && DeadKept(t, Run(t, steps, rewrite))
    decreases |steps|
  {
    hide Inv, Disciplined, Next, DeadKept;
    if steps == [] {
      DeadKeptSelf(t);
    } else {
      InvNext(t, steps[0], rewrite);
      InvRun(Next(t, steps[0], rewrite), steps[1..], rewrite);
      DeadKeptTwice(t, Next(t, steps[0], rewrite), Run(t, steps, rewrite));
    }
  }

  /** After any disciplined run each source key leads to the session with that key, each destination
      key to a session with that key which the source index knows too, and neither to a stopped one. */
  lemma IndexesAgree(steps: seq<Step>, rewrite: bool, key: Key)
    requires DisciplinedRun(EMPTY, steps, rewrite)
    ensures var t := Run(EMPTY, steps, rewrite);
      && (key in t.bySrc ==>
            && t.bySrc[key] in t.sessions
            && t.sessions[t.bySrc[key]].srcKey == key && !t.sessions[t.bySrc[key]].stopped)
      && (key in t.byDest ==>
            && t.byDest[key] in t.sessions && Live(t, t.byDest[key])
            && t.sessions[t.byDest[key]].destKey == Some(key) && !t.sessions[t.byDest[key]].stopped)
  {
    EmptyInv();
    InvRun(EMPTY, steps, rewrite);
    var t := Run(EMPTY, steps, rewrite);
    assert key in t.bySrc ==> SessionOk(t, t.bySrc[key]);
    assert key in t.byDest ==> SessionOk(t, t.byDest[key]);
  }

  /** What any disciplined run reported for a session: the start first and once, the stop last and at
      most once, the numbers of each channel counting on from 1, each timestamp 160 times its number. */
  lemma EventsInOrder(steps: seq<Step>, rewrite: bool, id: nat)
    requires DisciplinedRun(EMPTY, steps, rewrite) && id in Run(EMPTY, steps, rewrite).sessions
    ensures var events := LogOf(Run(EMPTY, steps, rewrite), id);
      && (forall i | 0 <= i < |events| :: events[i] == EtStart <==> i == 0)
      && (forall i | 0 <= i < |events| :: events[i] == EtStop ==> i == |events| - 1)
      && CountsFrom(1, ChannelNumbers(events, 1)) && CountsFrom(1, ChannelNumbers(events, 2))
      && (forall i | 0 <= i < |events| && events[i].Audio? :: events[i].timestamp == 160 * events[i].sequenceNumber)
  {
    EmptyInv();
    InvRun(EMPTY, steps, rewrite);
    var t := Run(EMPTY, steps, rewrite);
    assert SessionOk(t, id);
    var events := LogOf(t, id);
    AcceptedNumbers(FIRST, events);
    forall i | 0 <= i < |events|
      ensures (events[i] == EtStart <==> i == 0) && (events[i] == EtStop ==> i == |events| - 1)
    {
      AcceptedOrder(FIRST, events, i);
    }
  }

  /** Once a session is out of the source index nothing more is reported for it. */
  lemma DeadIsSilent(before: seq<Step>, after: seq<Step>, rewrite: bool, id: nat)
    requires DisciplinedRun(EMPTY, before, rewrite) && DisciplinedRun(Run(EMPTY, before, rewrite), after, rewrite)
    requires var t := Run(EMPTY, before, rewrite); id in t.sessions && !Live(t, id)
    ensures var t, n := Run(EMPTY, before, rewrite), Run(Run(EMPTY, before, rewrite), after, rewrite);
      LogOf(n, id) == LogOf(t, id) && !Live(n, id)
  {
    EmptyInv();
    InvRun(EMPTY, before, rewrite);
    InvRun(Run(EMPTY, before, rewrite), after, rewrite);
  }

  // ---------------------------------------------------------------------------------------------
  // What each message does to a call

  /** A packet is one of a live call when it comes from its calling leg, or from its called leg when no call
      has that one as its calling leg. */
  predicate Reaches(t: Table, id: nat, key: Key)
    requires id in t.sessions
  {
    key == t.sessions[id].srcKey || (t.sessions[id].destKey == Some(key) && key !in t.bySrc)
  }

  /** What ends a live call: a hangup to or from one of its legs, a new call from its calling leg before it is
      up, a sweep when it has been idle too long, and a packet before it is linked. */
  predicate Ends(t: Table, step: Step, id: nat)
    requires id in t.sessions
  {
    var s := t.sessions[id];
    match step
    case New(src, _) => src == s.srcKey && s.state != Up
    case Hangup(receiver, sender) =>
      s.srcKey == receiver || s.srcKey == sender || s.destKey == Some(receiver) || s.destKey == Some(sender)
    case Voice(p) => s.state == Waiting && Reaches(t, id, p.source)
    case Hoover(now, timeout, _, _) => now - s.lastUpdated > timeout
    case _ => false
  }

  /** A live call after a message that does not end it, and what it reports. */
  function After(t: Table, step: Step, id: nat, rewrite: bool): (r: (Session, seq<Event>))
    requires id in t.sessions
  {
    var s := t.sessions[id];
    match step
    case Authreq(src, dest) => (if src == s.srcKey then s.(destKey := Some(dest), state := Waiting) else s, [])
    case Accept(src, dest) =>
      (if src in t.bySrc && s.destKey == Some(dest) then s.(state := Linked)
       else if src == s.srcKey && dest !in t.byDest then s.(destKey := Some(dest), state := Linked)
       else s, [])
    case Voice(p) =>
      if Reaches(t, id, p.source) then
        var (n, _, events) := AddPacket(s, p, rewrite);
        (n, events)
      else (s, [])
    case _ => (s, [])
  }

  /** A live call ended, and reported so if it had started, or was left as it was. */
  ghost predicate Told(t: Table, n: Table, id: nat, ends: bool)
    requires id in t.sessions
  {
    && id in n.sessions
    && (Live(n, id) <==> !ends)
    && (ends ==> LogOf(n, id) == LogOf(t, id) + if t.sessions[id].started then [EtStop] else [])
    && (!ends ==> n.sessions[id] == t.sessions[id] && LogOf(n, id) == LogOf(t, id))
  }

  /** Under the invariant a key finds a live call if and only if it is its key. */
  lemma FoundIff(t: Table, key: Key, id: nat)
    requires Inv(t) && Live(t, id)
    ensures Lookup(t, t.bySrc, key) == Some(id) <==> t.sessions[id].srcKey == key
    ensures Lookup(t, t.byDest, key) == Some(id) <==> t.sessions[id].destKey == Some(key)
    ensures key in t.bySrc <==> Lookup(t, t.bySrc, key).Some?
    ensures key in t.byDest <==> Lookup(t, t.byDest, key).Some?
  {
    hide SessionOk;
  }

  lemma StopTells(t: Table, found: Option<nat>, id: nat)
    requires Inv(t) && Live(t, id) && (found.Some? ==> Live(t, found.value))
    ensures Told(t, StopIf(t, found), id, found == Some(id))
  {
    if found.Some? {
      StopSessionIndexes(t, found.value);
    }
    assert SessionOk(t, id);
    hide ValidSession, FollowAll, SrcAgrees, DestAgrees, SessionOk;
  }

  lemma ToldTwice(t: Table, u: Table, n: Table, id: nat, first: bool, second: bool)
    requires id in t.sessions && Told(t, u, id, first)
    requires if first then DeadKept(u, n) else Told(u, n, id, second)
    ensures Told(t, n, id, first || second)
  {}

  /** One lookup and stop, all that is known of it. */
  lemma StopFoundTells(t: Table, found: Option<nat>, id: nat)
    requires Inv(t) && (found.Some? ==> Live(t, found.value))
    ensures var n := StopIf(t, found);
      Inv(n) && DeadKept(t, n) && (Live(t, id) ==> Told(t, n, id, found == Some(id)))
  {
    hide Inv, Told, DeadKept, StopIf, Live;
    StopIfInv(t, found);
    if Live(t, id) {
      StopTells(t, found, id);
    }
  }

  /** A key looked up in one of the indexes, and stopped. */
  lemma StopKeyTells(t: Table, key: Key, bySource: bool, id: nat)
    requires Inv(t)
    ensures var n := StopIf(t, Lookup(t, if bySource then t.bySrc else t.byDest, key));
      Inv(n) && DeadKept(t, n)
      && (Live(t, id) ==>
            Told(t, n, id, if bySource then t.sessions[id].srcKey == key else t.sessions[id].destKey == Some(key)))
  {
    hide Inv, Told, DeadKept, StopIf, Lookup;
    FoundIsLive(t, key);
    StopFoundTells(t, Lookup(t, if bySource then t.bySrc else t.byDest, key), id);
    if Live(t, id) {
      FoundIff(t, key, id);
    }
  }

  lemma ToldLives(t: Table, n: Table, id: nat, ends: bool)
    requires id in t.sessions && Told(t, n, id, ends)
    ensures Live(n, id) <==> !ends
    ensures !ends ==> n.sessions[id] == t.sessions[id]
  {}

  /** A hangup ends exactly the calls that one of its two keys is a leg of. */
  lemma HangupTells(t: Table, receiver: Key, sender: Key, id: nat)
    requires Inv(t) && Live(t, id)
    ensures Told(t, OnHangup(t, receiver, sender), id,
                 var s := t.sessions[id];
                 s.srcKey == receiver || s.srcKey == sender || s.destKey == Some(receiver) || s.destKey == Some(sender))
  {
    var s := t.sessions[id];
    var a, b, c := s.srcKey == receiver, s.srcKey == sender, s.destKey == Some(receiver);
    hide Inv, Told, DeadKept, StopIf, Lookup, Live;
    StopKeyTells(t, receiver, true, id);
    var t1 := StopIf(t, Lookup(t, t.bySrc, receiver));
    ToldLives(t, t1, id, a);
    StopKeyTells(t1, sender, true, id);
    var t2 := StopIf(t1, Lookup(t1, t1.bySrc, sender));
    ToldTwice(t, t1, t2, id, a, b);
    ToldLives(t, t2, id, a || b);
    StopKeyTells(t2, receiver, false, id);
    var t3 := StopIf(t2, Lookup(t2, t2.byDest, receiver));
    ToldTwice(t, t2, t3, id, a || b, c);
    ToldLives(t, t3, id, a || b || c);
    StopKeyTells(t3, sender, false, id);
    ToldTwice(t, t3, OnHangup(t, receiver, sender), id, a || b || c, s.destKey == Some(sender));
  }

  lemma {:induction false} StopAllTells(t: Table, ids: seq<nat>, id: nat)
    requires Inv(t) && Live(t, id) && (forall i | 0 <= i < |ids| :: Live(t, ids[i]))
    requires forall i, j | 0 <= i < j < |ids| :: ids[i] != ids[j]
    ensures Told(t, StopAll(t, ids), id, id in ids)
    decreases |ids|
  {
    hide Inv, DeadKept, Told, StopSession;
    if ids == [] {
      StopTells(t, None, id);
    } else {
      StopTells(t, Some(ids[0]), id);
      StopSessionInv(t, ids[0]);
      var u := StopSession(t, ids[0]);
      StopAllInv(u, ids[1..]);
      if id != ids[0] {
        StopAllTells(u, ids[1..], id);
      }
      ToldTwice(t, u, StopAll(t, ids), id, id == ids[0], id in ids[1..]);
    }
  }

  /** A sweep ends exactly the calls it finds idle. */
  lemma HooverTells(t: Table, now: int, timeout: int, srcOrder: seq<Key>, destOrder: seq<Key>, id: nat)
    requires Inv(t) && IsOrderOf(srcOrder, t.bySrc) && Live(t, id)
    ensures Told(t, OnHoover(t, now, timeout, srcOrder, destOrder), id, now - t.sessions[id].lastUpdated > timeout)
  {
    hide Inv, Told, DeadKept, Expired, OnHoover;
    OnHooverInv(t, now, timeout, srcOrder, destOrder);
    StopAllTells(t, Expired(t, t.bySrc, srcOrder, now, timeout), id);
  }

  lemma AddNewTells(t: Table, src: Key, now: int, id: nat)
    requires Inv(t) && src !in t.bySrc
    ensures id in t.sessions && Live(t, id) ==> Told(t, AddNew(t, src, now), id, false)
  {
    hide SessionOk;
    IdsAreOld(t);
  }

  /** A NEW ends the call from its leg that is not up yet, and no other. */
  lemma NewEnds(t: Table, src: Key, now: int, id: nat)
    requires Inv(t) && Live(t, id)
    ensures Told(t, OnNew(t, src, now), id, t.sessions[id].srcKey == src && t.sessions[id].state != Up)
  {
    hide Inv, Told, DeadKept;
    FoundIff(t, src, id);
    FoundIsLive(t, src);
    var found := Lookup(t, t.bySrc, src);
    if found.None? {
      AddNewTells(t, src, now, id);
    } else if t.sessions[found.value].state == Up {
      StopTells(t, None, id);
    } else {
      StopTells(t, found, id);
      FoundIff(t, src, found.value);
      StopSessionInv(t, found.value);
      var u := StopSession(t, found.value);
      AddNewInv(u, src, now);
      AddNewTells(u, src, now, id);
      ToldLives(t, u, id, found == Some(id));
      ToldTwice(t, u, OnNew(t, src, now), id, found == Some(id), false);
    }
  }

  /** A call from `src` that waits for its answer and has not been heard, under a number of its own. */
  ghost predicate Made(t: Table, n: Table, src: Key, now: int) {
    && t.nextId !in t.sessions && n.sessions.Keys == t.sessions.Keys + {t.nextId} && Live(n, t.nextId)
    && n.sessions[t.nextId].srcKey == src && n.sessions[t.nextId].destKey == None
    && n.sessions[t.nextId].state == Waiting && n.sessions[t.nextId].lastUpdated == now
    && Unheard(n.sessions[t.nextId].(state := Linked)) && LogOf(n, t.nextId) == []
  }

  lemma AddNewMakes(t: Table, src: Key, now: int)
    requires src !in t.bySrc && t.nextId !in t.sessions
    ensures Made(t, AddNew(t, src, now), src, now)
  {}

  predicate UpFrom(t: Table, id: nat, src: Key) {
    Live(t, id) && t.sessions[id].srcKey == src && t.sessions[id].state == Up
  }

  /** A NEW makes such a call unless there is one from its leg that is up; then it changes nothing. */
  lemma NewTells(t: Table, src: Key, now: int)
    requires Inv(t)
    ensures if exists id :: UpFrom(t, id, src) then OnNew(t, src, now) == t else Made(t, OnNew(t, src, now), src, now)
  {
    hide Inv, Made, AddNew, StopSession, Lookup;
    IdsAreOld(t);
    FoundIsLive(t, src);
    var found := Lookup(t, t.bySrc, src);
    if found.Some? {
      FoundIff(t, src, found.value);
      if t.sessions[found.value].state == Up {
        assert UpFrom(t, found.value, src);
      } else {
        StopMakesRoom(t, found.value, src, now);
        assert !exists id :: UpFrom(t, id, src) by {
          if id :| UpFrom(t, id, src) { FoundIff(t, src, id); }
        }
      }
    } else {
      NotFound(t, src);
      AddNewMakes(t, src, now);
    }
  }

  lemma NotFound(t: Table, src: Key)
    requires Inv(t) && Lookup(t, t.bySrc, src).None?
    ensures src !in t.bySrc && !exists id :: UpFrom(t, id, src)
  {
    hide SessionOk;
  }

  lemma StopMakesRoom(t: Table, id: nat, src: Key, now: int)
    requires Live(t, id) && t.sessions[id].srcKey == src && t.nextId !in t.sessions
    ensures Made(t, AddNew(StopSession(t, id), src, now), src, now)
  {
    hide AddNew;
    var u := StopSession(t, id);
    AddNewMakes(u, src, now);
  }

  lemma AuthreqTells(t: Table, src: Key, dest: Key, id: nat, rewrite: bool)
    requires Inv(t) && Live(t, id)
    ensures var n := OnAuthreq(t, src, dest);
      Live(n, id) && n.sessions[id] == After(t, Authreq(src, dest), id, rewrite).0 && LogOf(n, id) == LogOf(t, id)
  {
    hide SessionOk, DestAgrees;
  }

  lemma UpdateKeepsOthers(t: Table, other: nat, s: Session, id: nat)
    requires Live(t, id) && (other == id ==> s.srcKey == t.sessions[id].srcKey)
    ensures var n := Update(t, other, s, []);
      Live(n, id) && LogOf(n, id) == LogOf(t, id) && n.sessions[id] == if id == other then s else t.sessions[id]
  {}

  lemma AcceptTells(t: Table, src: Key, dest: Key, id: nat, rewrite: bool)
    requires Inv(t) && Live(t, id)
    ensures var n := OnAccept(t, src, dest);
      Live(n, id) && n.sessions[id] == After(t, Accept(src, dest), id, rewrite).0 && LogOf(n, id) == LogOf(t, id)
  {
    FoundIff(t, src, id);
    FoundIff(t, dest, id);
    FoundIsLive(t, src);
    FoundIsLive(t, dest);
    assert LogOf(t, id) + [] == LogOf(t, id);
    hide SessionOk, DestAgrees, SrcAgrees, Inv, Lookup, LogOf, InsertKey;
    match Lookup(t, t.bySrc, src)
    case None =>
    case Some(first) =>
      match Lookup(t, t.byDest, dest) {
        case None => UpdateKeepsOthers(t, first, t.sessions[first].(destKey := Some(dest), state := Linked), id);
        case Some(other) => UpdateKeepsOthers(t, other, t.sessions[other].(state := Linked), id);
      }
  }

  lemma DeliverTells(t: Table, other: nat, p: Packet, id: nat, rewrite: bool)
    requires Inv(t) && Live(t, id) && Live(t, other)
    ensures var n := Deliver(t, other, p, rewrite);
      if other != id then Told(t, n, id, false)
      else if t.sessions[id].state == Waiting then Told(t, n, id, true)
      else Live(n, id) && n.sessions[id] == AddPacket(t.sessions[id], p, rewrite).0
           && LogOf(n, id) == LogOf(t, id) + AddPacket(t.sessions[id], p, rewrite).2
  {
    hide AddPacket, ValidSession, FollowAll, SrcAgrees, DestAgrees, SessionOk;
    var s := t.sessions[other];
    assert s.started <==> s.numPackets > 0 by { StartedIff(t, other); }
    PacketTells(s, p, rewrite);
    var (x, inOrder, events) := AddPacket(s, p, rewrite);
    var u := Update(t, other, x, events);
    ReportedInv(t, other, p, rewrite);
    assert Told(t, u, id, false) || other == id;
    if !inOrder {
      assert LogOf(t, other) + [] == LogOf(t, other);
      hide Inv;
      StopTells(u, Some(other), id);
    }
  }

  lemma StartedIff(t: Table, id: nat)
    requires Inv(t) && id in t.sessions
    ensures t.sessions[id].started <==> t.sessions[id].numPackets > 0
    ensures ValidSession(t.sessions[id])
    ensures FollowAll(FIRST, LogOf(t, id)) == Some(FollowerOf(t.sessions[id]))
  {
    hide FollowAll;
    assert SessionOk(t, id);
  }

  lemma VoiceTells(t: Table, p: Packet, id: nat, rewrite: bool)
    requires Inv(t) && Live(t, id)
    ensures var n := OnVoice(t, p, rewrite);
      if !Reaches(t, id, p.source) then Told(t, n, id, false)
      else if t.sessions[id].state == Waiting then Told(t, n, id, true)
      else Live(n, id) && n.sessions[id] == AddPacket(t.sessions[id], p, rewrite).0
           && LogOf(n, id) == LogOf(t, id) + AddPacket(t.sessions[id], p, rewrite).2
  {
    hide Inv, AddPacket, Deliver, Told;
    FoundIff(t, p.source, id);
    FoundIsLive(t, p.source);
    if Lookup(t, t.bySrc, p.source).Some? {
      DeliverTells(t, Lookup(t, t.bySrc, p.source).value, p, id, rewrite);
    } else if Lookup(t, t.byDest, p.source).Some? {
      DeliverTells(t, Lookup(t, t.byDest, p.source).value, p, id, rewrite);
    } else {
      StopTells(t, None, id);
    }
  }

  /** What one message does to each live call: which end it, with one stop if it had started, and what becomes
      of the others. */
  lemma StepTells(t: Table, step: Step, id: nat, rewrite: bool)
    requires Inv(t) && Disciplined(t, step) && Live(t, id)
    ensures var n := Next(t, step, rewrite);
      && id in n.sessions && (Live(n, id) <==> !Ends(t, step, id))
      && (Ends(t, step, id) ==> LogOf(n, id) == LogOf(t, id) + if t.sessions[id].started then [EtStop] else [])
      && (!Ends(t, step, id) ==>
            && n.sessions[id] == After(t, step, id, rewrite).0
            && LogOf(n, id) == LogOf(t, id) + After(t, step, id, rewrite).1)
  {
    assert LogOf(t, id) + [] == LogOf(t, id);
    hide Inv, AddPacket, OnNew, OnHangup, OnVoice, OnAuthreq, OnAccept, OnHoover, IsOrderOf, OneInvitee, OneInviteeOrKnown;
    match step
    case New(src, now) => NewEnds(t, src, now, id);
    case Authreq(src, dest) => AuthreqTells(t, src, dest, id, rewrite);
    case Accept(src, dest) => AcceptTells(t, src, dest, id, rewrite);
    case Hangup(receiver, sender) => HangupTells(t, receiver, sender, id);
    case Voice(p) => VoiceTells(t, p, id, rewrite);
    case Hoover(now, timeout, srcOrder, destOrder) => HooverTells(t, now, timeout, srcOrder, destOrder, id);
  }

  // ---------------------------------------------------------------------------------------------
  // A call among others

  /** Nothing in the run ends the call, and nothing announces a called leg for it. */
  predicate Undisturbed(t: Table, steps: seq<Step>, id: nat, rewrite: bool)
    decreases |steps|
  {
    id in t.sessions &&
    (steps == [] ||
     (&& !Ends(t, steps[0], id)
      && (steps[0].Authreq? || steps[0].Accept? ==>
            steps[0].src != t.sessions[id].srcKey && Some(steps[0].dest) != t.sessions[id].destKey)
      && Undisturbed(Next(t, steps[0], rewrite), steps[1..], id, rewrite)))
  }

  /** The packets of the run that come from one of its legs. */
  function Received(t: Table, steps: seq<Step>, id: nat, rewrite: bool): (r: seq<Packet>)
    decreases |steps|
  {
    if steps == [] || id !in t.sessions then []
    else (if steps[0].Voice? && Reaches(t, id, steps[0].packet.source) then [steps[0].packet] else [])
         + Received(Next(t, steps[0], rewrite), steps[1..], id, rewrite)
  }

  /** However it is mixed with other calls, an undisturbed call hears its packets alone. */
  lemma {:induction false} CallRuns(t: Table, steps: seq<Step>, id: nat, rewrite: bool)
    requires Inv(t) && DisciplinedRun(t, steps, rewrite) && Live(t, id) && Undisturbed(t, steps, id, rewrite)
    ensures var n, packets := Run(t, steps, rewrite), Received(t, steps, id, rewrite);
      && Inv(n) && Live(n, id)
      && n.sessions[id] == RunPackets(t.sessions[id], packets, rewrite).0
      && LogOf(n, id) == LogOf(t, id) + RunPackets(t.sessions[id], packets, rewrite).1
    decreases |steps|
  {
    hide Inv, Next, Disciplined, AddPacket;
    if steps != [] {
      var n := Next(t, steps[0], rewrite);
      var events := After(t, steps[0], id, rewrite).1;
      StepTells(t, steps[0], id, rewrite);
      InvNext(t, steps[0], rewrite);
      CallRuns(n, steps[1..], id, rewrite);
      var packets := Received(n, steps[1..], id, rewrite);
      var more := RunPackets(n.sessions[id], packets, rewrite).1;
      OneMorePacket(LogOf(t, id), events, more);
      if steps[0].Voice? && Reaches(t, id, steps[0].packet.source) {
        assert ([steps[0].packet] + packets)[1..] == packets;
      } else {
        assert [] + packets == packets;
      }
    }
  }

  lemma OneMorePacket(log: seq<Event>, events: seq<Event>, more: seq<Event>)
    ensures log + events + more == log + (events + more) && log + [] == log && [] + more == more
  {}

  lemma StartedIffReported(t: Table, id: nat)
    requires Inv(t) && id in t.sessions
    ensures t.sessions[id].started <==> LogOf(t, id) != []
  {
    StartedIff(t, id);
    var log := LogOf(t, id);
    if log != [] {
      AcceptedOrder(FIRST, log, 0);
      FollowAhead(Follow(FIRST, log[0]).value, log[1..]);
    }
  }

  lemma {:induction false} FollowAhead(f: Follower, events: seq<Event>)
    requires FollowAll(f, events).Some? && f.seen != Nothing
    ensures FollowAll(f, events).value.seen != Nothing
    decreases |events|
  {
    if events != [] {
      FollowAhead(Follow(f, events[0]).value, events[1..]);
    }
  }

  /** What is recorded of a call from its link on, whatever other calls do meanwhile: nothing before its
      first full frame; then, after one start, on channel 1 its packets to the address that frame went to
      and on channel 2 the others, in order, without repeats; and when it ends, one stop. */
  lemma CallIsRecorded(t: Table, steps: seq<Step>, last: Step, id: nat, rewrite: bool)
    requires Inv(t) && Live(t, id) && Unheard(t.sessions[id])
    requires DisciplinedRun(t, steps, rewrite) && Undisturbed(t, steps, id, rewrite)
    requires var n := Run(t, steps, rewrite); id in n.sessions && Disciplined(n, last) && Ends(n, last, id)
    ensures var events := LogOf(Run(t, steps, rewrite), id);
      var all := LogOf(Next(Run(t, steps, rewrite), last, rewrite), id);
      var talk := Coded(Talk(Received(t, steps, id, rewrite)), t.sessions[id].codec);
      if talk == [] then events == [] && all == [] else
      && events != [] && events[0] == EtStart && (forall i | 1 <= i < |events| :: events[i].Audio?)
      && all == events + [EtStop]
      && Track(events, 1) == SoundsOf(Counted(Sent(talk, talk[0].destIp, true), None, rewrite))
      && Track(events, 2) == SoundsOf(Counted(Sent(talk, talk[0].destIp, false), None, rewrite))
  {
    assert id in t.sessions;
    hide Inv, AddPacket, Next, Disciplined, Ends, Track, SoundsOf, Counted, Sent, Talk, Coded, Live, Received;
    CallRuns(t, steps, id, rewrite);
    StartedIffReported(t, id);
    var packets := Received(t, steps, id, rewrite);
    CallIsHeard(t.sessions[id], packets, rewrite);
    var n := Run(t, steps, rewrite);
    OneMorePacket(LogOf(t, id), [], RunPackets(t.sessions[id], packets, rewrite).1);
    StepTells(n, last, id, rewrite);
    StartedIffReported(n, id);
  }

  // ---------------------------------------------------------------------------------------------
  // Without the discipline

  /** The discipline is exactly what the indexes need: an AUTHREQ that breaks it breaks them. */
  lemma AuthreqNeedsOneInvitee(t: Table, src: Key, dest: Key)
    requires Inv(t)
    ensures SrcAgrees(OnAuthreq(t, src, dest)) && DestAgrees(OnAuthreq(t, src, dest)) <==> OneInvitee(t, src, dest)
  {
    hide SessionOk;
    if OneInvitee(t, src, dest) {
      OnAuthreqInv(t, src, dest);
    } else {
      var id, n := Lookup(t, t.bySrc, src).value, OnAuthreq(t, src, dest);
      assert Live(t, id) && Live(n, id);
      if t.sessions[id].destKey.Some? && t.sessions[id].destKey.value != dest {
        assert t.sessions[id].destKey.value in n.byDest;
      } else {
        assert n.byDest[dest] != id;
      }
    }
  }

  /** So does an ACCEPT. */
  lemma AcceptNeedsOneInvitee(t: Table, src: Key, dest: Key)
    requires Inv(t)
    ensures SrcAgrees(OnAccept(t, src, dest)) && DestAgrees(OnAccept(t, src, dest)) <==> OneInviteeOrKnown(t, src, dest)
  {
    hide SessionOk;
    if OneInviteeOrKnown(t, src, dest) {
      OnAcceptInv(t, src, dest);
    } else {
      var id, n := Lookup(t, t.bySrc, src).value, OnAccept(t, src, dest);
      assert Live(t, id);
      assert t.sessions[id].destKey.value in n.byDest;
    }
  }

  ghost predicate Agrees(t: Table) { SrcAgrees(t) && DestAgrees(t) }

  /** Both indexes agree after every step of a run. */
  ghost predicate AgreesThroughout(t: Table, steps: seq<Step>, rewrite: bool)
    decreases |steps|
  {
    steps == [] || (Agrees(Next(t, steps[0], rewrite)) && AgreesThroughout(Next(t, steps[0], rewrite), steps[1..], rewrite))
  }

  /** Each sweep visits every key of the source index once, as walking a map does. */
  predicate WalksInOrder(t: Table, steps: seq<Step>, rewrite: bool)
    decreases |steps|
  {
    steps == [] ||
    ((steps[0].Hoover? ==> IsOrderOf(steps[0].srcOrder, t.bySrc))
     && WalksInOrder(Next(t, steps[0], rewrite), steps[1..], rewrite))
  }

  lemma StepAgreesIff(t: Table, step: Step, rewrite: bool)
    requires Inv(t) && (step.Hoover? ==> IsOrderOf(step.srcOrder, t.bySrc))
    ensures Agrees(Next(t, step, rewrite)) <==> Disciplined(t, step)
  {
    hide OneInvitee, OneInviteeOrKnown, OnNew, OnAuthreq, OnAccept, OnHangup, OnVoice, OnHoover, SrcAgrees, DestAgrees, SessionOk;
    match step {
      case Authreq(src, dest) => AuthreqNeedsOneInvitee(t, src, dest);
      case Accept(src, dest) => AcceptNeedsOneInvitee(t, src, dest);
      case _ => InvNext(t, step, rewrite);
    }
  }

  /** Both indexes agree after every step of a run if and only if the run is
      disciplined. */
  lemma {:induction false} AgreeThroughoutIff(t: Table, steps: seq<Step>, rewrite: bool)
    requires Inv(t) && WalksInOrder(t, steps, rewrite)
    ensures AgreesThroughout(t, steps, rewrite) <==> DisciplinedRun(t, steps, rewrite)
    decreases |steps|
  {
    hide Inv, Agrees, Disciplined, Next, IsOrderOf;
    if steps == [] {
    } else {
      StepAgreesIff(t, steps[0], rewrite);
      if Disciplined(t, steps[0]) {
        InvNext(t, steps[0], rewrite);
        AgreeThroughoutIff(Next(t, steps[0], rewrite), steps[1..], rewrite);
      }
    }
  }

  /** From the empty table on too. */
  lemma IndexesAgreeIff(steps: seq<Step>, rewrite: bool)
    requires WalksInOrder(EMPTY, steps, rewrite)
    ensures AgreesThroughout(EMPTY, steps, rewrite) <==> DisciplinedRun(EMPTY, steps, rewrite)
  {
    EmptyInv();
    AgreeThroughoutIff(EMPTY, steps, rewrite);
  }

  lemma {:induction false} RunAppend(t: Table, steps: seq<Step>, step: Step, rewrite: bool)
    ensures Run(t, steps + [step], rewrite) == Next(Run(t, steps, rewrite), step, rewrite)
    decreases |steps|
  {
    if steps == [] {
      assert steps + [step] == [step] && [step][1..] == [];
    } else {
      assert (steps + [step])[1..] == steps[1..] + [step];
      RunAppend(Next(t, steps[0], rewrite), steps[1..], step, rewrite);
    }
  }

  /** A call whose called leg was announced twice, up and running. */
  lemma CallWithTwoInvitees(src: Key, dest1: Key, dest2: Key) returns (steps: seq<Step>, t: Table)
    requires src != dest1 && dest1 != dest2 && src != dest2
    ensures t == Run(EMPTY, steps, false)
    ensures t.bySrc == map[src := 0] && t.byDest == map[dest1 := 0, dest2 := 0] && 0 in t.sessions
    ensures var s := t.sessions[0];
      && s == NewSession(src, 0).(destKey := Some(dest2), state := Up, started := true, numPackets := 1,
                                  anyPacket := true, side1 := Some((2, 10)), seq1 := 2)
    ensures LogOf(t, 0) == [EtStart, Audio(1, 2, 320, Sound(0, [], 0))]
  {
    var p := Packet(src, 2, true, 0, 10, 0, []);
    var t0 := EMPTY;
    var t1 := Next(t0, New(src, 0), false);
    var t2 := Next(t1, Authreq(src, dest1), false);
    var t3 := Next(t2, Authreq(src, dest2), false);
    var t4 := Next(t3, Accept(src, dest2), false);
    t := Next(t4, Voice(p), false);
    steps := [];
    RunAppend(EMPTY, steps, New(src, 0), false);
    steps := steps + [New(src, 0)];
    RunAppend(EMPTY, steps, Authreq(src, dest1), false);
    steps := steps + [Authreq(src, dest1)];
    RunAppend(EMPTY, steps, Authreq(src, dest2), false);
    steps := steps + [Authreq(src, dest2)];
    RunAppend(EMPTY, steps, Accept(src, dest2), false);
    steps := steps + [Accept(src, dest2)];
    RunAppend(EMPTY, steps, Voice(p), false);
    steps := steps + [Voice(p)];
  }

  /** The second called leg hides the first: hanging up leaves the first one in its index, and a
      packet from it is reported after the stop. */
  lemma TwoInviteesOutliveTheCall(src: Key, dest1: Key, dest2: Key, other: Key) returns (steps: seq<Step>)
    requires src != dest1 && dest1 != dest2 && src != dest2 && other !in {src, dest1, dest2}
    ensures LogOf(Run(EMPTY, steps, false), 0) == [EtStart, Audio(1, 2, 320, Sound(0, [], 0)), EtStop, Audio(2, 2, 320, Sound(0, [], 0))]
  {
    var t;
    steps, t := CallWithTwoInvitees(src, dest1, dest2);
    var u := Next(t, Hangup(other, src), false);
    var p := Packet(dest1, 1, true, 0, 20, 0, []);
    RunAppend(EMPTY, steps, Hangup(other, src), false);
    steps := steps + [Hangup(other, src)];
    RunAppend(EMPTY, steps, Voice(p), false);
    steps := steps + [Voice(p)];
    assert u == StopSession(t, 0);
    assert LogOf(u, 0) == [EtStart, Audio(1, 2, 320, Sound(0, [], 0)), EtStop];
  }

  // ---------------------------------------------------------------------------------------------
  // The class

  class SessionTable {
    var sessions: map<nat, Session>
    var bySrcIpAndCallNo: map<Key, nat>
    var byDestIpAndCallNo: map<Key, nat>
    var nextId: nat
    var reported: map<nat, seq<Event>>

    ghost function Model(): Table
      reads this
    {
      Table(sessions, bySrcIpAndCallNo, byDestIpAndCallNo, nextId, reported)
    }

    constructor ()
      ensures Model() == EMPTY
    {
      sessions, bySrcIpAndCallNo, byDestIpAndCallNo, nextId, reported := map[], map[], map[], 0, map[];
    }

    method Change(id: nat, session: Session, events: seq<Event>)
      modifies this`sessions, this`reported
      ensures Model() == Update(old(Model()), id, session, events)
    {
      sessions := sessions[id := session];
      reported := reported[id := (if id in reported then reported[id] else []) + events];
    }

    method StopOne(id: nat)
      requires id in sessions
      modifies this
      ensures Model() == StopSession(old(Model()), id)
    {
      var (session, events) := Stop(sessions[id]);
      Change(id, session, events);
      bySrcIpAndCallNo := bySrcIpAndCallNo - {session.srcKey};
      if session.destKey.Some? {
        byDestIpAndCallNo := byDestIpAndCallNo - {session.destKey.value};
      }
    }

    method Find(bySource: bool, key: Key) returns (id: Option<nat>)
      ensures id == Lookup(Model(), if bySource then bySrcIpAndCallNo else byDestIpAndCallNo, key)
      ensures id.Some? ==> id.value in sessions
    {
      var index := if bySource then bySrcIpAndCallNo else byDestIpAndCallNo;
      if key in index && index[key] in sessions {
        return Some(index[key]);
      }
      return None;
    }

    method Create(src: Key, now: int)
      modifies this
      ensures Model() == AddNew(old(Model()), src, now)
    {
      sessions := sessions[nextId := NewSession(src, now)];
      if src !in bySrcIpAndCallNo {
        bySrcIpAndCallNo := bySrcIpAndCallNo[src := nextId];
      }
      reported := reported[nextId := []];
      nextId := nextId + 1;
    }

    method ReportIax2New(src: Key, now: int)
      modifies this
      ensures Model() == OnNew(old(Model()), src, now)
    {
      var id := Find(true, src);
      if id.Some? {
        if sessions[id.value].state == Up {
          return;
        }
        StopOne(id.value);
      }
      Create(src, now);
    }

    method LearnDest(id: nat, dest: Key, state: CallState)
      requires id in sessions
      modifies this
      ensures Model() == Update(old(Model()), id, old(sessions)[id].(destKey := Some(dest), state := state), [])
        .(byDest := InsertKey(old(Model()).byDest, dest, id))
    {
      Change(id, sessions[id].(destKey := Some(dest), state := state), []);
      if dest !in byDestIpAndCallNo {
        byDestIpAndCallNo := byDestIpAndCallNo[dest := id];
      }
    }

    method ReportIax2Authreq(src: Key, dest: Key)
      modifies this
      ensures Model() == OnAuthreq(old(Model()), src, dest)
    {
      var id := Find(true, src);
      if id.Some? {
        LearnDest(id.value, dest, Waiting);
      }
    }

    method ReportIax2Accept(src: Key, dest: Key)
      modifies this
      ensures Model() == OnAccept(old(Model()), src, dest)
    {
      var id := Find(true, src);
      if id.Some? {
        var other := Find(false, dest);
        if other.Some? {
          Change(other.value, sessions[other.value].(state := Linked), []);
        } else {
          LearnDest(id.value, dest, Linked);
        }
      }
    }

    method StopFound(bySource: bool, key: Key)
      modifies this
      ensures var t := old(Model()); Model() == StopIf(t, Lookup(t, if bySource then t.bySrc else t.byDest, key))
    {
      var id := Find(bySource, key);
      if id.Some? {
        StopOne(id.value);
      }
    }

    method ReportIax2Hangup(receiver: Key, sender: Key)
      modifies this
      ensures Model() == OnHangup(old(Model()), receiver, sender)
    {
      hide Lookup, StopIf;
      StopFound(true, receiver);
      StopFound(true, sender);
      StopFound(false, receiver);
      StopFound(false, sender);
    }

    method DeliverPacket(id: nat, p: Packet, rewrite: bool)
      requires id in sessions
      modifies this
      ensures Model() == Deliver(old(Model()), id, p, rewrite)
    {
      hide AddPacket;
      var (session, inOrder, events) := AddPacket(sessions[id], p, rewrite);
      Change(id, session, events);
      if !inOrder {
        StopOne(id);
      }
    }

    method ReportIax2Packet(p: Packet, rewrite: bool)
      modifies this
      ensures Model() == OnVoice(old(Model()), p, rewrite)
    {
      hide Deliver;
      var id := Find(true, p.source);
      if id.None? {
        id := Find(false, p.source);
      }
      if id.Some? {
        DeliverPacket(id.value, p, rewrite);
      }
    }

    method CollectIdle(bySource: bool, order: seq<Key>, now: int, timeout: int) returns (toDismiss: seq<nat>)
      ensures toDismiss
        == Expired(Model(), if bySource then bySrcIpAndCallNo else byDestIpAndCallNo, order, now, timeout)
    {
      hide Lookup;
      ghost var t, index := Model(), if bySource then bySrcIpAndCallNo else byDestIpAndCallNo;
      toDismiss := [];
      var i := 0;
      assert order[0..] == order;
      while i < |order|
        invariant 0 <= i <= |order|
        invariant Expired(t, index, order, now, timeout) == toDismiss + Expired(t, index, order[i..], now, timeout)
      {
        assert order[i..][0] == order[i] && order[i..][1..] == order[i+1..];
        var id := Find(bySource, order[i]);
        if id.Some? && now - sessions[id.value].lastUpdated > timeout {
          AppendOne(toDismiss, id.value, Expired(t, index, order[i+1..], now, timeout));
          toDismiss := toDismiss + [id.value];
        }
        i := i + 1;
      }
      assert toDismiss + [] == toDismiss;
    }

    method StopListed(toDismiss: seq<nat>)
      modifies this
      ensures Model() == StopAll(old(Model()), toDismiss)
    {
      hide StopSession;
      var i := 0;
      assert toDismiss[0..] == toDismiss;
      while i < |toDismiss|
        invariant 0 <= i <= |toDismiss|
        invariant StopAll(old(Model()), toDismiss) == StopAll(Model(), toDismiss[i..])
      {
        assert toDismiss[i..][0] == toDismiss[i] && toDismiss[i..][1..] == toDismiss[i+1..];
        if toDismiss[i] in sessions {
          StopOne(toDismiss[i]);
        }
        i := i + 1;
      }
    }

    method Hoover(now: int, timeout: int, srcOrder: seq<Key>, destOrder: seq<Key>)
      modifies this
      ensures Model() == OnHoover(old(Model()), now, timeout, srcOrder, destOrder)
    {
      var idle := CollectIdle(true, srcOrder, now, timeout);
      StopListed(idle);
      idle := CollectIdle(false, destOrder, now, timeout);
      StopListed(idle);
    }
  }

  lemma AppendOne(a: seq<nat>, x: nat, b: seq<nat>)
    ensures a + ([x] + b) == a + [x] + b
  {}
}
