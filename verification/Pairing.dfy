/** Federation pairing on one node: any number of concurrent pairings, first pairs and re-pairs, with and
    without a one-time token, against operators that revoke, delete and edit Peer rows. */
module Pairing {
  import opened Collections
  import opened Store

  /** A verified pairing request. */
  datatype Pairing = Pairing(instance: nat, key: Value, endpoint: Option<Value>, token: Option<nat>)

  /** A committed consume: which token, for which instance, by which request, with the attempt's marker. */
  datatype Consume = Consume(token: nat, instance: nat, request: nat, marker: nat)

  datatype Answer = Paired | Refused | Unconfirmed

  /** What an attempt stages: its transaction's time (also the number that stands for its random marker)
      and the Peer row, built for a first pair or from the row re-read. */
  datatype Attempt = Attempt(at: nat, row: Row, firstPair: bool)

  datatype Phase =
    | Routed                              // the read before the transaction chose a route
    | Locked                              // holds its token's lock (or needs none)
    | Staged(attempt: Attempt)
    | Committed(attempt: Attempt)         // still holds the lock
    | Closing                             // refused or failed before its commit, still holds the lock
    | ReadBack(attempt: Attempt)
    | Answered(answer: Answer)

  datatype Session = Session(pairing: Pairing, route: Route, phase: Phase)
  datatype Route = NewPeer | RePair

  /** `tokens` are the stored PairingToken rows: unused, or consumed. */
  datatype State = State(clock: nat, peers: map<nat, Log>, tokens: map<nat, Option<Consume>>,
                         locks: map<nat, nat>, sessions: map<nat, Session>, consumes: set<Consume>)

  datatype Event =
    | Arrive(id: nat, pairing: Pairing)
    | Lock(id: nat)
    | Busy(id: nat)
    | Stage(id: nat, tokenUsable: bool)   // unexpired, and bound to this caller
    | Fail(id: nat)                       // anything that throws before the commit
    | Commit(id: nat)
    | Release(id: nat)
    | Confirm(id: nat)
    | RevokePeer(instance: nat)
    | EditPeer(instance: nat, patch: Row)
    | DeletePeer(instance: nat)

  function PeerLog(s: State, instance: nat): Log {
    if instance in s.peers then s.peers[instance] else []
  }

  function Peer(s: State, instance: nat): Option<Row> { Fold(PeerLog(s, instance)) }

  /** What pairing must not change: the pinned key, and whether the row is revoked. */
  datatype Pinned = Pinned(key: Option<Value>, revoked: bool)

  function PinnedOf(row: Row): Pinned {
    Pinned(if PublicKey in row then Some(row[PublicKey]) else None,
           Status in row && row[Status] == Word(Revoked))
  }

  function Pin(stored: Option<Row>): Option<Pinned> {
    if stored.None? then None else Some(PinnedOf(stored.value))
  }

  function FirstPairRow(p: Pairing, at: nat): Row {
    map[Id := Number(p.instance), PublicKey := p.key, Endpoint := if p.endpoint.Some? then p.endpoint.value else Null,
        Status := Word(Store.Paired), CreatedAt := Date(at), UpdatedAt := Date(at), Marker := Number(at)]
  }

  function RePairedRow(base: Row, p: Pairing, at: nat): Row {
    (if p.endpoint.Some? then base[Endpoint := p.endpoint.value] else base)
      [Status := Word(Store.Paired)][UpdatedAt := Date(at)][Marker := Number(at)]
  }

  /** The re-read inside the owned transaction: what to stage, or nothing. */
  function Decide(current: Option<Row>, p: Pairing, route: Route, at: nat): Option<Attempt> {
    if route.NewPeer? then Some(Attempt(at, FirstPairRow(p, at), true))
    else if current.None? then
      if p.token.Some? then Some(Attempt(at, FirstPairRow(p, at), true)) else None
    else if PinnedOf(current.value) != Pinned(Some(p.key), false) then None
    else Some(Attempt(at, RePairedRow(current.value, p, at), false))
  }

  function SetPhase(s: State, id: nat, phase: Phase): State
    requires id in s.sessions
  {
    s.(sessions := s.sessions[id := s.sessions[id].(phase := phase)])
  }

  function Insert1(s: State, instance: nat, e: Entry): State {
    s.(peers := s.peers[instance := Insert(PeerLog(s, instance), e)])
  }

  function Step(s: State, e: Event): State {
    match e
    case Arrive(id, p) =>
      if id in s.sessions then s
      else
        var peer := Peer(s, p.instance);
        var phase :=
          if peer.None? then (if p.token.Some? then Routed else Answered(Refused))
          else if PinnedOf(peer.value) != Pinned(Some(p.key), false) then Answered(Refused)
          else Routed;
        s.(sessions := s.sessions[id := Session(p, if peer.None? then NewPeer else RePair, phase)])
    case Lock(id) =>
      if !(id in s.sessions && s.sessions[id].phase.Routed?) then s
      else
        var token := s.sessions[id].pairing.token;
        if token.None? then SetPhase(s, id, Locked)
        else if token.value in s.locks then s
        else SetPhase(s, id, Locked).(locks := s.locks[token.value := id])
    case Busy(id) =>
      if id in s.sessions && s.sessions[id].phase.Routed? && s.sessions[id].pairing.token.Some?
        then SetPhase(s, id, Answered(Refused)) else s
    case Stage(id, tokenUsable) =>
      if !(id in s.sessions && s.sessions[id].phase.Locked?) then s
      else
        var p := s.sessions[id].pairing;
        if p.token.Some? && !(tokenUsable && p.token.value in s.tokens && s.tokens[p.token.value].None?)
          then SetPhase(s, id, Closing)
        else
          var attempt := Decide(Peer(s, p.instance), p, s.sessions[id].route, s.clock);
          if attempt.None? then SetPhase(s, id, Closing)
          else SetPhase(s, id, Staged(attempt.value)).(clock := s.clock + 1)
    case Fail(id) =>
      if id in s.sessions && (s.sessions[id].phase.Locked? || s.sessions[id].phase.Staged?)
        then SetPhase(s, id, Closing) else s
    case Commit(id) =>
      if !(id in s.sessions && s.sessions[id].phase.Staged?) then s
      else CommitOf(s, id, s.sessions[id].pairing, s.sessions[id].phase.attempt)
    case Release(id) =>
      if !(id in s.sessions && (s.sessions[id].phase.Committed? || s.sessions[id].phase.Closing?)) then s
      else
        var token := s.sessions[id].pairing.token;
        var next := match s.sessions[id].phase
          case Committed(a) => ReadBack(a)
          case _ => Answered(Refused);
        SetPhase(s, id, next).(locks := if token.Some? then s.locks - {token.value} else s.locks)
    case Confirm(id) =>
      if !(id in s.sessions && s.sessions[id].phase.ReadBack?) then s
      else SetPhase(s, id, Answered(if Shown(s, id, s.sessions[id].pairing, s.sessions[id].phase.attempt)
                                    then Answer.Paired else Unconfirmed))
    case RevokePeer(instance) => OutsideStep(s, instance, Update(map[Status := Word(Revoked)]))
    case EditPeer(instance, patch) =>
      if PublicKey in patch || Status in patch then s else OutsideStep(s, instance, Update(patch))
    case DeletePeer(instance) => OutsideStep(s, instance, Delete)
  }

  /** An operator's write of an existing row, timed at its commit. */
  function OutsideStep(s: State, instance: nat, w: Write): State {
    if Peer(s, instance).None? then s
    else Insert1(s, instance, Entry(s.clock, w, Outside)).(clock := s.clock + 1)
  }

  /** The confirm and the commit, as one step: a first pair commits only over an absent committed row. The
      token's consume commits with the Peer write. */
  function CommitOf(s: State, id: nat, p: Pairing, a: Attempt): State
    requires id in s.sessions
  {
    if a.firstPair && Peer(s, p.instance).Some? then SetPhase(s, id, Closing)
    else
      var s' := Insert1(SetPhase(s, id, Committed(a)), p.instance, Entry(a.at, Put(a.row), Request(id)));
      if p.token.None? then s'
      else
        var consume := Consume(p.token.value, p.instance, id, a.at);
        s'.(tokens := s.tokens[p.token.value := Some(consume)], consumes := s.consumes + {consume})
  }

  /** The read-back: the committed row shows every staged field, and the token row shows this attempt. */
  predicate Shown(s: State, id: nat, p: Pairing, a: Attempt) {
    var row := Peer(s, p.instance);
    && row.Some? && (forall f | f in a.row :: f in row.value && row.value[f] == a.row[f])
    && (p.token.Some? ==>
          && p.token.value in s.tokens
          && s.tokens[p.token.value] == Some(Consume(p.token.value, p.instance, id, a.at)))
  }

  function Run(s: State, events: seq<Event>): State {
    if events == [] then s else Step(Run(s, events[..|events| - 1]), events[|events| - 1])
  }

  // ---- A Peer row's history, read in the order of its times ----

  /** A write that may follow `before`: it never changes the key or lifts a revoke. */
  predicate Legal(before: Option<Row>, w: Write) {
    match w
    case Put(row) => !PinnedOf(row).revoked && (before.Some? ==> PinnedOf(before.value) == PinnedOf(row))
    case Update(patch) =>
      before.Some? && PublicKey !in patch && (Status in patch ==> patch[Status] == Word(Revoked))
    case Delete => true
  }

  /** Every write since the last delete was legal in its place, whatever the commits' order was. */
  predicate Clean(log: Log) {
    log == [] || log[|log| - 1].write.Delete?
    || (Clean(log[..|log| - 1]) && Legal(Fold(log[..|log| - 1]), log[|log| - 1].write))
  }

  predicate NoDelete(log: Log) { forall i :: 0 <= i < |log| ==> !log[i].write.Delete? }

  lemma {:induction false} CleanPrefix(a: Log, b: Log)
    requires Clean(a + b) && NoDelete(b)
    ensures Clean(a)
    ensures b != [] ==> Fold(a + b).Some?
  {
    if b == [] {
      assert a + b == a;
    } else {
      assert (a + b)[..|a + b| - 1] == a + b[..|b| - 1];
      assert (a + b)[|a + b| - 1] == b[|b| - 1];
      CleanPrefix(a, b[..|b| - 1]);
    }
  }

  /** Legality and the pin after a write depend on the pin before it. */
  lemma PinDecides(x: Option<Row>, y: Option<Row>, w: Write)
    requires Pin(x) == Pin(y)
    ensures Legal(x, w) <==> Legal(y, w)
    ensures Legal(x, w) ==> Pin(Apply(x, w)) == Pin(Apply(y, w))
  {
  }

  /** What sits above two logs with the same pin stays legal and leaves the same pin. */
  lemma {:induction false} PinCarries(a: Log, a': Log, b: Log)
    requires Clean(a + b) && NoDelete(b)
    requires Clean(a') && Pin(Fold(a)) == Pin(Fold(a'))
    ensures Clean(a' + b) && Pin(Fold(a' + b)) == Pin(Fold(a + b))
  {
    if b == [] {
      assert a + b == a && a' + b == a';
    } else {
      var init, last := b[..|b| - 1], b[|b| - 1];
      assert (a + b)[..|a + b| - 1] == a + init && (a' + b)[..|a' + b| - 1] == a' + init;
      assert (a + b)[|a + b| - 1] == last && (a' + b)[|a' + b| - 1] == last;
      PinCarries(a, a', init);
      PinDecides(Fold(a + init), Fold(a' + init), last.write);
    }
  }

  /** From the last delete on, what is below it does not matter. */
  lemma {:induction false} DeleteCarries(a: Log, a': Log, b: Log)
    requires Clean(a + b) && !NoDelete(b)
    ensures Clean(a' + b) && Fold(a' + b) == Fold(a + b)
  {
    var init, last := b[..|b| - 1], b[|b| - 1];
    assert (a + b)[..|a + b| - 1] == a + init && (a' + b)[..|a' + b| - 1] == a' + init;
    assert (a + b)[|a + b| - 1] == last && (a' + b)[|a' + b| - 1] == last;
    if !last.write.Delete? {
      var i :| 0 <= i < |b| && b[i].write.Delete?;
      assert init[i].write.Delete?;
      DeleteCarries(a, a', init);
    }
  }

  ghost predicate DeletedAfter(log: Log, t: nat) {
    exists i :: 0 <= i < |log| && t < log[i].at && log[i].write.Delete?
  }

  /** What a staged attempt may rely on at its commit: it is a first pair (confirmed then), a delete timed
      after it hides it, or the row before it in time still has the pin it was built on. */
  ghost predicate Grounded(log: Log, a: Attempt) {
    a.firstPair || DeletedAfter(log, a.at) || Pin(Fold(Before(log, a.at))) == Some(PinnedOf(a.row))
  }

  ghost predicate GoodLog(log: Log, clock: nat) {
    Ordered(log) && Clean(log) && forall i :: 0 <= i < |log| ==> log[i].at < clock
  }

  ghost predicate MayCommit(log: Log, a: Attempt) {
    && !PinnedOf(a.row).revoked && Fresh(log, a.at) && Grounded(log, a)
    && (a.firstPair ==> Fold(log).None?)
  }

  lemma SuffixDeletes(log: Log, k: nat)
    requires k <= |log|
    ensures NoDelete(log[k..]) <==> forall i :: k <= i < |log| ==> !log[i].write.Delete?
  {
    if NoDelete(log[k..]) {
      forall i | k <= i < |log| ensures !log[i].write.Delete? {
        assert log[k..][i - k] == log[i];
      }
    }
  }

  lemma DeleteSeen(log: Log, t: nat)
    requires Ordered(log) && Fresh(log, t)
    ensures Before(log, t) <= log
    ensures DeletedAfter(log, t) <==> !NoDelete(log[|Before(log, t)|..])
  {
    BeforeIsPrefix(log, t);
    SuffixDeletes(log, |Before(log, t)|);
  }

  /** A committed pairing never changes the key or lifts a revoke: the pin of an existing row stays, and an
      absent row either stays absent (the put is under a later delete) or gets the attempt's own pin. */
  lemma CommitKeepsPin(log: Log, a: Attempt, id: nat)
    requires Ordered(log) && Clean(log) && MayCommit(log, a)
    ensures
      var log' := Insert(log, Entry(a.at, Put(a.row), Request(id)));
      && Clean(log')
      && (Fold(log).Some? ==> Pin(Fold(log')) == Pin(Fold(log)))
      && (Fold(log).None? ==> Fold(log').None? || Pin(Fold(log')) == Some(PinnedOf(a.row)))
  {
    var put := Entry(a.at, Put(a.row), Request(id));
    DeleteSeen(log, a.at);
    InsertSplits(log, put);
    var b := Before(log, a.at);
    var above := log[|b|..];
    assert log == b + above;
    FoldAppend(b, put);
    assert (b + [put])[..|b|] == b;
    if DeletedAfter(log, a.at) {
      DeleteCarries(b, b + [put], above);
    } else {
      CleanPrefix(b, above);
      if a.firstPair {
        assert above == [];
        assert b + [put] + above == b + [put];
      } else {
        PinCarries(b, b + [put], above);
      }
    }
  }

  lemma DeleteStays(log: Log, e: Entry, t: nat)
    requires Ordered(log) && Fresh(log, e.at) && DeletedAfter(log, t)
    ensures DeletedAfter(Insert(log, e), t)
  {
    var i :| 0 <= i < |log| && t < log[i].at && log[i].write.Delete?;
    InsertMembers(log, e);
    assert log[i] in Insert(log, e);
    var j :| 0 <= j < |Insert(log, e)| && Insert(log, e)[j] == log[i];
  }

  /** A commit leaves every other staged attempt grounded. */
  lemma GroundedUnderCommit(log: Log, a: Attempt, id: nat, other: Attempt)
    requires Ordered(log) && Clean(log) && MayCommit(log, a)
    requires Fresh(log, other.at) && other.at != a.at && Grounded(log, other)
    ensures Grounded(Insert(log, Entry(a.at, Put(a.row), Request(id))), other)
  {
    var put := Entry(a.at, Put(a.row), Request(id));
    if other.firstPair {
    } else if DeletedAfter(log, other.at) {
      DeleteStays(log, put, other.at);
    } else {
      BeforeUnderInsert(log, put, other.at);
      if a.at < other.at {
        InsertSplits(log, put);
        DeleteSeen(log, other.at);
        GroundedLater(log, a, put, other, |Before(log, a.at)|, |Before(log, other.at)|);
      }
    }
  }

  lemma GroundedLater(log: Log, a: Attempt, put: Entry, other: Attempt, k: nat, n: nat)
    requires Ordered(log) && Clean(log) && MayCommit(log, a) && put.write == Put(a.row)
    requires k <= n <= |log| && Before(log, a.at) == log[..k] && NoDelete(log[n..])
    requires Pin(Fold(log[..n])) == Some(PinnedOf(other.row))
    ensures Pin(Fold(log[..k] + [put] + log[k..n])) == Some(PinnedOf(other.row))
  {
    Cut(log, k, n);
    GroundedAbove(log, a, put, other, log[..k], log[k..n], log[n..]);
  }

  lemma GroundedAbove(log: Log, a: Attempt, put: Entry, other: Attempt, b: Log, mid: Log, top: Log)
    requires Ordered(log) && Clean(log) && MayCommit(log, a) && put.write == Put(a.row)
    requires log == b + mid + top && Before(log, a.at) == b && NoDelete(top)
    requires Pin(Fold(b + mid)) == Some(PinnedOf(other.row))
    ensures Pin(Fold(b + [put] + mid)) == Some(PinnedOf(other.row))
  {
    if NoDelete(mid) {
      GroundNeeded(log, a, b, mid, top);
    }
    PinAbove(b, mid, top, put, PinnedOf(other.row));
  }

  lemma GroundNeeded(log: Log, a: Attempt, b: Log, mid: Log, top: Log)
    requires Ordered(log) && Clean(log) && MayCommit(log, a)
    requires log == b + mid + top && Before(log, a.at) == b && NoDelete(mid) && NoDelete(top)
    requires Fold(b + mid).Some?
    ensures Pin(Fold(b)) == Some(PinnedOf(a.row))
  {
    DeleteSeen(log, a.at);
    assert log[|b|..] == mid + top;
    NothingAbove(b + mid, top);
  }

  lemma NothingAbove(a: Log, top: Log)
    requires Clean(a + top) && NoDelete(top) && Fold(a).Some?
    ensures Fold(a + top).Some?
  {
    CleanPrefix(a, top);
    if top == [] { assert a + top == a; }
  }

  /** The row below another attempt keeps its pin when a put goes in further below. */
  lemma PinAbove(b: Log, mid: Log, top: Log, put: Entry, pin: Pinned)
    requires Clean(b + mid + top) && NoDelete(top)
    requires Pin(Fold(b + mid)) == Some(pin)
    requires put.write.Put? && !PinnedOf(put.write.row).revoked
    requires NoDelete(mid) ==> Pin(Fold(b)) == Some(PinnedOf(put.write.row))
    ensures Pin(Fold(b + [put] + mid)) == Some(pin)
  {
    CleanPrefix(b + mid, top);
    if NoDelete(mid) {
      CleanPrefix(b, mid);
      FoldAppend(b, put);
      assert (b + [put])[..|b|] == b;
      PinCarries(b, b + [put], mid);
    } else {
      DeleteCarries(b, b + [put], mid);
    }
  }

  // ---- Every reachable state ----

  /** A node before any pairing: any Peer rows and tokens. */
  ghost predicate Start(s: State) {
    && s.sessions == map[] && s.locks == map[] && s.consumes == {}
    && forall i :: i in s.peers ==>
         GoodLog(s.peers[i], s.clock) && forall e :: e in s.peers[i] ==> e.writer.Outside?
  }

  ghost predicate StagedOk(s: State, x: Session)
    requires x.phase.Staged?
  {
    var a, log := x.phase.attempt, PeerLog(s, x.pairing.instance);
    && a.at < s.clock && Fresh(log, a.at) && Grounded(log, a)
    && PinnedOf(a.row) == Pinned(Some(x.pairing.key), false)
    && Marker in a.row && a.row[Marker] == Number(a.at)
  }

  ghost predicate LogsInv(s: State) {
    && (forall i :: i in s.peers ==> GoodLog(s.peers[i], s.clock))
    && (forall id :: id in s.sessions && s.sessions[id].phase.Staged? ==> StagedOk(s, s.sessions[id]))
    && (forall id, other :: id in s.sessions && other in s.sessions && id != other
          && s.sessions[id].phase.Staged? && s.sessions[other].phase.Staged?
          ==> s.sessions[id].phase.attempt.at != s.sessions[other].phase.attempt.at)
  }

  predicate Holds(p: Phase) { p.Locked? || p.Staged? || p.Committed? || p.Closing? }

  predicate HasCommitted(p: Phase) { p.Committed? || p.ReadBack? || p == Answered(Answer.Paired) || p == Answered(Unconfirmed) }

  /** The lock excludes: a request past its lock is the token's only holder, and a staged consume is of a
      token nothing has consumed. */
  ghost predicate TokensInv(s: State) {
    && (forall id :: id in s.sessions && Holds(s.sessions[id].phase) && s.sessions[id].pairing.token.Some? ==>
          s.sessions[id].pairing.token.value in s.locks && s.locks[s.sessions[id].pairing.token.value] == id)
    && (forall id :: id in s.sessions && s.sessions[id].phase.Staged? && s.sessions[id].pairing.token.Some? ==>
          s.sessions[id].pairing.token.value in s.tokens && s.tokens[s.sessions[id].pairing.token.value].None?)
    && (forall c :: c in s.consumes ==> c.token in s.tokens && s.tokens[c.token] == Some(c))
  }

  /** A committed Peer put and its request, and the consume it came with. */
  ghost predicate PutAccounted(s: State, instance: nat, e: Entry) {
    e.writer.Request? ==>
      && e.writer.id in s.sessions && HasCommitted(s.sessions[e.writer.id].phase)
      && s.sessions[e.writer.id].pairing.instance == instance
      && e.write.Put? && Marker in e.write.row && e.write.row[Marker] == Number(e.at)
      && (s.sessions[e.writer.id].pairing.token.Some? ==>
            Consume(s.sessions[e.writer.id].pairing.token.value, instance, e.writer.id, e.at) in s.consumes)
  }

  ghost predicate ConsumeAccounted(s: State, c: Consume) {
    && c.request in s.sessions && HasCommitted(s.sessions[c.request].phase)
    && s.sessions[c.request].pairing.token == Some(c.token)
    && exists e :: e in PeerLog(s, c.instance) && e.at == c.marker && e.writer == Request(c.request)
  }

  ghost predicate CommitsInv(s: State) {
    && (forall i, e :: i in s.peers && e in s.peers[i] ==> PutAccounted(s, i, e))
    && (forall c :: c in s.consumes ==> ConsumeAccounted(s, c))
  }

  ghost predicate Inv(s: State) { LogsInv(s) && TokensInv(s) && CommitsInv(s) }

  // Logs

  lemma AppendKeepsGrounded(log: Log, e: Entry, a: Attempt)
    requires Ordered(log) && Fresh(log, a.at) && Grounded(log, a) && a.at < e.at
    requires forall i :: 0 <= i < |log| ==> log[i].at < e.at
    ensures Insert(log, e) == log + [e] && Grounded(log + [e], a)
  {
    AppendLatest(log, e);
    BeforeAppend(log, e, a.at);
    if DeletedAfter(log, a.at) {
      DeleteStays(log, e, a.at);
    }
  }

  lemma AppendKeepsGood(log: Log, e: Entry)
    requires GoodLog(log, e.at) && Legal(Fold(log), e.write)
    ensures Insert(log, e) == log + [e] && GoodLog(log + [e], e.at + 1)
  {
    AppendLatest(log, e);
    assert (log + [e])[..|log|] == log;
  }

  lemma LogsOutside(s: State, instance: nat, w: Write)
    requires LogsInv(s) && (Peer(s, instance).Some? ==> Legal(Peer(s, instance), w))
    ensures LogsInv(OutsideStep(s, instance, w))
  {
    if Peer(s, instance).Some? {
      var e := Entry(s.clock, w, Outside);
      var s' := OutsideStep(s, instance, w);
      AppendKeepsGood(PeerLog(s, instance), e);
      forall id | id in s'.sessions && s'.sessions[id].phase.Staged?
        ensures StagedOk(s', s'.sessions[id])
      {
        assert StagedOk(s, s.sessions[id]);
        if s.sessions[id].pairing.instance == instance {
          AppendKeepsGrounded(PeerLog(s, instance), e, s.sessions[id].phase.attempt);
        }
      }
    }
  }

  /** A step that writes no row and stages nothing. */
  lemma LogsFrame(s: State, s': State)
    requires LogsInv(s) && s'.peers == s.peers && s'.clock == s.clock
    requires forall id :: id in s'.sessions && s'.sessions[id].phase.Staged? ==>
      id in s.sessions && s'.sessions[id] == s.sessions[id]
    ensures LogsInv(s')
  {
    forall id | id in s'.sessions && s'.sessions[id].phase.Staged?
      ensures StagedOk(s', s'.sessions[id])
    {
      assert StagedOk(s, s.sessions[id]);
    }
  }

  /** What the owned re-read decides is grounded in what it read. */
  lemma DecideGrounded(log: Log, p: Pairing, route: Route, clock: nat)
    requires GoodLog(log, clock) && Decide(Fold(log), p, route, clock).Some?
    ensures
      var a := Decide(Fold(log), p, route, clock).value;
      && a.at == clock && Fresh(log, clock) && Grounded(log, a)
      && PinnedOf(a.row) == Pinned(Some(p.key), false)
      && Marker in a.row && a.row[Marker] == Number(a.at)
  {
    AppendLatest(log, Entry(clock, Delete, Outside));
  }

  lemma LogsStaged(s: State, s': State, id: nat, a: Attempt)
    requires LogsInv(s) && id in s.sessions && s'.peers == s.peers && s'.clock == s.clock + 1 && a.at == s.clock
    requires s'.sessions == s.sessions[id := s.sessions[id].(phase := Staged(a))]
    requires StagedOk(s', s'.sessions[id])
    ensures LogsInv(s')
  {
    forall other | other in s'.sessions && s'.sessions[other].phase.Staged?
      ensures StagedOk(s', s'.sessions[other]) && (other != id ==> s'.sessions[other].phase.attempt.at < a.at)
    {
      if other != id { assert StagedOk(s, s.sessions[other]); }
    }
  }

  lemma LogsStage(s: State, id: nat, usable: bool)
    requires LogsInv(s)
    ensures LogsInv(Step(s, Stage(id, usable)))
  {
    var s' := Step(s, Stage(id, usable));
    if id in s.sessions && s.sessions[id].phase.Locked? && s'.sessions[id].phase.Staged? {
      var p := s.sessions[id].pairing;
      DecideGrounded(PeerLog(s, p.instance), p, s.sessions[id].route, s.clock);
      LogsStaged(s, s', id, s'.sessions[id].phase.attempt);
    } else {
      LogsFrame(s, s');
    }
  }

  /** What a landed commit changes. */
  ghost predicate Landed(s: State, s': State, id: nat) {
    && id in s.sessions && s.sessions[id].phase.Staged?
    && var x := s.sessions[id];
    && var a := x.phase.attempt;
    && (a.firstPair ==> Peer(s, x.pairing.instance).None?)
    && s'.clock == s.clock
    && s'.peers == s.peers[x.pairing.instance := Insert(PeerLog(s, x.pairing.instance), Entry(a.at, Put(a.row), Request(id)))]
    && s'.sessions == s.sessions[id := x.(phase := Committed(a))]
    && s'.consumes == s.consumes
         + (if x.pairing.token.Some? then {Consume(x.pairing.token.value, x.pairing.instance, id, a.at)} else {})
  }

  /** A commit lands, or it leaves every row and consume alone. */
  lemma CommitLands(s: State, id: nat)
    ensures
      var s' := Step(s, Commit(id));
      Landed(s, s', id)
      || (s'.peers == s.peers && s'.clock == s.clock && s'.consumes == s.consumes && s'.tokens == s.tokens
          && (s' == s || (id in s.sessions && s.sessions[id].phase.Staged?
                          && s'.sessions == s.sessions[id := s.sessions[id].(phase := Closing)])))
  {
  }

  lemma CommitKeepsGood(log: Log, a: Attempt, id: nat, clock: nat)
    requires GoodLog(log, clock) && MayCommit(log, a) && a.at < clock
    ensures GoodLog(Insert(log, Entry(a.at, Put(a.row), Request(id))), clock)
  {
    var put := Entry(a.at, Put(a.row), Request(id));
    CommitKeepsPin(log, a, id);
    InsertOrdered(log, put);
    TimesOfInsert(log, put);
  }

  lemma CommitKeepsFresh(log: Log, put: Entry, t: nat)
    requires Ordered(log) && Fresh(log, put.at) && Fresh(log, t) && t != put.at
    ensures Fresh(Insert(log, put), t)
  {
    TimesOfInsert(log, put);
  }

  lemma StagedUnderCommit(s: State, s': State, id: nat, other: nat)
    requires LogsInv(s) && Landed(s, s', id)
    requires id != other && other in s.sessions && s.sessions[other].phase.Staged?
    ensures StagedOk(s', s.sessions[other])
  {
    var p, a, o := s.sessions[id].pairing, s.sessions[id].phase.attempt, s.sessions[other];
    assert StagedOk(s, s.sessions[id]) && StagedOk(s, o);
    if o.pairing.instance == p.instance {
      var log := PeerLog(s, p.instance);
      GroundedUnderCommit(log, a, id, o.phase.attempt);
      CommitKeepsFresh(log, Entry(a.at, Put(a.row), Request(id)), o.phase.attempt.at);
    } else {
      assert PeerLog(s', o.pairing.instance) == PeerLog(s, o.pairing.instance);
    }
  }

  /** A log replaced by a good one under which every other staged attempt stands. */
  lemma LogsReplaced(s: State, s': State, instance: nat, log: Log)
    requires LogsInv(s) && s'.clock == s.clock && s'.peers == s.peers[instance := log] && GoodLog(log, s.clock)
    requires forall other :: other in s'.sessions && s'.sessions[other].phase.Staged? ==>
      other in s.sessions && s'.sessions[other] == s.sessions[other] && StagedOk(s', s'.sessions[other])
    ensures LogsInv(s')
  {
  }

  lemma LogsLanded(s: State, s': State, id: nat)
    requires LogsInv(s) && Landed(s, s', id)
    requires GoodLog(s'.peers[s.sessions[id].pairing.instance], s.clock)
    ensures LogsInv(s')
  {
    var instance := s.sessions[id].pairing.instance;
    forall other | other in s'.sessions && s'.sessions[other].phase.Staged?
      ensures other in s.sessions && s'.sessions[other] == s.sessions[other] && StagedOk(s', s'.sessions[other])
    {
      StagedUnderCommit(s, s', id, other);
    }
    LogsReplaced(s, s', instance, s'.peers[instance]);
  }

  lemma LogsCommit(s: State, id: nat)
    requires LogsInv(s)
    ensures LogsInv(Step(s, Commit(id)))
  {
    var s' := Step(s, Commit(id));
    CommitLands(s, id);
    if Landed(s, s', id) {
      LandedGood(s, id);
      LogsLanded(s, s', id);
    } else {
      LogsFrame(s, s');
    }
  }

  lemma LandedGood(s: State, id: nat)
    requires LogsInv(s) && id in s.sessions && s.sessions[id].phase.Staged?
    requires s.sessions[id].phase.attempt.firstPair ==> Peer(s, s.sessions[id].pairing.instance).None?
    ensures
      var x := s.sessions[id];
      GoodLog(Insert(PeerLog(s, x.pairing.instance), Entry(x.phase.attempt.at, Put(x.phase.attempt.row), Request(id))), s.clock)
  {
    assert StagedOk(s, s.sessions[id]);
    CommitKeepsGood(PeerLog(s, s.sessions[id].pairing.instance), s.sessions[id].phase.attempt, id, s.clock);
  }

  lemma LogsStep(s: State, e: Event)
    requires LogsInv(s)
    ensures LogsInv(Step(s, e))
  {
    match e
    case Stage(id, usable) => LogsStage(s, id, usable);
    case Commit(id) => LogsCommit(s, id);
    case RevokePeer(instance) => LogsOutside(s, instance, Update(map[Status := Word(Revoked)]));
    case EditPeer(instance, patch) =>
      if PublicKey !in patch && Status !in patch { LogsOutside(s, instance, Update(patch)); }
    case DeletePeer(instance) => LogsOutside(s, instance, Delete);
    case _ => LogsQuiet(s, e);
  }

  lemma LogsQuiet(s: State, e: Event)
    requires LogsInv(s) && WritesNothing(e) && !e.Stage?
    ensures LogsInv(Step(s, e))
  {
    QuietPhase(s, e);
    QuietStep(s, e);
    LogsFrame(s, Step(s, e));
  }

  lemma QuietPhase(s: State, e: Event)
    requires WritesNothing(e) && !e.Stage?
    ensures Step(s, e).clock == s.clock
    ensures e.id in Step(s, e).sessions && Step(s, e).sessions[e.id].phase.Staged? ==>
      e.id in s.sessions && Step(s, e).sessions[e.id] == s.sessions[e.id]
  {
  }

  // Tokens

  predicate WritesNothing(e: Event) { !e.Commit? && !e.RevokePeer? && !e.EditPeer? && !e.DeletePeer? }

  /** A step that is no commit touches one session and no row. */
  ghost predicate Quiet(s: State, s': State, id: nat) {
    && s'.peers == s.peers && s'.tokens == s.tokens && s'.consumes == s.consumes
    && s'.sessions.Keys - {id} == s.sessions.Keys - {id}
    && (forall other :: other in s.sessions && other != id ==>
          other in s'.sessions && s'.sessions[other] == s.sessions[other])
    && (id in s.sessions ==>
          && id in s'.sessions && s'.sessions[id].pairing == s.sessions[id].pairing
          && (HasCommitted(s.sessions[id].phase) ==> HasCommitted(s'.sessions[id].phase)))
  }

  lemma QuietAsking(s: State, e: Event)
    requires e.Arrive? || e.Lock? || e.Busy?
    ensures Quiet(s, Step(s, e), e.id)
  {
  }

  lemma QuietDeciding(s: State, e: Event)
    requires e.Stage? || e.Fail?
    ensures Quiet(s, Step(s, e), e.id)
  {
  }

  lemma QuietEnding(s: State, e: Event)
    requires e.Release? || e.Confirm?
    ensures Quiet(s, Step(s, e), e.id)
  {
  }

  lemma QuietStep(s: State, e: Event)
    requires WritesNothing(e)
    ensures Quiet(s, Step(s, e), e.id)
  {
    match e
    case Arrive(_, _) => QuietAsking(s, e);
    case Lock(_) => QuietAsking(s, e);
    case Busy(_) => QuietAsking(s, e);
    case Stage(_, _) => QuietDeciding(s, e);
    case Fail(_) => QuietDeciding(s, e);
    case Release(_) => QuietEnding(s, e);
    case Confirm(_) => QuietEnding(s, e);
  }

  lemma OutsideQuiet(s: State, instance: nat, w: Write)
    ensures
      var s' := OutsideStep(s, instance, w);
      s'.tokens == s.tokens && s'.consumes == s.consumes && s'.sessions == s.sessions && s'.locks == s.locks
  {
  }

  lemma TokensStep(s: State, e: Event)
    requires TokensInv(s)
    ensures TokensInv(Step(s, e))
  {
    match e
    case Commit(id) => TokensCommit(s, id);
    case Release(id) => TokensRelease(s, id);
    case Lock(id) => TokensLock(s, id);
    case Stage(id, usable) => TokensStage(s, id, usable);
    case RevokePeer(instance) => OutsideQuiet(s, instance, Update(map[Status := Word(Revoked)]));
    case EditPeer(instance, patch) => OutsideQuiet(s, instance, Update(patch));
    case DeletePeer(instance) => OutsideQuiet(s, instance, Delete);
    case _ => TokensOther(s, e);
  }

  lemma TokensOther(s: State, e: Event)
    requires TokensInv(s) && (e.Arrive? || e.Busy? || e.Fail? || e.Confirm?)
    ensures TokensInv(Step(s, e))
  {
    QuietStep(s, e);
    var s' := Step(s, e);
    assert s'.locks == s.locks;
    assert s' == s || (e.id in s'.sessions && !s'.sessions[e.id].phase.Staged?
      && (Holds(s'.sessions[e.id].phase) ==> e.id in s.sessions && Holds(s.sessions[e.id].phase)));
  }

  lemma TokensLock(s: State, id: nat)
    requires TokensInv(s)
    ensures TokensInv(Step(s, Lock(id)))
  {
  }

  lemma TokensStage(s: State, id: nat, usable: bool)
    requires TokensInv(s)
    ensures TokensInv(Step(s, Stage(id, usable)))
  {
  }

  lemma TokensRelease(s: State, id: nat)
    requires TokensInv(s)
    ensures TokensInv(Step(s, Release(id)))
  {
  }

  lemma TokensCommit(s: State, id: nat)
    requires TokensInv(s)
    ensures TokensInv(Step(s, Commit(id)))
  {
    var s' := Step(s, Commit(id));
    if id in s.sessions && s.sessions[id].phase.Staged? && s.sessions[id].pairing.token.Some? {
      var token := s.sessions[id].pairing.token.value;
      forall other | other in s'.sessions && s'.sessions[other].phase.Staged? && s'.sessions[other].pairing.token.Some?
        ensures s'.sessions[other].pairing.token.value in s'.tokens
        ensures s'.tokens[s'.sessions[other].pairing.token.value].None?
      {
        assert s.sessions[other] == s'.sessions[other] && s.locks[token] == id;
        assert s.locks[s.sessions[other].pairing.token.value] == other;
      }
    }
  }

  // Commits

  /** A step that writes nothing and takes nobody back before their commit keeps the accounts. */
  lemma CommitsQuiet(s: State, s': State)
    requires CommitsInv(s) && s'.consumes == s.consumes
    requires forall i :: i in s'.peers ==> forall e :: e in s'.peers[i] ==> e.writer.Outside? || e in PeerLog(s, i)
    requires forall i :: i in s.peers ==> i in s'.peers && forall e :: e in s.peers[i] ==> e in s'.peers[i]
    requires forall id :: id in s.sessions ==>
      && id in s'.sessions && s'.sessions[id].pairing == s.sessions[id].pairing
      && (HasCommitted(s.sessions[id].phase) ==> HasCommitted(s'.sessions[id].phase))
    ensures CommitsInv(s')
  {
    forall i, e | i in s'.peers && e in s'.peers[i] ensures PutAccounted(s', i, e) {
      if e.writer.Request? { assert PutAccounted(s, i, e); }
    }
    forall c | c in s'.consumes ensures ConsumeAccounted(s', c) {
      assert ConsumeAccounted(s, c);
      var e :| e in PeerLog(s, c.instance) && e.at == c.marker && e.writer == Request(c.request);
      assert e in PeerLog(s', c.instance);
    }
  }

  lemma CommitsOutside(s: State, instance: nat, w: Write)
    requires LogsInv(s) && CommitsInv(s)
    ensures CommitsInv(OutsideStep(s, instance, w))
  {
    if Peer(s, instance).Some? {
      AppendLatest(s.peers[instance], Entry(s.clock, w, Outside));
      CommitsQuiet(s, OutsideStep(s, instance, w));
    }
  }

  lemma CommitsCommit(s: State, id: nat)
    requires LogsInv(s) && CommitsInv(s)
    ensures CommitsInv(Step(s, Commit(id)))
  {
    CommitLands(s, id);
    if Landed(s, Step(s, Commit(id)), id) {
      CommitsWritten(s, Step(s, Commit(id)), id);
    } else {
      CommitsQuiet(s, Step(s, Commit(id)));
    }
  }

  lemma CommitsWritten(s: State, s': State, id: nat)
    requires LogsInv(s) && CommitsInv(s) && Landed(s, s', id)
    ensures CommitsInv(s')
  {
    var x := s.sessions[id];
    assert StagedOk(s, x);
    var put := Entry(x.phase.attempt.at, Put(x.phase.attempt.row), Request(id));
    assert Ordered(PeerLog(s, x.pairing.instance)) by { LogOrdered(s, x.pairing.instance); }
    EntriesGrow(s, s', x.pairing.instance, put);
    assert PutAccounted(s', x.pairing.instance, put);
    CommitsGrow(s, s', id, put, x.pairing.instance);
  }

  lemma LogOrdered(s: State, instance: nat)
    requires LogsInv(s)
    ensures Ordered(PeerLog(s, instance))
  {
    assert instance in s.peers ==> GoodLog(s.peers[instance], s.clock);
  }

  lemma EntriesGrow(s: State, s': State, instance: nat, put: Entry)
    requires Ordered(PeerLog(s, instance)) && Fresh(PeerLog(s, instance), put.at)
    requires s'.peers == s.peers[instance := Insert(PeerLog(s, instance), put)]
    ensures put in PeerLog(s', instance)
    ensures forall i, e :: i in s'.peers && e in s'.peers[i] ==> (e == put && i == instance) || e in PeerLog(s, i)
    ensures forall i, e :: e in PeerLog(s, i) ==> e in PeerLog(s', i)
  {
    InsertMembers(PeerLog(s, instance), put);
  }

  lemma CommitsGrow(s: State, s': State, id: nat, put: Entry, instance: nat)
    requires CommitsInv(s) && PutAccounted(s', instance, put) && put in PeerLog(s', instance)
    requires put.writer == Request(id)
    requires forall i, e :: i in s'.peers && e in s'.peers[i] ==> (e == put && i == instance) || e in PeerLog(s, i)
    requires forall i, e :: e in PeerLog(s, i) ==> e in PeerLog(s', i)
    requires forall x :: x in s.sessions ==>
      && x in s'.sessions && s'.sessions[x].pairing == s.sessions[x].pairing
      && (HasCommitted(s.sessions[x].phase) ==> HasCommitted(s'.sessions[x].phase))
    requires s.consumes <= s'.consumes
    requires forall c :: c in s'.consumes && c !in s.consumes ==>
      && c.request == id && c.instance == instance && c.marker == put.at
      && s'.sessions[id].pairing.token == Some(c.token)
    ensures CommitsInv(s')
  {
    forall i, e | i in s'.peers && e in s'.peers[i] ensures PutAccounted(s', i, e) {
      if e != put || i != instance { assert i in s.peers && PutAccounted(s, i, e); }
    }
    forall c | c in s'.consumes ensures ConsumeAccounted(s', c) {
      if c in s.consumes { ConsumeStays(s, s', c); }
    }
  }

  lemma ConsumeStays(s: State, s': State, c: Consume)
    requires ConsumeAccounted(s, c)
    requires forall e :: e in PeerLog(s, c.instance) ==> e in PeerLog(s', c.instance)
    requires c.request in s'.sessions && s'.sessions[c.request].pairing == s.sessions[c.request].pairing
    requires HasCommitted(s'.sessions[c.request].phase)
    ensures ConsumeAccounted(s', c)
  {
    var e :| e in PeerLog(s, c.instance) && e.at == c.marker && e.writer == Request(c.request);
    assert e in PeerLog(s', c.instance);
  }

  lemma CommitsNothing(s: State, e: Event)
    requires CommitsInv(s) && WritesNothing(e)
    ensures CommitsInv(Step(s, e))
  {
    QuietStep(s, e);
    CommitsQuiet(s, Step(s, e));
  }

  lemma CommitsStep(s: State, e: Event)
    requires LogsInv(s) && CommitsInv(s)
    ensures CommitsInv(Step(s, e))
  {
    match e
    case Commit(id) => CommitsCommit(s, id);
    case RevokePeer(instance) => CommitsOutside(s, instance, Update(map[Status := Word(Revoked)]));
    case EditPeer(instance, patch) =>
      if PublicKey !in patch && Status !in patch { CommitsOutside(s, instance, Update(patch)); }
    case DeletePeer(instance) => CommitsOutside(s, instance, Delete);
    case _ => CommitsNothing(s, e);
  }

  lemma {:induction false} InvAlways(s: State, events: seq<Event>)
    requires Start(s)
    ensures Inv(Run(s, events))
  {
    if events == [] {
      forall i, e | i in s.peers && e in s.peers[i] ensures PutAccounted(s, i, e) { }
    } else {
      var init, last := events[..|events| - 1], events[|events| - 1];
      InvAlways(s, init);
      LogsStep(Run(s, init), last);
      TokensStep(Run(s, init), last);
      CommitsStep(Run(s, init), last);
    }
  }

  // ---- What pairing promises ----

  lemma PinStep(s: State, e: Event, instance: nat)
    requires LogsInv(s) && Peer(s, instance).Some? && e != DeletePeer(instance)
    ensures
      var was, now := Pin(Peer(s, instance)).value, Pin(Peer(Step(s, e), instance));
      now == Some(was.(revoked := was.revoked || e == RevokePeer(instance)))
  {
    if e.Commit? {
      PinCommit(s, e.id, instance);
    } else if WritesNothing(e) {
      QuietStep(s, e);
    } else {
      PinOperator(s, e, instance);
    }
  }

  lemma PinOperator(s: State, e: Event, instance: nat)
    requires LogsInv(s) && Peer(s, instance).Some? && (e.RevokePeer? || e.EditPeer? || e.DeletePeer?)
    requires e != DeletePeer(instance)
    ensures
      var was, now := Pin(Peer(s, instance)).value, Pin(Peer(Step(s, e), instance));
      now == Some(was.(revoked := was.revoked || e == RevokePeer(instance)))
  {
    match e
    case RevokePeer(i) => PinRevoke(s, i, instance);
    case EditPeer(i, patch) => PinEdit(s, i, patch, instance);
    case DeletePeer(i) => PinOutside(s, i, Delete, instance);
  }

  lemma PinRevoke(s: State, i: nat, instance: nat)
    requires LogsInv(s) && Peer(s, instance).Some?
    ensures
      var was, now := Pin(Peer(s, instance)).value, Pin(Peer(Step(s, RevokePeer(i)), instance));
      now == Some(was.(revoked := was.revoked || i == instance))
  {
    PinOutside(s, i, Update(map[Status := Word(Revoked)]), instance);
  }

  lemma PinEdit(s: State, i: nat, patch: Row, instance: nat)
    requires LogsInv(s) && Peer(s, instance).Some?
    ensures Pin(Peer(Step(s, EditPeer(i, patch)), instance)) == Pin(Peer(s, instance))
  {
    PinOutside(s, i, Update(patch), instance);
  }

  /** A commit touches the log of its own instance only. */
  lemma CommitLog(s: State, id: nat, instance: nat)
    ensures
      var s' := Step(s, Commit(id));
      PeerLog(s', instance) == PeerLog(s, instance)
      || (id in s.sessions && s.sessions[id].phase.Staged? && s.sessions[id].pairing.instance == instance
          && var a := s.sessions[id].phase.attempt;
          && !(a.firstPair && Peer(s, instance).Some?)
          && PeerLog(s', instance) == Insert(PeerLog(s, instance), Entry(a.at, Put(a.row), Request(id))))
  {
  }

  lemma PinCommit(s: State, id: nat, instance: nat)
    requires LogsInv(s) && Peer(s, instance).Some?
    ensures Pin(Peer(Step(s, Commit(id)), instance)) == Pin(Peer(s, instance))
  {
    CommitLog(s, id, instance);
    if PeerLog(Step(s, Commit(id)), instance) != PeerLog(s, instance) {
      assert StagedOk(s, s.sessions[id]);
      CommitKeepsPin(PeerLog(s, instance), s.sessions[id].phase.attempt, id);
    }
  }

  lemma PinOutside(s: State, i: nat, w: Write, instance: nat)
    requires LogsInv(s)
    ensures Peer(OutsideStep(s, i, w), instance)
         == if i == instance && Peer(s, i).Some? then Apply(Peer(s, i), w) else Peer(s, instance)
  {
    if i == instance && Peer(s, i).Some? {
      var e := Entry(s.clock, w, Outside);
      AppendLatest(PeerLog(s, i), e);
      FoldAppend(PeerLog(s, i), e);
    }
  }

  /** Until an operator deletes the row: however the pairings interleave and whenever they commit, the
      pinned key never changes, a revoked row stays revoked, and only an operator revokes. */
  lemma {:induction false} RevokeStandsAndKeyStays(s: State, before: seq<Event>, after: seq<Event>, instance: nat)
    requires Start(s) && Peer(Run(s, before), instance).Some?
    requires forall i :: 0 <= i < |after| ==> after[i] != DeletePeer(instance)
    ensures
      var was, now := Pin(Peer(Run(s, before), instance)).value, Pin(Peer(Run(s, before + after), instance));
      now == Some(was.(revoked := was.revoked || RevokePeer(instance) in after))
  {
    if after == [] {
      assert before + after == before;
    } else {
      var init, last := after[..|after| - 1], after[|after| - 1];
      assert (before + after)[..|before + after| - 1] == before + init;
      assert (before + after)[|before + after| - 1] == last;
      assert after == init + [last];
      RevokeStandsAndKeyStays(s, before, init, instance);
      InvAlways(s, before + init);
      PinStep(Run(s, before + init), last, instance);
    }
  }

  /** A token is consumed at most once, by whatever number of concurrent pairings. */
  lemma TokenConsumedOnce(s: State, events: seq<Event>, c: Consume, d: Consume)
    requires Start(s) && c in Run(s, events).consumes && d in Run(s, events).consumes && c.token == d.token
    ensures c == d
  {
    InvAlways(s, events);
  }

  lemma SpentStep(s: State, e: Event, token: nat)
    requires TokensInv(s) && token in s.tokens && s.tokens[token].Some?
    ensures token in Step(s, e).tokens && Step(s, e).tokens[token] == s.tokens[token]
    ensures forall c :: c in Step(s, e).consumes && c !in s.consumes ==> c.token != token
  {
    match e
    case Commit(id) =>
    case RevokePeer(i) => OutsideQuiet(s, i, Update(map[Status := Word(Revoked)]));
    case EditPeer(i, patch) => OutsideQuiet(s, i, Update(patch));
    case DeletePeer(i) => OutsideQuiet(s, i, Delete);
    case _ => QuietStep(s, e);
  }

  /** A token already consumed before the run is not consumed in it. */
  lemma {:induction false} SpentTokenStaysSpent(s: State, events: seq<Event>, token: nat)
    requires Start(s) && token in s.tokens && s.tokens[token].Some?
    ensures token in Run(s, events).tokens && Run(s, events).tokens[token] == s.tokens[token]
    ensures forall c :: c in Run(s, events).consumes ==> c.token != token
  {
    if events != [] {
      var init := events[..|events| - 1];
      SpentTokenStaysSpent(s, init, token);
      InvAlways(s, init);
      SpentStep(Run(s, init), events[|events| - 1], token);
    }
  }

  /** A consume and the Peer put with its marker are committed together: each consume has its put, and each
      put of a request that supplied a token has its consume. */
  lemma ConsumeExactlyWithPut(s: State, events: seq<Event>, id: nat, token: nat)
    requires Start(s) && id in Run(s, events).sessions
    requires Run(s, events).sessions[id].pairing.token == Some(token)
    ensures
      var t := Run(s, events);
      var i := t.sessions[id].pairing.instance;
      forall marker: nat ::
        Consume(token, i, id, marker) in t.consumes <==>
        exists e :: e in PeerLog(t, i) && e.writer == Request(id) && e.at == marker
                    && e.write.Put? && Marker in e.write.row && e.write.row[Marker] == Number(marker)
  {
    InvAlways(s, events);
    var t := Run(s, events);
    var i := t.sessions[id].pairing.instance;
    forall marker: nat | Consume(token, i, id, marker) in t.consumes
      ensures exists e :: e in PeerLog(t, i) && e.writer == Request(id) && e.at == marker
                    && e.write.Put? && Marker in e.write.row && e.write.row[Marker] == Number(marker)
    {
      assert ConsumeAccounted(t, Consume(token, i, id, marker));
      var e :| e in PeerLog(t, i) && e.at == marker && e.writer == Request(id);
      assert PutAccounted(t, i, e);
    }
    forall marker: nat, e | e in PeerLog(t, i) && e.writer == Request(id) && e.at == marker
      ensures Consume(token, i, id, marker) in t.consumes
    {
      assert PutAccounted(t, i, e);
    }
  }

  /** A refused request committed nothing: no Peer put and no consume. */
  lemma RefusedLeavesNothing(s: State, events: seq<Event>, id: nat)
    requires Start(s) && id in Run(s, events).sessions && Run(s, events).sessions[id].phase == Answered(Refused)
    ensures forall i, e :: i in Run(s, events).peers && e in Run(s, events).peers[i] ==> e.writer != Request(id)
    ensures forall c :: c in Run(s, events).consumes ==> c.request != id
  {
    InvAlways(s, events);
    var t := Run(s, events);
    forall i, e | i in t.peers && e in t.peers[i] ensures e.writer != Request(id) {
      assert PutAccounted(t, i, e);
    }
    forall c | c in t.consumes ensures c.request != id {
      assert ConsumeAccounted(t, c);
    }
  }

  ghost predicate CommitsConsume(s: State) {
    forall id :: id in s.sessions && HasCommitted(s.sessions[id].phase) && s.sessions[id].pairing.token.Some? ==>
      exists c :: c in s.consumes && c.request == id
  }

  lemma CommitsConsumeStep(s: State, e: Event)
    requires CommitsConsume(s)
    ensures CommitsConsume(Step(s, e))
  {
    var s' := Step(s, e);
    match e
    case Commit(id) =>
      if id in s.sessions && s'.sessions[id].phase.Committed? && s.sessions[id].phase.Staged?
        && s.sessions[id].pairing.token.Some?
      {
        var x := s.sessions[id];
        assert Consume(x.pairing.token.value, x.pairing.instance, id, x.phase.attempt.at) in s'.consumes;
      }
    case RevokePeer(i) => OutsideQuiet(s, i, Update(map[Status := Word(Revoked)]));
    case EditPeer(i, patch) => OutsideQuiet(s, i, Update(patch));
    case DeletePeer(i) => OutsideQuiet(s, i, Delete);
    case _ => ConsumeQuiet(s, e);
  }

  lemma ConsumeQuiet(s: State, e: Event)
    requires CommitsConsume(s) && WritesNothing(e)
    ensures CommitsConsume(Step(s, e))
  {
    QuietStep(s, e);
    assert e.id in Step(s, e).sessions && HasCommitted(Step(s, e).sessions[e.id].phase) ==>
      e.id in s.sessions && HasCommitted(s.sessions[e.id].phase);
  }

  lemma {:induction false} CommitsConsumeAlways(s: State, events: seq<Event>)
    requires Start(s)
    ensures CommitsConsume(Run(s, events))
  {
    if events != [] {
      CommitsConsumeAlways(s, events[..|events| - 1]);
      CommitsConsumeStep(Run(s, events[..|events| - 1]), events[|events| - 1]);
    }
  }

  /** Of all the requests that supply one token, at most one is answered paired, and a request whose outcome
      is unconfirmed excludes any other. */
  lemma OnePairedPerToken(s: State, events: seq<Event>, id: nat, other: nat)
    requires Start(s) && id in Run(s, events).sessions && other in Run(s, events).sessions
    requires
      var x, y := Run(s, events).sessions[id], Run(s, events).sessions[other];
      && x.pairing.token.Some? && y.pairing.token == x.pairing.token
      && x.phase == Answered(Answer.Paired) && (y.phase == Answered(Answer.Paired) || y.phase == Answered(Unconfirmed))
    ensures id == other
  {
    InvAlways(s, events);
    CommitsConsumeAlways(s, events);
    var t := Run(s, events);
    var c :| c in t.consumes && c.request == id;
    var d :| d in t.consumes && d.request == other;
    assert ConsumeAccounted(t, c) && ConsumeAccounted(t, d);
  }

  /** The row an attempt stages: a first pair's, or a row pinned to the proved key and paired again. */
  ghost predicate Built(a: Attempt, p: Pairing) {
    if a.firstPair then a.row == FirstPairRow(p, a.at)
    else exists base: Row :: a.row == RePairedRow(base, p, a.at) && PinnedOf(base) == Pinned(Some(p.key), false)
  }

  /** Every attempt, from its staging to its read-back, is for the key its request proved. */
  ghost predicate AttemptInv(x: Session) {
    x.phase.Staged? || x.phase.Committed? || x.phase.ReadBack? ==>
      var a := x.phase.attempt;
      && Built(a, x.pairing)
      && PublicKey in a.row && a.row[PublicKey] == x.pairing.key
      && Status in a.row && a.row[Status] == Word(Store.Paired)
      && Marker in a.row && a.row[Marker] == Number(a.at)
      && (x.pairing.endpoint.Some? ==> Endpoint in a.row && a.row[Endpoint] == x.pairing.endpoint.value)
  }

  ghost predicate ReadBacksInv(s: State) {
    forall id :: id in s.sessions ==> AttemptInv(s.sessions[id])
  }

  lemma DecideShapes(current: Option<Row>, p: Pairing, route: Route, at: nat)
    requires Decide(current, p, route, at).Some?
    ensures AttemptInv(Session(p, route, Staged(Decide(current, p, route, at).value)))
  {
  }

  lemma StageShapes(s: State, e: Event, id: nat)
    requires e.Stage? && id in s.sessions && AttemptInv(s.sessions[id])
    ensures AttemptInv(Step(s, e).sessions[id])
  {
    if id == e.id && Step(s, e).sessions[id].phase.Staged? && s.sessions[id].phase.Locked? {
      var x := s.sessions[id];
      DecideShapes(Peer(s, x.pairing.instance), x.pairing, x.route, s.clock);
    }
  }

  lemma CommitShapes(s: State, e: Event, id: nat)
    requires e.Commit? && id in s.sessions && AttemptInv(s.sessions[id])
    ensures AttemptInv(Step(s, e).sessions[id])
  {
    assert id != e.id ==> Step(s, e).sessions[id] == s.sessions[id];
  }

  lemma PhaseShapes(s: State, e: Event, id: nat)
    requires WritesNothing(e) && !e.Stage?
    requires id in Step(s, e).sessions && (id in s.sessions ==> AttemptInv(s.sessions[id]))
    ensures AttemptInv(Step(s, e).sessions[id])
  {
  }

  lemma ReadBacksSession(s: State, e: Event, id: nat)
    requires WritesNothing(e) || e.Commit?
    requires id in Step(s, e).sessions && (id in s.sessions ==> AttemptInv(s.sessions[id]))
    ensures AttemptInv(Step(s, e).sessions[id])
  {
    if e.Stage? { StageShapes(s, e, id); } else if e.Commit? { CommitShapes(s, e, id); } else { PhaseShapes(s, e, id); }
  }

  lemma ReadBacksStep(s: State, e: Event)
    requires ReadBacksInv(s)
    ensures ReadBacksInv(Step(s, e))
  {
    if WritesNothing(e) || e.Commit? {
      forall id | id in Step(s, e).sessions ensures AttemptInv(Step(s, e).sessions[id]) {
        ReadBacksSession(s, e, id);
      }
    } else {
      OutsideQuiet(s, e.instance, if e.DeletePeer? then Delete else if e.EditPeer? then Update(e.patch)
                                  else Update(map[Status := Word(Revoked)]));
    }
  }

  lemma {:induction false} ReadBacksAlways(s: State, events: seq<Event>)
    requires Start(s)
    ensures ReadBacksInv(Run(s, events))
  {
    if events != [] {
      ReadBacksAlways(s, events[..|events| - 1]);
      ReadBacksStep(Run(s, events[..|events| - 1]), events[|events| - 1]);
    }
  }

  /** A re-pair keeps every field of the row it re-read but the ones it sets. */
  lemma RePairKeeps(base: Row, p: Pairing, at: nat, f: Field)
    requires f !in {Status, UpdatedAt, Marker} && (f == Endpoint ==> p.endpoint.None?)
    ensures f in RePairedRow(base, p, at) <==> f in base
    ensures f in base ==> RePairedRow(base, p, at)[f] == base[f]
  {
  }

  /** A request answered paired: when it was, the stored Peer row was pinned to the key it proved, not
      revoked, and carried every field the request staged, its marker among them, and its token's row was
      consumed for this instance by this request at this attempt, and by nothing else. */
  lemma PairedMeans(s: State, events: seq<Event>, id: nat)
    requires Start(s) && id in Run(s, events).sessions && !Run(s, events).sessions[id].phase.Answered?
    requires Run(s, events + [Confirm(id)]).sessions[id].phase == Answered(Answer.Paired)
    ensures
      var t := Run(s, events);
      var p, stored := t.sessions[id].pairing, Peer(t, t.sessions[id].pairing.instance);
      && t.sessions[id].phase.ReadBack?
      && var a := t.sessions[id].phase.attempt;
      && Pin(stored) == Some(Pinned(Some(p.key), false))
      && Built(a, p) && a.row[Marker] == Number(a.at)
      && (forall f :: f in a.row ==> f in stored.value && stored.value[f] == a.row[f])
      && (p.token.Some? ==>
            var consume := Consume(p.token.value, p.instance, id, a.at);
            && p.token.value in t.tokens && t.tokens[p.token.value] == Some(consume)
            && forall c :: c in t.consumes && c.token == p.token.value ==> c == consume)
  {
    assert (events + [Confirm(id)])[..|events|] == events;
    InvAlways(s, events);
    ReadBacksAlways(s, events);
    var t := Run(s, events);
    var a, p := t.sessions[id].phase.attempt, t.sessions[id].pairing;
    assert Shown(t, id, p, a) && AttemptInv(t.sessions[id]);
    var row := Peer(t, p.instance).value;
    assert row[PublicKey] == a.row[PublicKey] && row[Status] == a.row[Status];
    assert TokensInv(t);
  }

  // ---- A request that nothing disturbs ----

  /** One whole request, with no other step between its own. */
  function Whole(s: State, id: nat, p: Pairing, tokenUsable: bool): State {
    var asked := Step(Step(s, Arrive(id, p)), Lock(id));
    var staged := Step(asked, Stage(id, tokenUsable));
    Step(Step(Step(staged, Commit(id)), Release(id)), Confirm(id))
  }

  /** A new peer must bring a token; a stored one its pinned key, and must not be revoked. */
  ghost predicate Welcome(stored: Option<Row>, p: Pairing) {
    if stored.None? then p.token.Some?
    else FieldOf(stored, PublicKey) == Some(p.key) && FieldOf(stored, Status) != Some(Word(Revoked))
  }

  /** A token, when one is supplied, is usable and unused. */
  ghost predicate TokenGood(s: State, p: Pairing, tokenUsable: bool) {
    p.token.Some? ==> tokenUsable && p.token.value in s.tokens && s.tokens[p.token.value].None?
  }

  /** What a paired row holds in a field. */
  ghost function PairedField(before: Option<Row>, p: Pairing, at: nat, f: Field): Option<Value> {
    if f == Status then Some(Word(Store.Paired))
    else if f == UpdatedAt then Some(Date(at))
    else if f == Marker then Some(Number(at))
    else if f == Endpoint && p.endpoint.Some? then p.endpoint
    else if before.Some? then FieldOf(before, f)
    else if f == Id then Some(Number(p.instance))
    else if f == PublicKey then Some(p.key)
    else if f == CreatedAt then Some(Date(at))
    else if f == Endpoint then Some(Null)
    else None
  }

  ghost predicate MayAsk(s: State, id: nat, p: Pairing) {
    id !in s.sessions && (p.token.Some? ==> p.token.value !in s.locks)
  }

  function RouteFor(s: State, p: Pairing): Route { if Peer(s, p.instance).None? then NewPeer else RePair }

  /** The request has its token's lock, or was refused at the read before the transaction. */
  lemma Asks(s: State, id: nat, p: Pairing)
    requires MayAsk(s, id, p)
    ensures
      var t := Step(Step(s, Arrive(id, p)), Lock(id));
      && t.peers == s.peers && t.tokens == s.tokens && t.clock == s.clock && id in t.sessions
      && t.sessions[id] == Session(p, RouteFor(s, p), if Welcome(Peer(s, p.instance), p) then Locked else Answered(Refused))
  {
  }

  lemma FirstPairFields(p: Pairing, at: nat, f: Field)
    ensures FieldOf(Some(FirstPairRow(p, at)), f) == PairedField(None, p, at, f)
  {
  }

  lemma RePairFields(base: Row, p: Pairing, at: nat, f: Field)
    ensures FieldOf(Some(RePairedRow(base, p, at)), f) == PairedField(Some(base), p, at, f)
  {
  }

  /** The staged row is the paired one. */
  lemma StagesPaired(current: Option<Row>, p: Pairing, at: nat, f: Field)
    requires Welcome(current, p)
    ensures
      var attempt := Decide(current, p, if current.None? then NewPeer else RePair, at);
      && attempt.Some? && attempt.value.at == at && attempt.value.firstPair == current.None?
      && FieldOf(Some(attempt.value.row), f) == PairedField(current, p, at, f)
  {
    if current.None? { FirstPairFields(p, at, f); } else { RePairFields(current.value, p, at, f); }
  }

  lemma Stages(s: State, id: nat, tokenUsable: bool)
    requires id in s.sessions && s.sessions[id].phase.Locked? && Welcome(Peer(s, s.sessions[id].pairing.instance), s.sessions[id].pairing)
    requires s.sessions[id].route == RouteFor(s, s.sessions[id].pairing)
    ensures
      var t, x := Step(s, Stage(id, tokenUsable)), s.sessions[id];
      && t.peers == s.peers && t.tokens == s.tokens && id in t.sessions
      && t.sessions[id] == x.(phase := if !TokenGood(s, x.pairing, tokenUsable) then Closing
                                       else Staged(Decide(Peer(s, x.pairing.instance), x.pairing, x.route, s.clock).value))
  {
  }

  lemma Refuses(s: State, id: nat)
    requires id in s.sessions && (s.sessions[id].phase.Closing? || s.sessions[id].phase == Answered(Refused))
    ensures
      var t := Step(Step(Step(s, Commit(id)), Release(id)), Confirm(id));
      t.peers == s.peers && t.tokens == s.tokens && id in t.sessions && t.sessions[id].phase == Answered(Refused)
  {
  }

  /** The attempt's commit is the latest write of its row, and stores it. */
  lemma CommitsLatest(s: State, id: nat)
    requires id in s.sessions && s.sessions[id].phase.Staged?
    requires
      var x := s.sessions[id];
      && (forall i :: 0 <= i < |PeerLog(s, x.pairing.instance)| ==> PeerLog(s, x.pairing.instance)[i].at < x.phase.attempt.at)
      && x.phase.attempt.firstPair == Peer(s, x.pairing.instance).None?
    ensures
      var t, p, a := Step(s, Commit(id)), s.sessions[id].pairing, s.sessions[id].phase.attempt;
      && id in t.sessions && t.sessions[id] == s.sessions[id].(phase := Committed(a))
      && Peer(t, p.instance) == Some(a.row)
      && t.tokens == if p.token.None? then s.tokens
                     else s.tokens[p.token.value := Some(Consume(p.token.value, p.instance, id, a.at))]
  {
    var p, a := s.sessions[id].pairing, s.sessions[id].phase.attempt;
    var e := Entry(a.at, Put(a.row), Request(id));
    AppendLatest(PeerLog(s, p.instance), e);
    FoldAppend(PeerLog(s, p.instance), e);
  }

  lemma AnswersPaired(s: State, id: nat)
    requires id in s.sessions && s.sessions[id].phase.Committed? && Shown(s, id, s.sessions[id].pairing, s.sessions[id].phase.attempt)
    ensures
      var t := Step(Step(s, Release(id)), Confirm(id));
      t.peers == s.peers && t.tokens == s.tokens && id in t.sessions && t.sessions[id].phase == Answered(Answer.Paired)
  {
  }

  /** Whatever ran before, a request that nothing disturbs is answered paired exactly when it is a new peer with a
      usable unused token, or a stored one that is not revoked, proves its pinned key, and supplies no token but such
      a one. It then leaves the paired row, field by field, and its token consumed; otherwise nothing. */
  lemma UndisturbedPairsExactly(s: State, events: seq<Event>, id: nat, p: Pairing, tokenUsable: bool, f: Field)
    requires Start(s) && MayAsk(Run(s, events), id, p)
    ensures
      var t := Run(s, events);
      var u, before := Whole(t, id, p, tokenUsable), Peer(t, p.instance);
      && id in u.sessions
      && if Welcome(before, p) && TokenGood(t, p, tokenUsable)
         then
           && u.sessions[id].phase == Answered(Answer.Paired)
           && Peer(u, p.instance).Some? && FieldOf(Peer(u, p.instance), f) == PairedField(before, p, t.clock, f)
           && u.tokens == if p.token.None? then t.tokens
                          else t.tokens[p.token.value := Some(Consume(p.token.value, p.instance, id, t.clock))]
         else u.sessions[id].phase == Answered(Refused) && u.peers == t.peers && u.tokens == t.tokens
  {
    InvAlways(s, events);
    var t := Run(s, events);
    Asks(t, id, p);
    var asked := Step(Step(t, Arrive(id, p)), Lock(id));
    if Welcome(Peer(t, p.instance), p) {
      Stages(asked, id, tokenUsable);
      var staged := Step(asked, Stage(id, tokenUsable));
      if TokenGood(t, p, tokenUsable) {
        StagesPaired(Peer(t, p.instance), p, t.clock, f);
        assert forall i :: 0 <= i < |PeerLog(t, p.instance)| ==> PeerLog(t, p.instance)[i].at < t.clock;
        CommitsLatest(staged, id);
        AnswersPaired(Step(staged, Commit(id)), id);
      } else {
        Refuses(staged, id);
      }
    } else {
      assert Step(asked, Stage(id, tokenUsable)) == asked;
      Refuses(asked, id);
    }
  }

  // ---- The sync's cursor put over the Peer row it read ----

  /** After a sync: the whole row read at its start, with the sync's own fields. */
  function CursorRow(base: Row, now: nat, lamport: Value, merged: bool): Row {
    (if merged then base[LastMergeAt := Date(now)] else base)
      [LastSyncAt := Date(now)][LastSyncCursor := lamport][Status := Word(Connected)][UpdatedAt := Date(now)]
  }

  ghost predicate CursorPut(w: Write, base: Row) {
    exists now, lamport, merged :: w == Put(CursorRow(base, now, lamport, merged))
  }

  lemma CursorPutPins(w: Write, base: Row)
    requires CursorPut(w, base)
    ensures w.Put? && PinnedOf(w.row) == PinnedOf(base).(revoked := false)
    ensures PinnedOf((w.row + map[Status := Word(Revoked)])) == PinnedOf(base).(revoked := true)
  {
  }

  /** Two writes timed after every write of a log, committed in either order. */
  function BothCommitted(log: Log, put: Entry, other: Entry, putFirst: bool): Log {
    if putFirst then Insert(Insert(log, put), other) else Insert(Insert(log, other), put)
  }

  lemma BothFold(log: Log, put: Entry, other: Entry, putFirst: bool)
    requires Ordered(log) && put.at != other.at
    requires forall i :: 0 <= i < |log| ==> log[i].at < put.at && log[i].at < other.at
    ensures Fold(BothCommitted(log, put, other, putFirst))
         == if put.at < other.at then Apply(Apply(Fold(log), put.write), other.write)
            else Apply(Apply(Fold(log), other.write), put.write)
  {
    InsertCommutes(log, put, other);
    if put.at < other.at { TwoLatest(log, put, other); } else { TwoLatest(log, other, put); }
  }

  lemma TwoLatest(log: Log, first: Entry, second: Entry)
    requires first.at < second.at && forall i :: 0 <= i < |log| ==> log[i].at < first.at
    ensures Fold(Insert(Insert(log, first), second)) == Apply(Apply(Fold(log), first.write), second.write)
  {
    AppendLatest(log, first);
    AppendLatest(log + [first], second);
    FoldAppend(log, first);
    FoldAppend(log + [first], second);
  }

  /** A revoke and the cursor put of a row read before either, whichever commits first: the revoke is stored
      exactly when the put's time is the earlier one. Otherwise the put brings back the row it read. */
  lemma RevokeStandsExactlyWhenLater(log: Log, base: Row, put: Entry, revoke: Entry, putFirst: bool)
    requires Ordered(log) && Fold(log) == Some(base) && put.at != revoke.at
    requires forall i :: 0 <= i < |log| ==> log[i].at < put.at && log[i].at < revoke.at
    requires revoke.write == Update(map[Status := Word(Revoked)]) && CursorPut(put.write, base)
    ensures Pin(Fold(BothCommitted(log, put, revoke, putFirst)))
         == Some(PinnedOf(base).(revoked := put.at < revoke.at))
  {
    BothFold(log, put, revoke, putFirst);
    CursorPutPins(put.write, base);
  }

  /** The same for a delete: the row is gone exactly when the put's time is the earlier one. */
  lemma DeleteStandsExactlyWhenLater(log: Log, base: Row, put: Entry, gone: Entry, putFirst: bool)
    requires Ordered(log) && Fold(log) == Some(base) && put.at != gone.at
    requires forall i :: 0 <= i < |log| ==> log[i].at < put.at && log[i].at < gone.at
    requires gone.write == Delete && CursorPut(put.write, base)
    ensures Fold(BothCommitted(log, put, gone, putFirst)).None? <==> put.at < gone.at
  {
    BothFold(log, put, gone, putFirst);
    CursorPutPins(put.write, base);
  }
}
