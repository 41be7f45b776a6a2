/** Registering an agent's first key: `pending` becomes the registered key, together with the registration's
    audit row and its event, in one transaction under the agent's lock. */
module KeyRegister {
  import opened Store
  import OneShot
  import WriteBack

  const Unset := Text("pending")

  /** One registration request: its agent, its key and the time it stages. */
  datatype Registration = Registration(agent: string, key: string, now: nat)

  predicate NonEmptyText(row: Row, f: Field) { f in row && row[f].Text? && row[f].s != "" }

  /** The row may be given its first key here: local, active, and its key exactly pending. */
  predicate Eligible(row: Row, self: string) {
    && !(NonEmptyText(row, Home) && row[Home] != Text(self))
    && !NonEmptyText(row, SyncedFrom) && !NonEmptyText(row, Other("_originatorInstanceId"))
    && (Status !in row || row[Status] == Text("active"))
    && PublicKey in row && row[PublicKey] == Unset
  }

  /** The incremental update a registration stages. */
  function KeyUpdate(r: Registration): Row { map[PublicKey := Text(r.key), UpdatedAt := Date(r.now)] }

  /** The read-back: the identity of the row read, and the two staged fields. */
  predicate Shows(row: Row, basis: Row, r: Registration) {
    WriteBack.Same(row, basis, WriteBack.IDENTITY) && WriteBack.Same(row, KeyUpdate(r), {PublicKey, UpdatedAt})
  }

  /** A text that is not empty, in a stored field. */
  ghost predicate Says(row: Row, f: Field, s: string) { s != "" && FieldOf(Some(row), f) == Some(Text(s)) }

  /** Which rows may be given a first key: those that no other instance is home to, that were not synced from
      another and have no other originator, with no status or the active one, and exactly the pending key. */
  lemma EligibleExactly(row: Row, self: string)
    ensures Eligible(row, self) <==>
      && (forall s :: Says(row, Home, s) ==> s == self)
      && (forall s :: !Says(row, SyncedFrom, s) && !Says(row, Other("_originatorInstanceId"), s))
      && FieldOf(Some(row), Status) in {None, Some(Text("active"))}
      && FieldOf(Some(row), PublicKey) == Some(Text("pending"))
  {
    assert forall f :: NonEmptyText(row, f) ==> Says(row, f, row[f].s);
    assert forall f, s :: Says(row, f, s) ==> NonEmptyText(row, f) && row[f] == Text(s);
  }

  /** A registration's read-back shows exactly its key and its time, on the row whose identity was read. */
  lemma ShownExactly(row: Row, basis: Row, r: Registration)
    ensures Shows(row, basis, r) <==>
      && FieldOf(Some(row), PublicKey) == Some(Text(r.key)) && FieldOf(Some(row), UpdatedAt) == Some(Date(r.now))
      && forall f :: f in {Id, AgentId, InstanceToken, ContentHash, CreatedAt} ==> WriteBack.Agree(row, basis, f)
  {
    WriteBack.SameExactly(row, basis, WriteBack.IDENTITY);
    assert PublicKey in KeyUpdate(r) && UpdatedAt in KeyUpdate(r);
  }

  function RegisterRule(self: string, requests: nat -> Registration): OneShot.Rule {
    OneShot.Rule(
      (row: Row) => Eligible(row, self),
      (row: Row, id: nat) => Update(KeyUpdate(requests(id))),
      true, (id: nat) => OneShot.Beside(requests(id).agent, requests(id).key),
      true, (row: Row, basis: Row, id: nat) => Shows(row, basis, requests(id)),
      (id: nat) => Date(requests(id).now))
  }

  /** A canonical Ed25519 key is never the pending placeholder; no two registrations stage one time. */
  ghost predicate Registrations(requests: nat -> Registration) {
    && (forall id: nat :: requests(id).key != "pending")
    && (forall id: nat, other: nat :: requests(id).now == requests(other).now ==> id == other)
  }

  lemma RegisterIsSound(self: string, requests: nat -> Registration)
    requires Registrations(requests)
    ensures OneShot.Sound(RegisterRule(self, requests))
  {
    forall row: Row, id: nat ensures !Eligible(row + KeyUpdate(requests(id)), self) { }
    forall row: Row, basis: Row, id: nat | Shows(row, basis, requests(id))
      ensures !Eligible(row, self) && FieldOf(Some(row), UpdatedAt) == Some(Date(requests(id).now))
    {
      assert PublicKey in KeyUpdate(requests(id)) && UpdatedAt in KeyUpdate(requests(id));
    }
  }

  ghost function RegisterRun(self: string, requests: nat -> Registration, start: Log, clock: nat,
                             events: seq<OneShot.Event>): OneShot.State
  {
    OneShot.Run(RegisterRule(self, requests), OneShot.Start(start, clock), events)
  }

  /** A registration that nothing disturbs is answered 200 exactly when the stored row is eligible. The row is then
      the stored one with the registered key and time, its audit row and event beside it; otherwise nothing. */
  lemma UndisturbedRegistersExactly(self: string, requests: nat -> Registration, start: Log, clock: nat,
                                    events: seq<OneShot.Event>, id: nat)
    requires Registrations(requests) && OneShot.GoodLog(start, clock)
    requires OneShot.MayCall(RegisterRun(self, requests, start, clock, events), id)
    ensures
      var s := RegisterRun(self, requests, start, clock, events);
      var t := OneShot.WholeCall(RegisterRule(self, requests), s, id);
      var before, after := OneShot.Stored(s), OneShot.Stored(t);
      && id in t.calls && t.calls[id].Answered?
      && (t.calls[id].ok <==> before.Some? && Eligible(before.value, self))
      && (t.calls[id].ok ==>
            && after == Some(before.value[PublicKey := Text(requests(id).key)][UpdatedAt := Date(requests(id).now)])
            && id in t.tables.audit && t.tables.audit[id] == OneShot.Beside(requests(id).agent, requests(id).key)
            && id in t.tables.events && t.tables.events[id] == t.tables.audit[id])
      && (!t.calls[id].ok ==> t.tables == s.tables)
  {
    RegisterIsSound(self, requests);
    RegistrationShowsItself(self, requests, id);
    OneShot.UndisturbedSucceedsExactly(RegisterRule(self, requests), start, clock, events, id);
    var before := OneShot.Stored(RegisterRun(self, requests, start, clock, events));
    if before.Some? { KeyedRow(before.value, requests(id)); }
  }

  lemma KeyedRow(row: Row, r: Registration)
    ensures Apply(Some(row), Update(KeyUpdate(r))) == Some(row[PublicKey := Text(r.key)][UpdatedAt := Date(r.now)])
  {
    assert row + KeyUpdate(r) == row[PublicKey := Text(r.key)][UpdatedAt := Date(r.now)];
  }

  lemma RegistrationShowsItself(self: string, requests: nat -> Registration, id: nat)
    ensures OneShot.ShowsItself(RegisterRule(self, requests), id)
  {
    forall row: Row ensures Shows(row + KeyUpdate(requests(id)), row, requests(id)) {
      assert PublicKey in KeyUpdate(requests(id)) && UpdatedAt in KeyUpdate(requests(id));
    }
  }

  /** Among any number of concurrent registrations of one agent, and whatever other writers write at whatever
      times, at most one is answered 200, plus one for each time another writer set the row back to an
      eligible pending one. */
  lemma OneRegistrationWins(self: string, requests: nat -> Registration, start: Log, clock: nat,
                            events: seq<OneShot.Event>)
    requires Registrations(requests) && OneShot.GoodLog(start, clock)
    ensures
      var t := RegisterRun(self, requests, start, clock, events);
      |t.oks| <= 1 + t.ledger.rearms
  {
    RegisterIsSound(self, requests);
    OneShot.SingleWinner(RegisterRule(self, requests), start, clock, events);
  }

  /** A registration's commit leaves the row pending exactly when a write timed after it, committed before
      it, decides the key: such a write restored the pending row, which the confirmation does not see. */
  lemma CommitHiddenExactly(self: string, log: Log, at: nat, r: Registration, id: nat)
    requires Ordered(log) && Fresh(log, at) && r.key != "pending"
    requires Fold(log).Some? && Eligible(Fold(log).value, self)
    ensures
      var after := Fold(Insert(log, Entry(at, Update(KeyUpdate(r)), Request(id))));
      && after.Some?
      && (Eligible(after.value, self) <==> DecidedAfter(log, at, PublicKey))
      && (!Eligible(after.value, self) <==> FieldOf(after, PublicKey) == Some(Text(r.key)))
  {
    var e := Entry(at, Update(KeyUpdate(r)), Request(id));
    PresentAfterCommit(log, e);
    FieldUnderCommit(log, e, PublicKey);
    FieldUnderCommit(log, e, Home);
    FieldUnderCommit(log, e, SyncedFrom);
    FieldUnderCommit(log, e, Other("_originatorInstanceId"));
    FieldUnderCommit(log, e, Status);
  }

  /** Such a run: the row is changed and put back, after the registration's read and before its commit. */
  lemma RestoredRowHidesRegistration(self: string, row: Row, changed: Row, r: Registration, id: nat)
    requires Eligible(row, self)
    ensures
      var read := [Entry(0, Put(row), Outside)];
      var confirmed := [Entry(0, Put(row), Outside), Entry(5, Put(changed), Outside), Entry(6, Put(row), Outside)];
      && Fold(read) == Fold(confirmed) == Some(row)
      && Fold(Insert(confirmed, Entry(4, Update(KeyUpdate(r)), Request(id)))) == Some(row)
  {
    var read := [Entry(0, Put(row), Outside)];
    var two := read + [Entry(5, Put(changed), Outside)];
    var confirmed := two + [Entry(6, Put(row), Outside)];
    FoldAppend([], read[0]);
    FoldAppend(two, confirmed[2]);
    assert [] + [read[0]] == read;
    assert confirmed == [Entry(0, Put(row), Outside), Entry(5, Put(changed), Outside), Entry(6, Put(row), Outside)];
    DroppedByLaterFullWrite(confirmed, Entry(4, Update(KeyUpdate(r)), Request(id)), 2);
  }

  /** So more transitions can be committed than the row was armed for: the surplus is the hidden commits less
      those outside writers undid and less one where the row is still armed. */
  lemma TransitionsCommitted(self: string, requests: nat -> Registration, start: Log, clock: nat,
                             events: seq<OneShot.Event>)
    requires Registrations(requests) && OneShot.GoodLog(start, clock)
    ensures
      var rule, t := RegisterRule(self, requests), RegisterRun(self, requests, start, clock, events);
      var armed, left := OneShot.Bit(OneShot.Armed(rule, Fold(start))), OneShot.Bit(OneShot.Armed(rule, OneShot.Stored(t)));
      && |t.ledger.wins| + t.ledger.disarms + left == armed + t.ledger.rearms + t.ledger.hidden
      && (|t.ledger.wins| > armed + t.ledger.rearms <==> t.ledger.hidden > t.ledger.disarms + left)
  {
    RegisterIsSound(self, requests);
    OneShot.TransitionsCounted(RegisterRule(self, requests), start, clock, events);
  }

  /** A 200: at its read-back the stored row carried this request's key and time, its audit row was stored
      for this agent, and its own registration, of an eligible row, was committed. */
  lemma RegisteredMeans(self: string, requests: nat -> Registration, start: Log, clock: nat,
                        events: seq<OneShot.Event>, id: nat)
    requires Registrations(requests) && OneShot.GoodLog(start, clock)
    requires
      var t := RegisterRun(self, requests, start, clock, events);
      && id in t.calls && t.calls[id].ReadingBack?
      && id in OneShot.Step(RegisterRule(self, requests), t, OneShot.ReadBack(id, true)).oks
    ensures
      var t := RegisterRun(self, requests, start, clock, events);
      var row := OneShot.Stored(t);
      && FieldOf(row, PublicKey) == Some(Text(requests(id).key))
      && FieldOf(row, UpdatedAt) == Some(Date(requests(id).now))
      && id in t.tables.audit && t.tables.audit[id].subject == requests(id).agent
      && exists w :: w in t.ledger.wins && w.id == id && Eligible(w.before, self)
                     && row.Some? && WriteBack.Same(row.value, w.before, WriteBack.IDENTITY)
  {
    RegisterIsSound(self, requests);
    var rule := RegisterRule(self, requests);
    OneShot.ReadBackMeans(rule, start, clock, events, id);
    var t := RegisterRun(self, requests, start, clock, events);
    var w :| w in t.ledger.wins && w.id == id && rule.ready(w.before) && rule.shown(OneShot.Stored(t).value, w.before, id);
    assert Shows(OneShot.Stored(t).value, w.before, requests(id));
    assert PublicKey in KeyUpdate(requests(id)) && UpdatedAt in KeyUpdate(requests(id));
  }

  /** While other writers write the row only between registrations, and nothing beside it, any number of
      registrations, audit rows and events correspond one to one: each committed registration turned an
      eligible pending key into its own, and its audit row and its event, and no others, are stored. */
  lemma RegistrationsMatchTheirAudit(self: string, requests: nat -> Registration, start: Log, clock: nat,
                                     events: seq<OneShot.Event>)
    requires Registrations(requests) && OneShot.GoodLog(start, clock)
    requires
      var t := RegisterRun(self, requests, start, clock, events);
      !t.ledger.contested && !t.ledger.tampered
    ensures
      var t := RegisterRun(self, requests, start, clock, events);
      && t.tables.audit.Keys == t.tables.events.Keys == t.ledger.winners
      && |t.ledger.wins| == |t.tables.audit.Keys|
      && (forall w :: w in t.ledger.wins ==>
            && w.id in t.tables.audit && t.tables.audit[w.id] == OneShot.Beside(requests(w.id).agent, requests(w.id).key)
            && Eligible(w.before, self) && w.after == Some(w.before + KeyUpdate(requests(w.id))))
      && (forall id :: id in t.tables.audit ==> exists w :: w in t.ledger.wins && w.id == id)
  {
    RegisterIsSound(self, requests);
    OneShot.InvAlways(RegisterRule(self, requests), start, clock, events);
  }
}
