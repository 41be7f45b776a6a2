/** A guarded transition under a per-key lock: any number of concurrent calls read the row in an owned
    transaction, decide, re-read the committed row, commit, and answer at the commit or after a read-back,
    while writers outside the lock write the row, at their own times, and the rows beside it. */
module OneShot {
  import opened Collections
  import opened Store

  /** A row a call writes in another table in the same transaction. */
  datatype Beside = Beside(subject: string, detail: string)

  /** `ready`: the row may be moved. `write`: what call `id` stages over the row it read. `audits`: it also
      stages an audit row and an event. `readsBack`: it answers after a read-back, which `shown` decides from
      the stored row and the row read; `stamp` is the update time only that call stages. */
  datatype Rule = Rule(ready: Row -> bool, write: (Row, nat) -> Write, audits: bool, beside: nat -> Beside,
                       readsBack: bool, shown: (Row, Row, nat) -> bool, stamp: nat -> Value)

  ghost predicate Sound(rule: Rule) {
    // A transition over a ready row, with nothing above it, leaves a row that is not ready.
    && (forall row, id :: rule.ready(row) ==>
          var after := Apply(Some(row), rule.write(row, id));
          after.Some? && !rule.ready(after.value))
    // A read-back shows a call only in a row that is not ready and carries the call's own update time.
    && (forall row, basis, id :: rule.shown(row, basis, id) ==>
          !rule.ready(row) && FieldOf(Some(row), UpdatedAt) == Some(rule.stamp(id)))
    && (forall id, other :: rule.stamp(id) == rule.stamp(other) ==> id == other)
  }

  datatype Phase =
    | Waiting
    | Holding                              // has the lock
    | Decided(at: nat, basis: Row)         // read the row at time `at`, staged its writes
    | Confirmed(at: nat, basis: Row)       // the committed row was still the one read
    | Committed(basis: Row)
    | Closing                              // refused or aborted, still holds the lock
    | ReadingBack(basis: Row)
    | Answered(ok: bool)

  /** One committed transition, with the stored row before and after it. */
  datatype Win = Win(id: nat, before: Row, after: Option<Row>)

  /** `rearms` and `disarms` count the outside writes that made the row ready, or no longer ready; `hidden`
      the commits that left it ready, under a later-timed write. `spent` is the call last shown since the row
      was last ready. */
  datatype State = State(tables: Tables, ledger: Ledger, clock: nat, holder: Option<nat>, calls: map<nat, Phase>,
                         oks: set<nat>, spent: Option<nat>)

  datatype Tables = Tables(log: Log, audit: map<nat, Beside>, events: map<nat, Beside>)

  datatype Ledger = Ledger(wins: seq<Win>, winners: set<nat>, rearms: nat, disarms: nat, hidden: nat,
                           contested: bool, tampered: bool)

  datatype Event =
    | Arrive(id: nat) | Lock(id: nat) | Busy(id: nat) | Decide(id: nat) | Confirm(id: nat) | Fail(id: nat)
    | Commit(id: nat) | Release(id: nat) | ReadBack(id: nat, readable: bool)
    | OutsideWrite(at: nat, write: Write)
    | OutsideBeside(id: nat, audit: Option<Beside>, event: Option<Beside>)

  function Stored(s: State): Option<Row> { Fold(s.tables.log) }

  predicate Armed(rule: Rule, row: Option<Row>) { row.Some? && rule.ready(row.value) }

  function To(s: State, id: nat, phase: Phase): State { s.(calls := s.calls[id := phase]) }

  /** The time the holder's open transaction has taken. */
  function Taken(s: State): Option<nat> {
    if s.holder.Some? && s.holder.value in s.calls
      && (s.calls[s.holder.value].Decided? || s.calls[s.holder.value].Confirmed?)
      then Some(s.calls[s.holder.value].at) else None
  }

  /** What an outside writer may do: commit at any free time up to now, but not between a confirmation and
      its commit; and it stores a call's own update time only over a row that shows it. */
  ghost predicate MayWrite(rule: Rule, s: State, at: nat, w: Write) {
    && at <= s.clock && Fresh(s.tables.log, at) && Taken(s) != Some(at)
    && !(s.holder.Some? && s.holder.value in s.calls && s.calls[s.holder.value].Confirmed?)
    && (Decides(w, UpdatedAt) ==>
          forall id :: Decision(w, UpdatedAt) == Some(rule.stamp(id)) ==>
            FieldOf(Stored(s), UpdatedAt) == Some(rule.stamp(id)))
  }

  ghost function Outside1(rule: Rule, s: State, at: nat, w: Write): State {
    var log := Insert(s.tables.log, Entry(at, w, Outside));
    var was, now := Armed(rule, Stored(s)), Armed(rule, Fold(log));
    s.(tables := s.tables.(log := log), clock := if at == s.clock then s.clock + 1 else s.clock,
       ledger := s.ledger.(rearms := s.ledger.rearms + if now && !was then 1 else 0,
                           disarms := s.ledger.disarms + if was && !now then 1 else 0,
                           contested := s.ledger.contested || at != s.clock || Taken(s).Some?),
       spent := if now then None else s.spent)
  }

  function Commit1(rule: Rule, s: State, id: nat, at: nat, basis: Row): State {
    var log := Insert(s.tables.log, Entry(at, rule.write(basis, id), Request(id)));
    var audit := if rule.audits then s.tables.audit[id := rule.beside(id)] else s.tables.audit;
    var events := if rule.audits then s.tables.events[id := rule.beside(id)] else s.tables.events;
    To(s, id, Committed(basis)).(
      tables := Tables(log, audit, events),
      ledger := s.ledger.(wins := s.ledger.wins + [Win(id, basis, Fold(log))], winners := s.ledger.winners + {id},
                          hidden := s.ledger.hidden + if Armed(rule, Fold(log)) then 1 else 0))
  }

  function Shown1(rule: Rule, s: State, id: nat, basis: Row): bool {
    && Stored(s).Some? && rule.shown(Stored(s).value, basis, id)
    && (rule.audits ==> id in s.tables.audit && s.tables.audit[id].subject == rule.beside(id).subject)
  }

  function Answer1(s: State, id: nat, ok: bool): State {
    To(s, id, Answered(ok)).(oks := if ok then s.oks + {id} else s.oks)
  }

  ghost function Step(rule: Rule, s: State, e: Event): State {
    match e
    case Arrive(id) => if id in s.calls then s else To(s, id, Waiting)
    case Lock(id) =>
      if id in s.calls && s.calls[id].Waiting? && s.holder.None? then To(s, id, Holding).(holder := Some(id)) else s
    case Busy(id) => if id in s.calls && s.calls[id].Waiting? then Answer1(s, id, false) else s
    case Decide(id) =>
      if !(id in s.calls && s.calls[id].Holding?) then s
      else if Armed(rule, Stored(s)) then To(s, id, Decided(s.clock, Stored(s).value)).(clock := s.clock + 1)
      else To(s, id, Closing)
    case Confirm(id) =>
      if !(id in s.calls && s.calls[id].Decided?) then s
      else if Stored(s) == Some(s.calls[id].basis) then To(s, id, Confirmed(s.calls[id].at, s.calls[id].basis))
      else To(s, id, Closing)
    case Fail(id) =>
      if id in s.calls && (s.calls[id].Holding? || s.calls[id].Decided? || s.calls[id].Confirmed?)
        then To(s, id, Closing) else s
    case Commit(id) =>
      if !(id in s.calls && s.calls[id].Confirmed?) then s else Commit1(rule, s, id, s.calls[id].at, s.calls[id].basis)
    case Release(id) =>
      if id in s.calls && s.calls[id].Closing? then Answer1(s, id, false).(holder := None)
      else if !(id in s.calls && s.calls[id].Committed?) then s
      else if rule.readsBack then To(s, id, ReadingBack(s.calls[id].basis)).(holder := None)
      else Answer1(s, id, true).(holder := None)
    case ReadBack(id, readable) =>
      if !(id in s.calls && s.calls[id].ReadingBack?) then s
      else
        var ok := readable && Shown1(rule, s, id, s.calls[id].basis);
        Answer1(s, id, ok).(spent := if ok then Some(id) else s.spent)
    case OutsideWrite(at, w) => if MayWrite(rule, s, at, w) then Outside1(rule, s, at, w) else s
    case OutsideBeside(id, audit, event) =>
      s.(tables := s.tables.(audit := if audit.Some? then s.tables.audit[id := audit.value] else s.tables.audit - {id},
                             events := if event.Some? then s.tables.events[id := event.value] else s.tables.events - {id}),
         ledger := s.ledger.(tampered := true))
  }

  ghost function Run(rule: Rule, s: State, events: seq<Event>): State {
    if events == [] then s else Step(rule, Run(rule, s, events[..|events| - 1]), events[|events| - 1])
  }

  /** Before any call: any history of the row, and nothing beside it. */
  ghost function Start(log: Log, clock: nat): State {
    State(Tables(log, map[], map[]), Ledger([], {}, 0, 0, 0, false, false), clock, None, map[], {}, None)
  }

  ghost predicate GoodLog(log: Log, clock: nat) {
    Ordered(log) && forall i :: 0 <= i < |log| ==> log[i].at < clock
  }

  // ---- The lock and the times ----

  predicate HoldsLock(p: Phase) { p.Holding? || p.Decided? || p.Confirmed? || p.Committed? || p.Closing? }

  ghost predicate PhaseOk(rule: Rule, s: State, p: Phase) {
    && (p.Decided? || p.Confirmed? ==> p.at < s.clock && Fresh(s.tables.log, p.at) && rule.ready(p.basis))
    && (p.Confirmed? ==> Stored(s) == Some(p.basis))
    // Nothing committed since an uncontested call's read.
    && ((p.Decided? || p.Confirmed?) && !s.ledger.contested ==>
          Stored(s) == Some(p.basis) && forall i :: 0 <= i < |s.tables.log| ==> s.tables.log[i].at < p.at)
  }

  ghost predicate LocksInv(rule: Rule, s: State) {
    && GoodLog(s.tables.log, s.clock)
    && (forall id :: id in s.calls && HoldsLock(s.calls[id]) ==> s.holder == Some(id))
    && (forall id :: id in s.calls ==> PhaseOk(rule, s, s.calls[id]))
  }

  lemma InsertGood(log: Log, e: Entry, clock: nat, t: nat)
    requires GoodLog(log, clock) && Fresh(log, e.at) && e.at <= clock && t != e.at && Fresh(log, t)
    ensures GoodLog(Insert(log, e), if e.at == clock then clock + 1 else clock)
    ensures Fresh(Insert(log, e), t)
  {
    InsertOrdered(log, e);
    TimesOfInsert(log, e);
  }

  lemma LocksOutside(rule: Rule, s: State, at: nat, w: Write)
    requires LocksInv(rule, s) && MayWrite(rule, s, at, w)
    ensures LocksInv(rule, Outside1(rule, s, at, w))
  {
    var s' := Outside1(rule, s, at, w);
    var e := Entry(at, w, Outside);
    InsertGood(s.tables.log, e, s.clock, s.clock + at + 1);
    forall id | id in s'.calls ensures PhaseOk(rule, s', s'.calls[id]) {
      var p := s.calls[id];
      assert PhaseOk(rule, s, p);
      if p.Decided? || p.Confirmed? { InsertGood(s.tables.log, e, s.clock, p.at); }
    }
  }

  lemma LocksCommit(rule: Rule, s: State, id: nat)
    requires LocksInv(rule, s) && id in s.calls && s.calls[id].Confirmed?
    ensures LocksInv(rule, Commit1(rule, s, id, s.calls[id].at, s.calls[id].basis))
  {
    var p := s.calls[id];
    assert PhaseOk(rule, s, p);
    InsertGood(s.tables.log, Entry(p.at, rule.write(p.basis, id), Request(id)), s.clock, s.clock + p.at + 1);
  }

  /** A step of a call that is not its commit: it writes nothing and changes its own phase only. */
  ghost predicate Quiet(s: State, s': State, id: nat) {
    && s'.tables == s.tables && s'.ledger == s.ledger && s'.clock >= s.clock
    && (forall other :: other in s.calls ==> other in s'.calls && (other != id ==> s'.calls[other] == s.calls[other]))
    && (forall other :: other in s'.calls ==> other == id || other in s.calls)
  }

  predicate ByCall(e: Event) { !e.OutsideWrite? && !e.OutsideBeside? && !e.Commit? }

  /** How a call's own step changes its phase, its answer and the lock. */
  ghost predicate Advances(rule: Rule, s: State, s': State, id: nat)
    requires id in s'.calls
  {
    var to := s'.calls[id];
    if id !in s.calls then to.Waiting? && s'.holder == s.holder && s'.oks == s.oks
    else
      var was := s.calls[id];
      || (s' == s)
      || (was.Waiting? && to.Holding? && s.holder.None? && s'.holder == Some(id) && s'.oks == s.oks)
      || (was.Waiting? && to == Answered(false) && s'.holder == s.holder && s'.oks == s.oks)
      || (was.Holding? && to.Decided? && to.at == s.clock < s'.clock && Stored(s) == Some(to.basis)
          && rule.ready(to.basis) && s'.holder == s.holder && s'.oks == s.oks)
      || (was.Decided? && to == Confirmed(was.at, was.basis) && Stored(s) == Some(was.basis)
          && s'.holder == s.holder && s'.oks == s.oks)
      || ((was.Holding? || was.Decided? || was.Confirmed?) && to.Closing? && s'.holder == s.holder && s'.oks == s.oks)
      || (was.Closing? && to == Answered(false) && s'.holder.None? && s'.oks == s.oks)
      || (was.Committed? && rule.readsBack && to == ReadingBack(was.basis) && s'.holder.None? && s'.oks == s.oks)
      || (was.Committed? && !rule.readsBack && to == Answered(true) && s'.holder.None? && s'.oks == s.oks + {id})
      || (was.ReadingBack? && to.Answered? && s'.holder == s.holder
          && s'.oks == if to.ok then s.oks + {id} else s.oks)
  }

  lemma AskStep(rule: Rule, s: State, e: Event)
    requires e.Arrive? || e.Lock? || e.Busy?
    ensures Quiet(s, Step(rule, s, e), e.id)
    ensures e.id in Step(rule, s, e).calls ==> Advances(rule, s, Step(rule, s, e), e.id)
  {
  }

  lemma DecideStep(rule: Rule, s: State, e: Event)
    requires e.Decide? || e.Confirm? || e.Fail?
    ensures Quiet(s, Step(rule, s, e), e.id)
    ensures e.id in Step(rule, s, e).calls ==> Advances(rule, s, Step(rule, s, e), e.id)
  {
  }

  lemma ReleaseStep(rule: Rule, s: State, e: Event)
    requires e.Release?
    ensures Quiet(s, Step(rule, s, e), e.id)
    ensures e.id in Step(rule, s, e).calls ==> Advances(rule, s, Step(rule, s, e), e.id)
  {
  }

  lemma ReadBackStep(rule: Rule, s: State, e: Event)
    requires e.ReadBack?
    ensures Quiet(s, Step(rule, s, e), e.id)
    ensures e.id in Step(rule, s, e).calls ==> Advances(rule, s, Step(rule, s, e), e.id)
  {
  }

  lemma CallStep(rule: Rule, s: State, e: Event)
    requires ByCall(e)
    ensures Quiet(s, Step(rule, s, e), e.id)
    ensures e.id in Step(rule, s, e).calls ==> Advances(rule, s, Step(rule, s, e), e.id)
    ensures e.id !in Step(rule, s, e).calls ==> Step(rule, s, e) == s
  {
    if e.Arrive? || e.Lock? || e.Busy? { AskStep(rule, s, e); }
    else if e.Release? { ReleaseStep(rule, s, e); }
    else if e.ReadBack? { ReadBackStep(rule, s, e); }
    else { DecideStep(rule, s, e); }
  }

  lemma PhaseFrame(rule: Rule, s: State, s': State, p: Phase)
    requires PhaseOk(rule, s, p) && s'.tables.log == s.tables.log && s'.clock >= s.clock && s'.ledger.contested == s.ledger.contested
    ensures PhaseOk(rule, s', p)
  {
  }

  lemma LocksQuiet(rule: Rule, s: State, s': State, id: nat)
    requires LocksInv(rule, s) && Quiet(s, s', id) && (id in s'.calls ==> Advances(rule, s, s', id))
    requires id !in s'.calls ==> s' == s
    ensures LocksInv(rule, s')
  {
    forall other | other in s'.calls ensures PhaseOk(rule, s', s'.calls[other]) {
      if other in s.calls {
        assert PhaseOk(rule, s, s.calls[other]);
        PhaseFrame(rule, s, s', s.calls[other]);
      }
    }
  }

  lemma LocksMoves(rule: Rule, s: State, e: Event)
    requires LocksInv(rule, s) && !e.OutsideWrite? && !e.Commit?
    ensures LocksInv(rule, Step(rule, s, e))
  {
    var s' := Step(rule, s, e);
    if e.OutsideBeside? {
      forall other | other in s'.calls ensures PhaseOk(rule, s', s'.calls[other]) {
        assert PhaseOk(rule, s, s.calls[other]);
      }
    } else {
      CallStep(rule, s, e);
      LocksQuiet(rule, s, s', e.id);
    }
  }

  lemma LocksStep(rule: Rule, s: State, e: Event)
    requires LocksInv(rule, s)
    ensures LocksInv(rule, Step(rule, s, e))
  {
    match e
    case OutsideWrite(at, w) => if MayWrite(rule, s, at, w) { LocksOutside(rule, s, at, w); }
    case Commit(id) => if id in s.calls && s.calls[id].Confirmed? { LocksCommit(rule, s, id); }
    case _ => LocksMoves(rule, s, e);
  }

  // ---- Who has committed ----

  ghost predicate CallOk(rule: Rule, s: State, id: nat)
    requires id in s.calls
  {
    var p := s.calls[id];
    && (p.Committed? || p.ReadingBack? ==> id in s.ledger.winners)
    && (id in s.ledger.winners ==> p.Committed? || p.ReadingBack? || p.Answered?)
    && (p == Answered(true) <==> id in s.oks)
    && (p == Answered(true) ==> id in s.ledger.winners)
    && (!rule.readsBack ==> !p.ReadingBack? && (p == Answered(false) ==> id !in s.ledger.winners))
  }

  ghost predicate CallsInv(rule: Rule, s: State) {
    && s.oks <= s.ledger.winners && (forall id :: id in s.ledger.winners ==> id in s.calls)
    && (forall id :: id in s.calls ==> CallOk(rule, s, id))
  }

  lemma CallsQuiet(rule: Rule, s: State, s': State, id: nat)
    requires CallsInv(rule, s) && Quiet(s, s', id) && (id in s'.calls ==> Advances(rule, s, s', id))
    requires id !in s'.calls ==> s' == s
    ensures CallsInv(rule, s')
  {
    forall other | other in s'.calls ensures CallOk(rule, s', other) {
      if other in s.calls { assert CallOk(rule, s, other); }
    }
    if id in s.calls { assert CallOk(rule, s, id); }
  }

  lemma CallsCommit(rule: Rule, s: State, id: nat)
    requires CallsInv(rule, s) && id in s.calls && s.calls[id].Confirmed?
    ensures CallsInv(rule, Commit1(rule, s, id, s.calls[id].at, s.calls[id].basis))
  {
    var s' := Commit1(rule, s, id, s.calls[id].at, s.calls[id].basis);
    forall other | other in s'.calls ensures CallOk(rule, s', other) {
      assert CallOk(rule, s, other);
    }
  }

  lemma CallsStep(rule: Rule, s: State, e: Event)
    requires CallsInv(rule, s)
    ensures CallsInv(rule, Step(rule, s, e))
  {
    var s' := Step(rule, s, e);
    if e.Commit? {
      if e.id in s.calls && s.calls[e.id].Confirmed? { CallsCommit(rule, s, e.id); }
    } else if ByCall(e) {
      CallStep(rule, s, e);
      CallsQuiet(rule, s, s', e.id);
    } else {
      forall other | other in s'.calls ensures CallOk(rule, s', other) { assert CallOk(rule, s, other); }
    }
  }

  // ---- How many have committed ----

  function Bit(b: bool): nat { if b then 1 else 0 }

  ghost predicate CountsInv(rule: Rule, s: State, start: Log) {
    && |s.ledger.wins| + s.ledger.disarms + Bit(Armed(rule, Stored(s))) == Bit(Armed(rule, Fold(start))) + s.ledger.rearms + s.ledger.hidden
    && |s.ledger.winners| == |s.ledger.wins|
    && (forall w :: w in s.ledger.wins ==> w.id in s.ledger.winners && rule.ready(w.before))
    && (forall id :: id in s.ledger.winners ==> exists w :: w in s.ledger.wins && w.id == id)
    && (forall id :: id in s.calls && (s.calls[id].Committed? || s.calls[id].ReadingBack?) ==>
          exists w :: w in s.ledger.wins && w.id == id && w.before == s.calls[id].basis)
    && s.ledger.hidden <= |s.ledger.wins|
  }

  lemma CountsCommit(rule: Rule, s: State, id: nat, start: Log)
    requires LocksInv(rule, s) && CallsInv(rule, s) && CountsInv(rule, s, start)
    requires id in s.calls && s.calls[id].Confirmed?
    ensures CountsInv(rule, Commit1(rule, s, id, s.calls[id].at, s.calls[id].basis), start)
  {
    var p := s.calls[id];
    assert PhaseOk(rule, s, p) && CallOk(rule, s, id);
    var s' := Commit1(rule, s, id, p.at, p.basis);
    var w := s'.ledger.wins[|s.ledger.wins|];
    assert s'.ledger.wins == s.ledger.wins + [w];
    assert forall x :: x in s'.ledger.wins <==> x in s.ledger.wins || x == w;
    forall x | x in s'.ledger.winners ensures exists v :: v in s'.ledger.wins && v.id == x {
      if x == id { assert w in s'.ledger.wins; } else { var v :| v in s.ledger.wins && v.id == x; assert v in s'.ledger.wins; }
    }
    forall x | x in s'.calls && (s'.calls[x].Committed? || s'.calls[x].ReadingBack?)
      ensures exists v :: v in s'.ledger.wins && v.id == x && v.before == s'.calls[x].basis
    {
      if x == id { assert w in s'.ledger.wins; }
      else { var v :| v in s.ledger.wins && v.id == x && v.before == s.calls[x].basis; assert v in s'.ledger.wins; }
    }
  }

  lemma CountsQuiet(rule: Rule, s: State, s': State, id: nat, start: Log)
    requires CountsInv(rule, s, start) && Quiet(s, s', id) && (id in s'.calls ==> Advances(rule, s, s', id))
    requires id !in s'.calls ==> s' == s
    ensures CountsInv(rule, s', start)
  {
  }

  lemma CountsMoves(rule: Rule, s: State, e: Event, start: Log)
    requires CountsInv(rule, s, start) && !e.Commit?
    ensures CountsInv(rule, Step(rule, s, e), start)
  {
    if ByCall(e) {
      CallStep(rule, s, e);
      CountsQuiet(rule, s, Step(rule, s, e), e.id, start);
    }
  }

  lemma CountsStep(rule: Rule, s: State, e: Event, start: Log)
    requires LocksInv(rule, s) && CallsInv(rule, s) && CountsInv(rule, s, start)
    ensures CountsInv(rule, Step(rule, s, e), start)
  {
    if e.Commit? {
      if e.id in s.calls && s.calls[e.id].Confirmed? { CountsCommit(rule, s, e.id, start); }
    } else {
      CountsMoves(rule, s, e, start);
    }
  }

  // ---- How many have been shown ----

  /** Since the row was last ready, only one call's update time can show; and the successes are at most one
      for each time it was ready. */
  ghost predicate ShownInv(rule: Rule, s: State) {
    && |s.oks| + Bit(s.spent.None?) <= 1 + s.ledger.rearms
    && (s.spent.Some? ==>
          && s.spent.value in s.oks && !Armed(rule, Stored(s))
          && forall id :: FieldOf(Stored(s), UpdatedAt) == Some(rule.stamp(id)) ==> id == s.spent.value)
  }

  lemma ShownOutside(rule: Rule, s: State, at: nat, w: Write)
    requires Sound(rule) && LocksInv(rule, s) && ShownInv(rule, s) && MayWrite(rule, s, at, w)
    ensures ShownInv(rule, Outside1(rule, s, at, w))
  {
    FieldUnderCommit(s.tables.log, Entry(at, w, Outside), UpdatedAt);
  }

  lemma ShownReadBack(rule: Rule, s: State, id: nat, readable: bool)
    requires rule.readsBack && Sound(rule) && CallsInv(rule, s) && ShownInv(rule, s)
    ensures ShownInv(rule, Step(rule, s, ReadBack(id, readable)))
  {
    if id in s.calls && s.calls[id].ReadingBack? && readable && Shown1(rule, s, id, s.calls[id].basis) {
      assert CallOk(rule, s, id);
      assert s.spent.None?;
    }
  }

  lemma ShownMoves(rule: Rule, s: State, e: Event)
    requires rule.readsBack && LocksInv(rule, s) && CallsInv(rule, s) && ShownInv(rule, s)
    requires !e.ReadBack? && !e.OutsideWrite?
    ensures ShownInv(rule, Step(rule, s, e))
  {
    if e.Commit? && e.id in s.calls && s.calls[e.id].Confirmed? { assert PhaseOk(rule, s, s.calls[e.id]); }
  }

  lemma ShownStep(rule: Rule, s: State, e: Event)
    requires rule.readsBack && Sound(rule) && LocksInv(rule, s) && CallsInv(rule, s) && ShownInv(rule, s)
    ensures ShownInv(rule, Step(rule, s, e))
  {
    match e
    case OutsideWrite(at, w) => if MayWrite(rule, s, at, w) { ShownOutside(rule, s, at, w); }
    case ReadBack(id, readable) => ShownReadBack(rule, s, id, readable);
    case _ => ShownMoves(rule, s, e);
  }

  // ---- Without competing writes ----

  ghost predicate MovesInv(rule: Rule, s: State) {
    && (!s.ledger.contested ==>
          s.ledger.hidden == 0 && forall w :: w in s.ledger.wins ==> w.after == Apply(Some(w.before), rule.write(w.before, w.id)))
    && (rule.audits && !s.ledger.tampered ==>
          && s.tables.audit.Keys == s.ledger.winners && s.tables.events.Keys == s.ledger.winners
          && forall id :: id in s.ledger.winners ==> s.tables.audit[id] == rule.beside(id) && s.tables.events[id] == rule.beside(id))
  }

  lemma MovesCommit(rule: Rule, s: State, id: nat)
    requires Sound(rule) && LocksInv(rule, s) && MovesInv(rule, s) && id in s.calls && s.calls[id].Confirmed?
    ensures MovesInv(rule, Commit1(rule, s, id, s.calls[id].at, s.calls[id].basis))
  {
    var p := s.calls[id];
    assert PhaseOk(rule, s, p);
    var e := Entry(p.at, rule.write(p.basis, id), Request(id));
    if !s.ledger.contested {
      AppendLatest(s.tables.log, e);
      FoldAppend(s.tables.log, e);
    }
    var s' := Commit1(rule, s, id, p.at, p.basis);
    assert forall x :: x in s'.ledger.wins <==> x in s.ledger.wins || x == Win(id, p.basis, Fold(s'.tables.log));
  }

  lemma MovesStep(rule: Rule, s: State, e: Event)
    requires Sound(rule) && LocksInv(rule, s) && MovesInv(rule, s)
    ensures MovesInv(rule, Step(rule, s, e))
  {
    if e.Commit? {
      if e.id in s.calls && s.calls[e.id].Confirmed? { MovesCommit(rule, s, e.id); }
    } else if ByCall(e) {
      CallStep(rule, s, e);
    }
  }

  // ---- Over every run ----

  ghost predicate Inv(rule: Rule, s: State, start: Log) {
    && LocksInv(rule, s) && CallsInv(rule, s) && CountsInv(rule, s, start) && MovesInv(rule, s)
    && (rule.readsBack ==> ShownInv(rule, s))
  }

  lemma {:induction false} InvAlways(rule: Rule, start: Log, clock: nat, events: seq<Event>)
    requires Sound(rule) && GoodLog(start, clock)
    ensures Inv(rule, Run(rule, Start(start, clock), events), start)
  {
    if events != [] {
      var init, last := events[..|events| - 1], events[|events| - 1];
      InvAlways(rule, start, clock, init);
      var s := Run(rule, Start(start, clock), init);
      LocksStep(rule, s, last);
      CallsStep(rule, s, last);
      CountsStep(rule, s, last, start);
      MovesStep(rule, s, last);
      if rule.readsBack { ShownStep(rule, s, last); }
    }
  }

  /** Calls that answer after a read-back: over every run at most one succeeds, plus one for each time an
      outside writer made the row ready again, whatever commits the store hid. */
  lemma SingleWinner(rule: Rule, start: Log, clock: nat, events: seq<Event>)
    requires Sound(rule) && GoodLog(start, clock) && rule.readsBack
    ensures
      var t := Run(rule, Start(start, clock), events);
      |t.oks| <= 1 + t.ledger.rearms
  {
    InvAlways(rule, start, clock, events);
  }

  /** How many transitions are committed: exactly one for each time the row became ready and was not made
      unready by others, and one more for each commit hidden under a later-timed write. So more than that
      are committed exactly when commits were hidden. */
  lemma TransitionsCounted(rule: Rule, start: Log, clock: nat, events: seq<Event>)
    requires Sound(rule) && GoodLog(start, clock)
    ensures
      var t := Run(rule, Start(start, clock), events);
      && |t.ledger.wins| + t.ledger.disarms + Bit(Armed(rule, Stored(t))) == Bit(Armed(rule, Fold(start))) + t.ledger.rearms + t.ledger.hidden
      && (|t.ledger.wins| > Bit(Armed(rule, Fold(start))) + t.ledger.rearms <==> t.ledger.hidden > t.ledger.disarms + Bit(Armed(rule, Stored(t))))
      && (!t.ledger.contested ==> t.ledger.hidden == 0)
  {
    InvAlways(rule, start, clock, events);
  }

  /** What an answer says, over every run: a success committed its own transition; and where the answer is
      given at the commit, a failure committed none. */
  lemma AnswersSpeakTrue(rule: Rule, start: Log, clock: nat, events: seq<Event>, id: nat)
    requires Sound(rule) && GoodLog(start, clock) && id in Run(rule, Start(start, clock), events).calls
    requires Run(rule, Start(start, clock), events).calls[id].Answered?
    ensures
      var t := Run(rule, Start(start, clock), events);
      && (t.calls[id].ok ==> exists w :: w in t.ledger.wins && w.id == id)
      && (!rule.readsBack ==> (t.calls[id].ok <==> exists w :: w in t.ledger.wins && w.id == id))
  {
    InvAlways(rule, start, clock, events);
    assert CallOk(rule, Run(rule, Start(start, clock), events), id);
  }

  /** A successful read-back: the stored row shows the call over the row it read, its audit row is stored
      for its subject, and its own transition, of a ready row, was committed. */
  lemma ReadBackMeans(rule: Rule, start: Log, clock: nat, events: seq<Event>, id: nat)
    requires Sound(rule) && GoodLog(start, clock)
    requires
      var t := Run(rule, Start(start, clock), events);
      id in t.calls && t.calls[id].ReadingBack? && id in Step(rule, t, ReadBack(id, true)).oks
    ensures
      var t := Run(rule, Start(start, clock), events);
      && Stored(t).Some?
      && (rule.audits ==> id in t.tables.audit && t.tables.audit[id].subject == rule.beside(id).subject)
      && exists w :: w in t.ledger.wins && w.id == id && rule.ready(w.before) && rule.shown(Stored(t).value, w.before, id)
  {
    InvAlways(rule, start, clock, events);
    var t := Run(rule, Start(start, clock), events);
    assert CallOk(rule, t, id);
    var w :| w in t.ledger.wins && w.id == id && w.before == t.calls[id].basis;
  }

  ghost predicate NoOutside(events: seq<Event>) {
    forall i :: 0 <= i < |events| ==> !events[i].OutsideWrite? && !events[i].OutsideBeside?
  }

  ghost predicate Moved(rule: Rule, s: State, start: Log) {
    && s.ledger.rearms == 0 && !s.ledger.contested && !s.ledger.tampered && |s.ledger.wins| <= 1
    && (s.ledger.wins == [] ==> Stored(s) == Fold(start))
    && (s.ledger.wins != [] ==>
          && Armed(rule, Fold(start)) && s.ledger.wins[0].before == Fold(start).value
          && Stored(s) == Apply(Fold(start), rule.write(Fold(start).value, s.ledger.wins[0].id)))
  }

  lemma MovedCommit(rule: Rule, s: State, id: nat, start: Log)
    requires Sound(rule) && LocksInv(rule, s) && Moved(rule, s, start) && id in s.calls && s.calls[id].Confirmed?
    ensures Moved(rule, Commit1(rule, s, id, s.calls[id].at, s.calls[id].basis), start)
  {
    var p := s.calls[id];
    assert PhaseOk(rule, s, p);
    var e := Entry(p.at, rule.write(p.basis, id), Request(id));
    AppendLatest(s.tables.log, e);
    FoldAppend(s.tables.log, e);
  }

  /** Without outside writers the row is the one it started as, or the one the single winner made of it: it
      is moved once and for all. */
  lemma {:induction false} MovedOnceAndForAll(rule: Rule, start: Log, clock: nat, events: seq<Event>)
    requires Sound(rule) && GoodLog(start, clock) && NoOutside(events)
    ensures Moved(rule, Run(rule, Start(start, clock), events), start)
  {
    if events != [] {
      var init, last := events[..|events| - 1], events[|events| - 1];
      assert forall i :: 0 <= i < |init| ==> init[i] == events[i];
      MovedOnceAndForAll(rule, start, clock, init);
      InvAlways(rule, start, clock, init);
      var s := Run(rule, Start(start, clock), init);
      if last.Commit? && last.id in s.calls && s.calls[last.id].Confirmed? {
        MovedCommit(rule, s, last.id, start);
      }
    }
  }

  // ---- A call that nothing disturbs ----

  /** One whole call, with no other step between its own. */
  ghost function WholeCall(rule: Rule, s: State, id: nat): State {
    var asked := Step(rule, Step(rule, s, Arrive(id)), Lock(id));
    var decided := Step(rule, Step(rule, asked, Decide(id)), Confirm(id));
    Step(rule, Step(rule, Step(rule, decided, Commit(id)), Release(id)), ReadBack(id, true))
  }

  /** The lock is free and the call is new. */
  ghost predicate MayCall(s: State, id: nat) { s.holder.None? && id !in s.calls }

  /** A write over a ready row is what the rule's own read-back looks for. */
  ghost predicate ShowsItself(rule: Rule, id: nat) {
    forall row :: rule.ready(row) && Apply(Some(row), rule.write(row, id)).Some? ==>
      rule.shown(Apply(Some(row), rule.write(row, id)).value, row, id)
  }

  /** The call has the lock and nothing else is changed. */
  lemma Asks(rule: Rule, s: State, id: nat)
    requires MayCall(s, id)
    ensures Step(rule, Step(rule, s, Arrive(id)), Lock(id)) == To(s, id, Holding).(holder := Some(id))
  {
    assert s.calls[id := Waiting][id := Holding] == s.calls[id := Holding];
  }

  lemma Decides1(rule: Rule, s: State, id: nat)
    requires id in s.calls && s.calls[id].Holding?
    ensures
      var t := Step(rule, Step(rule, s, Decide(id)), Confirm(id));
      && t.tables == s.tables && t.holder == s.holder && t.ledger == s.ledger && id in t.calls
      && t.calls[id] == if Armed(rule, Stored(s)) then Confirmed(s.clock, Stored(s).value) else Closing
  {
  }

  lemma Ends1(rule: Rule, s: State, id: nat)
    requires id in s.calls && s.calls[id].Closing?
    ensures
      var t := Step(rule, Step(rule, Step(rule, s, Commit(id)), Release(id)), ReadBack(id, true));
      t.tables == s.tables && t.holder.None? && id in t.calls && t.calls[id] == Answered(false)
  {
  }

  lemma Commits1(rule: Rule, s: State, id: nat)
    requires id in s.calls && s.calls[id].Confirmed? && GoodLog(s.tables.log, s.calls[id].at)
    ensures
      var t, basis := Commit1(rule, s, id, s.calls[id].at, s.calls[id].basis), s.calls[id].basis;
      && t.calls[id] == Committed(basis) && Stored(t) == Apply(Stored(s), rule.write(basis, id))
      && (rule.audits ==> t.tables.audit == s.tables.audit[id := rule.beside(id)]
                          && t.tables.events == s.tables.events[id := rule.beside(id)])
  {
    var e := Entry(s.calls[id].at, rule.write(s.calls[id].basis, id), Request(id));
    AppendLatest(s.tables.log, e);
    FoldAppend(s.tables.log, e);
  }

  /** From its commit on, a call whose own write is shown succeeds. */
  lemma Answers1(rule: Rule, s: State, id: nat)
    requires id in s.calls && s.calls[id].Committed? && (rule.readsBack ==> Shown1(rule, s, id, s.calls[id].basis))
    ensures
      var t := Step(rule, Step(rule, s, Release(id)), ReadBack(id, true));
      t.tables == s.tables && t.holder.None? && id in t.calls && t.calls[id] == Answered(true)
  {
  }

  /** Whatever ran before, a call that nothing disturbs succeeds exactly when the stored row is ready for it. It
      then leaves its own write of that row and its own rows beside it, and otherwise nothing. */
  lemma UndisturbedSucceedsExactly(rule: Rule, start: Log, clock: nat, events: seq<Event>, id: nat)
    requires Sound(rule) && GoodLog(start, clock) && MayCall(Run(rule, Start(start, clock), events), id)
    requires rule.readsBack ==> ShowsItself(rule, id)
    ensures
      var s := Run(rule, Start(start, clock), events);
      var t, ready := WholeCall(rule, s, id), Armed(rule, Stored(s));
      && id in t.calls && t.calls[id] == Answered(ready) && t.holder.None?
      && (ready ==> Stored(t) == Apply(Stored(s), rule.write(Stored(s).value, id)))
      && (ready && rule.audits ==>
            && t.tables.audit == s.tables.audit[id := rule.beside(id)]
            && t.tables.events == s.tables.events[id := rule.beside(id)])
      && (!ready ==> t.tables == s.tables)
  {
    InvAlways(rule, start, clock, events);
    var s := Run(rule, Start(start, clock), events);
    Undisturbed(rule, s, id);
  }

  lemma Undisturbed(rule: Rule, s: State, id: nat)
    requires Sound(rule) && GoodLog(s.tables.log, s.clock) && MayCall(s, id)
    requires rule.readsBack ==> ShowsItself(rule, id)
    ensures
      var t, ready := WholeCall(rule, s, id), Armed(rule, Stored(s));
      && id in t.calls && t.calls[id] == Answered(ready) && t.holder.None?
      && (ready ==> Stored(t) == Apply(Stored(s), rule.write(Stored(s).value, id)))
      && (ready && rule.audits ==>
            && t.tables.audit == s.tables.audit[id := rule.beside(id)]
            && t.tables.events == s.tables.events[id := rule.beside(id)])
      && (!ready ==> t.tables == s.tables)
  {
    Asks(rule, s, id);
    var asked := To(s, id, Holding).(holder := Some(id));
    Decides1(rule, asked, id);
    var decided := Step(rule, Step(rule, asked, Decide(id)), Confirm(id));
    if Armed(rule, Stored(s)) {
      Commits1(rule, decided, id);
      Answers1(rule, Step(rule, decided, Commit(id)), id);
    } else {
      Ends1(rule, decided, id);
    }
  }

  /** A step puts a call's entry into the row's history only by committing that call. */
  lemma EntriesOfStep(rule: Rule, s: State, e: Event, id: nat)
    requires LocksInv(rule, s)
    requires (exists x :: x in s.tables.log && x.writer == Request(id)) ==> id in s.ledger.winners
    ensures (exists x :: x in Step(rule, s, e).tables.log && x.writer == Request(id)) ==> id in Step(rule, s, e).ledger.winners
  {
    match e
    case OutsideWrite(at, w) => if MayWrite(rule, s, at, w) { InsertMembers(s.tables.log, Entry(at, w, Outside)); }
    case Commit(c) =>
      if c in s.calls && s.calls[c].Confirmed? {
        assert PhaseOk(rule, s, s.calls[c]);
        InsertMembers(s.tables.log, Entry(s.calls[c].at, rule.write(s.calls[c].basis, c), Request(c)));
      }
    case OutsideBeside(_, _, _) =>
    case _ => CallStep(rule, s, e);
  }
}
