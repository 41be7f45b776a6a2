/** Federation retry entries: `pending` becomes `terminal` once, under the peer's lock. */
module RetryEntry {
  import opened Collections
  import opened Store
  import OneShot
  import RetryKey

  const StateField := Other("state")

  /** What a call sets. */
  datatype Outcome = Outcome(resolution: Name, bound: Option<Name>, at: nat)

  predicate IsResolution(n: Name) {
    n in {MergedWord, RefusedTerminal, SourceDeleted, SourceIneligible, PeerUnavailable, RetryExhausted}
  }

  predicate IsBound(n: Name) { n in {Attempts, Age, Both} }

  /** The caller errors refused before the lock: an unknown resolution or bound, an exhausted retry without
      its bound, a bound on any other resolution. */
  predicate ValidOutcome(o: Outcome) {
    && IsResolution(o.resolution) && (o.bound.Some? ==> IsBound(o.bound.value))
    && (o.resolution == RetryExhausted <==> o.bound.Some?)
  }

  /** The fields the table declares; anything else is dropped. */
  const DECLARED: set<Field> := {
    Id, PeerId, Table, RecordId, StateField, Other("firstRefusedAt"), Other("attempts"), Other("episodeId"),
    Other("recordFingerprint"), LastReason, Other("lastAttemptSyncId"), Other("lastAttemptAt"), CompletedAt,
    Resolution, Bound, CreatedAt, UpdatedAt
  }

  datatype Problem = IdMismatch | UnknownState | UnknownReason | OutcomeMismatch

  predicate IsSet(row: Row, f: Field) { f in row && row[f] != Null }

  predicate HasText(row: Row, f: Field) { f in row && row[f].Text? && row[f].s != "" }

  predicate KeyMatches(row: Row) {
    && HasText(row, PeerId) && HasText(row, Table) && HasText(row, RecordId) && Id in row
    && row[Id] == Text(RetryKey.Encode(row[PeerId].s, row[Table].s, row[RecordId].s))
  }

  predicate IsWordOf(row: Row, f: Field, p: Name -> bool) { f in row && row[f].Word? && p(row[f].w) }

  function RowProblem(row: Row, knownReason: Value -> bool): Option<Problem> {
    if !KeyMatches(row) then Some(IdMismatch)
    else if !(StateField in row && row[StateField] in {Word(Pending), Word(Terminal)}) then Some(UnknownState)
    else if IsSet(row, LastReason) && !knownReason(row[LastReason]) then Some(UnknownReason)
    else if row[StateField] == Word(Pending) then
      if IsSet(row, Resolution) || IsSet(row, Bound) then Some(OutcomeMismatch) else None
    else if !IsWordOf(row, Resolution, IsResolution) then Some(OutcomeMismatch)
    else if (if row[Resolution] == Word(RetryExhausted) then !IsWordOf(row, Bound, IsBound) else IsSet(row, Bound))
      then Some(OutcomeMismatch)
    else None
  }

  predicate IsPending(row: Row, knownReason: Value -> bool) {
    StateField in row && row[StateField] == Word(Pending) && RowProblem(row, knownReason).None?
  }

  predicate Unset(row: Row, f: Field) { FieldOf(Some(row), f) in {None, Some(Null)} }

  predicate KnownReason(row: Row, knownReason: Value -> bool) {
    Unset(row, LastReason) || knownReason(FieldOf(Some(row), LastReason).value)
  }

  /** Which rows are pending: those keyed by their own three components, pending, with a reason that is known or
      not set, and with neither a resolution nor a bound. */
  lemma PendingExactly(row: Row, knownReason: Value -> bool)
    ensures IsPending(row, knownReason) <==>
      && KeyMatches(row) && KnownReason(row, knownReason) && FieldOf(Some(row), StateField) == Some(Word(Pending))
      && Unset(row, Resolution) && Unset(row, Bound)
  {
  }

  /** Which terminal rows have no problem: a resolution that is one of the six, and one of the three bounds when it
      is an exhausted retry and no bound otherwise. */
  lemma TerminalExactly(row: Row, knownReason: Value -> bool)
    requires FieldOf(Some(row), StateField) == Some(Word(Terminal))
    ensures RowProblem(row, knownReason).None? <==>
      && KeyMatches(row) && KnownReason(row, knownReason)
      && (if FieldOf(Some(row), Resolution) == Some(Word(RetryExhausted))
            then FieldOf(Some(row), Bound) in {Some(Word(Attempts)), Some(Word(Age)), Some(Word(Both))}
            else Unset(row, Bound)
                 && FieldOf(Some(row), Resolution) in {Some(Word(MergedWord)), Some(Word(RefusedTerminal)),
                      Some(Word(SourceDeleted)), Some(Word(SourceIneligible)), Some(Word(PeerUnavailable))})
  {
  }

  function PickDeclared(row: Row): Row { map f | f in row && f in DECLARED :: row[f] }

  function Terminalized(row: Row, o: Outcome): Row {
    PickDeclared(row) + map[StateField := Word(Terminal), Resolution := Word(o.resolution),
                            Bound := if o.bound.Some? then Word(o.bound.value) else Null,
                            CompletedAt := Date(o.at), UpdatedAt := Date(o.at)]
  }

  /** The transition keeps every declared field it does not set, and no undeclared one. */
  lemma TerminalRowKeeps(row: Row, o: Outcome, f: Field)
    requires f !in {StateField, Resolution, Bound, CompletedAt, UpdatedAt}
    ensures
      var after := Terminalized(row, o);
      && (f in after <==>
            && f in row
            && (f in {Id, PeerId, Table, RecordId, LastReason, CreatedAt}
                || f in {Other("firstRefusedAt"), Other("attempts"), Other("episodeId"), Other("recordFingerprint"),
                         Other("lastAttemptSyncId"), Other("lastAttemptAt")}))
      && (f in after ==> after[f] == row[f])
  {
  }

  lemma TerminalFields(row: Row, o: Outcome)
    ensures
      var after := Terminalized(row, o);
      && StateField in after && after[StateField] == Word(Terminal)
      && Resolution in after && after[Resolution] == Word(o.resolution)
      && Bound in after && after[Bound] == (if o.bound.Some? then Word(o.bound.value) else Null)
      && CompletedAt in after && UpdatedAt in after && after[CompletedAt] == after[UpdatedAt] == Date(o.at)
  {
  }

  lemma TerminalKeyMatches(row: Row, o: Outcome)
    requires KeyMatches(row)
    ensures KeyMatches(Terminalized(row, o))
  {
    TerminalRowKeeps(row, o, Id);
    TerminalRowKeeps(row, o, PeerId);
    TerminalRowKeeps(row, o, Table);
    TerminalRowKeeps(row, o, RecordId);
  }

  /** A transitioned row is a well-formed terminal one: its bound is set exactly when it is exhausted. */
  lemma TerminalRowIsWellFormed(row: Row, o: Outcome, knownReason: Value -> bool)
    requires IsPending(row, knownReason) && ValidOutcome(o)
    ensures
      var after := Terminalized(row, o);
      && RowProblem(after, knownReason).None? && after[StateField] == Word(Terminal)
      && (IsSet(after, Bound) <==> after[Resolution] == Word(RetryExhausted))
  {
    TerminalKeyMatches(row, o);
    TerminalFields(row, o);
    TerminalRowKeeps(row, o, LastReason);
  }

  /** The transition answers at its commit and writes nothing beside the entry. */
  function TransitionRule(outcomes: nat -> Outcome, knownReason: Value -> bool): OneShot.Rule {
    OneShot.Rule(
      (row: Row) => IsPending(row, knownReason),
      (row: Row, id: nat) => Put(Terminalized(row, outcomes(id))),
      false, (id: nat) => OneShot.Beside("", ""),
      false, (row: Row, basis: Row, id: nat) => false,
      (id: nat) => Number(id))
  }

  lemma TransitionIsSound(outcomes: nat -> Outcome, knownReason: Value -> bool)
    ensures OneShot.Sound(TransitionRule(outcomes, knownReason))
  {
    forall row: Row, id: nat ensures !IsPending(Terminalized(row, outcomes(id)), knownReason) { }
  }

  ghost function TransitionRun(outcomes: nat -> Outcome, knownReason: Value -> bool, start: Log, clock: nat,
                               events: seq<OneShot.Event>): OneShot.State
  {
    OneShot.Run(TransitionRule(outcomes, knownReason), OneShot.Start(start, clock), events)
  }

  /** A call that nothing disturbs answers `ok` exactly when the stored entry is pending, and then the stored row is
      the terminal one of its own outcome; otherwise the row stays as it was. */
  lemma UndisturbedTransitionsExactly(outcomes: nat -> Outcome, knownReason: Value -> bool, start: Log, clock: nat,
                                      events: seq<OneShot.Event>, id: nat, f: Field)
    requires OneShot.GoodLog(start, clock) && ValidOutcome(outcomes(id))
    requires OneShot.MayCall(TransitionRun(outcomes, knownReason, start, clock, events), id)
    ensures
      var s := TransitionRun(outcomes, knownReason, start, clock, events);
      var t := OneShot.WholeCall(TransitionRule(outcomes, knownReason), s, id);
      var before, after := OneShot.Stored(s), OneShot.Stored(t);
      && id in t.calls && t.calls[id].Answered?
      && (t.calls[id].ok <==> before.Some? && IsPending(before.value, knownReason))
      && (!t.calls[id].ok ==> after == before)
      && (t.calls[id].ok ==>
            && after.Some? && RowProblem(after.value, knownReason).None?
            && FieldOf(after, StateField) == Some(Word(Terminal))
            && FieldOf(after, Resolution) == Some(Word(outcomes(id).resolution))
            && FieldOf(after, Bound) == Some(if outcomes(id).bound.Some? then Word(outcomes(id).bound.value) else Null)
            && FieldOf(after, CompletedAt) == FieldOf(after, UpdatedAt) == Some(Date(outcomes(id).at))
            && (f in DECLARED - {StateField, Resolution, Bound, CompletedAt, UpdatedAt} ==>
                  FieldOf(after, f) == FieldOf(before, f)))
  {
    TransitionIsSound(outcomes, knownReason);
    OneShot.UndisturbedSucceedsExactly(TransitionRule(outcomes, knownReason), start, clock, events, id);
    var before := OneShot.Stored(TransitionRun(outcomes, knownReason, start, clock, events));
    if before.Some? && IsPending(before.value, knownReason) {
      TerminalRowIsWellFormed(before.value, outcomes(id), knownReason);
      TerminalFields(before.value, outcomes(id));
      if f in DECLARED - {StateField, Resolution, Bound, CompletedAt, UpdatedAt} {
        TerminalRowKeeps(before.value, outcomes(id), f);
      }
    }
  }

  /** Terminal is absorbing and reached at most once: of any number of concurrent calls for one entry at most
      one commits, only over a pending row, and the stored row is then for good the terminal row that call
      made, well formed, with its other declared fields kept. */
  lemma TerminalOnce(outcomes: nat -> Outcome, knownReason: Value -> bool, start: Log, clock: nat,
                     events: seq<OneShot.Event>, f: Field)
    requires OneShot.GoodLog(start, clock) && OneShot.NoOutside(events)
    requires forall id: nat :: ValidOutcome(outcomes(id))
    ensures
      var t := TransitionRun(outcomes, knownReason, start, clock, events);
      var before, after := Fold(start), OneShot.Stored(t);
      && |t.oks| <= |t.ledger.wins| <= 1 && (t.ledger.wins == [] <==> after == before)
      && (t.ledger.wins != [] ==>
            && before.Some? && IsPending(before.value, knownReason) && after.Some?
            && RowProblem(after.value, knownReason).None? && after.value[StateField] == Word(Terminal)
            && (IsSet(after.value, Bound) <==> after.value[Resolution] == Word(RetryExhausted))
            && (f in DECLARED - {StateField, Resolution, Bound, CompletedAt, UpdatedAt} ==>
                  FieldOf(after, f) == FieldOf(before, f)))
  {
    TransitionIsSound(outcomes, knownReason);
    var rule := TransitionRule(outcomes, knownReason);
    OneShot.MovedOnceAndForAll(rule, start, clock, events);
    OneShot.InvAlways(rule, start, clock, events);
    var t := OneShot.Run(rule, OneShot.Start(start, clock), events);
    SubsetCount(t.oks, t.ledger.winners);
    if t.ledger.wins != [] {
      var o := outcomes(t.ledger.wins[0].id);
      TerminalRowIsWellFormed(Fold(start).value, o, knownReason);
      if f in DECLARED - {StateField, Resolution, Bound, CompletedAt, UpdatedAt} {
        TerminalRowKeeps(Fold(start).value, o, f);
      }
      assert OneShot.Stored(t).value[StateField] != Fold(start).value[StateField];
    }
  }

  /** What an answer says, whatever other writers write and whenever the call fails: `ok` exactly when the
      call's own transition, over a pending row, was committed; a failed call committed no change of its own. */
  lemma AnswersAreExact(outcomes: nat -> Outcome, knownReason: Value -> bool, start: Log, clock: nat,
                        events: seq<OneShot.Event>, id: nat)
    requires OneShot.GoodLog(start, clock)
    requires
      var t := TransitionRun(outcomes, knownReason, start, clock, events);
      id in t.calls && t.calls[id].Answered?
    ensures
      var t := TransitionRun(outcomes, knownReason, start, clock, events);
      && (t.calls[id] == OneShot.Answered(true) <==>
            exists w :: w in t.ledger.wins && w.id == id && IsPending(w.before, knownReason))
      && (t.calls[id] == OneShot.Answered(false) <==> forall w :: w in t.ledger.wins ==> w.id != id)
  {
    TransitionIsSound(outcomes, knownReason);
    OneShot.AnswersSpeakTrue(TransitionRule(outcomes, knownReason), start, clock, events, id);
    OneShot.InvAlways(TransitionRule(outcomes, knownReason), start, clock, events);
  }

  ghost predicate OwnEntry(log: Log, id: nat) { exists e :: e in log && e.writer == Request(id) }

  /** A failed call leaves no entry of its own in the row's history, whatever other writers do. */
  lemma {:induction false} FailedCallChangesNothing(outcomes: nat -> Outcome, knownReason: Value -> bool, start: Log,
                                                    clock: nat, events: seq<OneShot.Event>, id: nat)
    requires OneShot.GoodLog(start, clock) && forall e :: e in start ==> e.writer.Outside?
    ensures
      var t := TransitionRun(outcomes, knownReason, start, clock, events);
      && (OwnEntry(t.tables.log, id) ==> id in t.ledger.winners)
      && (id in t.calls && t.calls[id] == OneShot.Answered(false) ==> !OwnEntry(t.tables.log, id))
  {
    TransitionIsSound(outcomes, knownReason);
    var rule := TransitionRule(outcomes, knownReason);
    OneShot.InvAlways(rule, start, clock, events);
    if events != [] {
      var init, last := events[..|events| - 1], events[|events| - 1];
      FailedCallChangesNothing(outcomes, knownReason, start, clock, init, id);
      OneShot.InvAlways(rule, start, clock, init);
      var s := OneShot.Run(rule, OneShot.Start(start, clock), init);
      OneShot.EntriesOfStep(rule, s, last, id);
    }
    var t := OneShot.Run(rule, OneShot.Start(start, clock), events);
    if id in t.calls { assert OneShot.CallOk(rule, t, id); }
  }
}
