/** Ordinary Memory DELETE: the row and its host pointer are removed and a deletion-history record is
    added in one transaction, and undone when the committed store still shows the row. */
module MemoryDelete {
  import opened Store

  const ATTEMPTS: nat := 3

  datatype MemoryRow = MemoryRow(owner: string, token: nat, durable: bool, body: string)

  /** A host pointer: `identity` stands for its memory id, source, scope, author, token and receipt time. */
  datatype Pointer = Pointer(identity: nat, rest: string)

  datatype Answer =
    | Deleted                       // true
    | Absent                        // false
    | OwnerChanged | RowChanged     // refusals that wrote nothing
    | NotApplied                    // delete_not_applied
    | PointerDeleteFailed           // 500, the transaction aborted
    | CompensationFailed            // 500
    | Threw(afterCommit: bool)      // a plain error

  const NO_ROW := MemoryRow("", 0, false, "")

  predicate SameTarget(stored: MemoryRow, target: MemoryRow) {
    stored.owner == target.owner && stored.token == target.token
  }

  // ---- What a removal's commit leaves, in the order of times ----

  function Removal(at: nat): Entry { Entry(at, Delete, Request(0)) }

  /** A removal leaves no row exactly when none was stored, or when no write timed after it was committed
      before it; otherwise the store drops it. */
  lemma RemovedExactly(log: Log, at: nat)
    requires Ordered(log) && Fresh(log, at)
    ensures Fold(Insert(log, Removal(at))).None? <==> Fold(log).None? || forall i :: 0 <= i < |log| ==> log[i].at < at
  {
    var below, above := Around(log, Removal(at));
    LastDecides(log);
    LastDecides(Insert(log, Removal(at)));
    if above == [] {
      assert forall i :: 0 <= i < |log| ==> log[i] == below[i];
    } else {
      assert log[|log| - 1] == above[|above| - 1];
    }
  }

  /** The confirmation reads the row alone. So a confirmed removal of row and pointer leaves no pointer, for
      every history of the pointer's writes, exactly when no pointer was stored at its commit. */
  lemma PointerGoneExactly(rows: Log, at: nat, pointer: Option<Row>)
    requires Ordered(rows) && Fresh(rows, at) && Fold(Insert(rows, Removal(at))).None?
    ensures
      (forall log: Log :: Ordered(log) && Fresh(log, at) && Fold(log) == pointer ==> Fold(Insert(log, Removal(at))).None?)
      <==> pointer.None?
  {
    if pointer.Some? {
      var log := PointerRemains(at, pointer.value);
    } else {
      forall log: Log | Ordered(log) && Fresh(log, at) && Fold(log) == pointer
        ensures Fold(Insert(log, Removal(at))).None?
      {
        RemovedExactly(log, at);
      }
    }
  }

  /** The pointer was put again, timed after the delete's read, before the delete's commit. */
  lemma PointerRemains(at: nat, pointer: Row) returns (log: Log)
    ensures log == [Entry(at + 1, Put(pointer), Outside)] && Ordered(log) && Fresh(log, at) && Fold(log) == Some(pointer)
    ensures Fold(Insert(log, Removal(at))) == Some(pointer)
  {
    log := [Entry(at + 1, Put(pointer), Outside)];
    assert log[..0] == [];
    assert Fold(log) == Apply(Fold(log[..0]), Put(pointer));
    assert log[0].at > at;
    DroppedByLaterFullWrite(log, Removal(at), 0);
  }

  /** Such a run, in one commit: the row is gone and the delete is confirmed, the pointer remains. */
  lemma ConfirmedDeleteLeavesPointer(row: Row, pointer: Row)
    ensures
      var rows, pointers := [Entry(0, Put(row), Outside)], [Entry(2, Put(pointer), Outside)];
      Fold(Insert(rows, Removal(1))).None? && Fold(Insert(pointers, Removal(1))) == Some(pointer)
  {
    RemovedExactly([Entry(0, Put(row), Outside)], 1);
    var pointers := PointerRemains(1, pointer);
  }

  /** What happens around one attempt: a throw before its commit, a failing pointer delete, removals the store
      drops, a confirmation that cannot be read, and an undoing that throws or whose record stays. */
  datatype Luck = Luck(throws: bool, pointerFails: bool, rowDropped: bool, pointerDropped: bool, unreadable: bool,
                       undoThrows: bool, historyLeft: bool)

  /** The committed store around one Memory id, changed by this call and by other writers. */
  class Rows {
    var row: Option<MemoryRow>
    var pointer: Option<Pointer>
    var history: set<nat>                // deletion-history records by id
    var nextId: nat                      // the next random id, never used before
    ghost var issued: set<nat>           // the history ids this call recorded
    ghost var staged: Option<MemoryRow>  // the row this call's last commit removes
    ghost var pointerDropped: bool       // the store dropped the pointer removal of that commit
    ghost var otherPointers: bool        // another writer stored a pointer during this call
    ghost var otherRows: bool            // another writer wrote the row during this call

    ghost predicate Valid()
      reads this
    {
      && (forall h :: h in history ==> h < nextId)
      && (forall h :: h in issued ==> h < nextId)
    }

    /** The history records of this call that are still stored. */
    ghost function Mine(): set<nat>
      reads this
    {
      history * issued
    }

    /** Other writers: any change of the row; pointers and history records are added, never removed. */
    method Interfere()
      requires Valid()
      modifies this`row, this`pointer, this`history, this`nextId, this`otherPointers, this`otherRows
      ensures Valid() && Mine() == old(Mine())
      ensures (old(otherPointers) ==> otherPointers) && (old(otherRows) ==> otherRows)
      ensures !otherPointers ==> pointer == old(pointer)
      ensures !otherRows ==> row == old(row)
      ensures old(pointer).Some? ==> pointer.Some?
    {
      if * {
        row := *;
        otherRows := true;
      }
      if * {
        var p: Pointer := *;
        pointer := Some(p);
        otherPointers := true;
      }
      if * {
        history := history + {nextId};
        nextId := nextId + 1;
        assert Mine() == old(Mine());
      }
    }

    /** Commit the staged removals and the history record of a durable row. The store may drop either
        removal; a record under a new id is kept. */
    method CommitRemoval(removed: MemoryRow, luck: Luck) returns (historyId: Option<nat>)
      requires Valid()
      modifies this`row, this`pointer, this`history, this`nextId, this`issued, this`staged, this`pointerDropped
      ensures Valid() && staged == Some(removed) && pointerDropped == luck.pointerDropped
      ensures row == if luck.rowDropped then old(row) else None
      ensures pointer == if luck.pointerDropped then old(pointer) else None
      ensures historyId.Some? <==> removed.durable
      ensures removed.durable ==> historyId.value !in old(Mine())
      ensures Mine() == old(Mine()) + (if removed.durable then {historyId.value} else {})
    {
      staged, pointerDropped := Some(removed), luck.pointerDropped;
      if !luck.rowDropped { row := None; }
      if !luck.pointerDropped { pointer := None; }
      historyId := None;
      if removed.durable {
        historyId := Some(nextId);
        history := history + {nextId};
        issued := issued + {nextId};
        nextId := nextId + 1;
        assert Mine() == old(Mine()) + {historyId.value};
      }
    }

    /** Delete a history record; the store may drop the removal. */
    method RemoveHistory(id: nat, luck: Luck)
      requires Valid()
      modifies this`history
      ensures Valid() && history == if luck.historyLeft then old(history) else old(history) - {id}
    {
      if !luck.historyLeft { history := history - {id}; }
    }

    /** Put the captured pointer back unless one is stored: the commit-time guard keeps a stored one. */
    method RestorePointerIfAbsent(captured: Pointer) returns (expected: Pointer)
      modifies this`pointer
      ensures pointer == Some(expected)
      ensures pointer == if old(pointer).Some? then old(pointer) else Some(captured)
    {
      if pointer.None? { pointer := Some(captured); }
      expected := pointer.value;
    }

    /** Undo the partial writes of a removal that did not land. Afterwards the history record is gone and
        a pointer is stored when one was captured: the captured one, unless another writer stored its own. */
    method CompensateDroppedRemoval(historyId: Option<nat>, pointerBefore: Option<Pointer>, luck: Luck) returns (failed: bool)
      requires Valid()
      modifies this`row, this`pointer, this`history, this`nextId, this`otherPointers, this`otherRows
      ensures Valid() && (old(otherPointers) ==> otherPointers) && (old(otherRows) ==> otherRows)
      ensures !otherRows ==> row == old(row)
      ensures !failed ==> Mine() == old(Mine()) - (if historyId.Some? then {historyId.value} else {})
      ensures !failed && (pointerBefore.Some? || old(pointer).Some?) ==> pointer.Some?
      ensures !failed && !otherPointers ==>
        pointer == if old(pointer).None? then pointerBefore else old(pointer)
      // It fails when a step throws or its record stays, and otherwise only over another writer's pointer.
      ensures luck.undoThrows || (luck.historyLeft && historyId.Some?) ==> failed
      ensures failed ==> luck.undoThrows || (luck.historyLeft && historyId.Some?) || otherPointers
    {
      failed := false;
      if luck.undoThrows { return true; }
      if historyId.Some? {
        RemoveHistory(historyId.value, luck);
        if luck.historyLeft { return true; }
        assert Mine() == old(Mine()) - {historyId.value};
        Interfere();
      }
      if pointerBefore.Some? {
        var expected := pointer;
        if expected.None? {
          Interfere();
          var restored := RestorePointerIfAbsent(pointerBefore.value);
          expected := Some(restored);
        }
        Interfere();
        var resulting := pointer;
        if resulting.None? || resulting.value.identity != expected.value.identity { return true; }
      }
    }

    /** The row is the caller's, and still the one read before. */
    ghost predicate Authorized(stored: Option<MemoryRow>, caller: Option<string>, target: Option<MemoryRow>) {
      && stored.Some? && (caller.Some? ==> stored.value.owner == caller.value)
      && target.Some? && stored.value.owner == target.value.owner && stored.value.token == target.value.token
    }

    /** The refusal of a row that is not: it is gone, another's, or changed. */
    ghost predicate Refuses(answer: Answer, stored: Option<MemoryRow>, caller: Option<string>, target: Option<MemoryRow>) {
      if stored.None? then answer.Absent?
      else if caller.Some? && stored.value.owner != caller.value then answer.OwnerChanged?
      else answer.RowChanged? && (target.None? || stored.value.owner != target.value.owner || stored.value.token != target.value.token)
    }

    /** What an attempt over an authorized row answers when no other writer interferes; nothing when its removal
        was dropped and undone. */
    ghost predicate Outcome(answer: Option<Answer>, luck: Luck, durable: bool) {
      if luck.throws then answer == Some(Threw(false))
      else if luck.pointerFails then answer == Some(PointerDeleteFailed)
      else if luck.unreadable then answer == Some(Threw(true))
      else if !luck.rowDropped then answer == Some(Deleted)
      else if luck.undoThrows || (luck.historyLeft && durable) then answer == Some(CompensationFailed)
      else answer.None?
    }

    /** The pointer and this call's history records are as before. */
    ghost predicate Unchanged(before: Option<Pointer>, mine: set<nat>)
      reads this
    {
      Mine() == mine && (before.Some? ==> pointer.Some?) && (!otherPointers ==> pointer == before)
    }

    /** One attempt: the owned read and its checks, the committed removals, the confirmation, and the undoing of a
        removal that did not land. */
    method AttemptDelete(caller: Option<string>, target: Option<MemoryRow>, luck: Luck) returns (answer: Option<Answer>)
      requires Valid()
      modifies this
      ensures Valid() && (old(otherPointers) ==> otherPointers) && (old(otherRows) ==> otherRows)
      // true: the row is absent, it was the authorized one, and one more record of this call is stored when its
      // durability asks for one.
      ensures answer == Some(Deleted) ==>
        && row.None? && Authorized(staged, caller, target)
        && |Mine()| == old(|Mine()|) + (if staged.value.durable then 1 else 0)
        && (!otherPointers ==> pointer == if pointerDropped then old(pointer) else None)
      // A refusal is of the row stored now; it, and a removal undone, leave pointer and records as they were.
      ensures answer.Some? && (answer.value.Absent? || answer.value.OwnerChanged? || answer.value.RowChanged?) ==>
        Refuses(answer.value, row, caller, target)
      ensures answer.None? || answer.value.Absent? || answer.value.OwnerChanged? || answer.value.RowChanged? ==>
        Unchanged(old(pointer), old(Mine()))
      ensures answer == Some(PointerDeleteFailed) || answer == Some(Threw(false)) ==> Unchanged(old(pointer), old(Mine()))
      ensures answer != Some(NotApplied)
      ensures answer.Some? && !answer.value.Deleted? && !otherRows && answer != Some(Threw(true)) ==> row == old(row)
      // A removal that landed is undone only when another writer stored the row again.
      ensures answer.None? && !otherRows ==> luck.rowDropped && row == old(row)
      // Without other writers.
      ensures !otherRows && !otherPointers && old(Authorized(row, caller, target)) ==> Outcome(answer, luck, old(row).value.durable)
      ensures !otherRows && !old(Authorized(row, caller, target)) ==>
        answer == Some(Threw(false)) || (answer.Some? && Refuses(answer.value, old(row), caller, target))
      ensures answer == Some(Threw(false)) <==> luck.throws
    {
      var refusal, stored := ReadAuthorized(caller, target, luck);
      if refusal.Some? { return refusal; }
      var pointerBefore := pointer;
      if luck.pointerFails { return Some(PointerDeleteFailed); }
      answer := CommitAndConfirm(stored, pointerBefore, luck);
    }

    /** The owned read, its checks, and the confirmation of the owner. */
    method ReadAuthorized(caller: Option<string>, target: Option<MemoryRow>, luck: Luck)
      returns (refusal: Option<Answer>, stored: MemoryRow)
      requires Valid()
      modifies this`row, this`pointer, this`history, this`nextId, this`otherPointers, this`otherRows
      ensures Valid() && (old(otherPointers) ==> otherPointers) && (old(otherRows) ==> otherRows)
      ensures Unchanged(old(pointer), old(Mine())) && (!otherRows ==> row == old(row))
      ensures refusal.None? ==> Authorized(Some(stored), caller, target) && (!otherRows ==> old(row) == Some(stored))
      ensures refusal == Some(Threw(false)) <==> luck.throws
      ensures refusal.Some? && !luck.throws ==> Refuses(refusal.value, row, caller, target)
      ensures refusal.Some? && !luck.throws && !otherRows ==> !old(Authorized(row, caller, target))
    {
      refusal, stored := None, NO_ROW;
      Interfere();
      if luck.throws { return Some(Threw(false)), stored; }
      if row.None? { return Some(Absent), stored; }
      stored := row.value;
      if caller.Some? && stored.owner != caller.value { return Some(OwnerChanged), stored; }
      if target.None? || !SameTarget(stored, target.value) { return Some(RowChanged), stored; }
      if caller.Some? {
        Interfere();
        if row.Some? && row.value.owner != caller.value { return Some(OwnerChanged), stored; }
      }
    }

    /** The commit of the removals, the confirmation, and the undoing. */
    method CommitAndConfirm(stored: MemoryRow, pointerBefore: Option<Pointer>, luck: Luck) returns (answer: Option<Answer>)
      requires Valid() && pointer == pointerBefore
      modifies this
      ensures Valid() && (old(otherPointers) ==> otherPointers) && (old(otherRows) ==> otherRows) && staged == Some(stored)
      ensures answer.None? || answer.value.Deleted? || answer.value.CompensationFailed? || answer == Some(Threw(true))
      ensures answer == Some(Deleted) ==>
        && row.None? && |Mine()| == old(|Mine()|) + (if stored.durable then 1 else 0)
        && (!otherPointers ==> pointer == if pointerDropped then pointerBefore else None)
      ensures answer.None? ==> Unchanged(pointerBefore, old(Mine()))
      ensures answer == Some(Threw(true)) <==> luck.unreadable
      ensures !otherRows && !luck.unreadable ==>
        if !luck.rowDropped || old(row).None? then answer == Some(Deleted)
        else answer != Some(Deleted) && row == old(row)
             && (!otherPointers ==> (answer.Some? <==> luck.undoThrows || (luck.historyLeft && stored.durable)))
    {
      Interfere();
      ghost var mine := Mine();
      var historyId := CommitRemoval(stored, luck);
      Interfere();
      if luck.unreadable { return Some(Threw(true)); }
      if row.None? { return Some(Deleted); }
      var failed := CompensateDroppedRemoval(historyId, pointerBefore, luck);
      answer := if failed then Some(CompensationFailed) else None;
    }

    /** The delete, from its owned attempts to its answer; the last state is the one its last read saw.
        `caller` is the agent a non-admin request deletes for; `target` is the row read before; `script` what the
        store does in each attempt. */
    method Delete(caller: Option<string>, target: Option<MemoryRow>, script: seq<Luck>) returns (answer: Answer, used: nat)
      requires Valid() && issued == {} && !otherPointers && !otherRows && |script| >= ATTEMPTS
      modifies this
      ensures Valid() && 1 <= used <= ATTEMPTS
      // true: the row is absent, it was the authorized one, and one record of this call remains when its
      // durability asks for one. Nothing is confirmed about the pointer: a dropped removal leaves it.
      ensures answer.Deleted? ==>
        && row.None? && Authorized(staged, caller, target)
        && |Mine()| == (if staged.value.durable then 1 else 0)
      ensures answer.Deleted? && !otherPointers ==>
        pointer == if pointerDropped then old(pointer) else None
      // Every refusal is of the row stored now, and leaves no history record of this call and the pointer as it was.
      ensures answer.Absent? || answer.OwnerChanged? || answer.RowChanged? ==> Refuses(answer, row, caller, target)
      ensures answer.Absent? || answer.OwnerChanged? || answer.RowChanged? || answer.NotApplied? ==>
        && Mine() == {}
        && (old(pointer).Some? ==> pointer.Some?)
        && (!otherPointers ==> pointer == old(pointer))
      ensures answer.PointerDeleteFailed? || answer == Threw(false) ==>
        Mine() == {} && (!otherPointers ==> pointer == old(pointer))
      // The row was absent from the start, or another writer removed it: no removal of this call had landed.
      ensures answer.Absent? && !otherRows ==> old(row).None?
      ensures answer.NotApplied? && !otherRows ==> row == old(row) && forall i :: 0 <= i < ATTEMPTS ==> script[i].rowDropped
      // Without other writers, the answer is that of the first attempt whose removal is not dropped and undone.
      ensures !otherRows && !otherPointers && old(Authorized(row, caller, target)) ==>
        && (forall i :: 0 <= i < used - 1 ==> Outcome(None, script[i], old(row).value.durable))
        && (answer.NotApplied? ==> used == ATTEMPTS)
        && Outcome(if answer.NotApplied? then None else Some(answer), script[used - 1], old(row).value.durable)
      ensures !otherRows && !old(Authorized(row, caller, target)) ==> used == 1
      ensures !otherRows && !old(Authorized(row, caller, target)) ==>
        if script[0].throws then answer == Threw(false) else Refuses(answer, old(row), caller, target)
    {
      used := 1;
      assert Mine() == {};
      while true
        invariant Valid() && 1 <= used <= ATTEMPTS && Mine() == {}
        invariant old(pointer).Some? ==> pointer.Some?
        invariant !otherPointers ==> pointer == old(pointer)
        invariant !otherRows ==> row == old(row) && forall i :: 0 <= i < used - 1 ==> script[i].rowDropped
        invariant !otherRows && !otherPointers && old(Authorized(row, caller, target)) ==>
          forall i :: 0 <= i < used - 1 ==> Outcome(None, script[i], old(row).value.durable)
        invariant !otherRows && !old(Authorized(row, caller, target)) ==> used == 1
        decreases ATTEMPTS - used
      {
        var ended := AttemptDelete(caller, target, script[used - 1]);
        if ended.Some? { return ended.value, used; }
        if used == ATTEMPTS { return NotApplied, used; }
        used := used + 1;
      }
    }
  }
}
