/** Superseding a Memory: the successor is written before its predecessor is closed (an owner's close), or
    both in one transaction (a close a write grant authorizes), against other writers of both rows. */
module Supersede {
  import opened Store

  const ATTEMPTS: nat := 3

  const Private := Text("private")
  const EmptyVector := Text("[]")
  const Embedding := Other("embedding")
  const ValidFrom := Other("validFrom")

  /** The close a write was authorized to perform: the owner the authorization saw, if it must still hold,
      and whether a grant stands behind it. */
  datatype Close = Close(owner: Option<Value>, granted: bool)

  datatype Answer = Written | Refused | RowChanged | OutcomeUnknown

  predicate Open(stored: Option<Row>) {
    stored.Some? && (ValidTo !in stored.value || stored.value[ValidTo] == Null)
  }

  predicate OwnedBy(row: Row, owner: Option<Value>) {
    owner.Some? ==> AgentId in row && row[AgentId] == owner.value
  }

  predicate ReadsPrivate(row: Row) { Visibility in row && row[Visibility] == Private }

  /** An owner matches exactly the row that holds it as its agent, and no owner any row; a row reads private exactly
      when its visibility is the word for it. */
  lemma AuthorizationExactly(row: Row, owner: Value)
    ensures OwnedBy(row, None)
    ensures OwnedBy(row, Some(owner)) <==> FieldOf(Some(row), AgentId) == Some(owner)
    ensures ReadsPrivate(row) <==> FieldOf(Some(row), Visibility) == Some(Text("private"))
  {
  }

  /** The first of two fields that is set and not null. */
  function FirstOf(row: Row, f: Field, g: Field): Value {
    if f in row && row[f] != Null then row[f] else if g in row then row[g] else Null
  }

  /** The two fields a close sets, from the successor's dates. */
  function ClosePatch(successor: Row): Row {
    map[ValidTo := FirstOf(successor, ValidFrom, CreatedAt), UpdatedAt := FirstOf(successor, CreatedAt, UpdatedAt)]
  }

  /** The closed row; an owner's close stores an empty vector as none. */
  function ClosedRow(stored: Row, successor: Row, declared: set<Field>, granted: bool): Row {
    var closed := stored + ClosePatch(successor);
    map f | f in closed && f in declared ::
      if !granted && f == Embedding && closed[f] == EmptyVector then Null else closed[f]
  }

  /** A close changes nothing of the row but the two fields it sets, drops what is not declared, and stores
      an owner's empty vector as none. */
  lemma CloseKeepsDeclared(stored: Row, successor: Row, declared: set<Field>, granted: bool, f: Field)
    requires f != ValidTo && f != UpdatedAt
    ensures
      FieldOf(Some(ClosedRow(stored, successor, declared, granted)), f)
      == if f !in declared then None
         else if !granted && f == Embedding && FieldOf(Some(stored), f) == Some(EmptyVector) then Some(Null)
         else FieldOf(Some(stored), f)
  {
  }

  predicate Dated(row: Row, f: Field) { f in row && row[f] != Null }

  /** A closed row, from the row it closes and its successor: valid until the successor's validFrom, or without
      one its createdAt; updated at its createdAt, or without one its updatedAt; otherwise the declared fields of
      the row it closes. */
  ghost predicate Closes(closed: Row, stored: Row, successor: Row, declared: set<Field>, granted: bool) {
    && ValidTo in closed && UpdatedAt in closed
    && (Dated(successor, ValidFrom) ==> closed[ValidTo] == successor[ValidFrom])
    && (!Dated(successor, ValidFrom) && Dated(successor, CreatedAt) ==> closed[ValidTo] == successor[CreatedAt])
    && (!Dated(successor, ValidFrom) && !Dated(successor, CreatedAt) ==> closed[ValidTo] == Null)
    && (Dated(successor, CreatedAt) ==> closed[UpdatedAt] == successor[CreatedAt])
    && (!Dated(successor, CreatedAt) && Dated(successor, UpdatedAt) ==> closed[UpdatedAt] == successor[UpdatedAt])
    && (!Dated(successor, CreatedAt) && !Dated(successor, UpdatedAt) ==> closed[UpdatedAt] == Null)
    && (forall f :: f != ValidTo && f != UpdatedAt ==>
          FieldOf(Some(closed), f)
          == if f !in declared then None
             else if !granted && f == Embedding && FieldOf(Some(stored), f) == Some(EmptyVector) then Some(Null)
             else FieldOf(Some(stored), f))
  }

  lemma ClosedRowCloses(stored: Row, successor: Row, declared: set<Field>, granted: bool)
    requires ValidTo in declared && UpdatedAt in declared
    ensures Closes(ClosedRow(stored, successor, declared, granted), stored, successor, declared, granted)
  {
    forall f | f != ValidTo && f != UpdatedAt
      ensures FieldOf(Some(ClosedRow(stored, successor, declared, granted)), f)
           == if f !in declared then None
              else if !granted && f == Embedding && FieldOf(Some(stored), f) == Some(EmptyVector) then Some(Null)
              else FieldOf(Some(stored), f)
    {
      CloseKeepsDeclared(stored, successor, declared, granted, f);
    }
  }

  /** So a closed row is not open, once its successor has either date. */
  lemma ClosedIsNotOpen(closed: Row, stored: Row, successor: Row, declared: set<Field>, granted: bool)
    requires Closes(closed, stored, successor, declared, granted)
    requires Dated(successor, ValidFrom) || Dated(successor, CreatedAt)
    ensures !Open(Some(closed))
  {
  }

  ghost predicate NoRequest(log: Log) { forall x :: x in log ==> x.writer.Outside? }

  ghost predicate KeptSince(log: Log, start: nat) {
    forall x :: x in log && start <= x.at ==> !x.write.Delete?
  }

  ghost predicate Committed(log: Log, start: nat) {
    exists x :: x in log && x.writer.Request? && start <= x.at
  }

  /** A successor nobody has deleted since the request began is stored once its put has committed. */
  lemma CommittedIsStored(log: Log, start: nat)
    requires Ordered(log) && KeptSince(log, start) && Committed(log, start)
    ensures Fold(log).Some?
  {
    var x :| x in log && x.writer.Request? && start <= x.at;
    assert x.at <= log[|log| - 1].at && log[|log| - 1] in log;
    LastDecides(log);
  }

  /** What one more write does to the facts a request keeps. */
  lemma Inserted(log: Log, e: Entry, start: nat)
    requires Ordered(log) && Fresh(log, e.at)
    ensures Ordered(Insert(log, e))
    ensures |Insert(log, e)| == |log| + 1 && forall x :: x in Insert(log, e) <==> x == e || x in log
    ensures forall t: nat :: t != e.at && Fresh(log, t) ==> Fresh(Insert(log, e), t)
    ensures NoRequest(Insert(log, e)) <==> NoRequest(log) && e.writer.Outside?
    ensures Committed(Insert(log, e), start) <==> Committed(log, start) || (e.writer.Request? && start <= e.at)
    ensures KeptSince(log, start) && (e.at < start || !e.write.Delete?) ==> KeptSince(Insert(log, e), start)
  {
    InsertOrdered(log, e);
    InsertMembers(log, e);
    InsertShape(log, e);
    forall t: nat | t != e.at && Fresh(log, t) ensures Fresh(Insert(log, e), t) {
      assert forall i :: 0 <= i < |Insert(log, e)| ==> Insert(log, e)[i] in Insert(log, e);
    }
  }

  ghost predicate AllBefore(log: Log, t: nat) { forall i :: 0 <= i < |log| ==> log[i].at < t }

  lemma LatestStands(log: Log, e: Entry)
    requires e.write.Put?
    ensures AllBefore(log, e.at) ==> Fold(Insert(log, e)) == Some(e.write.row)
  {
    if AllBefore(log, e.at) {
      AppendLatest(log, e);
      FoldAppend(log, e);
    }
  }

  predicate Unused(log: Log, t: nat) { forall i | 0 <= i < |log| :: log[i].at != t }

  /** The two rows of one supersede. Every change of the store is one call of a step method, and each of
      them keeps `Valid()`: a request stopped after any step leaves it. */
  class Versions {
    const declared: set<Field>
    const granted: bool               // the close needs a grant
    const start: nat                  // the clock when the request began
    var predecessor: Log
    var successor: Log
    var clock: nat
    var grantHeld: bool
    var txn: Option<nat>              // the time of this request's open transaction: no other write has it

    /** The successor is committed or the predecessor is open; and a granted close commits with its
        successor or not at all. */
    ghost predicate Valid()
      reads this
    {
      && ValidTo in declared && UpdatedAt in declared
      && Ordered(predecessor) && Ordered(successor) && start <= clock
      && (forall x :: x in predecessor ==> x.at < clock)
      && (forall x :: x in successor ==> x.at < clock)
      && KeptSince(successor, start)
      && (txn.Some? ==> txn.value < clock && Fresh(predecessor, txn.value) && Fresh(successor, txn.value))
      && (Open(Fold(predecessor)) || Committed(successor, start))
      && (!NoRequest(predecessor) ==> Committed(successor, start))
      && (granted && Committed(successor, start) ==> !NoRequest(predecessor))
    }

    ghost predicate Untouched()
      reads this
    {
      NoRequest(predecessor) && !Committed(successor, start)
    }

    constructor (declared: set<Field>, granted: bool, predecessor: Log, successor: Log, clock: nat)
      requires Ordered(predecessor) && Ordered(successor) && NoRequest(predecessor) && NoRequest(successor)
      requires forall x :: x in predecessor ==> x.at < clock
      requires forall x :: x in successor ==> x.at < clock
      requires Open(Fold(predecessor)) && ValidTo in declared && UpdatedAt in declared
      ensures Valid() && Untouched() && this.declared == declared && this.granted == granted && txn == None
    {
      this.declared, this.granted, this.predecessor, this.successor := declared, granted, predecessor, successor;
      this.start, this.clock, this.grantHeld, this.txn := clock, clock, true, None;
    }

    ghost predicate Same(p: Log, q: Log, t: nat, held: bool)
      reads this
    {
      predecessor == p && successor == q && clock == t && grantHeld == held
    }

    /** Other writers: any writes, timed at their commit or earlier, that leave an open predecessor open
        and do not delete the successor; and the owner may revoke the grant. */
    method Interfere(writes: nat)
      requires Valid()
      modifies this`predecessor, this`successor, this`clock, this`grantHeld
      ensures Valid() && clock >= old(clock)
      ensures writes == 0 ==> Same(old(predecessor), old(successor), old(clock), old(grantHeld))
      ensures forall e :: e in old(predecessor) ==> e in predecessor
      ensures predecessor == old(predecessor) || |predecessor| > |old(predecessor)|
      ensures NoRequest(predecessor) <==> old(NoRequest(predecessor))
      ensures Committed(successor, start) <==> old(Committed(successor, start))
    {
      var i := 0;
      while i < writes
        invariant Valid() && clock >= old(clock)
        invariant forall e :: e in old(predecessor) ==> e in predecessor
        invariant predecessor == old(predecessor) || |predecessor| > |old(predecessor)|
        invariant i <= writes && (i == 0 ==> Same(old(predecessor), old(successor), old(clock), old(grantHeld)))
        invariant NoRequest(predecessor) <==> old(NoRequest(predecessor))
        invariant Committed(successor, start) <==> old(Committed(successor, start))
      {
        InterfereOnce();
        i := i + 1;
      }
    }

    method InterfereOnce()
      requires Valid()
      modifies this`predecessor, this`successor, this`clock, this`grantHeld
      ensures Valid() && clock == old(clock) + 1
      ensures forall e :: e in old(predecessor) ==> e in predecessor
      ensures predecessor == old(predecessor) || |predecessor| > |old(predecessor)|
      ensures NoRequest(predecessor) <==> old(NoRequest(predecessor))
      ensures Committed(successor, start) <==> old(Committed(successor, start))
    {
      var t: nat := *;
      var w: Write := *;
      clock := clock + 1;
      grantHeld := *;
      if t < clock && txn != Some(t) {
        if * { WritePredecessor(Entry(t, w, Outside)); } else { WriteSuccessorRow(Entry(t, w, Outside)); }
      }
    }

    method WritePredecessor(e: Entry)
      requires Valid() && e.writer.Outside? && e.at < clock && txn != Some(e.at)
      modifies this`predecessor
      ensures Valid() && (NoRequest(predecessor) <==> old(NoRequest(predecessor)))
      ensures forall e :: e in old(predecessor) ==> e in predecessor
      ensures predecessor == old(predecessor) || |predecessor| > |old(predecessor)|
    {
      if Unused(predecessor, e.at) {
        var log := Insert(predecessor, e);
        Inserted(predecessor, e, start);
        if Open(Fold(predecessor)) ==> Open(Fold(log)) { predecessor := log; }
      }
    }

    method WriteSuccessorRow(e: Entry)
      requires Valid() && e.writer.Outside? && e.at < clock && txn != Some(e.at)
      modifies this`successor
      ensures Valid() && (Committed(successor, start) <==> old(Committed(successor, start)))
    {
      if Unused(successor, e.at) && (e.at < start || !e.write.Delete?) {
        Inserted(successor, e, start);
        successor := Insert(successor, e);
      }
    }

    /** Open a transaction: its writes carry the time of its first read. */
    method Begin() returns (t: nat)
      requires Valid()
      modifies this`clock, this`txn
      ensures Valid() && txn == Some(t) && t == old(clock) && AllBefore(predecessor, t) && AllBefore(successor, t)
    {
      t := clock;
      txn, clock := Some(t), clock + 1;
    }

    method StageClose(stored: Row, row: Row) returns (staged: Row)
      requires Valid()
      ensures Closes(staged, stored, row, declared, granted)
    {
      staged := ClosedRow(stored, row, declared, granted);
      ClosedRowCloses(stored, row, declared, granted);
    }

    /** The commit of an owner's close, its successor already committed. */
    method CommitClose(close: Entry)
      requires Valid() && Committed(successor, start) && close.writer.Request? && close.at < clock && Fresh(predecessor, close.at)
      requires close.write.Put?
      modifies this`predecessor, this`txn
      ensures Valid() && predecessor == Insert(old(predecessor), close) && |predecessor| == |old(predecessor)| + 1
      ensures old(AllBefore(predecessor, close.at)) ==> Fold(predecessor) == Some(close.write.row)
    {
      Inserted(predecessor, close, start);
      LatestStands(predecessor, close);
      predecessor, txn := Insert(predecessor, close), None;
    }

    /** The predecessor is stored and owned as authorized. */
    ghost predicate Closable(owner: Option<Value>)
      reads this
    {
      Fold(predecessor).Some? && OwnedBy(Fold(predecessor).value, owner)
    }

    /** One attempt of an owner's close: the read, the staged put, the re-read and the commit over the row
        read. Returns whether the row had changed instead. */
    method CloseAttempt(row: Row, owner: Option<Value>, noise: nat)
      returns (changed: bool, closed: Option<Row>, ghost read: Option<Row>, ghost at: nat, ghost confirmed: Log)
      requires Valid() && !granted && Committed(successor, start) && NoRequest(predecessor)
      modifies this`predecessor, this`successor, this`clock, this`grantHeld, this`txn
      ensures Valid() && Committed(successor, start) && |predecessor| >= |old(predecessor)|
      ensures closed.Some? ==>
        && !changed && read.Some? && OwnedBy(read.value, owner) && Closes(closed.value, read.value, row, declared, granted)
        && Ordered(confirmed) && Fresh(confirmed, at) && Fold(confirmed) == read
        && predecessor == Insert(confirmed, Entry(at, Put(closed.value), Request(0)))
      // Without a close, either the predecessor cannot be closed, or others have written it meanwhile.
      ensures closed.None? ==> NoRequest(predecessor)
      ensures closed.None? && !changed ==> !Closable(owner)
      ensures changed ==> closed.None? && noise > 0 && |predecessor| > |old(predecessor)|
      ensures old(Closable(owner)) && !changed ==> closed.Some?
      ensures noise == 0 ==> successor == old(successor) && (closed.Some? ==> Fold(predecessor) == closed)
    {
      changed, closed := false, None;
      var t := Begin();
      var stored := Fold(predecessor);
      read, at, confirmed := stored, t, predecessor;
      if stored.None? || !OwnedBy(stored.value, owner) { return; }
      var staged := StageClose(stored.value, row);
      changed, confirmed := ConfirmAndClose(stored.value, staged, t, noise);
      if !changed { closed := Some(staged); }
    }

    /** The re-read and the commit of a staged close, over the row read. */
    method ConfirmAndClose(stored: Row, staged: Row, t: nat, noise: nat) returns (changed: bool, ghost confirmed: Log)
      requires Valid() && Committed(successor, start) && NoRequest(predecessor) && txn == Some(t) && Fold(predecessor) == Some(stored)
      modifies this`predecessor, this`successor, this`clock, this`grantHeld, this`txn
      ensures Valid() && Committed(successor, start) && |predecessor| > |old(predecessor)|
      ensures !changed ==>
        && Ordered(confirmed) && Fresh(confirmed, t) && Fold(confirmed) == Some(stored)
        && predecessor == Insert(confirmed, Entry(t, Put(staged), Request(0)))
      ensures changed ==> NoRequest(predecessor) && noise > 0
      ensures noise == 0 ==> successor == old(successor) && (old(AllBefore(predecessor, t)) ==> Fold(predecessor) == Some(staged))
    {
      Interfere(noise);
      confirmed := predecessor;
      changed := Fold(predecessor) != Some(stored);
      if !changed { CommitClose(Entry(t, Put(staged), Request(0))); }
    }

    /** An owner's close, after its successor: at most three attempts, and a reported close is the row as
        committed at its final re-read with only the close's fields set. None is reported only when the row
        cannot be closed any more, or others wrote it in each of the three. */
    method CloseSupersededRecord(row: Row, owner: Option<Value>, noise: nat)
      returns (closed: Option<Row>, attempts: nat, ghost read: Option<Row>, ghost at: nat, ghost confirmed: Log)
      requires Valid() && !granted && Committed(successor, start) && NoRequest(predecessor)
      modifies this`predecessor, this`successor, this`clock, this`grantHeld, this`txn
      ensures Valid() && Committed(successor, start) && 1 <= attempts <= ATTEMPTS
      ensures closed.Some? ==>
        && read.Some? && OwnedBy(read.value, owner) && Closes(closed.value, read.value, row, declared, granted)
        && Ordered(confirmed) && Fresh(confirmed, at) && Fold(confirmed) == read
        && predecessor == Insert(confirmed, Entry(at, Put(closed.value), Request(0)))
      ensures closed.None? ==>
        NoRequest(predecessor) && (!Closable(owner) || |predecessor| >= |old(predecessor)| + ATTEMPTS)
      ensures noise == 0 && old(Closable(owner)) ==>
        closed.Some? && attempts == 1
      ensures noise == 0 ==> successor == old(successor) && (closed.Some? ==> Fold(predecessor) == closed)
    {
      attempts := 1;
      while true
        invariant Valid() && Committed(successor, start) && NoRequest(predecessor) && 1 <= attempts <= ATTEMPTS
        invariant |predecessor| >= |old(predecessor)| + attempts - 1
        invariant noise == 0 ==> attempts == 1
        invariant attempts == 1 ==> Same(old(predecessor), old(successor), old(clock), old(grantHeld))
        decreases ATTEMPTS - attempts
      {
        var changed;
        changed, closed, read, at, confirmed := CloseAttempt(row, owner, noise);
        if !changed || attempts == ATTEMPTS { return; }
        attempts := attempts + 1;
        Interfere(noise);
      }
    }

    /** A granted close of what was read cannot be committed now. */
    ghost predicate Denied(stored: Option<Row>, row: Row, owner: Option<Value>)
      reads this
    {
      || stored.None? || !OwnedBy(stored.value, owner) || Fold(predecessor) != stored
      || ReadsPrivate(stored.value) != ReadsPrivate(row) || !grantHeld
    }

    /** The commit of a granted close with its successor, in the successor's transaction: over the row read,
        re-read as committed, while the grant is held and who can read the memory does not change. */
    method GrantedAttempt(row: Row, owner: Option<Value>, stored: Option<Row>, t: nat, noise: nat)
      returns (closed: Option<Row>, ghost confirmed: Log)
      requires Valid() && Untouched() && granted && txn == Some(t) && start <= t
      modifies this`predecessor, this`successor, this`clock, this`grantHeld, this`txn
      ensures Valid()
      ensures closed.None? ==> Untouched() && Denied(stored, row, owner)
      ensures closed.Some? ==>
        && Committed(successor, start) && !NoRequest(predecessor) && grantHeld
        && stored.Some? && Ordered(confirmed) && Fresh(confirmed, t) && Fold(confirmed) == stored
        && OwnedBy(stored.value, owner) && Closes(closed.value, stored.value, row, declared, granted)
        && ReadsPrivate(stored.value) == ReadsPrivate(row)
        && predecessor == Insert(confirmed, Entry(t, Put(closed.value), Request(0)))
        && Entry(t, Put(row), Request(0)) in successor
      ensures noise == 0 && closed.None? ==> predecessor == old(predecessor) && grantHeld == old(grantHeld)
      ensures noise == 0 && closed.Some? && old(AllBefore(successor, t)) ==> Fold(successor) == Some(row)
      ensures noise == 0 && closed.Some? && old(AllBefore(predecessor, t)) ==> Fold(predecessor) == closed
    {
      closed, confirmed := None, [];
      if stored.None? || !OwnedBy(stored.value, owner) { return; }
      var staged := StageClose(stored.value, row);
      var denied;
      denied, confirmed := ConfirmGranted(row, stored.value, staged, t, noise);
      if !denied { closed := Some(staged); }
    }

    /** The final re-read of a granted close, and the commit of both rows over the row read. */
    method ConfirmGranted(row: Row, stored: Row, staged: Row, t: nat, noise: nat) returns (denied: bool, ghost confirmed: Log)
      requires Valid() && Untouched() && txn == Some(t) && start <= t
      modifies this`predecessor, this`successor, this`clock, this`grantHeld, this`txn
      ensures Valid()
      ensures denied ==>
        Untouched() && (Fold(predecessor) != Some(stored) || ReadsPrivate(stored) != ReadsPrivate(row) || !grantHeld)
      ensures !denied ==>
        && Committed(successor, start) && !NoRequest(predecessor) && grantHeld && ReadsPrivate(stored) == ReadsPrivate(row)
        && Ordered(confirmed) && Fresh(confirmed, t) && Fold(confirmed) == Some(stored)
        && predecessor == Insert(confirmed, Entry(t, Put(staged), Request(0)))
        && Entry(t, Put(row), Request(0)) in successor
      ensures noise == 0 && denied ==> predecessor == old(predecessor) && grantHeld == old(grantHeld)
      ensures noise == 0 && !denied && old(AllBefore(successor, t)) ==> Fold(successor) == Some(row)
      ensures noise == 0 && !denied && old(AllBefore(predecessor, t)) ==> Fold(predecessor) == Some(staged)
    {
      denied := true;
      Interfere(noise);
      confirmed := predecessor;
      var committed := Fold(predecessor);
      if committed.Some? && ReadsPrivate(committed.value) != ReadsPrivate(row) { return; }
      if committed != Some(stored) || !grantHeld { return; }
      CommitGranted(row, staged, t);
      denied := false;
    }

    /** A close at time `at` is committed over the log its final re-read saw: the row as committed then, still
        owned as authorized, with the close's fields. */
    ghost predicate ClosedOver(confirmed: Log, at: nat, closed: Row, row: Row, owner: Option<Value>)
      reads this
    {
      && Fold(confirmed).Some? && OwnedBy(Fold(confirmed).value, owner)
      && Closes(closed, Fold(confirmed).value, row, declared, granted)
      && Entry(at, Put(closed), Request(0)) in predecessor && forall e :: e in confirmed ==> e in predecessor
    }

    lemma ClosedOverNow(confirmed: Log, at: nat, closed: Row, row: Row, owner: Option<Value>)
      requires Ordered(confirmed) && Fresh(confirmed, at) && predecessor == Insert(confirmed, Entry(at, Put(closed), Request(0)))
      requires Fold(confirmed).Some? && OwnedBy(Fold(confirmed).value, owner)
      requires Closes(closed, Fold(confirmed).value, row, declared, granted)
      ensures ClosedOver(confirmed, at, closed, row, owner) && !NoRequest(predecessor)
      ensures Dated(row, ValidFrom) || Dated(row, CreatedAt) ==> !Open(Some(closed))
    {
      if Dated(row, ValidFrom) || Dated(row, CreatedAt) {
        ClosedIsNotOpen(closed, Fold(confirmed).value, row, declared, granted);
      }
      Inserted(confirmed, Entry(at, Put(closed), Request(0)), start);
    }

    /** The post-commit check of the successor's row. */
    ghost predicate Verified(row: Row)
      reads this
    {
      && Fold(successor).Some?
      && forall f :: f in row && f in {InstanceToken, AgentId, Visibility, Other("content"), Other("durability")} ==>
           f in Fold(successor).value && Fold(successor).value[f] == row[f]
    }

    /** After a commit of the successor: the check of its row, and an owner's close. */
    method Settle(row: Row, close: Option<Close>, unreadable: bool, noise: nat)
      returns (answer: Answer, closed: Option<Row>, ghost at: nat, ghost confirmed: Log)
      requires Valid() && Committed(successor, start) && granted == (close.Some? && close.value.granted)
      requires !granted ==> NoRequest(predecessor)
      modifies this`predecessor, this`successor, this`clock, this`grantHeld, this`txn
      ensures Valid() && Committed(successor, start) && Fold(successor).Some?
      ensures forall e :: granted && e in old(predecessor) ==> e in predecessor
      ensures answer.OutcomeUnknown? <==> unreadable
      ensures answer.RowChanged? ==> !Verified(row)
      ensures answer.Written? || answer.OutcomeUnknown? || answer.RowChanged?
      ensures answer.Written? && (close.None? || granted) ==> Verified(row)
      ensures closed.Some? ==>
        && answer.Written? && close.Some? && !granted && !NoRequest(predecessor)
        && ClosedOver(confirmed, at, closed.value, row, close.value.owner)
        && (Dated(row, ValidFrom) || Dated(row, CreatedAt) ==> !Open(closed))
      ensures closed.None? && !granted ==> NoRequest(predecessor)
      ensures answer.Written? && close.Some? && !granted && closed.None? ==>
        !Closable(close.value.owner) || |predecessor| >= |old(predecessor)| + ATTEMPTS
      // With no other writer, a stored row that shows the successor is answered, and its predecessor closed.
      ensures noise == 0 ==> successor == old(successor) && (granted ==> predecessor == old(predecessor))
      ensures noise == 0 && !unreadable && old(Verified(row)) ==>
        && answer.Written?
        && (close.Some? && !granted && old(Closable(close.value.owner)) ==> closed.Some?)
        && (closed.Some? ==> Fold(predecessor) == closed)
    {
      closed, at, confirmed := None, 0, [];
      Interfere(noise);
      CommittedIsStored(successor, start);
      if unreadable { return OutcomeUnknown, closed, at, confirmed; }
      var shown := Fold(successor);
      if shown.None? || !(forall f | f in row && f in {InstanceToken, AgentId, Visibility, Other("content"), Other("durability")} ::
                            f in shown.value && shown.value[f] == row[f]) {
        return RowChanged, closed, at, confirmed;
      }
      if close.Some? && !granted {
        var attempts;
        ghost var read;
        closed, attempts, read, at, confirmed := CloseSupersededRecord(row, close.value.owner, noise);
        if closed.Some? { ClosedOverNow(confirmed, at, closed.value, row, close.value.owner); }
        CommittedIsStored(successor, start);
      }
      answer := Written;
    }

    /** The write of a successor that owns its transaction, and the close it was authorized for. `refuses`: a
        check before the commit answers; `unreadable`: the row cannot be read back. Stopped at any step it leaves
        `Valid()`; the clauses below are about its answers. */
    method WriteSuccessor(row: Row, close: Option<Close>, refuses: bool, unreadable: bool, noise: nat)
      returns (answer: Answer, closed: Option<Row>, ghost at: nat, ghost confirmed: Log)
      requires Valid() && Untouched()
      requires granted == (close.Some? && close.value.granted)
      modifies this`predecessor, this`successor, this`clock, this`grantHeld, this`txn
      ensures Valid()
      // Refused: by a check, or because the granted close could not be committed with it. Nothing was written.
      ensures answer.Refused? ==> Untouched() && (refuses || (granted && Denied(old(Fold(predecessor)), row, close.value.owner)))
      ensures refuses ==> answer.Refused?
      ensures answer.Written? || answer.OutcomeUnknown? ==> Committed(successor, start) && Fold(successor).Some?
      ensures !answer.Refused? ==> (answer.OutcomeUnknown? <==> unreadable)
      ensures answer.RowChanged? ==> !Verified(row)
      ensures answer.Written? && (close.None? || granted) ==> Verified(row)
      ensures answer.Written? && granted ==> closed.Some?
      // A close is of the row as committed at its final re-read, still owned as authorized; under a grant it
      // does not change who can read the memory.
      ensures closed.Some? ==>
        && close.Some? && !NoRequest(predecessor) && ClosedOver(confirmed, at, closed.value, row, close.value.owner)
        && (granted ==> ReadsPrivate(Fold(confirmed).value) == ReadsPrivate(row))
      ensures closed.None? && !granted ==> NoRequest(predecessor)
      // An owner's close is missing from a written answer only when the predecessor cannot be closed any more, or
      // others wrote it at least three times.
      ensures answer.Written? && close.Some? && closed.None? ==>
        !Closable(close.value.owner) || |predecessor| >= |old(predecessor)| + ATTEMPTS
      // With no other writer, what no check refuses and no grant denies is written, and its predecessor closed.
      ensures noise == 0 && !refuses && !unreadable && !(granted && old(Denied(Fold(predecessor), row, close.value.owner))) ==>
        && answer.Written? && Fold(successor) == Some(row)
        && (close.Some? && old(Closable(close.value.owner)) ==> closed.Some? && Fold(predecessor) == closed)
        && (closed.Some? && (Dated(row, ValidFrom) || Dated(row, CreatedAt)) ==> !Open(Fold(predecessor)))
    {
      closed, at, confirmed := None, 0, [];
      var t := Begin();
      var stored := Fold(predecessor);
      Interfere(noise);
      if refuses { return Refused, None, at, []; }
      if granted {
        answer, closed, confirmed := WriteGranted(row, close.value, stored, t, unreadable, noise);
        at := t;
      } else {
        answer, closed, at, confirmed := WriteOwn(row, close, t, unreadable, noise);
      }
    }

    method WriteOwn(row: Row, close: Option<Close>, t: nat, unreadable: bool, noise: nat)
      returns (answer: Answer, closed: Option<Row>, ghost at: nat, ghost confirmed: Log)
      requires Valid() && Untouched() && !granted && (close.Some? ==> !close.value.granted) && txn == Some(t) && start <= t
      modifies this`predecessor, this`successor, this`clock, this`grantHeld, this`txn
      ensures Valid() && Committed(successor, start) && Fold(successor).Some?
      ensures answer.Written? || answer.OutcomeUnknown? || answer.RowChanged?
      ensures answer.OutcomeUnknown? <==> unreadable
      ensures answer.RowChanged? ==> !Verified(row)
      ensures answer.Written? && close.None? ==> Verified(row)
      ensures closed.Some? ==>
        close.Some? && !NoRequest(predecessor) && ClosedOver(confirmed, at, closed.value, row, close.value.owner)
      ensures closed.None? ==> NoRequest(predecessor)
      ensures answer.Written? && close.Some? && closed.None? ==>
        !Closable(close.value.owner) || |predecessor| >= |old(predecessor)| + ATTEMPTS
      ensures noise == 0 && !unreadable && old(AllBefore(successor, t)) ==>
        && answer.Written? && Fold(successor) == Some(row)
        && (close.Some? && old(Closable(close.value.owner)) ==> closed.Some?)
        && (closed.Some? ==> Fold(predecessor) == closed)
      ensures closed.Some? && (Dated(row, ValidFrom) || Dated(row, CreatedAt)) ==> !Open(closed)
    {
      CommitSuccessor(Entry(t, Put(row), Request(0)));
      assert Fold(successor) == Some(row) ==> Verified(row);
      answer, closed, at, confirmed := Settle(row, close, unreadable, noise);
    }

    method WriteGranted(row: Row, close: Close, stored: Option<Row>, t: nat, unreadable: bool, noise: nat)
      returns (answer: Answer, closed: Option<Row>, ghost confirmed: Log)
      requires Valid() && Untouched() && granted && close.granted && txn == Some(t) && start <= t
      modifies this`predecessor, this`successor, this`clock, this`grantHeld, this`txn
      ensures Valid()
      ensures answer.Refused? <==> closed.None?
      ensures answer.Refused? ==> Untouched() && Denied(stored, row, close.owner)
      ensures !answer.Refused? ==> Committed(successor, start) && Fold(successor).Some? && (answer.OutcomeUnknown? <==> unreadable)
      ensures answer.RowChanged? ==> !Verified(row)
      ensures answer.Written? ==> Verified(row)
      ensures closed.Some? ==>
        && !NoRequest(predecessor) && ClosedOver(confirmed, t, closed.value, row, close.owner)
        && ReadsPrivate(Fold(confirmed).value) == ReadsPrivate(row)
      ensures noise == 0 && !unreadable && !old(Denied(stored, row, close.owner)) ==>
        old(AllBefore(successor, t)) && old(AllBefore(predecessor, t)) ==>
          answer.Written? && Fold(successor) == Some(row) && closed.Some? && Fold(predecessor) == closed
      ensures closed.Some? && (Dated(row, ValidFrom) || Dated(row, CreatedAt)) ==> !Open(closed)
    {
      closed, confirmed := GrantedAttempt(row, close.owner, stored, t, noise);
      if closed.None? { return Refused, None, []; }
      ClosedOverNow(confirmed, t, closed.value, row, close.owner);
      assert Fold(successor) == Some(row) ==> Verified(row);
      var none;
      ghost var at, log;
      answer, none, at, log := Settle(row, Some(close), unreadable, noise);
      assert Entry(t, Put(closed.value), Request(0)) in predecessor;
    }

    method CommitSuccessor(put: Entry)
      requires Valid() && !granted && put.writer.Request? && put.write.Put? && start <= put.at < clock && Fresh(successor, put.at)
      modifies this`successor, this`txn
      ensures Valid() && Committed(successor, start) && successor == Insert(old(successor), put)
      ensures old(AllBefore(successor, put.at)) ==> Fold(successor) == Some(put.write.row)
    {
      Inserted(successor, put, start);
      LatestStands(successor, put);
      successor, txn := Insert(successor, put), None;
    }

    method CommitGranted(row: Row, staged: Row, t: nat)
      requires Valid() && txn == Some(t) && start <= t
      modifies this`successor, this`predecessor, this`txn
      ensures Valid() && Committed(successor, start) && !NoRequest(predecessor)
      ensures predecessor == Insert(old(predecessor), Entry(t, Put(staged), Request(0))) && Entry(t, Put(row), Request(0)) in successor
      ensures old(AllBefore(successor, t)) ==> Fold(successor) == Some(row)
      ensures old(AllBefore(predecessor, t)) ==> Fold(predecessor) == Some(staged)
    {
      LatestStands(successor, Entry(t, Put(row), Request(0)));
      LatestStands(predecessor, Entry(t, Put(staged), Request(0)));
      CommitBoth(Entry(t, Put(row), Request(0)), Entry(t, Put(staged), Request(0)));
    }

    method CommitBoth(put: Entry, close: Entry)
      requires Valid() && put.writer.Request? && put.write.Put? && close.writer.Request?
      requires close.write.Put? && start <= put.at < clock && close.at == put.at && Fresh(successor, put.at) && Fresh(predecessor, put.at)
      modifies this`successor, this`predecessor, this`txn
      ensures Valid() && Committed(successor, start) && !NoRequest(predecessor)
      ensures successor == Insert(old(successor), put) && predecessor == Insert(old(predecessor), close)
      ensures put in successor && close in predecessor
    {
      Inserted(successor, put, start);
      Inserted(predecessor, close, start);
      successor, predecessor, txn := Insert(successor, put), Insert(predecessor, close), None;
    }
  }

  /** Each field of a close as it is stored, whatever had been committed before it: the close's value exactly
      when no write timed after the close decides the field; otherwise the field stays as it was confirmed. */
  lemma CloseStoredFieldwise(confirmed: Log, at: nat, closed: Row, f: Field)
    requires Ordered(confirmed) && Fresh(confirmed, at)
    ensures
      FieldOf(Fold(Insert(confirmed, Entry(at, Put(closed), Request(0)))), f)
      == if DecidedAfter(confirmed, at, f) then FieldOf(Fold(confirmed), f) else FieldOf(Some(closed), f)
  {
    FieldUnderCommit(confirmed, Entry(at, Put(closed), Request(0)), f);
  }

  ghost predicate FullWriteAfter(log: Log, t: nat) {
    exists i :: 0 <= i < |log| && t < log[i].at && !log[i].write.Update?
  }

  ghost predicate UpdateAfter(log: Log, t: nat, f: Field) {
    exists i :: 0 <= i < |log| && t < log[i].at && log[i].write.Update? && f in log[i].write.patch
  }

  /** The close of an open predecessor is in effect exactly when no put or delete and no update of `validTo`
      timed after the close was committed before it. When one was, the predecessor stays open as confirmed,
      although the close is reported; what the code checks does not tell the two apart. */
  lemma CloseInEffectExactly(confirmed: Log, at: nat, closed: Row)
    requires Ordered(confirmed) && Fresh(confirmed, at) && Open(Fold(confirmed))
    requires ValidTo in closed && closed[ValidTo] != Null
    ensures
      var stored := Fold(Insert(confirmed, Entry(at, Put(closed), Request(0))));
      && stored.Some?
      && (FieldOf(stored, ValidTo) == Some(closed[ValidTo]) <==>
            !FullWriteAfter(confirmed, at) && !UpdateAfter(confirmed, at, ValidTo))
      && ((forall i :: 0 <= i < |confirmed| ==> confirmed[i].at < at) ==> stored == Some(closed))
      && (FullWriteAfter(confirmed, at) ==> stored == Fold(confirmed))
      && (UpdateAfter(confirmed, at, ValidTo) ==> Open(stored))
  {
    var close := Entry(at, Put(closed), Request(0));
    FieldUnderCommit(confirmed, close, ValidTo);
    PresentAfterCommit(confirmed, close);
    if forall i :: 0 <= i < |confirmed| ==> confirmed[i].at < at {
      AppendLatest(confirmed, close);
      FoldAppend(confirmed, close);
    }
    if FullWriteAfter(confirmed, at) {
      var i :| 0 <= i < |confirmed| && at < confirmed[i].at && !confirmed[i].write.Update?;
      DroppedByLaterFullWrite(confirmed, close, i);
    }
  }

  /** So a close can be reported and not stored: the run where the same row was put again after the read. */
  lemma CloseDroppedBySameRow(row: Row, closed: Row)
    requires Open(Some(row)) && ValidTo in closed && closed[ValidTo] != Null
    ensures
      var read := [Entry(0, Put(row), Outside)];
      var confirmed := [Entry(0, Put(row), Outside), Entry(2, Put(row), Outside)];
      && Fold(read) == Fold(confirmed)
      && Fold(Insert(confirmed, Entry(1, Put(closed), Request(0)))) == Some(row)
  {
    var read := [Entry(0, Put(row), Outside)];
    var confirmed := [Entry(0, Put(row), Outside), Entry(2, Put(row), Outside)];
    FoldAppend([], read[0]);
    FoldAppend(read, confirmed[1]);
    assert [] + [read[0]] == read && read + [confirmed[1]] == confirmed;
    CloseInEffectExactly(confirmed, 1, closed);
    assert FullWriteAfter(confirmed, 1) by { assert !confirmed[1].write.Update?; }
  }
}
