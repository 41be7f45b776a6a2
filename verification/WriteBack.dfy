/** The shared write-back: read in an owned transaction, plan, stage, confirm the committed row, commit,
    and read the committed row back. What the store answers at each point is the run's input, so every
    statement holds for whatever other writers do in between. */
module WriteBack {
  import opened Store

  const IDENTITY: set<Field> := {Id, AgentId, InstanceToken, ContentHash, CreatedAt}

  /** A plan for the row it is handed: leave it, or write. A plan that is not idempotent is confirmed by
      a marker only this attempt writes. */
  datatype Plan = Skip | Idempotent(write: Write) | Marked(write: Write, marker: Field)

  ghost predicate WellFormedPlan(p: Plan) {
    p.Skip? || p.write.Put? || p.write.Update?
  }

  datatype ReadBack = Unreadable | Readable(row: Option<Row>)

  /** A plain error thrown before the commit, or by the commit itself, which may have landed. */
  datatype Failure = Never | BeforeCommit | AtCommit(landed: bool)

  /** The store's answers in one attempt. */
  datatype Attempt = Attempt(read: Option<Row>, failure: Failure, confirm: Option<Row>, writeId: Value, readBack: ReadBack)

  datatype Result =
    | Skipped
    | Applied(write: Write)
    | Conflict                 // a check before the commit aborted this attempt
    | Unconfirmed              // the commit resolved and the read-back does not show the write
    | Threw

  function Same(a: Row, b: Row, fields: set<Field>): bool {
    forall f :: f in fields ==> (f in a <==> f in b) && (f in a ==> a[f] == b[f])
  }

  /** Whether `row` is still the selected basis. */
  function SameTarget(row: Option<Row>, basis: Option<Row>, wholeRow: bool, matchFields: set<Field>): bool {
    if row.None? || basis.None? then row == basis
    else Same(row.value, basis.value, IDENTITY) && (wholeRow ==> row == basis)
         && Same(row.value, basis.value, matchFields)
  }

  /** The values an attempt stages: a marked plan's marker holds the attempt's own id. */
  function Staged(p: Plan, writeId: Value): Write
    requires !p.Skip?
  {
    if p.Marked? && p.write.Put? then Put(p.write.row[p.marker := writeId])
    else if p.Marked? && p.write.Update? then Update(p.write.patch[p.marker := writeId])
    else p.write
  }

  /** Whether a committed row shows a staged write over `basis`. */
  function Shows(committed: Option<Row>, basis: Option<Row>, staged: Write): bool {
    match staged
    case Put(row) => committed == Some(row)
    case Update(patch) =>
      if basis.None? then committed.None? && patch == map[]
      else if committed.None? then false
      else Same(committed.value, basis.value + patch, IDENTITY) && Same(committed.value, patch, patch.Keys)
    case Delete => false
  }

  /** Two rows agree on a field: both lack it, or both hold the same value in it. */
  ghost predicate Agree(a: Row, b: Row, f: Field) { FieldOf(Some(a), f) == FieldOf(Some(b), f) }

  /** When a row is still the selected basis: both are absent; or both are stored, and agree on the five identity
      fields and the caller's own, and on everything when the whole row must match. */
  lemma SameTargetExactly(row: Option<Row>, basis: Option<Row>, wholeRow: bool, matchFields: set<Field>)
    ensures row.None? || basis.None? ==> (SameTarget(row, basis, wholeRow, matchFields) <==> row.None? && basis.None?)
    ensures row.Some? && basis.Some? ==>
      (SameTarget(row, basis, wholeRow, matchFields) <==>
        && (forall f :: f in {Id, AgentId, InstanceToken, ContentHash, CreatedAt} + matchFields ==>
              Agree(row.value, basis.value, f))
        && (wholeRow ==> row == basis))
  {
    if row.Some? && basis.Some? {
      SameExactly(row.value, basis.value, IDENTITY);
      SameExactly(row.value, basis.value, matchFields);
    }
  }

  lemma SameExactly(a: Row, b: Row, fields: set<Field>)
    ensures Same(a, b, fields) <==> forall f :: f in fields ==> Agree(a, b, f)
  {
    assert forall f :: Agree(a, b, f) <==> (f in a <==> f in b) && (f in a ==> a[f] == b[f]);
  }

  /** What a read-back shows. A staged row is shown by that very row alone. A staged update of a stored row is shown
      exactly by a row with every field it staged and, for the rest of the identity, the fields of the row it
      updated: so a row it was not written to, or whose identity another write changed, does not show it. */
  lemma ShownExactly(committed: Option<Row>, basis: Row, staged: Write)
    ensures staged.Put? ==> (Shows(committed, Some(basis), staged) <==> committed == Some(staged.row))
    ensures staged.Update? ==>
      (Shows(committed, Some(basis), staged) <==>
        && committed.Some?
        && (forall f :: f in staged.patch ==> FieldOf(committed, f) == Some(staged.patch[f]))
        && (forall f :: f in {Id, AgentId, InstanceToken, ContentHash, CreatedAt} - staged.patch.Keys ==>
              Agree(committed.value, basis, f)))
    ensures Shows(Apply(Some(basis), staged), Some(basis), staged) <==> !staged.Delete?
  {
    if staged.Update? && committed.Some? {
      var patch := staged.patch;
      SameExactly(committed.value, patch, patch.Keys);
      SameExactly(committed.value, basis + patch, IDENTITY);
      assert forall f :: f in patch ==> (Agree(committed.value, patch, f) <==> FieldOf(committed, f) == Some(patch[f]));
      assert forall f :: f in patch ==> (Agree(committed.value, basis + patch, f) <==> Agree(committed.value, patch, f));
      assert forall f :: f !in patch ==> (Agree(committed.value, basis + patch, f) <==> Agree(committed.value, basis, f));
    }
  }

  datatype Step = Ends(result: Result, committed: bool) | Retries(committed: bool)

  /** One attempt, with `more` saying whether another may follow. */
  function Try(basis: Option<Row>, plan: Option<Row> -> Plan, wholeRow: bool, matchFields: set<Field>,
               a: Attempt, more: bool): Step
  {
    if a.failure.BeforeCommit? then Ends(Threw, false)
    else if plan(a.read).Skip? then Ends(Skipped, false)
    else if !SameTarget(a.read, basis, wholeRow, matchFields) then Ends(Conflict, false)
    else if a.confirm != a.read then (if more then Retries(false) else Ends(Conflict, false))
    else if a.failure.AtCommit? then Ends(Threw, a.failure.landed)
    else
      var p := plan(a.read);
      match a.readBack
      case Unreadable => Ends(if p.Marked? then Unconfirmed else Threw, true)
      case Readable(row) =>
        if Shows(row, basis, Staged(p, a.writeId)) then Ends(Applied(p.write), true)
        else if p.Marked? || !more then Ends(Unconfirmed, true)
        else Retries(true)
  }

  /** The whole call: attempts in order until one ends it. The second value counts the writes that were
      committed. */
  function Settle(basis: Option<Row>, plan: Option<Row> -> Plan, wholeRow: bool, matchFields: set<Field>,
                  script: seq<Attempt>): (Result, nat)
    requires script != []
    decreases |script|
  {
    var step := Try(basis, plan, wholeRow, matchFields, script[0], |script| > 1);
    var now := if step.committed then 1 else 0;
    if step.Ends? || |script| == 1 then ((if step.Ends? then step.result else Conflict), now)
    else
      var rest := Settle(basis, plan, wholeRow, matchFields, script[1..]);
      (rest.0, now + rest.1)
  }

  /** The attempt loop: its answer and its commits are those of the attempts taken one after another. */
  method RunAttempts(basis: Option<Row>, plan: Option<Row> -> Plan, wholeRow: bool,
                     matchFields: set<Field>, script: seq<Attempt>)
    returns (result: Result, ghost committed: nat)
    requires script != []
    ensures (result, committed) == Settle(basis, plan, wholeRow, matchFields, script)
  {
    committed := 0;
    var attempt := 0;
    while true
      invariant attempt < |script|
      invariant Settle(basis, plan, wholeRow, matchFields, script)
             == (Settle(basis, plan, wholeRow, matchFields, script[attempt..]).0,
                 committed + Settle(basis, plan, wholeRow, matchFields, script[attempt..]).1)
      decreases |script| - attempt
    {
      var a := script[attempt];
      ghost var left := script[attempt..];
      assert left[0] == a && left[1..] == script[attempt + 1..];
      if a.failure.BeforeCommit? { return Threw, committed; }
      var decision := plan(a.read);
      if decision.Skip? { return Skipped, committed; }
      if !SameTarget(a.read, basis, wholeRow, matchFields) { return Conflict, committed; }
      if a.confirm != a.read {
        if attempt + 1 >= |script| { return Conflict, committed; }
        attempt := attempt + 1;
        continue;
      }
      if a.failure.AtCommit? { return Threw, committed + (if a.failure.landed then 1 else 0); }
      committed := committed + 1;
      if a.readBack.Unreadable? {
        return (if decision.Marked? then Unconfirmed else Threw), committed;
      }
      if !Shows(a.readBack.row, basis, Staged(decision, a.writeId)) {
        if decision.Marked? || attempt + 1 >= |script| { return Unconfirmed, committed; }
        attempt := attempt + 1;
        continue;
      }
      return Applied(decision.write), committed;
    }
  }

  /** The call, and what its answer means. */
  method WriteBackCommittedRow(basis: Option<Row>, plan: Option<Row> -> Plan, wholeRow: bool,
                               matchFields: set<Field>, script: seq<Attempt>)
    returns (result: Result, ghost committed: nat)
    requires script != []
    ensures (result, committed) == Settle(basis, plan, wholeRow, matchFields, script)
    // An applied write was planned over the selected row, seen unchanged and read back by one of the attempts.
    ensures result.Applied? ==>
      exists i :: 0 <= i < |script| && AppliedAt(basis, plan, wholeRow, matchFields, script[i], result.write)
    ensures result.Applied? || result.Unconfirmed? ==> 1 <= committed <= |script|
    // A conflict or a skip of a single attempt, or of a plan that must not run twice, committed nothing.
    ensures (result.Conflict? || result.Skipped?) && CommitsOnceAtMost(basis, plan, wholeRow, matchFields, |script|) ==>
      committed == 0
  {
    result, committed := RunAttempts(basis, plan, wholeRow, matchFields, script);
    ResultsMean(basis, plan, wholeRow, matchFields, script);
    if CommitsOnceAtMost(basis, plan, wholeRow, matchFields, |script|) {
      RefusalsCommitNothing(basis, plan, wholeRow, matchFields, script);
    }
  }

  /** What each answer means. A result names what the attempt it ended on did. */
  lemma {:induction false} ResultsMean(basis: Option<Row>, plan: Option<Row> -> Plan, wholeRow: bool,
                                       matchFields: set<Field>, script: seq<Attempt>)
    requires script != []
    ensures
      var (result, committed) := Settle(basis, plan, wholeRow, matchFields, script);
      && committed <= |script|
      && (result.Applied? ==> exists i :: 0 <= i < |script| && AppliedAt(basis, plan, wholeRow, matchFields, script[i], result.write))
      && (result.Unconfirmed? ==> committed >= 1)
      && (result.Applied? ==> committed >= 1)
      && (result.Skipped? || result.Conflict? ==> committed < |script|)
    decreases |script|
  {
    var step := Try(basis, plan, wholeRow, matchFields, script[0], |script| > 1);
    if step.Ends? {
      if step.result.Applied? { assert AppliedAt(basis, plan, wholeRow, matchFields, script[0], step.result.write); }
    } else {
      ResultsMean(basis, plan, wholeRow, matchFields, script[1..]);
      var (result, _) := Settle(basis, plan, wholeRow, matchFields, script[1..]);
      if result.Applied? {
        var i :| 0 <= i < |script[1..]| && AppliedAt(basis, plan, wholeRow, matchFields, script[1..][i], result.write);
        assert script[i + 1] == script[1..][i];
      }
    }
  }

  /** The attempt planned the write over the selected row, saw that row still committed once the write was
      staged, and read the write back. */
  ghost predicate AppliedAt(basis: Option<Row>, plan: Option<Row> -> Plan, wholeRow: bool,
                            matchFields: set<Field>, a: Attempt, write: Write) {
    && !plan(a.read).Skip? && plan(a.read).write == write
    && SameTarget(a.read, basis, wholeRow, matchFields)
    && a.confirm == a.read
    && a.readBack.Readable? && Shows(a.readBack.row, basis, Staged(plan(a.read), a.writeId))
  }

  /** A call of one attempt is exact: a conflict or a skip committed nothing, and only an applied,
      unconfirmed or failed call did. */
  lemma OneAttemptIsExact(basis: Option<Row>, plan: Option<Row> -> Plan, wholeRow: bool,
                          matchFields: set<Field>, a: Attempt)
    ensures
      var (result, committed) := Settle(basis, plan, wholeRow, matchFields, [a]);
      && (result.Conflict? || result.Skipped? ==> committed == 0)
      && (result.Applied? || result.Unconfirmed? ==> committed == 1)
  {
  }

  /** What a caller can check before the call: one attempt, or a plan that is idempotent over no row it
      would accept as the selected one. */
  ghost predicate CommitsOnceAtMost(basis: Option<Row>, plan: Option<Row> -> Plan, wholeRow: bool,
                                    matchFields: set<Field>, attempts: nat) {
    attempts == 1
    || forall r: Option<Row> :: SameTarget(r, basis, wholeRow, matchFields) ==> !plan(r).Idempotent?
  }

  lemma {:induction false} RefusalsCommitNothing(basis: Option<Row>, plan: Option<Row> -> Plan, wholeRow: bool,
                                                 matchFields: set<Field>, script: seq<Attempt>)
    requires script != [] && CommitsOnceAtMost(basis, plan, wholeRow, matchFields, |script|)
    ensures
      var (result, committed) := Settle(basis, plan, wholeRow, matchFields, script);
      result.Conflict? || result.Skipped? ==> committed == 0
    decreases |script|
  {
    if |script| > 1 {
      RefusalsCommitNothing(basis, plan, wholeRow, matchFields, script[1..]);
    }
  }

  ghost predicate RefusalsAreClean(basis: Option<Row>, plan: Option<Row> -> Plan, wholeRow: bool,
                                   matchFields: set<Field>, attempts: nat) {
    forall script: seq<Attempt> :: script != [] && |script| == attempts ==>
      var (result, committed) := Settle(basis, plan, wholeRow, matchFields, script);
      result.Conflict? || result.Skipped? ==> committed == 0
  }

  /** A conflict or a skip says that nothing was committed, whatever the store answers, exactly when the call
      may make one attempt only, or its plan is idempotent over no row it would accept. */
  lemma RefusalsAreCleanExactly(basis: Option<Row>, plan: Option<Row> -> Plan, wholeRow: bool,
                                matchFields: set<Field>, attempts: nat)
    requires attempts >= 1
    ensures RefusalsAreClean(basis, plan, wholeRow, matchFields, attempts)
       <==> CommitsOnceAtMost(basis, plan, wholeRow, matchFields, attempts)
  {
    if CommitsOnceAtMost(basis, plan, wholeRow, matchFields, attempts) {
      forall script: seq<Attempt> | script != [] && |script| == attempts
        ensures
          var (result, committed) := Settle(basis, plan, wholeRow, matchFields, script);
          result.Conflict? || result.Skipped? ==> committed == 0
      {
        RefusalsCommitNothing(basis, plan, wholeRow, matchFields, script);
      }
    } else {
      var r: Option<Row> :| SameTarget(r, basis, wholeRow, matchFields) && plan(r).Idempotent?;
      var script := RefusedAfterACommit(basis, plan, wholeRow, matchFields, attempts, r);
      assert script != [];
    }
  }

  /** Such a plan has a run that is refused after it committed: its write is not seen at the first read-back,
      and at the second attempt's read the row is no longer the selected one. */
  lemma RefusedAfterACommit(basis: Option<Row>, plan: Option<Row> -> Plan, wholeRow: bool,
                            matchFields: set<Field>, attempts: nat, r: Option<Row>) returns (script: seq<Attempt>)
    requires attempts >= 2 && SameTarget(r, basis, wholeRow, matchFields) && plan(r).Idempotent?
    ensures |script| == attempts
    ensures
      var (result, committed) := Settle(basis, plan, wholeRow, matchFields, script);
      (result.Conflict? || result.Skipped?) && committed == 1
  {
    var unseen: Option<Row> := if plan(r).write.Put? || basis.Some? then None else Some(map[]);
    var gone: Option<Row> := if basis.Some? then None else Some(map[]);
    var first := Attempt(r, Never, r, Null, Readable(unseen));
    var second := Attempt(gone, Never, gone, Null, Unreadable);
    script := [first] + seq(attempts - 1, i => second);
    assert script[0] == first && script[1..][0] == second;
    assert !Shows(unseen, basis, plan(r).write);
    assert Try(basis, plan, wholeRow, matchFields, first, true) == Retries(true);
    assert Try(basis, plan, wholeRow, matchFields, second, |script[1..]| > 1).Ends?;
  }

  /** So a conflict can follow a commit: the first attempt's write is not seen at its read-back, and the
      row is gone at the second attempt's read. */
  lemma ConflictAfterACommit(row: Row, write: Row)
    ensures
      var script := [Attempt(Some(row), Never, Some(row), Null, Readable(None)),
                     Attempt(None, Never, None, Null, Unreadable)];
      Settle(Some(row), (r: Option<Row>) => Idempotent(Put(write)), true, {}, script) == (Conflict, 1)
  {
    var plan := (r: Option<Row>) => Idempotent(Put(write));
    var script := [Attempt(Some(row), Never, Some(row), Null, Readable(None)),
                   Attempt(None, Never, None, Null, Unreadable)];
    assert script[1..] == [script[1]];
    assert Settle(Some(row), plan, true, {}, script[1..]) == (Conflict, 0);
  }
}
