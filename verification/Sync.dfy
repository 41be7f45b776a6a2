/** POST /FederationSync: one merge attempt for each offered record, and the report of what became of it. */
module Sync {
  import opened Store
  import Merge
  import WriteBack

  datatype TableName = MemoryTable | MessageTable | OtherTable(name: string)
  datatype Key = Key(table: TableName, id: string)
  datatype Offer = Offer(key: Key, record: Merge.SyncRecord)

  datatype Reason =
    | Checked(name: string)          // a check before the write-back, or the in-transaction plan, refused it
    | IdMismatch | MergeTargetBusy | MergeTargetChanged | MergeError

  datatype Outcome = Refused(reason: Reason) | Merged | Indeterminate

  /** What the checks before the write-back answer: signatures, entitlement and policy are inputs. */
  datatype Gate = Passes | Stops(name: string) | Throws

  /** What happens around one record: the gate's answer, the row it read, the Memory lock's answer, the
      in-transaction refusal, the store's answers to the one write-back attempt, and whether the
      per-record deadline fires first. */
  datatype Run = Run(gate: Gate, local: Option<Row>, lockHeldElsewhere: bool, planRefusal: Option<string>,
                     bookkeeping: Row, attempt: WriteBack.Attempt, deadlineFirst: bool)

  function MergedData(offer: Offer, run: Run): Row {
    Merge.MergeRecord(run.local, offer.record) + run.bookkeeping
  }

  /** The write planned for the row the transaction reads. */
  function WriteFor(offer: Offer, run: Run, row: Option<Row>): Write {
    match offer.key.table
    case MemoryTable => Merge.Plan(row, MergedData(offer, run))
    case MessageTable => Put(Merge.GuardState(row, MergedData(offer, run)))
    case OtherTable(_) => Put(MergedData(offer, run))
  }

  /** The record gets past its checks, and a Memory record gets its lock. */
  predicate WriteBackStarts(offer: Offer, run: Run) {
    && Merge.Get(offer.record.data, Id) == Text(offer.key.id) && run.gate.Passes?
    && !(offer.key.table.MemoryTable? && run.lockHeldElsewhere)
  }

  /** The plan of the one write-back attempt, for the row its transaction reads. */
  function PlanOf(offer: Offer, run: Run): Option<Row> -> WriteBack.Plan {
    (row: Option<Row>) => if run.planRefusal.Some? then WriteBack.Skip else WriteBack.Idempotent(WriteFor(offer, run, row))
  }

  /** The row a record merges into, by its table: the last-writer-wins merge with the receiver's bookkeeping, and
      for a message the state guard over it. */
  ghost function MergedRow(offer: Offer, run: Run): Row {
    var merged := Merge.MergeRecord(run.local, offer.record) + run.bookkeeping;
    if offer.key.table.MessageTable? then Merge.GuardState(run.local, merged) else merged
  }

  /** Every changed field of the merged row is shown, on the same row. */
  ghost predicate ChangesShown(shown: Option<Row>, before: Row, merged: Row) {
    && shown.Some?
    && (forall f :: f in WriteBack.IDENTITY || FieldOf(Some(merged), f) != FieldOf(Some(before), f) ==>
          FieldOf(shown, f) == FieldOf(Some(merged), f))
  }

  /** The read-back shows the merged row: the row itself, or for a Memory merged into a stored row none of whose
      fields the merge drops, the same row with every field the merge changed. */
  ghost predicate ReadsBack(offer: Offer, run: Run) {
    && run.attempt.readBack.Readable?
    && var shown, merged := run.attempt.readBack.row, MergedRow(offer, run);
    if offer.key.table.MemoryTable? && run.local.Some? && run.local.value.Keys <= merged.Keys
      then ChangesShown(shown, run.local.value, merged) else shown == Some(merged)
  }

  /** The write-back's comparison is just that: over a planned update it holds exactly when the changes show. */
  lemma ShowsChangesExactly(shown: Option<Row>, before: Row, merged: Row)
    requires before.Keys <= merged.Keys
    ensures WriteBack.Shows(shown, Some(before), Merge.Plan(Some(before), merged)) <==> ChangesShown(shown, before, merged)
  {
    var patch := Merge.Plan(Some(before), merged).patch;
    assert before + patch == merged;
    if shown.Some? {
      assert WriteBack.Same(shown.value, merged, WriteBack.IDENTITY)
        <==> forall f :: f in WriteBack.IDENTITY ==> FieldOf(shown, f) == FieldOf(Some(merged), f);
      assert forall f :: f in patch <==> FieldOf(Some(merged), f) != FieldOf(Some(before), f);
    }
  }

  lemma ReadsBackExactly(offer: Offer, run: Run)
    requires run.attempt.readBack.Readable?
    ensures ReadsBack(offer, run) <==> WriteBack.Shows(run.attempt.readBack.row, run.local, WriteFor(offer, run, run.local))
  {
    if offer.key.table.MemoryTable? && run.local.Some? && run.local.value.Keys <= MergedRow(offer, run).Keys {
      ShowsChangesExactly(run.attempt.readBack.row, run.local.value, MergedRow(offer, run));
    }
  }

  /** Why a record is refused, spelled out over what its run met; nothing when it is merged or indeterminate. */
  ghost function RefusalOf(offer: Offer, run: Run): Option<Reason> {
    if !(Id in offer.record.data && offer.record.data[Id] == Text(offer.key.id)) then Some(IdMismatch)
    else
      match run.gate
      case Throws => Some(MergeError)
      case Stops(name) => Some(Checked(name))
      case Passes =>
        if offer.key.table.MemoryTable? && run.lockHeldElsewhere then Some(MergeTargetBusy)
        else if run.attempt.failure.BeforeCommit? then None
        else if run.planRefusal.Some? then Some(Checked(run.planRefusal.value))
        else if run.attempt.read != run.local || run.attempt.confirm != run.local then Some(MergeTargetChanged)
        else None
  }

  /** The record's write reaches its commit. */
  ghost predicate Reaches(offer: Offer, run: Run) { RefusalOf(offer, run).None? && !run.attempt.failure.BeforeCommit? }

  /** The request's handling of the record commits something. */
  ghost predicate Commits(offer: Offer, run: Run) {
    Reaches(offer, run) && (run.attempt.failure.AtCommit? ==> run.attempt.failure.landed)
  }

  /** The record is merged: its commit resolves, and the merged row is read back. */
  ghost predicate Merges(offer: Offer, run: Run) {
    Reaches(offer, run) && run.attempt.failure.Never? && ReadsBack(offer, run)
  }

  /** What becomes of a record, for everything its run can meet. */
  ghost predicate Decided(offer: Offer, run: Run, outcome: Outcome, committed: bool) {
    && (forall r :: outcome == Refused(r) <==> RefusalOf(offer, run) == Some(r))
    && (committed <==> Commits(offer, run))
    && (outcome.Merged? <==> Merges(offer, run))
  }

  method MergeOne(offer: Offer, run: Run) returns (outcome: Outcome, ghost committed: bool)
    ensures Decided(offer, run, outcome, committed)
    ensures run.planRefusal.Some? ==> !committed && !outcome.Merged?
    ensures outcome.Refused? ==> !committed
    ensures outcome.Merged? ==>
      && committed
      && run.attempt.read == run.local && run.attempt.confirm == run.local
      && Apply(run.local, WriteFor(offer, run, run.local)) == Some(MergedRow(offer, run))
    ensures outcome.Indeterminate? ==> run.gate.Passes?
    // Anything that throws once the write-back has started is indeterminate, committed or not.
    ensures WriteBackStarts(offer, run) && run.attempt.failure.BeforeCommit? ==> outcome.Indeterminate?
    ensures committed && !outcome.Merged? ==> outcome.Indeterminate?
    ensures committed && run.attempt.readBack.Unreadable? ==> outcome.Indeterminate?
    ensures run.gate.Throws? && Merge.Get(offer.record.data, Id) == Text(offer.key.id) ==>
      outcome == Refused(MergeError)
    ensures outcome == Refused(MergeTargetChanged) ==>
      run.attempt.read != run.local || run.attempt.confirm != run.attempt.read
  {
    committed := false;
    if Merge.Get(offer.record.data, Id) != Text(offer.key.id) {
      return Refused(IdMismatch), committed;
    }
    var writeBackStarted := false;
    match run.gate {
      case Throws => return (if writeBackStarted then Indeterminate else Refused(MergeError)), committed;
      case Stops(name) => return Refused(Checked(name)), committed;
      case Passes =>
    }
    writeBackStarted := true;
    if offer.key.table.MemoryTable? && run.lockHeldElsewhere {
      return Refused(MergeTargetBusy), committed;
    }
    var plan := PlanOf(offer, run);
    var result;
    ghost var commits;
    result, commits := WriteBack.WriteBackCommittedRow(run.local, plan, true, {}, [run.attempt]);
    committed := commits > 0;
    WriteBack.OneAttemptIsExact(run.local, plan, true, {}, run.attempt);
    if run.attempt.readBack.Readable? { ReadsBackExactly(offer, run); }
    match result {
      case Skipped =>
        outcome := Refused(Checked(if run.planRefusal.Some? then run.planRefusal.value else ""));
      case Conflict => outcome := Refused(MergeTargetChanged);
      case Unconfirmed => outcome := Indeterminate;
      case Threw => outcome := if writeBackStarted then Indeterminate else Refused(MergeError);
      case Applied(w) =>
        Merge.PlanStoresMerged(run.local, MergedData(offer, run));
        outcome := Merged;
    }
  }

  datatype Report = Report(merged: nat, skipped: nat, reasons: map<Reason, nat>, refused: seq<(Key, Reason)>,
                           indeterminate: seq<Key>, total: nat)
  datatype Answer = InvalidKey | DuplicateKey | Reported(report: Report)

  ghost predicate ValidKey(o: Offer) {
    o.key.id != "" && o.key.table != OtherTable("") && Merge.Get(o.record.data, Id) == Text(o.key.id)
  }

  predicate DistinctKeys(offers: seq<Offer>) {
    forall i, j :: 0 <= i < j < |offers| ==> offers[i].key != offers[j].key
  }

  /** The sum of a table of counts. */
  ghost function Sum(counts: map<Reason, nat>): nat
    decreases |counts|
  {
    if counts == map[] then 0
    else
      var r :| r in counts;
      assert |(counts - {r}).Keys| < |counts.Keys|;
      counts[r] + Sum(counts - {r})
  }

  lemma {:induction false} SumTakes(counts: map<Reason, nat>, r: Reason)
    requires r in counts
    ensures Sum(counts) == counts[r] + Sum(counts - {r})
    decreases |counts|
  {
    var q :| q in counts && Sum(counts) == counts[q] + Sum(counts - {q});
    if q != r {
      assert |(counts - {q}).Keys| < |counts.Keys|;
      SumTakes(counts - {q}, r);
      assert |(counts - {r}).Keys| < |counts.Keys|;
      SumTakes(counts - {r}, q);
      assert counts - {q} - {r} == counts - {r} - {q};
    }
  }

  lemma SumCounts(counts: map<Reason, nat>, r: Reason)
    ensures Sum(counts[r := (if r in counts then counts[r] else 0) + 1]) == Sum(counts) + 1
  {
    var counts' := counts[r := (if r in counts then counts[r] else 0) + 1];
    SumTakes(counts', r);
    assert counts' - {r} == counts - {r};
    if r in counts { SumTakes(counts, r); } else { assert counts - {r} == counts; }
  }

  function Occurrences(refused: seq<(Key, Reason)>, r: Reason): nat {
    if refused == [] then 0
    else Occurrences(refused[..|refused| - 1], r) + if refused[|refused| - 1].1 == r then 1 else 0
  }

  ghost function RefusedKeys(refused: seq<(Key, Reason)>): set<Key> {
    if refused == [] then {} else RefusedKeys(refused[..|refused| - 1]) + {refused[|refused| - 1].0}
  }

  ghost function KeysOf(offers: seq<Offer>): set<Key> {
    if offers == [] then {} else KeysOf(offers[..|offers| - 1]) + {offers[|offers| - 1].key}
  }

  ghost function Listed(keys: seq<Key>): set<Key> {
    if keys == [] then {} else Listed(keys[..|keys| - 1]) + {keys[|keys| - 1]}
  }

  /** The counts of a report of `n` records. */
  ghost predicate Counted(report: Report, n: nat) {
    && report.merged + report.skipped + |report.indeterminate| == report.total == n
    && report.skipped == |report.refused| == Sum(report.reasons)
    && (forall r :: (if r in report.reasons then report.reasons[r] else 0) == Occurrences(report.refused, r))
  }

  ghost predicate Parts(keys: set<Key>, p: set<Key>, q: set<Key>, r: set<Key>) {
    keys == p + q + r && p !! q && p !! r && q !! r
  }

  /** Every key is in exactly one list, once. */
  ghost predicate Partitioned(report: Report, keys: set<Key>, mergedKeys: set<Key>) {
    && Parts(keys, mergedKeys, RefusedKeys(report.refused), Listed(report.indeterminate))
    && report.merged == |mergedKeys|
    && |RefusedKeys(report.refused)| == |report.refused|
    && |Listed(report.indeterminate)| == |report.indeterminate|
  }

  /** What a report over `offers` must say, `mergedKeys` and `committed` being the merged and the committed keys. */
  ghost predicate Truthful(report: Report, offers: seq<Offer>, mergedKeys: set<Key>, committed: set<Key>) {
    && Counted(report, |offers|)
    && Partitioned(report, KeysOf(offers), mergedKeys)
    && mergedKeys <= committed <= mergedKeys + Listed(report.indeterminate)
  }

  /** A refused record was not committed by this request. */
  lemma RefusedNotCommitted(report: Report, offers: seq<Offer>, mergedKeys: set<Key>, committed: set<Key>, i: nat)
    requires Truthful(report, offers, mergedKeys, committed) && i < |report.refused|
    ensures report.refused[i].0 !in committed
  {
    RefusedMember(report.refused, i);
  }

  lemma {:induction false} RefusedMember(refused: seq<(Key, Reason)>, i: nat)
    requires i < |refused|
    ensures refused[i].0 in RefusedKeys(refused)
  {
    if i < |refused| - 1 { RefusedMember(refused[..|refused| - 1], i); }
  }

  lemma OccurrencesAppend(refused: seq<(Key, Reason)>, e: (Key, Reason), r: Reason)
    ensures Occurrences(refused + [e], r) == Occurrences(refused, r) + if e.1 == r then 1 else 0
  {
    assert (refused + [e])[..|refused|] == refused;
  }

  lemma RefusedAppend(refused: seq<(Key, Reason)>, e: (Key, Reason))
    ensures RefusedKeys(refused + [e]) == RefusedKeys(refused) + {e.0}
  {
    assert (refused + [e])[..|refused|] == refused;
  }

  lemma ListedAppend(listed: seq<Key>, k: Key)
    ensures Listed(listed + [k]) == Listed(listed) + {k}
  {
    assert (listed + [k])[..|listed|] == listed;
  }

  lemma {:induction false} OfferedKey(offers: seq<Offer>, k: Key)
    ensures k in KeysOf(offers) <==> exists i :: 0 <= i < |offers| && offers[i].key == k
  {
    if offers != [] {
      var init := offers[..|offers| - 1];
      OfferedKey(init, k);
      if k in KeysOf(init) {
        var i :| 0 <= i < |init| && init[i].key == k;
        assert offers[i].key == k;
      }
      if i :| 0 <= i < |offers| && offers[i].key == k {
        if i < |init| { assert init[i].key == k; }
      }
    }
  }

  lemma NewKey(offers: seq<Offer>, n: nat)
    requires DistinctKeys(offers) && n < |offers|
    ensures offers[n].key !in KeysOf(offers[..n])
    ensures KeysOf(offers[..n + 1]) == KeysOf(offers[..n]) + {offers[n].key}
  {
    OfferedKey(offers[..n], offers[n].key);
    assert offers[..n + 1][..n] == offers[..n];
  }

  /** The key check: the batch is merged only when every key is well formed and offered once. */
  method CheckKeys(offers: seq<Offer>) returns (refusal: Option<Answer>)
    ensures refusal.None? <==> (forall i :: 0 <= i < |offers| ==> ValidKey(offers[i])) && DistinctKeys(offers)
    ensures refusal.Some? ==> !refusal.value.Reported?
    ensures refusal == Some(InvalidKey) ==> exists i :: 0 <= i < |offers| && !ValidKey(offers[i])
    ensures refusal == Some(DuplicateKey) ==> !DistinctKeys(offers)
  {
    var offeredKeys: set<Key> := {};
    for n := 0 to |offers|
      invariant forall i :: 0 <= i < n ==> ValidKey(offers[i])
      invariant forall i, j :: 0 <= i < j < n ==> offers[i].key != offers[j].key
      invariant forall k :: k in offeredKeys <==> exists i :: 0 <= i < n && offers[i].key == k
    {
      var o := offers[n];
      if o.key.id == "" || o.key.table == OtherTable("") || Merge.Get(o.record.data, Id) != Text(o.key.id) {
        return Some(InvalidKey);
      }
      if offers[n].key in offeredKeys { return Some(DuplicateKey); }
      offeredKeys := offeredKeys + {offers[n].key};
    }
    return None;
  }

  /** Every one of the first `n` records whose deadline came first is listed indeterminate. */
  ghost predicate DeadlinesListed(report: Report, offers: seq<Offer>, runs: seq<Run>, n: nat)
    requires n <= |offers| == |runs|
  {
    forall i :: 0 <= i < n && runs[i].deadlineFirst ==> offers[i].key in Listed(report.indeterminate)
  }

  /** The keys of the first `n` records whose runs commit, and of those merged within their deadlines. */
  ghost function CommittedKeys(offers: seq<Offer>, runs: seq<Run>, n: nat): set<Key>
    requires n <= |offers| == |runs|
  {
    if n == 0 then {}
    else CommittedKeys(offers, runs, n - 1) + if Commits(offers[n - 1], runs[n - 1]) then {offers[n - 1].key} else {}
  }

  ghost function MergedKeys(offers: seq<Offer>, runs: seq<Run>, n: nat): set<Key>
    requires n <= |offers| == |runs|
  {
    if n == 0 then {}
    else MergedKeys(offers, runs, n - 1)
         + if Merges(offers[n - 1], runs[n - 1]) && !runs[n - 1].deadlineFirst then {offers[n - 1].key} else {}
  }

  /** The refusals of the first `n` records, in order: every record refused within its deadline, for the reason its
      run gives. */
  ghost function RefusalsOf(offers: seq<Offer>, runs: seq<Run>, n: nat): seq<(Key, Reason)>
    requires n <= |offers| == |runs|
  {
    if n == 0 then []
    else
      var refusal := RefusalOf(offers[n - 1], runs[n - 1]);
      RefusalsOf(offers, runs, n - 1)
      + if refusal.Some? && !runs[n - 1].deadlineFirst then [(offers[n - 1].key, refusal.value)] else []
  }

  lemma NextKeys(offers: seq<Offer>, runs: seq<Run>, n: nat, commits: bool, merges: bool)
    requires n < |offers| == |runs|
    requires commits <==> Commits(offers[n], runs[n])
    requires merges <==> Merges(offers[n], runs[n]) && !runs[n].deadlineFirst
    ensures CommittedKeys(offers, runs, n + 1)
         == if commits then CommittedKeys(offers, runs, n) + {offers[n].key} else CommittedKeys(offers, runs, n)
    ensures MergedKeys(offers, runs, n + 1)
         == if merges then MergedKeys(offers, runs, n) + {offers[n].key} else MergedKeys(offers, runs, n)
  {
  }

  /** Merge the next record within its deadline. */
  method MergeInTime(offers: seq<Offer>, runs: seq<Run>, n: nat) returns (outcome: Outcome, ghost commits: bool)
    requires n < |offers| == |runs|
    ensures outcome.Merged? ==> commits
    ensures outcome.Refused? ==> !commits
    ensures runs[n].deadlineFirst ==> outcome.Indeterminate?
    ensures RefusalsOf(offers, runs, n + 1)
         == RefusalsOf(offers, runs, n) + if outcome.Refused? then [(offers[n].key, outcome.reason)] else []
    ensures CommittedKeys(offers, runs, n + 1)
         == if commits then CommittedKeys(offers, runs, n) + {offers[n].key} else CommittedKeys(offers, runs, n)
    ensures MergedKeys(offers, runs, n + 1)
         == if outcome.Merged? then MergedKeys(offers, runs, n) + {offers[n].key} else MergedKeys(offers, runs, n)
  {
    outcome, commits := MergeOne(offers[n], runs[n]);
    NextKeys(offers, runs, n, commits, outcome.Merged? && !runs[n].deadlineFirst);
    if runs[n].deadlineFirst { outcome := Indeterminate; }
  }

  /** Report the next record's outcome. */
  method Count(report: Report, offers: seq<Offer>, runs: seq<Run>, n: nat, outcome: Outcome, ghost commits: bool,
               ghost mergedKeys: set<Key>, ghost committed: set<Key>) returns (next: Report)
    requires n < |offers| == |runs| && DistinctKeys(offers)
    requires Truthful(report, offers[..n], mergedKeys, committed) && DeadlinesListed(report, offers, runs, n)
    requires outcome.Merged? ==> commits
    requires outcome.Refused? ==> !commits
    requires runs[n].deadlineFirst ==> outcome.Indeterminate?
    ensures Truthful(next, offers[..n + 1], if outcome.Merged? then mergedKeys + {offers[n].key} else mergedKeys,
                     if commits then committed + {offers[n].key} else committed)
    ensures DeadlinesListed(next, offers, runs, n + 1)
    ensures next == Grown(report, offers[n].key, outcome)
  {
    ReportGrows(report, offers, n, mergedKeys, committed, outcome, commits);
    next := Tally(report, offers[n].key, outcome);
  }

  /** Merge and report the next record. */
  method MergeNext(report: Report, offers: seq<Offer>, runs: seq<Run>, n: nat) returns (next: Report)
    requires n < |offers| == |runs| && DistinctKeys(offers)
    requires Truthful(report, offers[..n], MergedKeys(offers, runs, n), CommittedKeys(offers, runs, n))
    requires DeadlinesListed(report, offers, runs, n) && report.refused == RefusalsOf(offers, runs, n)
    ensures Truthful(next, offers[..n + 1], MergedKeys(offers, runs, n + 1), CommittedKeys(offers, runs, n + 1))
    ensures DeadlinesListed(next, offers, runs, n + 1) && next.refused == RefusalsOf(offers, runs, n + 1)
  {
    var outcome;
    ghost var commits;
    outcome, commits := MergeInTime(offers, runs, n);
    next := Count(report, offers, runs, n, outcome, commits, MergedKeys(offers, runs, n), CommittedKeys(offers, runs, n));
  }

  /** The report is truthful about what the request's runs did. */
  method Post(offers: seq<Offer>, runs: seq<Run>) returns (answer: Answer, ghost committed: set<Key>)
    requires |runs| == |offers|
    ensures answer.Reported? <==> (forall i :: 0 <= i < |offers| ==> ValidKey(offers[i])) && DistinctKeys(offers)
    ensures answer.Reported? ==> Truthful(answer.report, offers, MergedKeys(offers, runs, |offers|), committed)
    ensures answer.Reported? ==> DeadlinesListed(answer.report, offers, runs, |offers|)
    ensures answer.Reported? ==> answer.report.refused == RefusalsOf(offers, runs, |offers|)
    ensures committed == if answer.Reported? then CommittedKeys(offers, runs, |offers|) else {}
  {
    committed := {};
    var refusal := CheckKeys(offers);
    if refusal.Some? { return refusal.value, committed; }
    var report := Report(0, 0, map[], [], [], 0);
    for n := 0 to |offers|
      invariant Truthful(report, offers[..n], MergedKeys(offers, runs, n), CommittedKeys(offers, runs, n))
      invariant DeadlinesListed(report, offers, runs, n) && report.refused == RefusalsOf(offers, runs, n)
    {
      report := MergeNext(report, offers, runs, n);
    }
    assert offers[..|offers|] == offers;
    committed := CommittedKeys(offers, runs, |offers|);
    return Reported(report), committed;
  }

  /** Count one record's outcome, list its key when it was not merged, and its reason when it was refused. */
  method Tally(before: Report, key: Key, outcome: Outcome) returns (report: Report)
    ensures report == Grown(before, key, outcome)
    ensures Listed(before.indeterminate) <= Listed(report.indeterminate)
    ensures outcome.Indeterminate? ==> key in Listed(report.indeterminate)
  {
    report := before.(total := before.total + 1);
    match outcome {
      case Refused(reason) =>
        var seen := if reason in report.reasons then report.reasons[reason] else 0;
        report := report.(skipped := report.skipped + 1, reasons := report.reasons[reason := seen + 1],
                          refused := report.refused + [(key, reason)]);
      case Merged =>
        report := report.(merged := report.merged + 1);
      case Indeterminate =>
        ListedAppend(report.indeterminate, key);
        report := report.(indeterminate := report.indeterminate + [key]);
    }
  }

  /** The report after one more record. */
  ghost function Grown(a: Report, key: Key, outcome: Outcome): Report {
    match outcome
    case Refused(r) =>
      a.(skipped := a.skipped + 1, total := a.total + 1, refused := a.refused + [(key, r)],
         reasons := a.reasons[r := (if r in a.reasons then a.reasons[r] else 0) + 1])
    case Merged => a.(merged := a.merged + 1, total := a.total + 1)
    case Indeterminate => a.(indeterminate := a.indeterminate + [key], total := a.total + 1)
  }

  lemma CountsGrow(a: Report, n: nat, key: Key, outcome: Outcome)
    requires Counted(a, n)
    ensures Counted(Grown(a, key, outcome), n + 1)
  {
    if outcome.Refused? {
      var b := Grown(a, key, outcome);
      SumCounts(a.reasons, outcome.reason);
      forall r ensures (if r in b.reasons then b.reasons[r] else 0) == Occurrences(b.refused, r) {
        OccurrencesAppend(a.refused, (key, outcome.reason), r);
      }
    }
  }

  lemma PartsGrow(keys: set<Key>, p: set<Key>, q: set<Key>, r: set<Key>, key: Key)
    requires Parts(keys, p, q, r) && key !in keys
    ensures Parts(keys + {key}, p + {key}, q, r)
    ensures Parts(keys + {key}, p, q + {key}, r)
    ensures Parts(keys + {key}, p, q, r + {key})
    ensures |p + {key}| == |p| + 1 && |q + {key}| == |q| + 1 && |r + {key}| == |r| + 1
  {
    assert key !in p && key !in q && key !in r;
  }

  lemma KeysOfGrown(a: Report, key: Key, outcome: Outcome)
    ensures RefusedKeys(Grown(a, key, outcome).refused)
         == if outcome.Refused? then RefusedKeys(a.refused) + {key} else RefusedKeys(a.refused)
    ensures Listed(Grown(a, key, outcome).indeterminate)
         == if outcome.Indeterminate? then Listed(a.indeterminate) + {key} else Listed(a.indeterminate)
  {
    match outcome
    case Refused(reason) => RefusedAppend(a.refused, (key, reason));
    case Merged =>
    case Indeterminate => ListedAppend(a.indeterminate, key);
  }

  lemma KeysGrow(a: Report, keys: set<Key>, mergedKeys: set<Key>, key: Key, outcome: Outcome)
    requires Partitioned(a, keys, mergedKeys) && key !in keys
    ensures Partitioned(Grown(a, key, outcome), keys + {key}, if outcome.Merged? then mergedKeys + {key} else mergedKeys)
    ensures Listed(Grown(a, key, outcome).indeterminate)
         == if outcome.Indeterminate? then Listed(a.indeterminate) + {key} else Listed(a.indeterminate)
  {
    PartsGrow(keys, mergedKeys, RefusedKeys(a.refused), Listed(a.indeterminate), key);
    KeysOfGrown(a, key, outcome);
  }

  /** One more record, reported in one of the three ways, keeps the report truthful. */
  lemma ReportGrows(a: Report, offers: seq<Offer>, n: nat, mergedKeys: set<Key>, committed: set<Key>,
                    outcome: Outcome, commits: bool)
    requires n < |offers| && DistinctKeys(offers) && Truthful(a, offers[..n], mergedKeys, committed)
    requires outcome.Merged? ==> commits
    requires outcome.Refused? ==> !commits
    ensures
      var key := offers[n].key;
      Truthful(Grown(a, key, outcome), offers[..n + 1], if outcome.Merged? then mergedKeys + {key} else mergedKeys,
               if commits then committed + {key} else committed)
  {
    NewKey(offers, n);
    CountsGrow(a, n, offers[n].key, outcome);
    KeysGrow(a, KeysOf(offers[..n]), mergedKeys, offers[n].key, outcome);
  }
}
