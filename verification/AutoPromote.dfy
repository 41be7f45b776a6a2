/** The auto-promotion sweep: each eligible candidate gets one Memory row, recorded on the candidate,
    stamped, and only then marked promoted; a later sweep takes up what an earlier one left. */
module AutoPromote {
  import opened Store

  const DefaultCap: nat := 200
  const Reviewer := "machine:adk-auto-promote"
  const Durable := "persistent"

  datatype Status = IsPending | IsPromoted | IsRejected

  /** The gate's answer, a function of the candidate's own fields: the row's tags and visibility. */
  datatype Plan = Plan(tags: set<string>, visibility: string)

  datatype Recorded = Recorded(rowId: nat, token: nat)

  datatype Candidate = Candidate(agent: string, status: Status, claim: string, plan: Option<Plan>,
                                 recorded: Option<Recorded>, reviewer: string, decidedAt: string)

  datatype Verdict = Verdict(approved: bool, reviewer: string, promotedAt: string, boundHash: nat)

  datatype MemoryRow = MemoryRow(agent: string, content: string, token: nat, visibility: string,
                                 durability: string, tags: set<string>, archived: bool, verdict: Option<Verdict>)

  datatype Use = Unstamped | Adoptable

  /** The fields a promoted row was written with. */
  predicate KeepsFields(row: MemoryRow, c: Candidate, plan: Plan) {
    && row.agent == c.agent && row.content == c.claim && !row.archived
    && row.visibility == plan.visibility && row.durability == Durable && plan.tags <= row.tags
  }

  predicate OwnApproval(row: MemoryRow, hash: string -> nat) {
    && row.verdict.Some? && row.verdict.value.approved && row.verdict.value.reviewer == Reviewer
    && row.verdict.value.boundHash == hash(row.content) && row.verdict.value.promotedAt != ""
  }

  /** What a sweep may do with the row recorded on a candidate; nothing means a fresh write. */
  function RecordedRowUse(rows: map<nat, MemoryRow>, c: Candidate, plan: Plan, hash: string -> nat): Option<Use> {
    if c.recorded.None? || c.recorded.value.rowId !in rows then None
    else
      var row := rows[c.recorded.value.rowId];
      if row.token != c.recorded.value.token || !KeepsFields(row, c, plan) then None
      else if row.verdict.None? then Some(Unstamped)
      else if OwnApproval(row, hash) then Some(Adoptable) else None
  }

  /** A recorded row that keeps its fields is taken up again, never written twice: it is stamped exactly
      when it has no verdict, and adopted exactly when the verdict is this reviewer's on its own content. */
  lemma RecordedRowIsTakenUp(rows: map<nat, MemoryRow>, c: Candidate, plan: Plan, hash: string -> nat, m: nat)
    requires m in rows && KeepsFields(rows[m], c, plan)
    requires c.recorded == Some(Recorded(m, rows[m].token))
    ensures RecordedRowUse(rows, c, plan, hash).Some? <==> rows[m].verdict.None? || OwnApproval(rows[m], hash)
    ensures RecordedRowUse(rows, c, plan, hash) == Some(Adoptable) <==> OwnApproval(rows[m], hash)
  {
  }

  /** The row a sweep may take up, spelled out: the recorded one, of its incarnation, with the candidate's agent
      and claim and the planned visibility, durability and tags, not archived; and its verdict none, or an
      approval of its own content by this reviewer, dated. */
  lemma RecordedRowUseExactly(rows: map<nat, MemoryRow>, c: Candidate, plan: Plan, hash: string -> nat)
    ensures RecordedRowUse(rows, c, plan, hash).Some? <==>
      && c.recorded.Some? && c.recorded.value.rowId in rows
      && var row := rows[c.recorded.value.rowId];
      && row.token == c.recorded.value.token && row.agent == c.agent && row.content == c.claim && !row.archived
      && row.visibility == plan.visibility && row.durability == "persistent" && (forall tag :: tag in plan.tags ==> tag in row.tags)
      && (row.verdict.Some? ==>
            && row.verdict.value.approved && row.verdict.value.reviewer == "machine:adk-auto-promote"
            && row.verdict.value.boundHash == hash(row.content) && row.verdict.value.promotedAt != "")
    ensures RecordedRowUse(rows, c, plan, hash).Some? ==>
      RecordedRowUse(rows, c, plan, hash)
        == Some(if rows[c.recorded.value.rowId].verdict.None? then Unstamped else Adoptable)
  {
  }

  /** Sweeps that overlap can write twice: one that enumerated the candidate before another recorded its row
      still sees no row, whatever is stored by then. */
  lemma StaleEnumerationWritesAgain(rows: map<nat, MemoryRow>, c: Candidate, plan: Plan, hash: string -> nat, m: nat)
    requires m in rows && KeepsFields(rows[m], c, plan) && OwnApproval(rows[m], hash)
    ensures
      var enumerated, stored := c.(recorded := None), c.(recorded := Some(Recorded(m, rows[m].token)));
      && RecordedRowUse(rows, stored, plan, hash) == Some(Adoptable)
      && RecordedRowUse(rows, enumerated, plan, hash) == None
  {
  }

  /** A candidate as enumerated, unless only its status changed since. */
  predicate SameButStatus(a: Candidate, b: Candidate) { a.(status := b.status) == b }

  predicate SameClaim(a: Candidate, b: Candidate) { a.agent == b.agent && a.claim == b.claim }

  datatype Commit = PromotedNow | PendingNow | UnconfirmedNow

  /** Why a candidate is skipped: its gate's answer, or what its promotion met. */
  datatype Why = Ineligible | LockBusy | RecordedRowChanged | WriteFailed | StampRefused
  datatype Skip = Skip(candidate: nat, why: Why)
  datatype Result = Skipped(why: Why) | Marked(commit: Commit)

  /** Whether a write returned, or threw, having landed or not. */
  datatype Step = Returns | Throws(landed: bool)

  /** What happens around one candidate: its row's lock, the Memory write and what it stored instead of the
      planned row, the recording, the stamp's refusal and its confirmation, the candidate's update and the read
      after it. */
  datatype Luck = Luck(lockFree: bool, write: Step, altered: Option<MemoryRow>, record: Step, stampRefused: bool,
                       stampConfirmed: bool, update: Step, unreadable: bool)

  predicate Calm(luck: Luck) {
    && luck.lockFree && luck.write.Returns? && luck.altered.None? && luck.record.Returns?
    && !luck.stampRefused && luck.stampConfirmed && luck.update.Returns?
  }

  datatype SweepReport = SweepReport(promoted: seq<nat>, skipped: seq<Skip>, incomplete: seq<nat>, unconfirmed: seq<nat>,
                           considered: nat, handled: nat)

  /** What a report's ids stand on: the candidate, the stored row as it was approved, and the candidate as read
      after an update that threw. */
  datatype Seen = Seen(candidate: nat, row: MemoryRow, read: Option<Candidate>)
  datatype Evidence = Evidence(promoted: seq<Seen>, incomplete: seq<Seen>, unconfirmed: seq<Seen>)

  function Added(evidence: Evidence, result: Result, seen: Seen): Evidence {
    match result
    case Skipped(_) => evidence
    case Marked(PromotedNow) => evidence.(promoted := evidence.promoted + [seen])
    case Marked(PendingNow) => evidence.(incomplete := evidence.incomplete + [seen])
    case Marked(UnconfirmedNow) => evidence.(unconfirmed := evidence.unconfirmed + [seen])
  }

  const NO_ROW := MemoryRow("", "", 0, "", "", {}, false, None)

  ghost predicate AllBelow(ids: set<nat>, bound: nat) { forall m :: m in ids ==> m < bound }

  function Named(report: SweepReport): set<nat> {
    (set m | m in report.promoted) + (set m | m in report.incomplete) + (set m | m in report.unconfirmed)
  }

  /** Every candidate considered is counted once. */
  predicate Tallied(report: SweepReport) {
    |report.promoted| + |report.incomplete| + |report.unconfirmed| + |report.skipped| == report.considered
  }

  function Reported(report: SweepReport, id: nat, result: Result, m: nat): SweepReport {
    match result
    case Skipped(why) => report.(skipped := report.skipped + [Skip(id, why)])
    case Marked(PromotedNow) => report.(promoted := report.promoted + [m])
    case Marked(PendingNow) => report.(incomplete := report.incomplete + [m])
    case Marked(UnconfirmedNow) => report.(unconfirmed := report.unconfirmed + [m])
  }

  /** Nothing kept a promotion from being completed. */
  ghost predicate Undisturbed(report: SweepReport) {
    && report.incomplete == [] && report.unconfirmed == [] && |report.promoted| == report.handled
    && forall s :: s in report.skipped ==> s.why.Ineligible?
  }

  /** A candidate read back as promoted on this row by this reviewer. */
  ghost predicate ShowsPromotion(c: Candidate, m: nat) {
    c.status.IsPromoted? && c.recorded.Some? && c.recorded.value.rowId == m && c.reviewer == Reviewer
  }

  predicate PendingFor(agent: string, enumerated: map<nat, Candidate>, id: nat) {
    id in enumerated && enumerated[id].agent == agent && enumerated[id].status.IsPending?
  }

  /** How many of the first `n` enumerated are the agent's pending candidates. */
  function Pendings(order: seq<nat>, enumerated: map<nat, Candidate>, agent: string, n: nat): nat
    requires n <= |order|
  {
    if n == 0 then 0 else Pendings(order, enumerated, agent, n - 1) + if PendingFor(agent, enumerated, order[n - 1]) then 1 else 0
  }

  /** Of the candidates left, those from the `i`th enumerated on come each once, and none of `rest` does. */
  ghost predicate Ahead(order: seq<nat>, i: nat, left: set<nat>, rest: set<nat>) {
    && rest <= left && (forall j :: i <= j < |order| ==> order[j] in left && order[j] !in rest)
    && (forall j, k :: i <= j < k < |order| ==> order[j] != order[k])
  }

  lemma AheadNext(order: seq<nat>, i: nat, left: set<nat>, rest: set<nat>)
    requires i < |order| && Ahead(order, i, left, rest)
    ensures order[i] in left && Ahead(order, i + 1, left - {order[i]}, rest)
  {
  }

  class Sweeper {
    const hash: string -> nat
    var candidates: map<nat, Candidate>
    var memories: map<nat, MemoryRow>
    var nextId: nat                           // the next random row id, and the next incarnation token
    ghost var written: map<nat, set<nat>>     // the rows written for each candidate
    ghost var writes: nat                     // how many rows were written
    ghost var lost: set<nat>                  // candidates whose recording did not persist, or whose failed write did
    ghost var edited: set<nat>                // rows other writers changed or stored with other fields
    ghost var stored: set<(nat, MemoryRow)>   // every row that was ever stored, with its id
    ghost var marked: set<(nat, nat, MemoryRow)>  // the candidates marked promoted, with their approved rows
    ghost var threw: set<nat>                 // the candidates whose update threw
    ghost var readBacks: set<(nat, Candidate)>    // the candidates as read after that
    ghost var quiet: bool                     // no other writer changed a row or a candidate

    ghost function WrittenFor(id: nat): set<nat>
      reads this
    {
      if id in written then written[id] else {}
    }

    /** At most one row was written for the candidate and it is the recorded one, ready to be taken up;
        unless a recording was lost or such a row was changed by others. */
    ghost predicate Safe(id: nat)
      reads this
    {
      MayWrite(id) || Ready(id)
    }

    ghost predicate MayWrite(id: nat)
      reads this
    {
      id in lost || WrittenFor(id) == {} || !(WrittenFor(id) !! edited)
    }

    ghost predicate Ready(id: nat)
      reads this
    {
      && id in candidates && candidates[id].plan.Some? && candidates[id].recorded.Some?
      && var m := candidates[id].recorded.value.rowId;
      && WrittenFor(id) == {m} && m in memories
      && candidates[id].recorded.value.token == memories[m].token
      && KeepsFields(memories[m], candidates[id], candidates[id].plan.value)
      && (memories[m].verdict.None? || OwnApproval(memories[m], hash))
    }

    /** Row `m` was stored as `row`, carrying this reviewer's approval, bound to the candidate's own claim. */
    ghost predicate Approved(id: nat, m: nat, row: MemoryRow)
      requires id in candidates
      reads this
    {
      && (m, row) in stored && OwnApproval(row, hash)
      && row.agent == candidates[id].agent && row.content == candidates[id].claim
    }

    ghost predicate Valid()
      reads this
    {
      && (forall id :: id in written ==> Safe(id))
      && (forall m :: m in memories ==> m < nextId)
      && (forall m :: m in edited ==> m < nextId)
      && (forall id :: id in written ==> AllBelow(written[id], nextId))
      && (forall m :: m in memories ==> (m, memories[m]) in stored)
      && (forall p :: p in marked ==> p.0 in candidates && Approved(p.0, p.1, p.2))
    }

    constructor (hash: string -> nat, candidates: map<nat, Candidate>, memories: map<nat, MemoryRow>, nextId: nat)
      requires forall m :: m in memories ==> m < nextId
      ensures Valid() && written == map[] && writes == 0 && lost == {} && edited == {} && marked == {}
      ensures threw == {} && readBacks == {} && quiet
    {
      this.hash, this.candidates, this.memories, this.nextId := hash, candidates, memories, nextId;
      written, writes, lost, edited, marked := map[], 0, {}, {}, {};
      stored := set m | m in memories :: (m, memories[m]);
      threw, readBacks, quiet := {}, {}, true;
    }

    /** A reported row was stored, under that id and as the evidence says, carrying this reviewer's approval bound
        to its content, which is the claim of the agent's candidate the evidence names. */
    ghost predicate Backed(m: nat, seen: Seen, agent: string, enumerated: map<nat, Candidate>)
      reads this
    {
      && (m, seen.row) in stored && OwnApproval(seen.row, hash)
      && seen.candidate in enumerated && enumerated[seen.candidate].agent == agent
      && seen.row.agent == agent && seen.row.content == enumerated[seen.candidate].claim
    }

    ghost predicate Evidenced(report: SweepReport, agent: string, enumerated: map<nat, Candidate>, evidence: Evidence)
      reads this
    {
      && |evidence.promoted| == |report.promoted| && |evidence.incomplete| == |report.incomplete|
      && |evidence.unconfirmed| == |report.unconfirmed|
      && (forall i :: 0 <= i < |report.promoted| ==> Backed(report.promoted[i], evidence.promoted[i], agent, enumerated))
      && (forall i :: 0 <= i < |report.incomplete| ==> Backed(report.incomplete[i], evidence.incomplete[i], agent, enumerated))
      && (forall i :: 0 <= i < |report.unconfirmed| ==> Backed(report.unconfirmed[i], evidence.unconfirmed[i], agent, enumerated))
    }

    /** Each list is true. Promoted: the candidate was marked with that row, or read back promoted on it.
        Incomplete: its update threw, and it was read back pending. Unconfirmed: its update threw. Skipped as
        ineligible: the gate says so, and only then. */
    ghost predicate Sorted(report: SweepReport, enumerated: map<nat, Candidate>, evidence: Evidence)
      requires |evidence.promoted| == |report.promoted|
      reads this
    {
      && (forall i :: 0 <= i < |report.promoted| ==> PromotedTruly(report.promoted[i], evidence.promoted[i]))
      && (forall seen :: seen in evidence.incomplete ==> PendingTruly(seen))
      && (forall seen :: seen in evidence.unconfirmed ==> seen.candidate in threw)
      && (forall s :: s in report.skipped ==> s.candidate in enumerated && (s.why.Ineligible? <==> enumerated[s.candidate].plan.None?))
    }

    ghost predicate PromotedTruly(m: nat, seen: Seen)
      reads this
    {
      || (seen.candidate, m, seen.row) in marked
      || (seen.read.Some? && (seen.candidate, seen.read.value) in readBacks && ShowsPromotion(seen.read.value, m))
    }

    ghost predicate PendingTruly(seen: Seen)
      reads this
    {
      && seen.candidate in threw && seen.read.Some? && (seen.candidate, seen.read.value) in readBacks
      && seen.read.value.status.IsPending?
    }

    /** However many sweeps ran: at most one row per candidate, as long as its recordings persisted, its
        failed writes did not, and nobody changed its row. */
    lemma AtMostOneRow(id: nat)
      requires Valid() && id !in lost && WrittenFor(id) !! edited
      ensures |WrittenFor(id)| <= 1
    {
      if id in written { assert Safe(id); }
    }

    /** Other writers: any change of any Memory row, and of a candidate's status. */
    method Interfere()
      requires Valid()
      modifies this`candidates, this`memories, this`edited, this`stored, this`quiet
      ensures Valid() && edited >= old(edited) && stored >= old(stored) && candidates.Keys == old(candidates.Keys)
      ensures forall id :: id in candidates ==> SameButStatus(old(candidates)[id], candidates[id])
      ensures forall m :: m !in edited ==> (m in memories <==> m in old(memories))
      ensures forall m :: m !in edited && m in memories ==> memories[m] == old(memories)[m]
      ensures quiet ==> old(quiet) && memories == old(memories) && candidates == old(candidates) && edited == old(edited)
    {
      if * { return; }
      quiet := false;
      var m: nat := *;
      if m < nextId {
        var row: Option<MemoryRow> := *;
        EditRow(m, row);
      }
      var id: nat := *;
      if id in candidates {
        var status: Status := *;
        DecideElsewhere(id, status);
      }
    }

    method EditRow(m: nat, row: Option<MemoryRow>)
      requires Valid() && m < nextId
      modifies this`memories, this`edited, this`stored
      ensures Valid() && edited == old(edited) + {m} && stored >= old(stored)
      ensures memories == if row.Some? then old(memories)[m := row.value] else old(memories) - {m}
    {
      edited := edited + {m};
      if row.Some? {
        memories := memories[m := row.value];
        stored := stored + {(m, row.value)};
      } else {
        memories := memories - {m};
      }
      forall id | id in written ensures Safe(id) { assert old(Safe(id)); }
    }

    method DecideElsewhere(id: nat, status: Status)
      requires Valid() && id in candidates
      modifies this`candidates
      ensures Valid() && candidates == old(candidates)[id := old(candidates)[id].(status := status)]
    {
      candidates := candidates[id := candidates[id].(status := status)];
      forall x | x in written ensures Safe(x) { assert old(Safe(x)); }
    }

    /** The Memory write of a fresh row: it lands under a new id, or not at all; a failed write that landed,
        and any write until its recording persists, leave the candidate among the lost. */
    method WriteMemory(id: nat, c: Candidate, plan: Plan, luck: Luck) returns (row: Option<Recorded>)
      requires Valid() && MayWrite(id) && c.plan == Some(plan)
      modifies this`memories, this`nextId, this`written, this`writes, this`lost, this`edited, this`stored
      ensures Valid() && edited >= old(edited) && stored >= old(stored) && candidates == old(candidates) && lost >= old(lost)
      ensures lost <= old(lost) + {id} && writes <= old(writes) + 1
      ensures row.Some? <==> luck.write.Returns?
      ensures row.Some? ==>
        && var m := row.value.rowId;
        && id in lost && WrittenFor(id) == old(WrittenFor(id)) + {m} && m in memories && m < nextId
        && m !in old(WrittenFor(id)) && (luck.altered.None? ==> m !in edited)
        && (m !in edited ==>
              memories[m].token == row.value.token && KeepsFields(memories[m], c, plan) && memories[m].verdict.None?)
    {
      if luck.write == Throws(false) { return None; }
      var m := nextId;
      var planned := MemoryRow(c.agent, c.claim, m, plan.visibility, Durable, plan.tags, false, None);
      var landed := if luck.altered.Some? then luck.altered.value else planned;
      StoreRow(id, m, landed, landed != planned);
      if luck.write.Throws? { return None; }
      return Some(Recorded(m, m));
    }

    method StoreRow(id: nat, m: nat, row: MemoryRow, ghost changed: bool)
      requires Valid() && m == nextId
      modifies this`memories, this`nextId, this`written, this`writes, this`lost, this`edited, this`stored
      ensures Valid() && memories == old(memories)[m := row] && nextId == m + 1
      ensures stored == old(stored) + {(m, row)}
      ensures lost == old(lost) + {id} && writes == old(writes) + 1
      ensures edited == old(edited) + (if changed then {m} else {})
      ensures WrittenFor(id) == old(WrittenFor(id)) + {m} && m !in old(WrittenFor(id))
    {
      nextId, lost := m + 1, lost + {id};
      PlaceRow(m, row, changed);
      CountRow(id, m);
    }

    /** A lost candidate's rows are counted without a promise about them. */
    ghost method CountRow(id: nat, m: nat)
      requires Valid() && id in lost && m < nextId
      modifies this`written, this`writes
      ensures Valid() && writes == old(writes) + 1 && WrittenFor(id) == old(WrittenFor(id)) + {m}
    {
      written, writes := written[id := WrittenFor(id) + {m}], writes + 1;
      forall x | x in written && x != id ensures Safe(x) { assert old(Safe(x)); }
    }

    /** A row appears under an id no candidate's row has. */
    method PlaceRow(m: nat, row: MemoryRow, ghost changed: bool)
      requires Valid() && m + 1 == nextId && m !in memories && forall id :: id in written ==> AllBelow(written[id], m)
      modifies this`memories, this`edited, this`stored
      ensures Valid() && memories == old(memories)[m := row] && stored == old(stored) + {(m, row)}
      ensures edited == old(edited) + (if changed then {m} else {})
    {
      if changed { edited := edited + {m}; }
      memories := memories[m := row];
      stored := stored + {(m, row)};
      forall x | x in written ensures Safe(x) { assert old(Safe(x)); }
    }

    /** Record the written row on the candidate, before its stamp. It may throw, committed or not. */
    method Record(id: nat, c: Candidate, row: Recorded, luck: Luck, ghost wasLost: bool)
      requires Valid() && id in candidates && SameButStatus(c, candidates[id]) && c.plan.Some?
      requires !wasLost ==> WrittenFor(id) == {row.rowId} || !(WrittenFor(id) !! edited)
      requires row.rowId !in edited ==>
        && row.rowId in memories && memories[row.rowId].token == row.token
        && KeepsFields(memories[row.rowId], c, c.plan.value) && memories[row.rowId].verdict.None?
      requires id in lost && row.rowId in WrittenFor(id)
      modifies this`candidates, this`lost
      ensures Valid() && candidates.Keys == old(candidates.Keys) && lost <= old(lost)
      ensures forall other :: other in candidates && other != id ==> candidates[other] == old(candidates)[other]
      ensures candidates[id].(status := c.status, recorded := c.recorded) == c
      ensures id in lost || candidates[id].recorded == Some(row)
      ensures luck.record != Throws(false) ==> candidates[id].recorded == Some(row)
    {
      if luck.record == Throws(false) { return; }
      PutCandidate(id, c.(recorded := Some(row)));
      if !wasLost { lost := lost - {id}; }
    }

    /** A put of a lost candidate, its claim kept. */
    method PutCandidate(id: nat, c: Candidate)
      requires Valid() && id in candidates && id in lost && SameClaim(c, candidates[id])
      modifies this`candidates
      ensures Valid() && candidates == old(candidates)[id := c]
    {
      candidates := candidates[id := c];
      forall x | x in written && x != id ensures Safe(x) { assert old(Safe(x)); }
    }

    /** Stamp the row under its lock: only the row of this promotion, and of a reused one only unstamped with
        its fields kept. True is answered only when the stored row of this promotion carries the approval. */
    method Stamp(c: Candidate, plan: Plan, row: Recorded, reused: bool, decidedAt: string, luck: Luck) returns (stamped: bool)
      requires Valid() && decidedAt != ""
      modifies this`memories, this`stored
      ensures Valid()
      ensures stamped ==>
        && row.rowId in memories && OwnApproval(memories[row.rowId], hash)
        && memories[row.rowId].agent == c.agent && memories[row.rowId].content == c.claim
        && memories[row.rowId].token == row.token
      ensures stamped <==>
        && !luck.stampRefused && luck.stampConfirmed
        && row.rowId in old(memories) && Stampable(old(memories)[row.rowId], c, plan, row.token, reused)
      // It writes the verdict fields of that row, or nothing.
      ensures (memories == old(memories) && stored == old(stored))
        || (row.rowId in old(memories) && row.rowId in memories
            && memories == old(memories)[row.rowId := memories[row.rowId]]
            && memories[row.rowId] == old(memories)[row.rowId].(verdict := memories[row.rowId].verdict)
            && stored == old(stored) + {(row.rowId, memories[row.rowId])})
    {
      var m := row.rowId;
      if m !in memories { return false; }
      var selected := memories[m];
      if selected.agent != c.agent || selected.content != c.claim || selected.token != row.token { return false; }
      if reused && (selected.verdict.Some? || !KeepsFields(selected, c, plan)) { return false; }
      if selected.verdict.Some? && selected.verdict.value.boundHash != hash(selected.content) { return false; }
      if luck.stampRefused { return false; }
      memories := memories[m := selected.(verdict := Some(Verdict(true, Reviewer, decidedAt, hash(selected.content))))];
      stored := stored + {(m, memories[m])};
      stamped := luck.stampConfirmed;
    }

    /** The row of this promotion; a reused one unstamped and as it was written. */
    ghost predicate Stampable(row: MemoryRow, c: Candidate, plan: Plan, token: nat, reused: bool) {
      && row.agent == c.agent && row.content == c.claim && row.token == token
      && (row.verdict.Some? ==> !reused && row.verdict.value.boundHash == hash(row.content))
      && (reused ==> KeepsFields(row, c, plan))
    }

    /** Mark the candidate promoted; after a throw, answer from a fresh read of the candidate. */
    method CommitCandidatePromotion(id: nat, row: Candidate, m: nat, luck: Luck, ghost seen: MemoryRow)
      returns (outcome: Commit, ghost read: Option<Candidate>)
      requires Valid() && id in candidates && Approved(id, m, seen)
      requires row.agent == candidates[id].agent && row.claim == candidates[id].claim && row.plan == candidates[id].plan
      requires row.status.IsPromoted?
      requires id in lost || row.recorded == candidates[id].recorded
      modifies this`candidates, this`memories, this`edited, this`marked, this`stored, this`threw, this`readBacks, this`quiet
      ensures Valid() && edited >= old(edited) && stored >= old(stored) && candidates.Keys == old(candidates.Keys)
      ensures forall other :: other in candidates && other != id ==> SameButStatus(old(candidates)[other], candidates[other])
      ensures id in candidates && SameClaim(old(candidates)[id], candidates[id])
      // Marked, when the update returned or landed; nothing else.
      ensures marked == old(marked) + (if luck.update == Throws(false) then {} else {(id, m, seen)})
      ensures threw == old(threw) + (if luck.update.Throws? then {id} else {})
      // An update that returned is promoted; after a throw the candidate, as it is now, decides.
      ensures luck.update.Returns? ==> outcome.PromotedNow? && read.None? && candidates == old(candidates)[id := row] && quiet == old(quiet)
      ensures luck.update.Throws? && luck.unreadable ==> outcome.UnconfirmedNow? && read.None?
      ensures luck.update.Throws? && !luck.unreadable ==>
        && read == Some(candidates[id]) && (id, candidates[id]) in readBacks
        && (outcome.PendingNow? <==> candidates[id].status.IsPending?)
        && (outcome.PromotedNow? <==> ShowsPromotion(candidates[id], m))
      ensures readBacks >= old(readBacks) && (quiet ==> old(quiet))
    {
      outcome, read := PromotedNow, None;
      if luck.update != Throws(false) { PutPromoted(id, row, m, seen); }
      if luck.update.Throws? { outcome, read := ReadCandidate(id, m, luck); }
    }

    method PutPromoted(id: nat, row: Candidate, m: nat, ghost seen: MemoryRow)
      requires Valid() && id in candidates && Approved(id, m, seen)
      requires row.agent == candidates[id].agent && row.claim == candidates[id].claim && row.plan == candidates[id].plan
      requires id in lost || row.recorded == candidates[id].recorded
      modifies this`candidates, this`marked
      ensures Valid() && candidates == old(candidates)[id := row] && marked == old(marked) + {(id, m, seen)}
    {
      candidates := candidates[id := row];
      marked := marked + {(id, m, seen)};
      forall x | x in written ensures Safe(x) { assert old(Safe(x)); }
    }

    /** The fresh read after an update that threw. */
    method ReadCandidate(id: nat, m: nat, luck: Luck) returns (outcome: Commit, ghost read: Option<Candidate>)
      requires Valid() && id in candidates
      modifies this`candidates, this`memories, this`edited, this`stored, this`threw, this`readBacks, this`quiet
      ensures Valid() && edited >= old(edited) && stored >= old(stored) && candidates.Keys == old(candidates.Keys)
      ensures forall id :: id in candidates ==> SameButStatus(old(candidates)[id], candidates[id])
      ensures threw == old(threw) + {id} && (quiet ==> old(quiet))
      ensures luck.unreadable ==> outcome.UnconfirmedNow? && read.None? && readBacks == old(readBacks)
      ensures !luck.unreadable ==>
        && read == Some(candidates[id]) && readBacks == old(readBacks) + {(id, candidates[id])}
        && (outcome.PendingNow? <==> candidates[id].status.IsPending?)
        && (outcome.PromotedNow? <==> ShowsPromotion(candidates[id], m))
    {
      read := None;
      threw := threw + {id};
      Interfere();
      if luck.unreadable { return UnconfirmedNow, read; }
      var found := candidates[id];
      read := Some(found);
      readBacks := readBacks + {(id, found)};
      if found.status.IsPending? { return PendingNow, read; }
      if found.status.IsPromoted? && found.recorded.Some? && found.recorded.value.rowId == m && found.reviewer == Reviewer {
        return PromotedNow, read;
      }
      return UnconfirmedNow, read;
    }

    lemma NothingToReuse(id: nat, c: Candidate, plan: Plan)
      requires Valid() && id in candidates && SameButStatus(c, candidates[id]) && c.plan == Some(plan)
      requires RecordedRowUse(memories, c, plan, hash).None?
      ensures MayWrite(id)
    {
      if !MayWrite(id) {
        assert Safe(id);
        RecordedRowIsTakenUp(memories, c, plan, hash, c.recorded.value.rowId);
      }
    }

    /** What a result says of a candidate: it stands on an approved row, and is what its update met. */
    ghost predicate Stands(id: nat, c: Candidate, result: Result, m: nat, seen: MemoryRow, read: Option<Candidate>)
      reads this
    {
      result.Marked? ==>
        && id in candidates && Approved(id, m, seen) && SameClaim(c, candidates[id])
        && (result.commit.PromotedNow? ==> PromotedTruly(m, Seen(id, seen, read)))
        && (result.commit.PendingNow? ==> PendingTruly(Seen(id, seen, read)))
        && (result.commit.UnconfirmedNow? ==> id in threw)
    }

    /** Why a candidate was skipped: a lock that was not free, a stamp or a write that failed, or another writer. */
    ghost predicate Excused(result: Result, luck: Luck)
      reads this
    {
      result.Skipped? ==>
        match result.why
        case Ineligible => false
        case LockBusy => !luck.lockFree
        case RecordedRowChanged => !quiet
        case WriteFailed => luck.write.Throws?
        case StampRefused => luck.stampRefused || !luck.stampConfirmed || luck.altered.Some? || !quiet
    }

    /** One eligible candidate of a sweep. It writes at most one row, and only when it may; what it reports
        promoted is a row that already carried this reviewer's approval of its content. */
    method Visit(id: nat, c: Candidate, plan: Plan, decidedAt: string, luck: Luck)
      returns (result: Result, m: nat, ghost seen: MemoryRow, ghost read: Option<Candidate>)
      requires Valid() && id in candidates && SameButStatus(c, candidates[id]) && c.plan == Some(plan) && decidedAt != ""
      modifies this
      ensures Valid() && writes <= old(writes) + 1 && edited >= old(edited) && stored >= old(stored)
      ensures candidates.Keys == old(candidates.Keys)
      ensures forall other :: other in candidates && other != id ==> SameButStatus(old(candidates)[other], candidates[other])
      ensures Stands(id, c, result, m, seen, read) && Excused(result, luck)
      ensures Booked(old(marked), old(threw), old(readBacks), old(quiet), id, result, m, seen)
      ensures result.Marked? && luck.update.Returns? ==> result.commit.PromotedNow?
      ensures writes > old(writes) ==> old(MayWrite(id)) || !(old(WrittenFor(id)) !! edited)
    {
      Interfere();
      result, m, seen, read := VisitNow(id, c, plan, decidedAt, luck);
    }

    method VisitNow(id: nat, c: Candidate, plan: Plan, decidedAt: string, luck: Luck)
      returns (result: Result, m: nat, ghost seen: MemoryRow, ghost read: Option<Candidate>)
      requires Valid() && id in candidates && SameButStatus(c, candidates[id]) && c.plan == Some(plan) && decidedAt != ""
      modifies this
      ensures Valid() && writes <= old(writes) + 1 && edited >= old(edited) && stored >= old(stored)
      ensures candidates.Keys == old(candidates.Keys)
      ensures forall other :: other in candidates && other != id ==> SameButStatus(old(candidates)[other], candidates[other])
      ensures Stands(id, c, result, m, seen, read) && Excused(result, luck)
      ensures Booked(old(marked), old(threw), old(readBacks), old(quiet), id, result, m, seen)
      ensures result.Marked? && luck.update.Returns? ==> result.commit.PromotedNow?
      ensures writes > old(writes) ==> old(MayWrite(id))
    {
      var use := RecordedRowUse(memories, c, plan, hash);
      if use == Some(Adoptable) {
        result, m, seen, read := Adopt(id, c, plan, luck);
      } else if use.None? {
        NothingToReuse(id, c, plan);
        result, m, seen, read := WriteFresh(id, c, plan, decidedAt, luck);
      } else {
        result, m, seen, read := StampAgain(id, c, plan, decidedAt, luck);
      }
    }

    /** How a visit changes what is marked and read back: at most its own candidate is marked, and only reported. */
    ghost predicate Booked(marks: set<(nat, nat, MemoryRow)>, throwing: set<nat>, seenBack: set<(nat, Candidate)>, wasQuiet: bool,
                           id: nat, result: Result, m: nat, seen: MemoryRow)
      reads this
    {
      && marks <= marked <= marks + (if result.Marked? then {(id, m, seen)} else {})
      && throwing <= threw && seenBack <= readBacks && (quiet ==> wasQuiet)
    }

    /** A recorded row that is unstamped: stamp it and mark the candidate. */
    method StampAgain(id: nat, c: Candidate, plan: Plan, decidedAt: string, luck: Luck)
      returns (result: Result, m: nat, ghost seen: MemoryRow, ghost read: Option<Candidate>)
      requires Valid() && id in candidates && SameButStatus(c, candidates[id]) && c.plan == Some(plan) && decidedAt != ""
      requires RecordedRowUse(memories, c, plan, hash) == Some(Unstamped)
      modifies this`candidates, this`memories, this`edited, this`marked, this`stored, this`threw, this`readBacks, this`quiet
      ensures Valid() && edited >= old(edited) && stored >= old(stored) && candidates.Keys == old(candidates.Keys)
      ensures forall other :: other in candidates && other != id ==> SameButStatus(old(candidates)[other], candidates[other])
      ensures Stands(id, c, result, m, seen, read) && Excused(result, luck)
      ensures Booked(old(marked), old(threw), old(readBacks), old(quiet), id, result, m, seen)
      ensures result.Marked? && luck.update.Returns? ==> result.commit.PromotedNow?
    {
      result, m, seen, read := StampAndMark(id, c, plan, c.recorded.value, true, decidedAt, luck);
    }

    /** Adopt a recorded row that already carries the approval, re-checked under the row's lock. */
    method Adopt(id: nat, c: Candidate, plan: Plan, luck: Luck)
      returns (result: Result, m: nat, ghost seen: MemoryRow, ghost read: Option<Candidate>)
      requires Valid() && id in candidates && SameButStatus(c, candidates[id]) && c.plan == Some(plan)
      modifies this`candidates, this`memories, this`edited, this`marked, this`stored, this`threw, this`readBacks, this`quiet
      ensures Valid() && edited >= old(edited) && stored >= old(stored) && candidates.Keys == old(candidates.Keys)
      ensures forall other :: other in candidates && other != id ==> SameButStatus(old(candidates)[other], candidates[other])
      ensures Stands(id, c, result, m, seen, read)
      ensures old(RecordedRowUse(memories, c, plan, hash)) == Some(Adoptable) ==> Excused(result, luck)
      ensures !luck.lockFree <==> result == Skipped(LockBusy)
      ensures Booked(old(marked), old(threw), old(readBacks), old(quiet), id, result, m, seen)
      ensures result.Marked? && luck.update.Returns? ==> result.commit.PromotedNow?
    {
      Interfere();
      if !luck.lockFree { return Skipped(LockBusy), 0, NO_ROW, None; }
      result, m, seen, read := AdoptStored(id, c, plan, luck);
    }

    /** The adoption under the lock: of the recorded row as stored then, which the rule says is adoptable. */
    method AdoptStored(id: nat, c: Candidate, plan: Plan, luck: Luck)
      returns (result: Result, m: nat, ghost seen: MemoryRow, ghost read: Option<Candidate>)
      requires Valid() && id in candidates && SameButStatus(c, candidates[id]) && c.plan == Some(plan)
      modifies this`candidates, this`memories, this`edited, this`marked, this`stored, this`threw, this`readBacks, this`quiet
      ensures Valid() && edited >= old(edited) && stored >= old(stored) && candidates.Keys == old(candidates.Keys)
      ensures forall other :: other in candidates && other != id ==> SameButStatus(old(candidates)[other], candidates[other])
      ensures result.Marked? <==> RecordedRowUse(old(memories), c, plan, hash) == Some(Adoptable)
      ensures result.Marked? ==> m == c.recorded.value.rowId && m in old(memories) && seen == old(memories)[m]
      ensures result.Skipped? ==>
        && result.why.RecordedRowChanged? && quiet == old(quiet)
        && candidates == old(candidates) && memories == old(memories) && stored == old(stored)
      ensures Stands(id, c, result, m, seen, read)
      ensures Booked(old(marked), old(threw), old(readBacks), old(quiet), id, result, m, seen)
      ensures result.Marked? && luck.update.Returns? ==> result.commit.PromotedNow?
    {
      m, seen, read := 0, NO_ROW, None;
      if RecordedRowUse(memories, c, plan, hash) != Some(Adoptable) { return Skipped(RecordedRowChanged), m, seen, read; }
      m := c.recorded.value.rowId;
      seen := memories[m];
      var promoted := c.(status := IsPromoted, reviewer := Reviewer, decidedAt := memories[m].verdict.value.promotedAt);
      var commit;
      commit, read := CommitCandidatePromotion(id, promoted, m, luck, seen);
      result := Marked(commit);
    }

    /** The write between other writers' writes. */
    method WriteQuietly(id: nat, c: Candidate, plan: Plan, luck: Luck) returns (row: Option<Recorded>, ghost wasLost: bool)
      requires Valid() && id in candidates && MayWrite(id) && c.plan == Some(plan)
      modifies this`candidates, this`memories, this`nextId, this`written, this`writes, this`lost, this`edited, this`stored, this`quiet
      ensures Valid() && writes <= old(writes) + 1 && edited >= old(edited) && stored >= old(stored)
      ensures candidates.Keys == old(candidates.Keys)
      ensures forall other :: other in candidates ==> SameButStatus(old(candidates)[other], candidates[other])
      ensures (row.Some? <==> luck.write.Returns?) && (quiet ==> old(quiet))
      ensures row.Some? ==>
        && var m := row.value.rowId;
        && id in lost && m in WrittenFor(id) && (wasLost || WrittenFor(id) == {m} || !(WrittenFor(id) !! edited))
        && (quiet && luck.altered.None? ==> m !in edited)
        && (m !in edited ==>
              m in memories && memories[m].token == row.value.token && KeepsFields(memories[m], c, plan) && memories[m].verdict.None?)
    {
      Interfere();
      wasLost := id in lost;
      row := WriteMemory(id, c, plan, luck);
      if row.Some? { Interfere(); }
    }

    method WriteAndRecord(id: nat, c: Candidate, plan: Plan, luck: Luck) returns (row: Option<Recorded>)
      requires Valid() && id in candidates && SameButStatus(c, candidates[id]) && c.plan == Some(plan) && MayWrite(id)
      modifies this`candidates, this`memories, this`nextId, this`written, this`writes, this`lost, this`edited, this`stored, this`quiet
      ensures Valid() && writes <= old(writes) + 1 && edited >= old(edited) && stored >= old(stored)
      ensures candidates.Keys == old(candidates.Keys)
      ensures forall other :: other in candidates && other != id ==> SameButStatus(old(candidates)[other], candidates[other])
      ensures row.Some? ==> candidates[id].(status := c.status, recorded := c.recorded) == c
      ensures row.Some? ==> id in lost || candidates[id].recorded == row
      ensures (row.Some? <==> luck.write.Returns?) && (quiet ==> old(quiet))
      ensures row.Some? && quiet && luck.altered.None? ==>
        row.value.rowId in memories && Stampable(memories[row.value.rowId], c, plan, row.value.token, false)
    {
      ghost var wasLost;
      row, wasLost := WriteQuietly(id, c, plan, luck);
      if row.Some? { Record(id, c, row.value, luck, wasLost); }
    }

    /** Write a fresh row, record it, stamp it, and mark the candidate. */
    method WriteFresh(id: nat, c: Candidate, plan: Plan, decidedAt: string, luck: Luck)
      returns (result: Result, m: nat, ghost seen: MemoryRow, ghost read: Option<Candidate>)
      requires Valid() && id in candidates && SameButStatus(c, candidates[id]) && c.plan == Some(plan)
      requires decidedAt != "" && MayWrite(id)
      modifies this
      ensures Valid() && writes <= old(writes) + 1 && edited >= old(edited) && stored >= old(stored)
      ensures candidates.Keys == old(candidates.Keys)
      ensures forall other :: other in candidates && other != id ==> SameButStatus(old(candidates)[other], candidates[other])
      ensures Stands(id, c, result, m, seen, read) && Excused(result, luck)
      ensures Booked(old(marked), old(threw), old(readBacks), old(quiet), id, result, m, seen)
      ensures result.Marked? && luck.update.Returns? ==> result.commit.PromotedNow?
    {
      m, seen, read := 0, NO_ROW, None;
      var row := WriteAndRecord(id, c, plan, luck);
      if row.None? { return Skipped(WriteFailed), m, seen, read; }
      result, m, seen, read := StampAndMark(id, c, plan, row.value, false, decidedAt, luck);
    }

    /** Stamp the row of a promotion and mark its candidate. */
    method StampAndMark(id: nat, c: Candidate, plan: Plan, row: Recorded, reused: bool, decidedAt: string, luck: Luck)
      returns (result: Result, m: nat, ghost seen: MemoryRow, ghost read: Option<Candidate>)
      requires Valid() && id in candidates && c.plan == Some(plan) && decidedAt != ""
      requires candidates[id].(status := c.status, recorded := c.recorded) == c && (id in lost || candidates[id].recorded == Some(row))
      modifies this`candidates, this`memories, this`edited, this`marked, this`stored, this`threw, this`readBacks, this`quiet
      ensures Valid() && edited >= old(edited) && stored >= old(stored) && candidates.Keys == old(candidates.Keys)
      ensures forall other :: other in candidates && other != id ==> SameButStatus(old(candidates)[other], candidates[other])
      ensures Stands(id, c, result, m, seen, read)
      ensures Booked(old(marked), old(threw), old(readBacks), old(quiet), id, result, m, seen)
      ensures result.Marked? && luck.update.Returns? ==> result.commit.PromotedNow?
      ensures result.Skipped? ==>
        && result.why.StampRefused?
        && (luck.stampRefused || !luck.stampConfirmed || !quiet || row.rowId !in old(memories)
            || !Stampable(old(memories)[row.rowId], c, plan, row.token, reused))
    {
      m, read := row.rowId, None;
      var stamped;
      stamped, seen := StampQuietly(id, c, plan, row, reused, decidedAt, luck);
      if !stamped { return Skipped(StampRefused), m, seen, read; }
      var promoted := c.(status := IsPromoted, reviewer := Reviewer, decidedAt := decidedAt, recorded := Some(row));
      var commit;
      commit, read := CommitCandidatePromotion(id, promoted, m, luck, seen);
      result := Marked(commit);
    }

    /** The stamp, between other writers' writes. */
    method StampQuietly(id: nat, c: Candidate, plan: Plan, row: Recorded, reused: bool, decidedAt: string, luck: Luck)
      returns (stamped: bool, ghost seen: MemoryRow)
      requires Valid() && id in candidates && SameClaim(c, candidates[id]) && decidedAt != ""
      modifies this`candidates, this`memories, this`edited, this`stored, this`quiet
      ensures Valid() && edited >= old(edited) && stored >= old(stored) && candidates.Keys == old(candidates.Keys)
      ensures forall id :: id in candidates ==> SameButStatus(old(candidates)[id], candidates[id])
      ensures quiet ==> old(quiet)
      ensures stamped ==> Approved(id, row.rowId, seen)
      ensures !stamped ==>
        || luck.stampRefused || !luck.stampConfirmed || !quiet || row.rowId !in old(memories)
        || !Stampable(old(memories)[row.rowId], c, plan, row.token, reused)
    {
      seen := NO_ROW;
      Interfere();
      stamped := Stamp(c, plan, row, reused, decidedAt, luck);
      if stamped {
        seen := memories[row.rowId];
        Interfere();
      }
    }

    /** Visit one eligible candidate and report it. */
    method Handle(report: SweepReport, id: nat, c: Candidate, plan: Plan, decidedAt: string, luck: Luck,
                  ghost enumerated: map<nat, Candidate>, ghost evidence: Evidence)
      returns (next: SweepReport, ghost shown: Evidence)
      requires Valid() && id in candidates && SameButStatus(c, candidates[id]) && c.plan == Some(plan) && decidedAt != ""
      requires id in enumerated && enumerated[id] == c && Evidenced(report, c.agent, enumerated, evidence)
      requires report.considered > 0 && Tallied(report.(considered := report.considered - 1)) && Sorted(report, enumerated, evidence)
      modifies this
      ensures Valid() && writes <= old(writes) + 1 && candidates.Keys == old(candidates.Keys)
      ensures forall other :: other in candidates && other != id ==> SameButStatus(old(candidates)[other], candidates[other])
      ensures Tallied(next) && next.considered == report.considered && next.handled == report.handled + 1
      ensures Evidenced(next, c.agent, enumerated, shown) && Sorted(next, enumerated, shown)
      ensures forall t :: t in marked ==> t in old(marked) || t.1 in Named(next)
      ensures Named(report) <= Named(next) && (quiet ==> old(quiet))
      ensures quiet && Calm(luck) ==> Undisturbed(report) ==> Undisturbed(next)
    {
      var result, m;
      ghost var seen, read;
      result, m, seen, read := VisitNext(report, id, c, plan, decidedAt, luck, enumerated, evidence);
      ReportOne(report, id, c, result, m, seen, read, enumerated, evidence);
      shown := Added(evidence, result, Seen(id, seen, read));
      next := Reported(report.(handled := report.handled + 1), id, result, m);
    }

    /** A visit leaves what was reported before it as true as it was. */
    method VisitNext(report: SweepReport, id: nat, c: Candidate, plan: Plan, decidedAt: string, luck: Luck,
                     ghost enumerated: map<nat, Candidate>, ghost evidence: Evidence)
      returns (result: Result, m: nat, ghost seen: MemoryRow, ghost read: Option<Candidate>)
      requires Valid() && id in candidates && SameButStatus(c, candidates[id]) && c.plan == Some(plan) && decidedAt != ""
      requires Evidenced(report, c.agent, enumerated, evidence) && Sorted(report, enumerated, evidence)
      modifies this
      ensures Valid() && writes <= old(writes) + 1 && candidates.Keys == old(candidates.Keys)
      ensures forall other :: other in candidates && other != id ==> SameButStatus(old(candidates)[other], candidates[other])
      ensures Evidenced(report, c.agent, enumerated, evidence) && Sorted(report, enumerated, evidence)
      ensures Stands(id, c, result, m, seen, read) && Excused(result, luck)
      ensures result.Marked? && luck.update.Returns? ==> result.commit.PromotedNow?
      ensures marked <= old(marked) + (if result.Marked? then {(id, m, seen)} else {}) && (quiet ==> old(quiet))
    {
      result, m, seen, read := Visit(id, c, plan, decidedAt, luck);
    }

    /** One more result, put in its list. */
    lemma ReportOne(report: SweepReport, id: nat, c: Candidate, result: Result, m: nat, seen: MemoryRow, read: Option<Candidate>,
                    enumerated: map<nat, Candidate>, evidence: Evidence)
      requires Valid() && id in enumerated && enumerated[id] == c && c.plan.Some?
      requires Evidenced(report, c.agent, enumerated, evidence) && Sorted(report, enumerated, evidence)
      requires Stands(id, c, result, m, seen, read) && (result.Skipped? ==> !result.why.Ineligible?)
      ensures
        var shown := Added(evidence, result, Seen(id, seen, read));
        var next := Reported(report.(handled := report.handled + 1), id, result, m);
        Evidenced(next, c.agent, enumerated, shown) && Sorted(next, enumerated, shown)
    {
    }

    /** Every candidate marked since is reported with its row. */
    ghost predicate MarksReported(before: set<(nat, nat, MemoryRow)>, report: SweepReport)
      reads this
    {
      forall t :: t in marked && t !in before ==> t.1 in Named(report)
    }

    /** The next candidate of a sweep, as enumerated: passed over, skipped by its gate, or visited. */
    method Consider(report: SweepReport, id: nat, agent: string, decidedAt: string, luck: Luck,
                    enumerated: map<nat, Candidate>, ghost evidence: Evidence, ghost before: set<(nat, nat, MemoryRow)>)
      returns (next: SweepReport, ghost shown: Evidence)
      requires Valid() && MarksReported(before, report) && decidedAt != ""
      requires id in candidates && id in enumerated && SameButStatus(enumerated[id], candidates[id])
      requires Tallied(report) && Evidenced(report, agent, enumerated, evidence) && Sorted(report, enumerated, evidence)
      modifies this
      ensures Valid() && candidates.Keys == old(candidates.Keys)
      ensures forall other :: other in candidates && other != id ==> SameButStatus(old(candidates)[other], candidates[other])
      ensures Tallied(next) && Evidenced(next, agent, enumerated, shown) && Sorted(next, enumerated, shown)
      ensures next.considered
           == report.considered + if PendingFor(agent, enumerated, id) then 1 else 0
      ensures writes - old(writes) <= next.handled - report.handled <= 1
      ensures 0 <= next.handled - report.handled <= next.considered - report.considered
      ensures MarksReported(before, next) && (quiet ==> old(quiet))
      ensures quiet && Calm(luck) ==> Undisturbed(report) ==> Undisturbed(next)
    {
      var c := enumerated[id];
      next, shown := report, evidence;
      if c.agent != agent || !c.status.IsPending? { return; }
      next := report.(considered := report.considered + 1);
      if c.plan.None? {
        next := next.(skipped := next.skipped + [Skip(id, Ineligible)]);
      } else {
        next, shown := Handle(next, id, c, c.plan.value, decidedAt, luck, enumerated, evidence);
      }
    }

    /** One sweep of an agent's pending candidates, in enumeration order. It handles at most its cap of them,
        writes at most one row for each it handles, and leaves every other candidate alone. */
    method Sweep(agent: string, limit: Option<nat>, order: seq<nat>, decidedAt: string, lucks: nat -> Luck)
      returns (report: SweepReport, ghost evidence: Evidence)
      requires Valid() && decidedAt != ""
      requires forall i, j :: 0 <= i < j < |order| ==> order[i] != order[j]
      requires forall i :: 0 <= i < |order| ==> order[i] in candidates
      modifies this
      ensures Valid() && Tallied(report)
      ensures
        var cap := if limit.Some? && limit.value > 0 then limit.value else DefaultCap;
        report.handled <= cap && writes - old(writes) <= report.handled
      ensures report.handled <= report.considered <= |order|
      ensures Evidenced(report, agent, old(candidates), evidence) && Sorted(report, old(candidates), evidence)
      // Whatever it marked it reports; and it goes on until its cap, or every pending candidate was considered.
      ensures MarksReported(old(marked), report)
      ensures report.handled == (if limit.Some? && limit.value > 0 then limit.value else DefaultCap)
           || report.considered == Pendings(order, old(candidates), agent, |order|)
      // With no failure and no other writer, every eligible candidate it considered is promoted.
      ensures quiet && (forall id: nat :: Calm(lucks(id))) ==> Undisturbed(report)
      ensures candidates.Keys == old(candidates.Keys)
      ensures forall id :: id in candidates && id !in order ==> SameButStatus(old(candidates)[id], candidates[id])
    {
      var cap := if limit.Some? && limit.value > 0 then limit.value else DefaultCap;
      ghost var rest := set id | id in candidates && id !in order;
      ghost var calm := forall id: nat :: Calm(lucks(id));
      report, evidence := SweepUpTo(agent, cap, order, decidedAt, lucks, candidates, rest, calm);
    }

    /** What holds of a sweep's report once the first `i` enumerated candidates were considered. */
    ghost predicate Swept(report: SweepReport, evidence: Evidence, agent: string, order: seq<nat>, i: nat,
                          enumerated: map<nat, Candidate>, before: set<(nat, nat, MemoryRow)>, wrote: nat, calm: bool)
      reads this
    {
      && Valid() && candidates.Keys == enumerated.Keys && i <= |order|
      && Tallied(report) && Evidenced(report, agent, enumerated, evidence) && Sorted(report, enumerated, evidence)
      && MarksReported(before, report) && report.considered == Pendings(order, enumerated, agent, i)
      && writes - wrote <= report.handled <= report.considered <= i && (quiet && calm ==> Undisturbed(report))
    }

    /** The candidates not yet considered, or not enumerated, are as they were but in their status. */
    ghost predicate Alone(left: set<nat>, enumerated: map<nat, Candidate>)
      reads this
    {
      left <= candidates.Keys * enumerated.Keys && forall id :: id in left ==> SameButStatus(enumerated[id], candidates[id])
    }

    method ConsiderNext(report: SweepReport, order: seq<nat>, i: nat, agent: string, decidedAt: string, luck: Luck,
                        enumerated: map<nat, Candidate>, ghost evidence: Evidence, ghost left: set<nat>,
                        ghost before: set<(nat, nat, MemoryRow)>, ghost wrote: nat, ghost calm: bool)
      returns (next: SweepReport, ghost shown: Evidence)
      requires i < |order| && Swept(report, evidence, agent, order, i, enumerated, before, wrote, calm)
      requires Alone(left, enumerated) && order[i] in left && decidedAt != "" && (calm ==> Calm(luck))
      modifies this
      ensures Swept(next, shown, agent, order, i + 1, enumerated, before, wrote, calm) && Alone(left - {order[i]}, enumerated)
      ensures next.handled <= report.handled + 1
    {
      next, shown := Consider(report, order[i], agent, decidedAt, luck, enumerated, evidence, before);
    }

    method SweepUpTo(agent: string, cap: nat, order: seq<nat>, decidedAt: string, lucks: nat -> Luck,
                     enumerated: map<nat, Candidate>, ghost rest: set<nat>, ghost calm: bool)
      returns (report: SweepReport, ghost evidence: Evidence)
      requires Valid() && decidedAt != "" && enumerated == candidates && (calm ==> forall id: nat :: Calm(lucks(id)))
      requires forall i, j :: 0 <= i < j < |order| ==> order[i] != order[j]
      requires forall i :: 0 <= i < |order| ==> order[i] in candidates && order[i] !in rest
      requires rest <= candidates.Keys
      modifies this
      ensures Valid() && candidates.Keys == enumerated.Keys
      ensures Tallied(report) && Evidenced(report, agent, enumerated, evidence) && Sorted(report, enumerated, evidence)
      ensures report.handled <= cap && writes - old(writes) <= report.handled <= report.considered <= |order|
      ensures MarksReported(old(marked), report)
      ensures report.handled == cap || report.considered == Pendings(order, enumerated, agent, |order|)
      ensures quiet && calm ==> Undisturbed(report)
      ensures rest <= candidates.Keys && forall id :: id in rest ==> SameButStatus(enumerated[id], candidates[id])
    {
      ghost var considered;
      report, evidence := SweepReport([], [], [], [], 0, 0), Evidence([], [], []);
      report, evidence, considered := SweepOn(report, evidence, agent, cap, order, decidedAt, lucks, enumerated, candidates.Keys,
                                              rest, calm, marked, writes);
    }

    /** The sweep's loop, from an empty report: it stops at its cap or at the end of the order. */
    method SweepOn(empty: SweepReport, ghost none: Evidence, agent: string, cap: nat, order: seq<nat>, decidedAt: string,
                   lucks: nat -> Luck, enumerated: map<nat, Candidate>, ghost all: set<nat>, ghost rest: set<nat>,
                   ghost calm: bool, ghost before: set<(nat, nat, MemoryRow)>, ghost wrote: nat)
      returns (report: SweepReport, ghost evidence: Evidence, ghost considered: nat)
      requires Swept(empty, none, agent, order, 0, enumerated, before, wrote, calm) && empty.handled == 0
      requires Alone(all, enumerated) && Ahead(order, 0, all, rest)
      requires decidedAt != "" && (calm ==> forall id: nat :: Calm(lucks(id)))
      modifies this
      ensures Swept(report, evidence, agent, order, considered, enumerated, before, wrote, calm) && Alone(rest, enumerated)
      ensures report.handled <= cap && (report.handled == cap || considered == |order|)
    {
      report, evidence, considered := empty, none, 0;
      ghost var left := all;
      var i := 0;
      while i < |order| && report.handled < cap
        invariant 0 <= i <= |order| && report.handled <= cap
        invariant Swept(report, evidence, agent, order, i, enumerated, before, wrote, calm)
        invariant Alone(left, enumerated) && Ahead(order, i, left, rest)
      {
        AheadNext(order, i, left, rest);
        report, evidence := ConsiderNext(report, order, i, agent, decidedAt, lucks(order[i]), enumerated, evidence, left,
                                         before, wrote, calm);
        left, i := left - {order[i]}, i + 1;
      }
      considered := i;
    }
  }
}
