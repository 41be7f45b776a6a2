/** Sweeps that overlap, over one candidate: each visit works from the candidate as its sweep enumerated it,
    and any number of visits interleave. Every visit that was enumerated before a recording persisted, and
    only such a visit, can write a row of its own. */
module SweepOverlap {
  import opened Collections
  import opened Store
  import opened AutoPromote

  /** A visit: the candidate as enumerated, when, the row it wrote, and how far it is. */
  datatype Visit = Visit(snapshot: Candidate, at: nat, wrote: Option<nat>, phase: Phase)
  datatype Phase = Enumerated | Written | Recording | Finished

  /** `written` are the visits that wrote a row; `firstRecorded` is when the first recording persisted. */
  datatype State = State(clock: nat, candidate: Candidate, rows: map<nat, MemoryRow>, nextId: nat,
                         visits: map<nat, Visit>, written: set<nat>, firstRecorded: Option<nat>)

  datatype Event =
    | Enumerate(visit: nat)
    | Write(visit: nat)                       // nothing to reuse: a fresh row
    | Record(visit: nat, persists: bool)      // a full put of the candidate as enumerated, with the row's id
    | Stamp(visit: nat, decidedAt: string)    // the visit's own row, or the one recorded in its snapshot
    | Mark(visit: nat)                        // a full put of the candidate as enumerated, promoted
    | Stop(visit: nat)                        // anything else that ends a visit

  function RowOf(v: Visit): Option<nat> {
    if v.wrote.Some? then v.wrote else if v.snapshot.recorded.Some? then Some(v.snapshot.recorded.value.rowId) else None
  }

  function To(s: State, id: nat, v: Visit): State { s.(clock := s.clock + 1, visits := s.visits[id := v]) }

  function Step(s: State, e: Event, plan: Plan, hash: string -> nat): State {
    match e
    case Enumerate(id) =>
      if id in s.visits || !s.candidate.status.IsPending? then s
      else To(s, id, Visit(s.candidate, s.clock, None, Enumerated))
    case Write(id) =>
      if !(id in s.visits && s.visits[id].phase.Enumerated?
           && RecordedRowUse(s.rows, s.visits[id].snapshot, plan, hash).None?) then s
      else
        var c, m := s.visits[id].snapshot, s.nextId;
        To(s, id, s.visits[id].(wrote := Some(m), phase := Written)).(
          rows := s.rows[m := MemoryRow(c.agent, c.claim, m, plan.visibility, Durable, plan.tags, false, None)],
          nextId := m + 1, written := s.written + {id})
    case Record(id, persists) =>
      if !(id in s.visits && s.visits[id].phase.Written? && s.visits[id].wrote.Some?) then s
      else
        var v := s.visits[id];
        var next := To(s, id, v.(phase := Recording));
        if !persists then next
        else next.(candidate := v.snapshot.(recorded := Some(Recorded(v.wrote.value, v.wrote.value))),
                   firstRecorded := if s.firstRecorded.None? then Some(s.clock) else s.firstRecorded)
    case Stamp(id, decidedAt) =>
      if !(id in s.visits && !s.visits[id].phase.Finished? && RowOf(s.visits[id]).Some?
           && RowOf(s.visits[id]).value in s.rows && decidedAt != "") then s
      else
        var m := RowOf(s.visits[id]).value;
        var row := s.rows[m];
        To(s, id, s.visits[id]).(rows := s.rows[m := row.(verdict := Some(Verdict(true, Reviewer, decidedAt, hash(row.content))))])
    case Mark(id) =>
      if !(id in s.visits && !s.visits[id].phase.Finished? && RowOf(s.visits[id]).Some?) then s
      else
        var v := s.visits[id];
        var m := RowOf(v).value;
        To(s, id, v.(phase := Finished)).(
          candidate := v.snapshot.(status := IsPromoted, recorded := Some(Recorded(m, m))),
          firstRecorded := if s.firstRecorded.None? then Some(s.clock) else s.firstRecorded)
    case Stop(id) => if id in s.visits then To(s, id, s.visits[id].(phase := Finished)) else s
  }

  function Run(s: State, events: seq<Event>, plan: Plan, hash: string -> nat): State {
    if events == [] then s else Step(Run(s, events[..|events| - 1], plan, hash), events[|events| - 1], plan, hash)
  }

  /** A pending candidate no sweep has recorded a row on. */
  predicate Start(s: State) {
    && s.candidate.status.IsPending? && s.candidate.recorded.None? && s.visits == map[] && s.written == {}
    && s.firstRecorded.None? && (forall m :: m in s.rows ==> m < s.nextId)
  }

  /** A row one of these visits wrote, as the sweeps keep it. */
  ghost predicate Usable(s: State, c: Candidate, plan: Plan, hash: string -> nat, m: nat) {
    && m in s.rows && s.rows[m].token == m && KeepsFields(s.rows[m], c, plan)
    && (s.rows[m].verdict.None? || OwnApproval(s.rows[m], hash))
  }

  predicate SameCore(a: Candidate, b: Candidate) { a.agent == b.agent && a.claim == b.claim }

  ghost predicate RecordedOk(s: State, c: Candidate, plan: Plan, hash: string -> nat) {
    c.recorded.Some? ==> c.recorded.value.token == c.recorded.value.rowId && Usable(s, c, plan, hash, c.recorded.value.rowId)
  }

  ghost predicate VisitOk(s: State, id: nat, v: Visit, plan: Plan, hash: string -> nat) {
    && v.at < s.clock && SameCore(v.snapshot, s.candidate) && RecordedOk(s, v.snapshot, plan, hash)
    && (v.wrote.Some? <==> id in s.written)
    && (v.wrote.Some? ==> Usable(s, v.snapshot, plan, hash, v.wrote.value) && v.snapshot.recorded.None?)
    && (v.phase.Enumerated? ==> v.wrote.None?)
    // It was enumerated unrecorded exactly when no recording had persisted by then.
    && (v.snapshot.recorded.None? <==> s.firstRecorded.None? || v.at <= s.firstRecorded.value)
  }

  ghost predicate Inv(s: State, plan: Plan, hash: string -> nat) {
    && (forall m :: m in s.rows ==> m < s.nextId)
    && RecordedOk(s, s.candidate, plan, hash)
    && (s.candidate.recorded.None? <==> s.firstRecorded.None?)
    && (s.firstRecorded.Some? ==> s.firstRecorded.value < s.clock)
    && (forall id :: id in s.visits ==> VisitOk(s, id, s.visits[id], plan, hash))
    && (forall id :: id in s.written ==> id in s.visits)
  }

  lemma UsableStays(s: State, s': State, c: Candidate, plan: Plan, hash: string -> nat, m: nat)
    requires Usable(s, c, plan, hash, m)
    requires m in s'.rows && (s'.rows[m] == s.rows[m]
             || (s'.rows[m] == s.rows[m].(verdict := s'.rows[m].verdict) && OwnApproval(s'.rows[m], hash)))
    ensures Usable(s', c, plan, hash, m)
  {
  }

  /** The visits a state still lets write: enumerated unrecorded, not past their write. */
  function Open(s: State): set<nat> {
    set id | id in s.visits && s.visits[id].phase.Enumerated? && s.visits[id].snapshot.recorded.None?
  }

  /** A visit finds nothing to reuse exactly when it was enumerated unrecorded. */
  lemma WritesExactlyUnrecorded(s: State, id: nat, plan: Plan, hash: string -> nat)
    requires Inv(s, plan, hash) && id in s.visits
    ensures RecordedRowUse(s.rows, s.visits[id].snapshot, plan, hash).None? <==> s.visits[id].snapshot.recorded.None?
  {
    var c := s.visits[id].snapshot;
    assert VisitOk(s, id, s.visits[id], plan, hash);
    if c.recorded.Some? { RecordedRowIsTakenUp(s.rows, c, plan, hash, c.recorded.value.rowId); }
  }

  /** A step that only changes one visit's phase. */
  lemma PhaseStep(s: State, s': State, id: nat, phase: Phase, plan: Plan, hash: string -> nat)
    requires Inv(s, plan, hash) && id in s.visits && s'.clock == s.clock + 1
    requires s'.candidate == s.candidate && s'.rows == s.rows && s'.nextId == s.nextId
    requires s'.written == s.written && s'.firstRecorded == s.firstRecorded
    requires s'.visits == s.visits[id := s.visits[id].(phase := phase)] && !phase.Enumerated?
    ensures Inv(s', plan, hash)
  {
    forall x | x in s'.visits ensures VisitOk(s', x, s'.visits[x], plan, hash) { assert VisitOk(s, x, s.visits[x], plan, hash); }
  }

  lemma EnumerateStep(s: State, id: nat, plan: Plan, hash: string -> nat)
    requires Inv(s, plan, hash)
    ensures Inv(Step(s, Enumerate(id), plan, hash), plan, hash)
  {
    var s' := Step(s, Enumerate(id), plan, hash);
    forall x | x in s'.visits ensures VisitOk(s', x, s'.visits[x], plan, hash) {
      if x in s.visits { assert VisitOk(s, x, s.visits[x], plan, hash); }
    }
  }

  lemma WriteStep(s: State, id: nat, plan: Plan, hash: string -> nat)
    requires Inv(s, plan, hash)
    ensures Inv(Step(s, Write(id), plan, hash), plan, hash)
  {
    var s' := Step(s, Write(id), plan, hash);
    if s' != s {
      WritesExactlyUnrecorded(s, id, plan, hash);
      forall x | x in s'.visits ensures VisitOk(s', x, s'.visits[x], plan, hash) {
        assert VisitOk(s, x, s.visits[x], plan, hash);
      }
      assert VisitOk(s, id, s.visits[id], plan, hash);
    }
  }

  /** The candidate is put as a visit enumerated it, with a usable row recorded. */
  lemma PutStep(s: State, s': State, id: nat, phase: Phase, m: nat, plan: Plan, hash: string -> nat)
    requires Inv(s, plan, hash) && id in s.visits && RowOf(s.visits[id]) == Some(m) && s'.clock == s.clock + 1
    requires s'.rows == s.rows && s'.nextId == s.nextId && s'.written == s.written
    requires s'.visits == s.visits[id := s.visits[id].(phase := phase)] && !phase.Enumerated?
    requires s'.candidate.recorded == Some(Recorded(m, m)) && SameCore(s'.candidate, s.visits[id].snapshot)
    requires s'.firstRecorded == if s.firstRecorded.None? then Some(s.clock) else s.firstRecorded
    ensures Inv(s', plan, hash)
  {
    assert VisitOk(s, id, s.visits[id], plan, hash);
    forall x | x in s'.visits ensures VisitOk(s', x, s'.visits[x], plan, hash) { assert VisitOk(s, x, s.visits[x], plan, hash); }
  }

  lemma StampStep(s: State, id: nat, decidedAt: string, plan: Plan, hash: string -> nat)
    requires Inv(s, plan, hash)
    ensures Inv(Step(s, Stamp(id, decidedAt), plan, hash), plan, hash)
  {
    var s' := Step(s, Stamp(id, decidedAt), plan, hash);
    if s' != s {
      forall x | x in s'.visits ensures VisitOk(s', x, s'.visits[x], plan, hash) {
        assert VisitOk(s, x, s.visits[x], plan, hash);
      }
    }
  }

  lemma InvStep(s: State, e: Event, plan: Plan, hash: string -> nat)
    requires Inv(s, plan, hash)
    ensures Inv(Step(s, e, plan, hash), plan, hash)
  {
    var s' := Step(s, e, plan, hash);
    match e
    case Enumerate(id) => EnumerateStep(s, id, plan, hash);
    case Write(id) => WriteStep(s, id, plan, hash);
    case Record(id, persists) =>
      if s' != s {
        if persists { PutStep(s, s', id, Recording, s.visits[id].wrote.value, plan, hash); }
        else { PhaseStep(s, s', id, Recording, plan, hash); }
      }
    case Stamp(id, decidedAt) => StampStep(s, id, decidedAt, plan, hash);
    case Mark(id) => if s' != s { PutStep(s, s', id, Finished, RowOf(s.visits[id]).value, plan, hash); }
    case Stop(id) => if s' != s { PhaseStep(s, s', id, Finished, plan, hash); }
  }

  lemma {:induction false} InvAlways(s: State, events: seq<Event>, plan: Plan, hash: string -> nat)
    requires Start(s)
    ensures Inv(Run(s, events, plan, hash), plan, hash)
  {
    if events != [] {
      InvAlways(s, events[..|events| - 1], plan, hash);
      InvStep(Run(s, events[..|events| - 1], plan, hash), events[|events| - 1], plan, hash);
    }
  }

  /** The rows a run has added. */
  function Added(s: State, t: State): int { |t.rows.Keys| - |s.rows.Keys| }

  lemma OthersAddNone(s: State, e: Event, plan: Plan, hash: string -> nat)
    requires !e.Write?
    ensures Step(s, e, plan, hash).rows.Keys == s.rows.Keys && Step(s, e, plan, hash).written == s.written
  {
  }

  lemma WriteAdds(s: State, id: nat, plan: Plan, hash: string -> nat)
    requires Inv(s, plan, hash)
    ensures
      var s' := Step(s, Write(id), plan, hash);
      s' == s || (s'.rows.Keys == s.rows.Keys + {s.nextId} && s.nextId !in s.rows
                  && s'.written == s.written + {id} && id !in s.written)
  {
    if id in s.visits { assert VisitOk(s, id, s.visits[id], plan, hash); }
  }

  lemma AddStep(s: State, e: Event, plan: Plan, hash: string -> nat)
    requires Inv(s, plan, hash)
    ensures Added(s, Step(s, e, plan, hash)) == |Step(s, e, plan, hash).written| - |s.written|
  {
    if e.Write? { WriteAdds(s, e.visit, plan, hash); } else { OthersAddNone(s, e, plan, hash); }
  }

  /** Each visit that wrote added a row of its own, and nothing else adds one. */
  lemma {:induction false} AddedByWriters(s: State, events: seq<Event>, plan: Plan, hash: string -> nat)
    requires Inv(s, plan, hash)
    ensures
      var t := Run(s, events, plan, hash);
      Inv(t, plan, hash) && Added(s, t) == |t.written| - |s.written|
  {
    if events != [] {
      AddedByWriters(s, events[..|events| - 1], plan, hash);
      InvStep(Run(s, events[..|events| - 1], plan, hash), events[|events| - 1], plan, hash);
      AddStep(Run(s, events[..|events| - 1], plan, hash), events[|events| - 1], plan, hash);
    }
  }

  /** The visits enumerated before a recording persisted. */
  function Early(s: State): set<nat> {
    set id | id in s.visits && (s.firstRecorded.None? || s.visits[id].at <= s.firstRecorded.value)
  }

  /** Over every run of overlapping sweeps: each added row was written by a visit of its own, enumerated
      before any recording persisted, so there are at most as many as such visits. */
  lemma RowsAreBounded(s: State, events: seq<Event>, plan: Plan, hash: string -> nat)
    requires Start(s)
    ensures
      var t := Run(s, events, plan, hash);
      t.written <= Early(t) && Added(s, t) == |t.written| <= |Early(t)|
  {
    InvAlways(s, [], plan, hash);
    AddedByWriters(s, events, plan, hash);
    var t := Run(s, events, plan, hash);
    forall id | id in t.written ensures id in Early(t) { assert VisitOk(t, id, t.visits[id], plan, hash); }
    SubsetCount(t.written, Early(t));
  }

  lemma TwoElements(a: set<nat>)
    ensures |a| > 1 <==> exists v, w :: v in a && w in a && v != w
  {
    if |a| > 1 {
      var v :| v in a;
      assert |a - {v}| == |a| - 1;
      var w :| w in a - {v};
    }
    if v, w :| v in a && w in a && v != w {
      SubsetCount({v, w}, a);
    }
  }

  /** More than one row exactly when two visits, both enumerated before a recording persisted, both wrote. */
  lemma TwoRowsExactly(s: State, events: seq<Event>, plan: Plan, hash: string -> nat)
    requires Start(s)
    ensures
      var t := Run(s, events, plan, hash);
      Added(s, t) > 1 <==>
        exists v, w :: v != w && v in Early(t) && w in Early(t) && t.visits[v].wrote.Some? && t.visits[w].wrote.Some?
  {
    InvAlways(s, events, plan, hash);
    RowsAreBounded(s, events, plan, hash);
    var t := Run(s, events, plan, hash);
    TwoElements(t.written);
    forall v | v in t.visits ensures t.visits[v].wrote.Some? <==> v in t.written {
      assert VisitOk(t, v, t.visits[v], plan, hash);
    }
  }

  ghost predicate NoEnumeration(events: seq<Event>) { forall i :: 0 <= i < |events| ==> !events[i].Enumerate? }

  /** A put, a stamp or a stop opens no visit and writes no row. */
  lemma OtherSteps(s: State, e: Event, plan: Plan, hash: string -> nat)
    requires !e.Enumerate? && !e.Write?
    ensures Step(s, e, plan, hash).written == s.written && Open(Step(s, e, plan, hash)) <= Open(s)
  {
    match e
    case Record(_, _) =>
    case Stamp(_, _) =>
    case Mark(_) =>
    case Stop(_) =>
  }

  /** Without new enumerations, rows and open visits together never grow. */
  lemma OpenShrinks(s: State, e: Event, plan: Plan, hash: string -> nat)
    requires Inv(s, plan, hash) && !e.Enumerate?
    ensures
      var s' := Step(s, e, plan, hash);
      |s'.written| + |Open(s')| <= |s.written| + |Open(s)|
  {
    if e.Write? {
      if Step(s, e, plan, hash) != s {
        WritesExactlyUnrecorded(s, e.visit, plan, hash);
        OpenWrites(s, e.visit, plan, hash);
      }
    } else {
      OtherSteps(s, e, plan, hash);
      SubsetCount(Open(Step(s, e, plan, hash)), Open(s));
    }
  }

  lemma {:induction false} RowsFromHere(s: State, events: seq<Event>, plan: Plan, hash: string -> nat)
    requires Inv(s, plan, hash) && NoEnumeration(events)
    ensures
      var t := Run(s, events, plan, hash);
      Inv(t, plan, hash) && |t.written| + |Open(t)| <= |s.written| + |Open(s)|
  {
    if events != [] {
      var init, last := events[..|events| - 1], events[|events| - 1];
      assert forall i :: 0 <= i < |init| ==> init[i] == events[i];
      RowsFromHere(s, init, plan, hash);
      InvStep(Run(s, init, plan, hash), last, plan, hash);
      OpenShrinks(Run(s, init, plan, hash), last, plan, hash);
    }
  }

  /** An open visit can write, whatever else happened. */
  lemma OpenWrites(s: State, id: nat, plan: Plan, hash: string -> nat)
    requires Inv(s, plan, hash) && id in Open(s)
    ensures
      var s' := Step(s, Write(id), plan, hash);
      Inv(s', plan, hash) && |s'.written| == |s.written| + 1 && Open(s') == Open(s) - {id}
  {
    WritesExactlyUnrecorded(s, id, plan, hash);
    InvStep(s, Write(id), plan, hash);
    var s' := Step(s, Write(id), plan, hash);
    assert Open(s') == Open(s) - {id};
  }

  /** The run in which every open visit writes. */
  lemma {:induction false} AllOpenWrite(s: State, plan: Plan, hash: string -> nat) returns (events: seq<Event>)
    requires Inv(s, plan, hash)
    ensures NoEnumeration(events) && |Run(s, events, plan, hash).written| == |s.written| + |Open(s)|
    decreases |Open(s)|
  {
    if Open(s) == {} {
      events := [];
    } else {
      var id :| id in Open(s);
      OpenWrites(s, id, plan, hash);
      var rest := AllOpenWrite(Step(s, Write(id), plan, hash), plan, hash);
      events := WriteFirst(s, id, rest, plan, hash);
    }
  }

  lemma WriteFirst(s: State, id: nat, rest: seq<Event>, plan: Plan, hash: string -> nat) returns (events: seq<Event>)
    requires NoEnumeration(rest)
    ensures NoEnumeration(events) && Run(s, events, plan, hash) == Run(Step(s, Write(id), plan, hash), rest, plan, hash)
  {
    events := [Write(id)] + rest;
    RunFirst(s, Write(id), rest, plan, hash);
  }

  lemma {:induction false} RunFirst(s: State, e: Event, rest: seq<Event>, plan: Plan, hash: string -> nat)
    ensures Run(s, [e] + rest, plan, hash) == Run(Step(s, e, plan, hash), rest, plan, hash)
  {
    if rest == [] {
      assert [e] + rest == [e] && [e][..0] == [];
      assert Run(s, [e][..0], plan, hash) == s;
    } else {
      assert ([e] + rest)[..|[e] + rest| - 1] == [e] + rest[..|rest| - 1];
      RunFirst(s, e, rest[..|rest| - 1], plan, hash);
    }
  }

  lemma OverlapFrom(s: State, plan: Plan, hash: string -> nat)
    requires Inv(s, plan, hash)
    ensures
      (exists events :: NoEnumeration(events) && |Run(s, events, plan, hash).written| > 1)
      <==> |s.written| + |Open(s)| > 1
  {
    if |s.written| + |Open(s)| > 1 {
      var events := AllOpenWrite(s, plan, hash);
      assert NoEnumeration(events) && |Run(s, events, plan, hash).written| > 1;
    }
    if events :| NoEnumeration(events) && |Run(s, events, plan, hash).written| > 1 {
      RowsFromHere(s, events, plan, hash);
    }
  }

  lemma {:induction false} RunOn(s: State, sofar: seq<Event>, more: seq<Event>, plan: Plan, hash: string -> nat)
    ensures Run(s, sofar + more, plan, hash) == Run(Run(s, sofar, plan, hash), more, plan, hash)
  {
    if more == [] {
      assert sofar + more == sofar;
    } else {
      assert (sofar + more)[..|sofar + more| - 1] == sofar + more[..|more| - 1];
      RunOn(s, sofar, more[..|more| - 1], plan, hash);
    }
  }

  /** What a scheduler can check: after any run, with no further enumeration, some continuation leaves more
      than one added row exactly when added rows and open visits are already more than one together. */
  lemma OverlapIsExact(s: State, sofar: seq<Event>, plan: Plan, hash: string -> nat)
    requires Start(s)
    ensures
      var t := Run(s, sofar, plan, hash);
      (exists more :: NoEnumeration(more) && Added(s, Run(s, sofar + more, plan, hash)) > 1)
      <==> Added(s, t) + |Open(t)| > 1
  {
    InvAlways(s, sofar, plan, hash);
    RowsAreBounded(s, sofar, plan, hash);
    var t := Run(s, sofar, plan, hash);
    OverlapFrom(t, plan, hash);
    if more :| NoEnumeration(more) && |Run(t, more, plan, hash).written| > 1 {
      RunOn(s, sofar, more, plan, hash);
      RowsAreBounded(s, sofar + more, plan, hash);
    }
    if more :| NoEnumeration(more) && Added(s, Run(s, sofar + more, plan, hash)) > 1 {
      RunOn(s, sofar, more, plan, hash);
      RowsAreBounded(s, sofar + more, plan, hash);
    }
  }

  // ---- A visit that nothing disturbs ----

  /** A visit from its enumeration to the row it stamps, and then to its mark. */
  function Stamped(s: State, id: nat, decidedAt: string, plan: Plan, hash: string -> nat): State {
    var seen := Step(s, Enumerate(id), plan, hash);
    var recorded := Step(Step(seen, Write(id), plan, hash), Record(id, true), plan, hash);
    Step(recorded, Stamp(id, decidedAt), plan, hash)
  }

  /** The candidate's row is stored, approved by this reviewer on its own content, with the fields it is kept by. */
  ghost predicate Promotable(s: State, v: Visit, m: nat, plan: Plan, hash: string -> nat) {
    && !v.phase.Finished? && RowOf(v) == Some(m) && m in s.rows && s.rows[m].token == m
    && KeepsFields(s.rows[m], v.snapshot, plan) && OwnApproval(s.rows[m], hash)
  }

  lemma Stamps(s: State, id: nat, decidedAt: string, plan: Plan, hash: string -> nat) returns (m: nat)
    requires Inv(s, plan, hash) && s.candidate.status.IsPending? && id !in s.visits && decidedAt != ""
    ensures
      var t, c := Stamped(s, id, decidedAt, plan, hash), s.candidate;
      && id in t.visits && t.visits[id].snapshot == c && Promotable(t, t.visits[id], m, plan, hash)
      && t.rows.Keys == s.rows.Keys + {m}
      && (if c.recorded.Some? then m == c.recorded.value.rowId && m in s.rows else m !in s.rows)
  {
    var seen := Step(s, Enumerate(id), plan, hash);
    EnumerateStep(s, id, plan, hash);
    WritesExactlyUnrecorded(seen, id, plan, hash);
    m := if s.candidate.recorded.Some? then s.candidate.recorded.value.rowId else s.nextId;
  }

  /** Whatever the sweeps did before, a visit to a pending candidate that nothing disturbs promotes it on one row: the
      recorded one, or without one a single fresh row; approved by this reviewer, with the candidate's fields. */
  lemma UndisturbedVisitPromotes(s: State, events: seq<Event>, id: nat, decidedAt: string, plan: Plan,
                                 hash: string -> nat) returns (m: nat)
    requires Start(s) && id !in Run(s, events, plan, hash).visits && decidedAt != ""
    requires Run(s, events, plan, hash).candidate.status.IsPending?
    ensures
      var t := Run(s, events, plan, hash);
      var u, c := Step(Stamped(t, id, decidedAt, plan, hash), Mark(id), plan, hash), t.candidate;
      && u.candidate == c.(status := IsPromoted, recorded := Some(Recorded(m, m)))
      && m in u.rows && KeepsFields(u.rows[m], c, plan) && OwnApproval(u.rows[m], hash)
      && Added(t, u) == (if c.recorded.None? then 1 else 0)
      && (c.recorded.Some? ==> m == c.recorded.value.rowId)
  {
    InvAlways(s, events, plan, hash);
    var t := Run(s, events, plan, hash);
    m := Stamps(t, id, decidedAt, plan, hash);
    Marks(t, Stamped(t, id, decidedAt, plan, hash), id, m, plan, hash);
  }

  lemma Marks(t: State, stamped: State, id: nat, m: nat, plan: Plan, hash: string -> nat)
    requires id in stamped.visits && Promotable(stamped, stamped.visits[id], m, plan, hash)
    requires stamped.rows.Keys == t.rows.Keys + {m}
    ensures
      var u, c := Step(stamped, Mark(id), plan, hash), stamped.visits[id].snapshot;
      && u.candidate == c.(status := IsPromoted, recorded := Some(Recorded(m, m)))
      && m in u.rows && KeepsFields(u.rows[m], c, plan) && OwnApproval(u.rows[m], hash)
      && Added(t, u) == (if m in t.rows then 0 else 1)
  {
    if m in t.rows { assert t.rows.Keys + {m} == t.rows.Keys; }
  }

  lemma TwoOpen(s: State, plan: Plan, hash: string -> nat)
    requires Start(s)
    ensures
      var t := Step(Step(s, Enumerate(0), plan, hash), Enumerate(1), plan, hash);
      Inv(t, plan, hash) && Open(t) == {0, 1} && t.written == {}
  {
    InvAlways(s, [], plan, hash);
    InvStep(s, Enumerate(0), plan, hash);
    InvStep(Step(s, Enumerate(0), plan, hash), Enumerate(1), plan, hash);
  }

  /** Two sweeps that both enumerate before either writes: a run with two rows. */
  lemma TwoSweepsTwoRows(s: State, plan: Plan, hash: string -> nat)
    requires Start(s)
    ensures Added(s, Run(s, [Enumerate(0), Enumerate(1), Write(0), Write(1)], plan, hash)) == 2
  {
    RowsAreBounded(s, [Enumerate(0), Enumerate(1), Write(0), Write(1)], plan, hash);
    TwoOpen(s, plan, hash);
    var t := Step(Step(s, Enumerate(0), plan, hash), Enumerate(1), plan, hash);
    OpenWrites(t, 0, plan, hash);
    OpenWrites(Step(t, Write(0), plan, hash), 1, plan, hash);
    RunFour(s, Enumerate(0), Enumerate(1), Write(0), Write(1), plan, hash);
  }

  lemma RunFour(s: State, a: Event, b: Event, c: Event, d: Event, plan: Plan, hash: string -> nat)
    ensures Run(s, [a, b, c, d], plan, hash)
         == Step(Step(Step(Step(s, a, plan, hash), b, plan, hash), c, plan, hash), d, plan, hash)
  {
    assert [a, b, c, d][..3] == [a, b, c] && [a, b, c][..2] == [a, b] && [a, b][..1] == [a] && [a][..0] == [];
    assert Run(s, [a], plan, hash) == Step(s, a, plan, hash);
    assert Run(s, [a, b], plan, hash) == Step(Step(s, a, plan, hash), b, plan, hash);
    assert Run(s, [a, b, c], plan, hash) == Step(Step(Step(s, a, plan, hash), b, plan, hash), c, plan, hash);
  }
}
