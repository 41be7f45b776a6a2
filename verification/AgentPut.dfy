/** Agent PUT: a full replacement built from a re-read inside the request's own transaction, against any
    number of other PUTs and any writes of other writers. */
module AgentPut {
  import opened Store

  /** The fields a replacement carries from the re-read row, whatever the body says. */
  const CARRIED: set<Field> := {CreatedAt, PublicKey, Home, SyncedFrom, SyncedAt}

  datatype Answer = Written | RequiresExisting | Aborted
  datatype Phase =
    | FoundRow(body: Row)               // the read before the owned transaction found the row
    | Staged(at: nat, row: Row)         // re-read at time `at`, the replacement staged, not committed
    | Done(answer: Answer)

  datatype State = State(log: Log, clock: nat, puts: map<nat, Phase>)

  /** One step of a run. An outside write takes its time at its commit. */
  datatype Event =
    | OutsideWrite(write: Write)
    | FirstRead(id: nat, body: Row)
    | OwnedRead(id: nat)
    | Commit(id: nat)
    | Abort(id: nat)

  function Replacement(body: Row, stored: Row, at: nat): Row {
    (map f | f in body && f !in CARRIED :: body[f])[UpdatedAt := Date(at)]
    + (map f | f in stored && f in CARRIED :: stored[f])
  }

  function Step(s: State, e: Event): State {
    match e
    case OutsideWrite(w) =>
      s.(log := Insert(s.log, Entry(s.clock, w, Outside)), clock := s.clock + 1)
    case FirstRead(id, body) =>
      if id in s.puts then s
      else if Fold(s.log).None? then s.(puts := s.puts[id := Done(RequiresExisting)])
      else s.(puts := s.puts[id := FoundRow(body)])
    case OwnedRead(id) =>
      if id !in s.puts || !s.puts[id].FoundRow? then s
      else if Fold(s.log).None? then s.(puts := s.puts[id := Done(RequiresExisting)])
      else
        var row := Replacement(s.puts[id].body, Fold(s.log).value, s.clock);
        s.(puts := s.puts[id := Staged(s.clock, row)], clock := s.clock + 1)
    case Commit(id) =>
      if id !in s.puts || !s.puts[id].Staged? then s
      else
        var put := Entry(s.puts[id].at, Put(s.puts[id].row), Request(id));
        s.(log := Insert(s.log, put), puts := s.puts[id := Done(Written)])
    case Abort(id) =>
      if id in s.puts && !s.puts[id].Done? then s.(puts := s.puts[id := Done(Aborted)]) else s
  }

  function Run(s: State, events: seq<Event>): State {
    if events == [] then s else Step(Run(s, events[..|events| - 1]), events[|events| - 1])
  }

  const START := State([], 0, map[])

  /** The part of a row a PUT must leave alone: whether it exists, and its carried fields. */
  function CarriedPart(stored: Option<Row>): Option<Row> {
    if stored.None? then None else Some(Carried(stored.value))
  }

  function Carried(row: Row): Row {
    map f | f in row && f in CARRIED :: row[f]
  }

  lemma SameCarried(p: Row, q: Row)
    requires forall f :: f in CARRIED ==> (f in p <==> f in q) && (f in p ==> p[f] == q[f])
    ensures Carried(p) == Carried(q)
  {
  }

  /** The log with every PUT taken out. */
  function WithoutPuts(log: Log): Log {
    if log == [] then []
    else
      var init, last := WithoutPuts(log[..|log| - 1]), log[|log| - 1];
      if last.writer.Outside? then init + [last] else init
  }

  /** `row` keeps what the writes of others left before it. */
  ghost predicate Keeps(row: Row, before: Log) {
    CarriedPart(Some(row)) == CarriedPart(Fold(WithoutPuts(before)))
  }

  ghost predicate Faithful(log: Log) {
    forall i :: 0 <= i < |log| && log[i].writer.Request? ==>
      log[i].write.Put? && Keeps(log[i].write.row, log[..i])
  }

  ghost predicate Inv(s: State) {
    && Ordered(s.log)
    && (forall i :: 0 <= i < |s.log| ==> s.log[i].at < s.clock)
    && Faithful(s.log)
    && (forall id :: id in s.puts && s.puts[id].Staged? ==>
          && s.puts[id].at < s.clock
          && Fresh(s.log, s.puts[id].at)
          && Keeps(s.puts[id].row, Before(s.log, s.puts[id].at)))
    && (forall id, other ::
          id in s.puts && other in s.puts && id != other && s.puts[id].Staged? && s.puts[other].Staged? ==>
            s.puts[id].at != s.puts[other].at)
  }

  lemma CarriedOfApply(x: Option<Row>, y: Option<Row>, w: Write)
    requires CarriedPart(x) == CarriedPart(y)
    ensures CarriedPart(Apply(x, w)) == CarriedPart(Apply(y, w))
  {
    if w.Update? && x.Some? {
      forall f | f in CARRIED
        ensures (f in x.value <==> f in y.value) && (f in x.value ==> x.value[f] == y.value[f])
      {
        assert f in x.value <==> f in Carried(x.value);
        assert f in y.value <==> f in Carried(y.value);
      }
      SameCarried(x.value + w.patch, y.value + w.patch);
    }
  }

  /** In a faithful log the PUTs are invisible on the carried part. */
  lemma {:induction false} PutsInvisible(log: Log)
    requires Faithful(log)
    ensures CarriedPart(Fold(log)) == CarriedPart(Fold(WithoutPuts(log)))
  {
    if log != [] {
      var init, last := log[..|log| - 1], log[|log| - 1];
      assert forall i :: 0 <= i < |init| ==> log[..i] == init[..i];
      PutsInvisible(init);
      if last.writer.Outside? {
        FoldAppend(WithoutPuts(init), last);
        CarriedOfApply(Fold(init), Fold(WithoutPuts(init)), last.write);
      } else {
        assert Keeps(log[|log| - 1].write.row, init);
      }
    }
  }

  lemma {:induction false} WithoutPutsConcat(a: Log, b: Log)
    ensures WithoutPuts(a + b) == WithoutPuts(a) + WithoutPuts(b)
  {
    if b == [] {
      assert a + b == a;
    } else {
      assert (a + b)[..|a + b| - 1] == a + b[..|b| - 1];
      WithoutPutsConcat(a, b[..|b| - 1]);
    }
  }

  /** A PUT's entry changes no later entry's view of the others' writes. */
  lemma PutEntryUnseen(a: Log, put: Entry, b: Log)
    requires put.writer.Request?
    ensures WithoutPuts(a + [put] + b) == WithoutPuts(a + b)
  {
    WithoutPutsConcat(a + [put], b);
    WithoutPutsConcat(a, [put]);
    WithoutPutsConcat(a, b);
    assert WithoutPuts([put]) == [] by { assert [put][..0] == []; }
  }

  lemma FaithfulAppend(log: Log, e: Entry)
    requires Faithful(log) && e.writer.Outside?
    ensures Faithful(log + [e])
  {
    assert forall i :: 0 <= i < |log| ==> (log + [e])[..i] == log[..i];
  }

  lemma OutsideStep(s: State, w: Write)
    requires Inv(s)
    ensures Inv(Step(s, OutsideWrite(w)))
  {
    var e := Entry(s.clock, w, Outside);
    AppendLatest(s.log, e);
    FaithfulAppend(s.log, e);
    var s' := Step(s, OutsideWrite(w));
    forall id | id in s.puts && s.puts[id].Staged?
      ensures Keeps(s.puts[id].row, Before(s'.log, s.puts[id].at))
    {
      BeforeAppend(s.log, e, s.puts[id].at);
    }
  }

  lemma CarriedOfReplacement(body: Row, stored: Row, at: nat)
    ensures CarriedPart(Some(Replacement(body, stored, at))) == CarriedPart(Some(stored))
  {
    SameCarried(Replacement(body, stored, at), stored);
  }

  lemma OwnedReadStep(s: State, id: nat)
    requires Inv(s)
    ensures Inv(Step(s, OwnedRead(id)))
  {
    if id in s.puts && s.puts[id].FoundRow? && Fold(s.log).Some? {
      AppendLatest(s.log, Entry(s.clock, Delete, Outside));
      CarriedOfReplacement(s.puts[id].body, Fold(s.log).value, s.clock);
      PutsInvisible(s.log);
    }
  }

  lemma KeepsAboveInsert(log: Log, put: Entry, k: nat, m: nat, row: Row)
    requires put.writer.Request? && k <= m <= |log| && Keeps(row, log[..m])
    ensures Keeps(row, log[..k] + [put] + log[k..m])
  {
    PutEntryUnseen(log[..k], put, log[k..m]);
    assert log[..m] == log[..k] + log[k..m];
  }

  lemma FaithfulAt(log: Log, put: Entry, k: nat, i: nat)
    requires k <= |log| && Faithful(log) && i <= |log|
    requires put.writer.Request? && put.write.Put? && Keeps(put.write.row, log[..k])
    requires (log[..k] + [put] + log[k..])[i].writer.Request?
    ensures
      var log' := log[..k] + [put] + log[k..];
      log'[i].write.Put? && Keeps(log'[i].write.row, log'[..i])
  {
    var log' := log[..k] + [put] + log[k..];
    if i < k {
      assert log'[..i] == log[..i];
    } else if i == k {
      assert log'[..k] == log[..k];
    } else {
      assert log'[..i] == log[..k] + [put] + log[k..i - 1];
      KeepsAboveInsert(log, put, k, i - 1, log[i - 1].write.row);
    }
  }

  lemma FaithfulInsert(log: Log, put: Entry)
    requires Ordered(log) && Fresh(log, put.at) && Faithful(log)
    requires put.writer.Request? && put.write.Put? && Keeps(put.write.row, Before(log, put.at))
    ensures Faithful(Insert(log, put))
  {
    InsertSplits(log, put);
    var k := |Before(log, put.at)|;
    assert Before(log, put.at) == log[..k];
    forall i | 0 <= i < |Insert(log, put)| && Insert(log, put)[i].writer.Request?
      ensures Insert(log, put)[i].write.Put? && Keeps(Insert(log, put)[i].write.row, Insert(log, put)[..i])
    {
      FaithfulAt(log, put, k, i);
    }
  }

  lemma KeepsUnderInsert(log: Log, put: Entry, row: Row, t: nat)
    requires Ordered(log) && Fresh(log, put.at) && Fresh(log, t) && t != put.at
    requires put.writer.Request? && Keeps(row, Before(log, t))
    ensures Keeps(row, Before(Insert(log, put), t))
  {
    var k, n := |Before(log, put.at)|, |Before(log, t)|;
    BeforeUnderInsert(log, put, t);
    if put.at < t {
      KeepsAboveInsert(log, put, k, n, row);
    }
  }

  lemma CommitStep(s: State, id: nat)
    requires Inv(s)
    ensures Inv(Step(s, Commit(id)))
  {
    if id in s.puts && s.puts[id].Staged? {
      var put := Entry(s.puts[id].at, Put(s.puts[id].row), Request(id));
      var s' := Step(s, Commit(id));
      InsertOrdered(s.log, put);
      FaithfulInsert(s.log, put);
      TimesOfInsert(s.log, put);
      forall other | other in s'.puts && s'.puts[other].Staged?
        ensures s'.puts[other].at < s'.clock && Fresh(s'.log, s'.puts[other].at)
        ensures Keeps(s'.puts[other].row, Before(s'.log, s'.puts[other].at))
      {
        assert s'.puts[other] == s.puts[other];
        KeepsUnderInsert(s.log, put, s.puts[other].row, s.puts[other].at);
      }
    }
  }

  lemma PhaseStep(s: State, id: nat, phase: Phase)
    requires Inv(s) && !phase.Staged?
    ensures Inv(s.(puts := s.puts[id := phase]))
  {
    var s' := s.(puts := s.puts[id := phase]);
    assert forall other :: other in s'.puts && s'.puts[other].Staged? ==> s'.puts[other] == s.puts[other];
  }

  lemma InvStep(s: State, e: Event)
    requires Inv(s)
    ensures Inv(Step(s, e))
  {
    match e
    case OutsideWrite(w) => OutsideStep(s, w);
    case FirstRead(id, body) =>
      PhaseStep(s, id, FoundRow(body));
      PhaseStep(s, id, Done(RequiresExisting));
    case OwnedRead(id) => OwnedReadStep(s, id);
    case Commit(id) => CommitStep(s, id);
    case Abort(id) => PhaseStep(s, id, Done(Aborted));
  }

  lemma {:induction false} InvAlways(events: seq<Event>)
    ensures Inv(Run(START, events))
  {
    if events != [] {
      InvAlways(events[..|events| - 1]);
      InvStep(Run(START, events[..|events| - 1]), events[|events| - 1]);
    }
  }

  /** What the writers other than the PUTs did, in order. */
  function OutsideWrites(events: seq<Event>): seq<Write> {
    if events == [] then []
    else
      var init, e := OutsideWrites(events[..|events| - 1]), events[|events| - 1];
      if e.OutsideWrite? then init + [e.write] else init
  }

  function ApplyAll(base: Option<Row>, ws: seq<Write>): Option<Row> {
    if ws == [] then base else Apply(ApplyAll(base, ws[..|ws| - 1]), ws[|ws| - 1])
  }

  lemma {:induction false} OutsideFold(events: seq<Event>)
    ensures Fold(WithoutPuts(Run(START, events).log)) == ApplyAll(None, OutsideWrites(events))
  {
    if events != [] {
      var init, e := events[..|events| - 1], events[|events| - 1];
      OutsideFold(init);
      InvAlways(init);
      LogStep(Run(START, init), e);
      if e.OutsideWrite? {
        var ws := OutsideWrites(init);
        assert (ws + [e.write])[..|ws|] == ws;
      }
    }
  }

  lemma CommitUnseen(log: Log, put: Entry)
    requires Ordered(log) && Fresh(log, put.at) && put.writer.Request?
    ensures WithoutPuts(Insert(log, put)) == WithoutPuts(log)
  {
    InsertShape(log, put);
    var b := Before(log, put.at);
    var above := log[|b|..];
    assert log == b + above;
    PutEntryUnseen(b, put, above);
  }

  lemma OutsideSeen(log: Log, e: Entry)
    requires e.writer.Outside?
    ensures Fold(WithoutPuts(log + [e])) == Apply(Fold(WithoutPuts(log)), e.write)
  {
    assert (log + [e])[..|log|] == log;
    FoldAppend(WithoutPuts(log), e);
  }

  /** Only an outside write changes the others' part of the log, and it is applied last. */
  lemma LogStep(s: State, e: Event)
    requires Inv(s)
    ensures e.OutsideWrite? ==> Fold(WithoutPuts(Step(s, e).log)) == Apply(Fold(WithoutPuts(s.log)), e.write)
    ensures !e.OutsideWrite? ==> WithoutPuts(Step(s, e).log) == WithoutPuts(s.log)
  {
    if e.OutsideWrite? {
      var entry := Entry(s.clock, e.write, Outside);
      AppendLatest(s.log, entry);
      OutsideSeen(s.log, entry);
    } else if e.Commit? && e.id in s.puts && s.puts[e.id].Staged? {
      CommitUnseen(s.log, Entry(s.puts[e.id].at, Put(s.puts[e.id].row), Request(e.id)));
    }
  }

  /** However any number of PUTs interleave with the writes of others, the row exists exactly when the
      others' writes alone leave it, with exactly the carried fields they leave. */
  lemma PutNeverCreatesDeletesOrReverts(events: seq<Event>)
    ensures CarriedPart(Fold(Run(START, events).log)) == CarriedPart(ApplyAll(None, OutsideWrites(events)))
  {
    InvAlways(events);
    PutsInvisible(Run(START, events).log);
    OutsideFold(events);
  }

  lemma {:induction false} OutsideWritesConcat(a: seq<Event>, b: seq<Event>)
    ensures OutsideWrites(a + b) == OutsideWrites(a) + OutsideWrites(b)
  {
    if b == [] {
      assert a + b == a;
    } else {
      assert (a + b)[..|a + b| - 1] == a + b[..|b| - 1];
      OutsideWritesConcat(a, b[..|b| - 1]);
    }
  }

  lemma OutsideWritesAppend(events: seq<Event>, w: Write)
    ensures OutsideWrites(events + [OutsideWrite(w)]) == OutsideWrites(events) + [w]
  {
    assert (events + [OutsideWrite(w)])[..|events|] == events;
  }

  lemma ApplyAllAppend(base: Option<Row>, ws: seq<Write>, w: Write)
    ensures ApplyAll(base, ws + [w]) == Apply(ApplyAll(base, ws), w)
  {
    assert (ws + [w])[..|ws|] == ws;
  }

  /** What the others' writes leave when one of them is followed by `after`. */
  lemma WriteThen(before: seq<Event>, w: Write, after: seq<Event>)
    ensures
      var ws := OutsideWrites(before);
      ApplyAll(None, OutsideWrites(before + [OutsideWrite(w)] + after))
      == ApplyAll(Apply(ApplyAll(None, ws), w), OutsideWrites(after))
  {
    OutsideWritesConcat(before + [OutsideWrite(w)], after);
    OutsideWritesAppend(before, w);
    ApplyAllConcat(None, OutsideWrites(before) + [w], OutsideWrites(after));
    ApplyAllAppend(None, OutsideWrites(before), w);
  }

  /** A deleted agent stays deleted, whatever PUTs read it before, unless another writer re-creates it. */
  lemma DeletedStaysDeleted(before: seq<Event>, after: seq<Event>)
    requires OutsideWrites(after) == []
    ensures Fold(Run(START, before + [OutsideWrite(Delete)] + after).log) == None
  {
    PutNeverCreatesDeletesOrReverts(before + [OutsideWrite(Delete)] + after);
    WriteThen(before, Delete, after);
  }

  lemma {:induction false} KeyKept(base: Option<Row>, ws: seq<Write>, key: Value)
    requires base.Some? && PublicKey in base.value && base.value[PublicKey] == key
    requires forall i :: 0 <= i < |ws| ==> ws[i].Update? && PublicKey !in ws[i].patch
    ensures ApplyAll(base, ws).Some? && PublicKey in ApplyAll(base, ws).value
    ensures ApplyAll(base, ws).value[PublicKey] == key
  {
    if ws != [] { KeyKept(base, ws[..|ws| - 1], key); }
  }

  lemma {:induction false} ApplyAllConcat(base: Option<Row>, a: seq<Write>, b: seq<Write>)
    ensures ApplyAll(base, a + b) == ApplyAll(ApplyAll(base, a), b)
  {
    if b == [] {
      assert a + b == a;
    } else {
      assert (a + b)[..|a + b| - 1] == a + b[..|b| - 1];
      ApplyAllConcat(base, a, b[..|b| - 1]);
    }
  }

  /** A rotated key stands over every PUT, whenever that PUT read the row and whenever it commits, until
      another writer writes the key again or deletes the row. */
  lemma RotatedKeyStands(before: seq<Event>, key: Value, after: seq<Event>)
    requires forall i :: 0 <= i < |OutsideWrites(after)| ==>
      OutsideWrites(after)[i].Update? && PublicKey !in OutsideWrites(after)[i].patch
    ensures
      var row := Fold(Run(START, before + [OutsideWrite(Update(map[PublicKey := key]))] + after).log);
      row.Some? && PublicKey in row.value && row.value[PublicKey] == key
  {
    var rotation := Update(map[PublicKey := key]);
    var events := before + [OutsideWrite(rotation)] + after;
    PutNeverCreatesDeletesOrReverts(events);
    WriteThen(before, rotation, after);
    KeyKept(Apply(ApplyAll(None, OutsideWrites(before)), rotation), OutsideWrites(after), key);
    KeyIsCarried(Fold(Run(START, events).log), ApplyAll(None, OutsideWrites(events)));
  }

  lemma KeyIsCarried(x: Option<Row>, y: Option<Row>)
    requires CarriedPart(x) == CarriedPart(y) && y.Some? && PublicKey in y.value
    ensures x.Some? && PublicKey in x.value && x.value[PublicKey] == y.value[PublicKey]
  {
    assert PublicKey in CarriedPart(y).value;
  }

  /** A PUT does write: when nothing timed after it is a full write, every field of its replacement that
      no later update names is in the stored row. */
  lemma CommittedPutShows(s: State, id: nat, f: Field)
    requires Inv(s) && id in s.puts && s.puts[id].Staged?
    requires forall i :: 0 <= i < |s.log| && s.puts[id].at < s.log[i].at ==>
      s.log[i].write.Update? && f !in s.log[i].write.patch
    requires f in s.puts[id].row
    ensures
      var row := Fold(Step(s, Commit(id)).log);
      row.Some? && f in row.value && row.value[f] == s.puts[id].row[f]
  {
    var put := Entry(s.puts[id].at, Put(s.puts[id].row), Request(id));
    CommitMeaning(s.log, put);
    InsertSplits(s.log, put);
    UpdatesFoldAround(s.puts[id].row, s.log[|Before(s.log, put.at)|..], f);
  }

  /** An uncontested PUT stores exactly its body over the row it re-read: every body field it may set, every
      immutable field as stored, the new update time, and nothing else. */
  lemma UncontestedPutIsExact(s: State, id: nat, body: Row, f: Field)
    requires Inv(s) && id in s.puts && s.puts[id] == FoundRow(body) && Fold(s.log).Some?
    ensures
      var stored, row := Fold(s.log).value, Fold(Step(Step(s, OwnedRead(id)), Commit(id)).log);
      && row.Some?
      && (f in {CreatedAt, PublicKey, Home, SyncedFrom, SyncedAt} ==>
            (f in row.value <==> f in stored) && (f in stored ==> row.value[f] == stored[f]))
      && (f !in {CreatedAt, PublicKey, Home, SyncedFrom, SyncedAt, UpdatedAt} ==>
            (f in row.value <==> f in body) && (f in body ==> row.value[f] == body[f]))
      && UpdatedAt in row.value && row.value[UpdatedAt] == Date(s.clock)
  {
    var row := Replacement(body, Fold(s.log).value, s.clock);
    var put := Entry(s.clock, Put(row), Request(id));
    AppendLatest(s.log, put);
    FoldAppend(s.log, put);
  }

  /** Whatever ran before, a PUT that nothing disturbs is written exactly when the row exists: it stores its body over
      the stored row, and otherwise changes nothing and answers that it requires an existing agent. */
  lemma UndisturbedPutWritesExactly(events: seq<Event>, id: nat, body: Row, f: Field)
    requires id !in Run(START, events).puts
    ensures
      var s := Run(START, events);
      var t := Step(Step(Step(s, FirstRead(id, body)), OwnedRead(id)), Commit(id));
      && id in t.puts && t.puts[id] == Done(if Fold(s.log).Some? then Written else RequiresExisting)
      && (Fold(s.log).None? ==> t.log == s.log)
      && (Fold(s.log).Some? ==>
            && Fold(t.log).Some?
            && FieldOf(Fold(t.log), f)
               == if f in {CreatedAt, PublicKey, Home, SyncedFrom, SyncedAt} then FieldOf(Fold(s.log), f)
                  else if f == UpdatedAt then Some(Date(s.clock)) else FieldOf(Some(body), f))
  {
    InvAlways(events);
    var s := Run(START, events);
    if Fold(s.log).Some? {
      UncontestedPutIsExact(Step(s, FirstRead(id, body)), id, body, f);
    }
  }

  /** Why an outside write must take its time at its commit: one that took its time before a PUT's
      re-read and commits after that PUT's commit shows exactly when its time is the later one. */
  lemma RotationShowsExactlyWhenLater(log: Log, put: Entry, rotation: Entry, key: Value)
    requires Ordered(log + [put]) && put.write.Put? && Fresh(log + [put], rotation.at)
    requires rotation.write == Update(map[PublicKey := key])
    requires PublicKey in put.write.row && put.write.row[PublicKey] != key
    ensures
      var row := Fold(Insert(log + [put], rotation));
      row.Some? && PublicKey in row.value
      && (row.value[PublicKey] == key <==> put.at < rotation.at)
  {
    FoldAppend(log, put);
    if rotation.at < put.at {
      DroppedByLaterFullWrite(log + [put], rotation, |log|);
    } else {
      AppendLatest(log + [put], rotation);
      FoldAppend(log + [put], rotation);
    }
  }
}
