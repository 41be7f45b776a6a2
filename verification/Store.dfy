/** The store the resources write to: a row is the fold, in the order of their times, of the writes
    committed to it. A transaction's writes carry one time, taken at its first read, so a write can be
    committed after one whose time is later than its own. */
module Store {
  import opened Collections

  datatype Option<+T> = None | Some(value: T)

  /** The row fields the protocols name; every other field is `Other`. */
  datatype Field =
    | Id | AgentId | CreatedAt | UpdatedAt
    | PublicKey | Home | SyncedFrom | SyncedAt
    | Status | Endpoint | Marker | LastSyncAt | LastSyncCursor | LastMergeAt
    | Platform | Email | PublishedAt
    | Visibility | MessageState | ConsumedAt | FailureReason
    | InstanceToken | ContentHash
    | ValidTo
    | Resolution | Bound | CompletedAt | LastReason | PeerId | Table | RecordId
    | Other(name: string)

  /** A JSON value. `Date` is a string that parses as a date; `Word` is one of the fixed words the code
      compares a field with. */
  datatype Value = Null | Text(s: string) | Date(ms: nat) | Number(n: int) | Word(w: Name)
  datatype Name =
    | Paired | Connected | Revoked
    | Submitted | Delivered | Consumed | Failed
    | Pending | Terminal
    | TpsMail
    | MergedWord | RefusedTerminal | SourceDeleted | SourceIneligible | PeerUnavailable | RetryExhausted
    | Attempts | Age | Both

  type Row = map<Field, Value>

  datatype Write = Put(row: Row) | Update(patch: Row) | Delete

  /** What one write does to the row the earlier writes leave. An incremental update of an absent row
      inserts it. */
  function Apply(stored: Option<Row>, w: Write): Option<Row> {
    match w
    case Put(row) => Some(row)
    case Update(patch) => if stored.Some? then Some(stored.value + patch) else Some(patch)
    case Delete => None
  }

  /** Who committed a write: a modelled request (by its number) or anyone else. */
  datatype Writer = Request(id: nat) | Outside

  datatype Entry = Entry(at: nat, write: Write, writer: Writer)
  type Log = seq<Entry>

  ghost predicate Ordered(log: Log) {
    forall i, j :: 0 <= i < j < |log| ==> log[i].at < log[j].at
  }

  /** Commit a write: it takes its place by time, whatever was committed before it. */
  function Insert(log: Log, e: Entry): Log {
    if log == [] || log[|log| - 1].at <= e.at then log + [e]
    else Insert(log[..|log| - 1], e) + [log[|log| - 1]]
  }

  function CommitAll(log: Log, es: seq<Entry>): Log
    decreases |es|
  {
    if es == [] then log else CommitAll(Insert(log, es[0]), es[1..])
  }

  /** The row a log leaves on top of `base`. */
  function FoldFrom(base: Option<Row>, log: Log): Option<Row> {
    if log == [] then base
    else Apply(FoldFrom(base, log[..|log| - 1]), log[|log| - 1].write)
  }

  function Fold(log: Log): Option<Row> { FoldFrom(None, log) }

  /** The writes of `log` timed before `t`, and those timed after it. */
  function Before(log: Log, t: nat): Log {
    if log == [] || log[|log| - 1].at < t then log else Before(log[..|log| - 1], t)
  }

  ghost predicate Fresh(log: Log, t: nat) {
    forall i :: 0 <= i < |log| ==> log[i].at != t
  }

  /** `Before` is the prefix of the earlier times. */
  lemma {:induction false} BeforeIsPrefix(log: Log, t: nat)
    requires Ordered(log) && Fresh(log, t)
    ensures Before(log, t) <= log
    ensures forall i :: 0 <= i < |log| ==> (log[i].at < t <==> i < |Before(log, t)|)
  {
    if log != [] && log[|log| - 1].at >= t {
      BeforeIsPrefix(log[..|log| - 1], t);
    }
  }

  lemma {:induction false} InsertShape(log: Log, e: Entry)
    requires Ordered(log) && Fresh(log, e.at)
    ensures Before(log, e.at) <= log
    ensures Insert(log, e) == Before(log, e.at) + [e] + log[|Before(log, e.at)|..]
  {
    if log == [] || log[|log| - 1].at < e.at {
      assert log[|log|..] == [];
    } else {
      var last := |log| - 1;
      InsertShape(log[..last], e);
      var k := |Before(log[..last], e.at)|;
      assert log[k..] == log[..last][k..] + [log[last]];
    }
  }

  /** `Insert` splits the log at the new write's time. */
  lemma InsertSplits(log: Log, e: Entry)
    requires Ordered(log) && Fresh(log, e.at)
    ensures Before(log, e.at) <= log
    ensures Insert(log, e) == Before(log, e.at) + [e] + log[|Before(log, e.at)|..]
    ensures forall i :: 0 <= i < |log| ==> (log[i].at < e.at <==> i < |Before(log, e.at)|)
  {
    InsertShape(log, e);
    BeforeIsPrefix(log, e.at);
  }

  /** How to recognise `Before`. */
  lemma {:induction false} BeforeIs(log: Log, t: nat, m: nat)
    requires m <= |log| && Ordered(log)
    requires m > 0 ==> log[m - 1].at < t
    requires m < |log| ==> t <= log[m].at
    ensures Before(log, t) == log[..m]
  {
    if m < |log| {
      BeforeIs(log[..|log| - 1], t, m);
    }
  }

  lemma {:induction false} InsertOrdered(log: Log, e: Entry)
    requires Ordered(log) && Fresh(log, e.at)
    ensures Ordered(Insert(log, e))
  {
    InsertSplits(log, e);
  }

  lemma InsertMembers(log: Log, e: Entry)
    requires Ordered(log) && Fresh(log, e.at)
    ensures forall x :: x in Insert(log, e) <==> x == e || x in log
  {
    InsertShape(log, e);
    var k := |Before(log, e.at)|;
    assert log == log[..k] + log[k..];
  }

  lemma {:induction false} FoldConcat(base: Option<Row>, a: Log, b: Log)
    ensures FoldFrom(base, a + b) == FoldFrom(FoldFrom(base, a), b)
  {
    if b == [] {
      assert a + b == a;
    } else {
      assert (a + b)[..|a + b| - 1] == a + b[..|b| - 1];
      FoldConcat(base, a, b[..|b| - 1]);
    }
  }

  lemma FoldAppend(log: Log, e: Entry)
    ensures Fold(log + [e]) == Apply(Fold(log), e.write)
  {
    assert (log + [e])[..|log|] == log;
  }

  /** A row is stored exactly when the latest write is no delete. */
  lemma LastDecides(log: Log)
    ensures Fold(log).Some? <==> log != [] && !log[|log| - 1].write.Delete?
  {
  }

  lemma AppendLatest(log: Log, e: Entry)
    requires forall i :: 0 <= i < |log| ==> log[i].at < e.at
    ensures Insert(log, e) == log + [e] && Before(log, e.at) == log
  {
  }

  lemma {:induction false} BeforeAppend(log: Log, e: Entry, t: nat)
    requires t < e.at
    ensures Before(log + [e], t) == Before(log, t)
  {
    assert (log + [e])[..|log|] == log;
  }

  lemma TimesOfInsert(log: Log, e: Entry)
    requires Ordered(log) && Fresh(log, e.at)
    ensures forall i :: 0 <= i < |Insert(log, e)| ==>
      Insert(log, e)[i].at == e.at || exists j :: 0 <= j < |log| && Insert(log, e)[i] == log[j]
  {
    InsertSplits(log, e);
    var k := |Before(log, e.at)|;
    forall i | 0 <= i < |Insert(log, e)|
      ensures Insert(log, e)[i].at == e.at || exists j :: 0 <= j < |log| && Insert(log, e)[i] == log[j]
    {
      if i < k {
        assert Insert(log, e)[i] == log[i];
      } else if i > k {
        assert Insert(log, e)[i] == log[i - 1];
      }
    }
  }

  /** The later of two times has the longer prefix, bounded by the entries around it. */
  lemma BeforesNested(log: Log, s: nat, t: nat)
    requires Ordered(log) && Fresh(log, s) && Fresh(log, t)
    ensures Before(log, s) <= log && Before(log, t) <= log
    ensures s < t ==> |Before(log, s)| <= |Before(log, t)|
    ensures t < s ==> |Before(log, t)| <= |Before(log, s)|
  {
    BeforeIsPrefix(log, s);
    BeforeIsPrefix(log, t);
    var k, n := |Before(log, s)|, |Before(log, t)|;
    assert k < n ==> !(log[k].at < s) && log[k].at < t;
    assert n < k ==> !(log[n].at < t) && log[n].at < s;
  }

  lemma BeforeUnderInsert(log: Log, e: Entry, t: nat)
    requires Ordered(log) && Fresh(log, e.at) && Fresh(log, t) && t != e.at
    ensures var k, n := |Before(log, e.at)|, |Before(log, t)|;
      && k <= |log| && n <= |log| && Before(log, t) == log[..n]
      && (e.at < t ==> k <= n && Before(Insert(log, e), t) == log[..k] + [e] + log[k..n])
      && (t < e.at ==> Before(Insert(log, e), t) == log[..n])
  {
    BeforesNested(log, e.at, t);
    SplitAt(log, e);
    InsertOrdered(log, e);
    BeforeIsPrefix(log, t);
    ShiftedBefore(log, e, t, |Before(log, e.at)|, |Before(log, t)|);
  }

  lemma SplitAt(log: Log, e: Entry)
    requires Ordered(log) && Fresh(log, e.at)
    ensures
      var k := |Before(log, e.at)|;
      k <= |log| && Insert(log, e) == log[..k] + [e] + log[k..]
      && forall i :: 0 <= i < |log| ==> (log[i].at < e.at <==> i < k)
  {
    InsertShape(log, e);
    BeforeIsPrefix(log, e.at);
  }

  lemma ShiftedBefore(log: Log, e: Entry, t: nat, k: nat, n: nat)
    requires k <= |log| && n <= |log| && t != e.at
    requires Ordered(log[..k] + [e] + log[k..])
    requires forall i :: 0 <= i < |log| ==> (log[i].at < e.at <==> i < k) && (log[i].at < t <==> i < n)
    requires (e.at < t ==> k <= n) && (t < e.at ==> n <= k)
    ensures e.at < t ==> Before(log[..k] + [e] + log[k..], t) == log[..k] + [e] + log[k..n]
    ensures t < e.at ==> Before(log[..k] + [e] + log[k..], t) == log[..n]
  {
    if e.at < t { BeforeAbove(log, e, k, n, t); } else { BeforeBelow(log, e, k, n, t); }
  }

  lemma BeforeAbove(log: Log, e: Entry, k: nat, n: nat, t: nat)
    requires k <= n <= |log| && Ordered(log[..k] + [e] + log[k..]) && e.at < t
    requires n > k ==> log[n - 1].at < t
    requires n < |log| ==> t <= log[n].at
    ensures Before(log[..k] + [e] + log[k..], t) == log[..k] + [e] + log[k..n]
  {
    var log' := log[..k] + [e] + log[k..];
    BeforeIs(log', t, n + 1);
    assert log'[..n + 1] == log[..k] + [e] + log[k..n];
  }

  lemma BeforeBelow(log: Log, e: Entry, k: nat, n: nat, t: nat)
    requires n <= k <= |log| && Ordered(log[..k] + [e] + log[k..]) && t < e.at
    requires n > 0 ==> log[n - 1].at < t
    requires n < k ==> t <= log[n].at
    ensures Before(log[..k] + [e] + log[k..], t) == log[..n]
  {
    var log' := log[..k] + [e] + log[k..];
    BeforeIs(log', t, n);
    assert log'[..n] == log[..n];
  }

  /** What a commit leaves: the later-timed writes, on top of this one, on top of the earlier-timed ones. */
  lemma CommitMeaning(log: Log, e: Entry)
    requires Ordered(log) && Fresh(log, e.at)
    ensures Before(log, e.at) <= log
    ensures Fold(Insert(log, e))
         == FoldFrom(Apply(Fold(Before(log, e.at)), e.write), log[|Before(log, e.at)|..])
  {
    InsertSplits(log, e);
    var b := Before(log, e.at);
    FoldConcat(None, b + [e], log[|b|..]);
    FoldAppend(b, e);
  }

  /** From the first full write on, what was below it does not matter. */
  lemma {:induction false} FullWriteForgets(x: Option<Row>, y: Option<Row>, log: Log, i: nat)
    requires i < |log| && !log[i].write.Update?
    ensures FoldFrom(x, log) == FoldFrom(y, log)
  {
    if i < |log| - 1 {
      FullWriteForgets(x, y, log[..|log| - 1], i);
    }
  }

  lemma DroppedUnder(below: Log, e: Entry, above: Log, i: nat)
    requires i < |above| && !above[i].write.Update?
    ensures Fold(below + [e] + above) == Fold(below + above)
  {
    FoldConcat(None, below + [e], above);
    FoldConcat(None, below, above);
    FullWriteForgets(Fold(below + [e]), Fold(below), above, i);
  }

  /** The writes below and above a commit's time. */
  lemma Around(log: Log, e: Entry) returns (below: Log, above: Log)
    requires Ordered(log) && Fresh(log, e.at)
    ensures log == below + above && Insert(log, e) == below + [e] + above
    ensures forall i :: 0 <= i < |below| ==> below[i].at < e.at
    ensures forall i :: 0 <= i < |above| ==> e.at < above[i].at
  {
    SplitAt(log, e);
    var k := |Before(log, e.at)|;
    below, above := log[..k], log[k..];
  }

  /** A commit resolves while its write is dropped: a full write with a later time is already stored. */
  lemma DroppedByLaterFullWrite(log: Log, e: Entry, i: nat)
    requires Ordered(log) && Fresh(log, e.at)
    requires i < |log| && e.at < log[i].at && !log[i].write.Update?
    ensures Fold(Insert(log, e)) == Fold(log)
  {
    var below, above := Around(log, e);
    assert above[i - |below|] == log[i];
    DroppedUnder(below, e, above, i - |below|);
  }

  /** Field updates fold around an older full put: a field no later update names shows the put's value. */
  lemma {:induction false} UpdatesFoldAround(row: Row, log: Log, f: Field)
    requires forall i :: 0 <= i < |log| ==> log[i].write.Update? && f !in log[i].write.patch
    ensures FoldFrom(Some(row), log).Some?
    ensures f in FoldFrom(Some(row), log).value <==> f in row
    ensures f in row ==> FoldFrom(Some(row), log).value[f] == row[f]
  {
    if log != [] {
      UpdatesFoldAround(row, log[..|log| - 1], f);
    }
  }

  /** Two commits with different times leave the same log in either order. */
  lemma {:induction false} InsertCommutes(log: Log, a: Entry, b: Entry)
    requires Ordered(log) && Fresh(log, a.at) && Fresh(log, b.at) && a.at != b.at
    ensures Insert(Insert(log, a), b) == Insert(Insert(log, b), a)
  {
    if log == [] {
    } else {
      var last := |log| - 1;
      var init := log[..last];
      assert log == init + [log[last]];
      if log[last].at < a.at && log[last].at < b.at {
        InsertBothLater(log, a, b);
      } else if log[last].at < a.at {
        InsertAppendLater(init, log[last], b, a);
      } else if log[last].at < b.at {
        InsertAppendLater(init, log[last], a, b);
      } else {
        InsertCommutes(init, a, b);
        InsertUnderLast(Insert(init, a), log[last], b);
        InsertUnderLast(Insert(init, b), log[last], a);
      }
    }
  }

  lemma InsertBothLater(log: Log, a: Entry, b: Entry)
    requires log != [] && log[|log| - 1].at < a.at && log[|log| - 1].at < b.at && a.at != b.at
    ensures Insert(Insert(log, a), b) == Insert(Insert(log, b), a)
  {
    assert (log + [a])[..|log|] == log && (log + [b])[..|log|] == log;
  }

  lemma InsertUnderLast(init: Log, last: Entry, e: Entry)
    requires e.at < last.at
    ensures Insert(init + [last], e) == Insert(init, e) + [last]
  {
    assert (init + [last])[..|init|] == init;
  }

  lemma InsertAppendLater(init: Log, last: Entry, early: Entry, late: Entry)
    requires early.at < last.at < late.at
    ensures Insert(Insert(init + [last], early), late) == Insert(Insert(init + [last], late), early)
  {
    InsertUnderLast(init, last, early);
    InsertUnderLast(init + [last], late, early);
  }

  ghost predicate DistinctTimes(es: seq<Entry>) {
    forall i, j :: 0 <= i < j < |es| ==> es[i].at != es[j].at
  }

  /** Every write can be committed first. */
  lemma {:induction false} CommitFirst(log: Log, es: seq<Entry>, k: nat)
    requires Ordered(log) && DistinctTimes(es) && k < |es|
    requires forall i :: 0 <= i < |es| ==> Fresh(log, es[i].at)
    ensures CommitAll(log, es) == CommitAll(Insert(log, es[k]), es[..k] + es[k + 1..])
    decreases |es|
  {
    if k == 0 {
      assert es[..0] + es[1..] == es[1..];
    } else {
      StillFresh(log, es);
      CommitFirst(Insert(log, es[0]), es[1..], k - 1);
      InsertCommutes(log, es[0], es[k]);
      CommitAllFirst(Insert(log, es[k]), es, k);
    }
  }

  /** Taking out an entry other than the first leaves the first one first. */
  lemma CommitAllFirst(log: Log, es: seq<Entry>, k: nat)
    requires 0 < k < |es|
    ensures CommitAll(log, es[..k] + es[k + 1..])
         == CommitAll(Insert(log, es[0]), es[1..][..k - 1] + es[1..][k..])
  {
    var rest := es[..k] + es[k + 1..];
    assert rest[0] == es[0] && rest[1..] == es[1..][..k - 1] + es[1..][k..];
  }

  /** After the first commit the others' times are still free. */
  lemma StillFresh(log: Log, es: seq<Entry>)
    requires Ordered(log) && DistinctTimes(es) && es != []
    requires forall i :: 0 <= i < |es| ==> Fresh(log, es[i].at)
    ensures Ordered(Insert(log, es[0])) && DistinctTimes(es[1..])
    ensures forall i :: 0 <= i < |es[1..]| ==> Fresh(Insert(log, es[0]), es[1..][i].at)
  {
    InsertOrdered(log, es[0]);
    TimesOfInsert(log, es[0]);
  }

  /** The stored row depends on the writes and their times, not on the order they were committed in. */
  lemma {:induction false} CommitOrderIrrelevant(log: Log, es: seq<Entry>, fs: seq<Entry>)
    requires Ordered(log) && DistinctTimes(es)
    requires forall i :: 0 <= i < |es| ==> Fresh(log, es[i].at)
    requires multiset(es) == multiset(fs)
    ensures CommitAll(log, es) == CommitAll(log, fs)
    decreases |es|
  {
    if es == [] {
      assert |multiset(fs)| == 0;
    } else {
      var k := FirstElsewhere(es, fs);
      DistinctPreserved(es, fs);
      FreshPreserved(log, es, fs);
      CommitFirst(log, fs, k);
      StillFresh(log, es);
      CommitOrderIrrelevant(Insert(log, es[0]), es[1..], fs[..k] + fs[k + 1..]);
    }
  }

  lemma FreshPreserved(log: Log, es: seq<Entry>, fs: seq<Entry>)
    requires forall i :: 0 <= i < |es| ==> Fresh(log, es[i].at)
    requires multiset(es) == multiset(fs)
    ensures forall i :: 0 <= i < |fs| ==> Fresh(log, fs[i].at)
  {
    forall i | 0 <= i < |fs| ensures Fresh(log, fs[i].at) {
      assert fs[i] in multiset(es);
    }
  }

  lemma FirstElsewhere(es: seq<Entry>, fs: seq<Entry>) returns (k: nat)
    requires es != [] && multiset(es) == multiset(fs)
    ensures k < |fs| && fs[k] == es[0]
    ensures multiset(es[1..]) == multiset(fs[..k] + fs[k + 1..])
  {
    assert es[0] in multiset(es);
    k :| 0 <= k < |fs| && fs[k] == es[0];
    assert es == [es[0]] + es[1..];
    assert fs == fs[..k] + [fs[k]] + fs[k + 1..];
    assert multiset(es) == multiset{es[0]} + multiset(es[1..]);
    assert multiset(fs) == multiset{es[0]} + multiset(fs[..k] + fs[k + 1..]);
    assert multiset(es[1..]) == multiset(es) - multiset{es[0]};
  }

  lemma DistinctPreserved(es: seq<Entry>, fs: seq<Entry>)
    requires DistinctTimes(es) && multiset(es) == multiset(fs)
    ensures DistinctTimes(fs)
  {
    forall i, j | 0 <= i < j < |fs| ensures fs[i].at != fs[j].at {
      Twice(fs, i, j);
      assert fs[i] in multiset(es) && fs[j] in multiset(es);
      var p :| 0 <= p < |es| && es[p] == fs[i];
      OnceOnly(es, p);
    }
  }

  lemma OnceOnly(es: seq<Entry>, p: nat)
    requires DistinctTimes(es) && p < |es|
    ensures multiset(es)[es[p]] == 1
    ensures forall e :: e in es && e.at == es[p].at ==> e == es[p]
  {
    assert es == es[..p] + [es[p]] + es[p + 1..];
    assert es[p] !in es[..p] && es[p] !in es[p + 1..];
  }

  // ---- One field of a row ----

  function FieldOf(stored: Option<Row>, f: Field): Option<Value> {
    if stored.Some? && f in stored.value then Some(stored.value[f]) else None
  }

  /** A write decides a field when what it leaves there does not depend on what was stored. */
  predicate Decides(w: Write, f: Field) { w.Update? ==> f in w.patch }

  function Decision(w: Write, f: Field): Option<Value>
    requires Decides(w, f)
  {
    match w
    case Put(row) => FieldOf(Some(row), f)
    case Update(patch) => Some(patch[f])
    case Delete => None
  }

  /** The field's value above `v`: what the last write that decides it says. */
  function FieldFrom(v: Option<Value>, log: Log, f: Field): Option<Value> {
    if log == [] then v
    else if Decides(log[|log| - 1].write, f) then Decision(log[|log| - 1].write, f)
    else FieldFrom(v, log[..|log| - 1], f)
  }

  /** A write timed after `t` decides the field. */
  ghost predicate DecidedAfter(log: Log, t: nat, f: Field) {
    exists i :: 0 <= i < |log| && t < log[i].at && Decides(log[i].write, f)
  }

  lemma {:induction false} FieldOfFold(base: Option<Row>, log: Log, f: Field)
    ensures FieldOf(FoldFrom(base, log), f) == FieldFrom(FieldOf(base, f), log, f)
  {
    if log != [] { FieldOfFold(base, log[..|log| - 1], f); }
  }

  /** Without a deciding write the value below stands; from one on, what is below does not matter. */
  lemma {:induction false} DecidersDecide(v: Option<Value>, w: Option<Value>, log: Log, f: Field)
    ensures !SomeDecides(log, f) ==> FieldFrom(v, log, f) == v
    ensures SomeDecides(log, f) ==> FieldFrom(v, log, f) == FieldFrom(w, log, f)
  {
    if log != [] {
      DecidersDecide(v, w, log[..|log| - 1], f);
      SomeDecidesLast(log, f);
    }
  }

  lemma SomeDecidesLast(log: Log, f: Field)
    requires log != []
    ensures SomeDecides(log, f) <==> Decides(log[|log| - 1].write, f) || SomeDecides(log[..|log| - 1], f)
  {
    var init := log[..|log| - 1];
    if SomeDecides(init, f) {
      var i :| 0 <= i < |init| && Decides(init[i].write, f);
      assert log[i] == init[i];
    }
    if SomeDecides(log, f) && !Decides(log[|log| - 1].write, f) {
      var i :| 0 <= i < |log| && Decides(log[i].write, f);
      assert init[i] == log[i];
    }
  }

  lemma {:induction false} PresentFrom(base: Option<Row>, log: Log)
    ensures FoldFrom(base, log).Some? <==> if log == [] then base.Some? else !log[|log| - 1].write.Delete?
  {
  }

  ghost predicate SomeDecides(log: Log, f: Field) { exists i :: 0 <= i < |log| && Decides(log[i].write, f) }

  lemma FieldUnder(below: Log, e: Entry, above: Log, f: Field)
    ensures
      FieldOf(Fold(below + [e] + above), f)
      == if Decides(e.write, f) && !SomeDecides(above, f) then Decision(e.write, f) else FieldOf(Fold(below + above), f)
  {
    FoldConcat(None, below + [e], above);
    FoldConcat(None, below, above);
    FoldAppend(below, e);
    FieldOfFold(Fold(below + [e]), above, f);
    FieldOfFold(Fold(below), above, f);
    DecidersDecide(FieldOf(Fold(below + [e]), f), FieldOf(Fold(below), f), above, f);
  }

  /** One field under a commit, whatever is stored above it: the commit's value when it decides the field and
      no later-timed write does; what was stored before, in every other case. */
  lemma FieldUnderCommit(log: Log, e: Entry, f: Field)
    requires Ordered(log) && Fresh(log, e.at)
    ensures
      FieldOf(Fold(Insert(log, e)), f)
      == if Decides(e.write, f) && !DecidedAfter(log, e.at, f) then Decision(e.write, f) else FieldOf(Fold(log), f)
  {
    var below, above := Around(log, e);
    FieldUnder(below, e, above, f);
    AboveDecides(below, above, e.at, f);
  }

  lemma AboveDecides(below: Log, above: Log, t: nat, f: Field)
    requires forall i :: 0 <= i < |below| ==> below[i].at < t
    requires forall i :: 0 <= i < |above| ==> t < above[i].at
    ensures DecidedAfter(below + above, t, f) <==> SomeDecides(above, f)
  {
    if SomeDecides(above, f) {
      var i :| 0 <= i < |above| && Decides(above[i].write, f);
      assert (below + above)[|below| + i] == above[i];
    }
  }

  /** The row is there after a commit when it was, or when the commit is the latest write and stores one. */
  lemma PresentAfterCommit(log: Log, e: Entry)
    requires Ordered(log) && Fresh(log, e.at)
    ensures Fold(Insert(log, e)).Some? <==>
      if forall i :: 0 <= i < |log| ==> log[i].at < e.at then !e.write.Delete? else Fold(log).Some?
  {
    var below, above := Around(log, e);
    PresentFrom(None, below + above);
    PresentFrom(None, below + [e] + above);
    if above == [] {
      assert below + above == below && below + [e] + above == below + [e];
    } else {
      assert (below + above)[|below|] == above[0];
    }
  }
}
