/** The receiver's record merge: last writer wins by `updatedAt`, with the absorbing `consumed` state for
    messages and the write plan that puts a merged row into the store. */
module Merge {
  import opened Store
  import opened Strings

  datatype SyncRecord = SyncRecord(updatedAt: string, data: Row)

  function Get(row: Row, f: Field): Value {
    if f in row then row[f] else Null
  }

  /** A row's time; a row without one is older than every time. */
  function Time(row: Row): string {
    match Get(row, UpdatedAt)
    case Text(s) => s
    case _ => ""
  }

  /** The fields an incoming record assigns: a null or absent visibility keeps the stored one. */
  function Incoming(data: Row): Row {
    if Get(data, Visibility) == Null then data - {Visibility} else data
  }

  function MergeRecord(local: Option<Row>, remote: SyncRecord): Row {
    match local
    case None => remote.data
    case Some(row) =>
      if Less(Time(row), remote.updatedAt)
      then (row + Incoming(remote.data))[UpdatedAt := Text(remote.updatedAt)]
      else row
  }

  function MergeAll(row: Row, records: seq<SyncRecord>): Row
    decreases |records|
  {
    if records == [] then row else MergeAll(MergeRecord(Some(row), records[0]), records[1..])
  }

  lemma MergeTime(row: Row, r: SyncRecord)
    ensures Time(MergeRecord(Some(row), r)) == Later(Time(row), r.updatedAt)
  {
  }

  /** The latest of a row's time and the times of `records`. */
  function Latest(t: string, records: seq<SyncRecord>): string
    decreases |records|
  {
    if records == [] then t else Latest(Later(t, records[0].updatedAt), records[1..])
  }

  lemma {:induction false} LatestIsMaximum(t: string, records: seq<SyncRecord>)
    ensures Latest(t, records) == t || exists i :: 0 <= i < |records| && records[i].updatedAt == Latest(t, records)
    ensures !Less(Latest(t, records), t)
    ensures forall i :: 0 <= i < |records| ==> !Less(Latest(t, records), records[i].updatedAt)
    decreases |records|
  {
    if records == [] {
      LessAsymmetric(t, t);
    } else {
      var u := Later(t, records[0].updatedAt);
      var m := Latest(t, records);
      LatestIsMaximum(u, records[1..]);
      LessAsymmetric(u, u);
      LessAsymmetric(t, records[0].updatedAt);
      forall i | 0 <= i < |records| ensures !Less(m, records[i].updatedAt) {
        if i > 0 { assert records[i] == records[1..][i - 1]; }
        else { NotLessThrough(m, u, records[0].updatedAt); }
      }
      NotLessThrough(m, u, t);
      if m != t && m != records[0].updatedAt {
        var i :| 0 <= i < |records[1..]| && records[1..][i].updatedAt == m;
        assert records[i + 1].updatedAt == m;
      }
    }
  }

  lemma NotLessThrough(a: string, b: string, c: string)
    requires !Less(a, b) && !Less(b, c)
    ensures !Less(a, c)
  {
    LessTotal(a, b);
    LessTotal(b, c);
    if Less(a, c) {
      if Less(c, b) { LessTransitive(a, c, b); }
    }
  }

  /** Folding any records over a stored row leaves the maximum time. */
  lemma {:induction false} MergeLeavesMaximumTime(row: Row, records: seq<SyncRecord>)
    ensures Time(MergeAll(row, records)) == Latest(Time(row), records)
    decreases |records|
  {
    if records != [] {
      MergeTime(row, records[0]);
      MergeLeavesMaximumTime(MergeRecord(Some(row), records[0]), records[1..]);
    }
  }

  /** Re-delivering a record, at once or after others, changes nothing. */
  lemma {:induction false} RedeliveryChangesNothing(row: Row, r: SyncRecord, between: seq<SyncRecord>)
    ensures var once := MergeAll(MergeRecord(Some(row), r), between);
            MergeRecord(Some(once), r) == once
  {
    var first := MergeRecord(Some(row), r);
    MergeLeavesMaximumTime(first, between);
    LatestIsMaximum(Time(first), between);
    MergeTime(row, r);
    LessAsymmetric(r.updatedAt, r.updatedAt);
    NotLessThrough(Latest(Time(first), between), Time(first), r.updatedAt);
  }

  /** A stored visibility is never cleared. */
  lemma {:induction false} VisibilityNeverCleared(row: Row, records: seq<SyncRecord>)
    requires Get(row, Visibility) != Null
    ensures Get(MergeAll(row, records), Visibility) != Null
    decreases |records|
  {
    if records != [] {
      VisibilityNeverCleared(MergeRecord(Some(row), records[0]), records[1..]);
    }
  }

  // ----- Delivery order -----

  ghost predicate SameFields(records: seq<SyncRecord>) {
    forall i, j :: 0 <= i < |records| && 0 <= j < |records| ==>
      Incoming(records[i].data).Keys == Incoming(records[j].data).Keys
  }

  ghost predicate DistinctTimes(records: seq<SyncRecord>) {
    forall i, j :: 0 <= i < j < |records| ==> records[i].updatedAt != records[j].updatedAt
  }

  /** The row when `r` wins over everything delivered. */
  function Won(row: Row, r: SyncRecord): Row {
    (row + Incoming(r.data))[UpdatedAt := Text(r.updatedAt)]
  }

  /** What a delivery of records with equal field sets leaves: the newest record's row, or the stored row. */
  lemma {:induction false} NewestWins(row: Row, records: seq<SyncRecord>)
    requires SameFields(records)
    ensures (MergeAll(row, records) == row && Latest(Time(row), records) == Time(row))
         || (exists i :: 0 <= i < |records| && records[i].updatedAt == Latest(Time(row), records)
                      && Less(Time(row), records[i].updatedAt) && MergeAll(row, records) == Won(row, records[i]))
    decreases |records|
  {
    if records != [] {
      var r := records[0];
      var row' := MergeRecord(Some(row), r);
      MergeTime(row, r);
      NewestWins(row', records[1..]);
      if MergeAll(row, records) != row' {
        var i :| 0 <= i < |records[1..]| && records[1..][i].updatedAt == Latest(Time(row'), records[1..])
              && Less(Time(row'), records[1..][i].updatedAt) && MergeAll(row', records[1..]) == Won(row', records[1..][i]);
        assert records[i + 1] == records[1..][i];
        if Less(Time(row), r.updatedAt) {
          LessTransitive(Time(row), r.updatedAt, records[i + 1].updatedAt);
          OverwritesAll(row, r, records[i + 1]);
        }
      }
    }
  }

  lemma OverwritesAll(row: Row, r: SyncRecord, next: SyncRecord)
    requires Incoming(r.data).Keys == Incoming(next.data).Keys
    ensures Won(Won(row, r), next) == Won(row, next)
  {
  }

  /** With equal field sets and distinct times, every delivery order leaves the same row. */
  lemma DeliveryOrderIrrelevant(row: Row, a: seq<SyncRecord>, b: seq<SyncRecord>)
    requires SameFields(a) && DistinctTimes(a) && multiset(a) == multiset(b)
    ensures MergeAll(row, a) == MergeAll(row, b)
  {
    SameElements(a, b);
    NewestWins(row, a);
    NewestWins(row, b);
    SameLatest(Time(row), a, b);
    LessAsymmetric(Time(row), Time(row));
    var m := Latest(Time(row), a);
    if m != Time(row) {
      var i :| 0 <= i < |a| && a[i].updatedAt == m && MergeAll(row, a) == Won(row, a[i]);
      var j :| 0 <= j < |b| && b[j].updatedAt == m && MergeAll(row, b) == Won(row, b[j]);
      assert b[j] in a;
    }
  }

  lemma SameElements(a: seq<SyncRecord>, b: seq<SyncRecord>)
    requires multiset(a) == multiset(b)
    ensures forall r :: r in a <==> r in b
    ensures SameFields(a) ==> SameFields(b)
  {
    assert forall r :: r in a <==> r in multiset(a);
    assert forall r :: r in b <==> r in multiset(b);
    if SameFields(a) {
      forall i, j | 0 <= i < |b| && 0 <= j < |b|
        ensures Incoming(b[i].data).Keys == Incoming(b[j].data).Keys
      {
        assert b[i] in a && b[j] in a;
      }
    }
  }

  lemma SameLatest(t: string, a: seq<SyncRecord>, b: seq<SyncRecord>)
    requires forall r :: r in a <==> r in b
    ensures Latest(t, a) == Latest(t, b)
  {
    LatestIsMaximum(t, a);
    LatestIsMaximum(t, b);
    var m, n := Latest(t, a), Latest(t, b);
    NotBelow(m, t, a, b);
    NotBelow(n, t, b, a);
    LessTotal(m, n);
  }

  lemma NotBelow(m: string, t: string, a: seq<SyncRecord>, b: seq<SyncRecord>)
    requires m == t || exists i :: 0 <= i < |a| && a[i].updatedAt == m
    requires forall r :: r in a <==> r in b
    ensures !Less(Latest(t, b), m)
  {
    LatestIsMaximum(t, b);
    if m != t {
      var i :| 0 <= i < |a| && a[i].updatedAt == m;
      assert a[i] in b;
    }
  }

  // ----- When delivery order counts -----

  predicate Applies(row: Row, r: SyncRecord) { Less(Time(row), r.updatedAt) }

  /** What `a` sets and the newer `b` does not, the row already has as `a` sets it. */
  ghost predicate NothingLost(row: Row, a: SyncRecord, b: SyncRecord) {
    forall f :: f in Incoming(a.data) && f !in Incoming(b.data) && f != UpdatedAt ==>
      f in row && row[f] == Incoming(a.data)[f]
  }

  lemma WonTwice(row: Row, a: SyncRecord, b: SyncRecord)
    ensures Won(Won(row, a), b) == Won(row, b) <==> NothingLost(row, a, b)
  {
    var twice, once := Won(Won(row, a), b), Won(row, b);
    if NothingLost(row, a, b) {
      assert twice.Keys == once.Keys;
      assert forall f :: f in once ==> twice[f] == once[f];
    }
    if twice == once {
      forall f | f in Incoming(a.data) && f !in Incoming(b.data) && f != UpdatedAt
        ensures f in row && row[f] == Incoming(a.data)[f]
      {
        assert f in twice && twice[f] == Incoming(a.data)[f];
        assert f in once <==> f in row;
      }
    }
  }

  /** Any two records newer than the row: their two delivery orders agree exactly when every field the older
      one sets and the newer one does not is already in the row with that value. */
  lemma TwoOrdersAgreeExactly(row: Row, a: SyncRecord, b: SyncRecord)
    requires Applies(row, a) && Less(a.updatedAt, b.updatedAt)
    ensures MergeAll(row, [a, b]) == MergeAll(row, [b, a]) <==> NothingLost(row, a, b)
  {
    LessTransitive(Time(row), a.updatedAt, b.updatedAt);
    LessAsymmetric(a.updatedAt, b.updatedAt);
    TwoMerges(row, a, b);
    TwoMerges(row, b, a);
    WonTwice(row, a, b);
  }

  /** A run the endpoint accepts: both records carry their id, the newer one no visibility. */
  lemma OrderCountsWithoutVisibility(row: Row, a: SyncRecord, b: SyncRecord, id: Value, v: Value)
    requires Applies(row, a) && Less(a.updatedAt, b.updatedAt)
    requires a.data == map[Id := id, Visibility := v] && b.data == map[Id := id] && v != Null
    ensures MergeAll(row, [a, b]) == MergeAll(row, [b, a]) <==> Visibility in row && row[Visibility] == v
  {
    TwoOrdersAgreeExactly(row, a, b);
    assert Visibility in Incoming(a.data) && Visibility !in Incoming(b.data);
  }

  lemma TwoMerges(row: Row, a: SyncRecord, b: SyncRecord)
    ensures MergeAll(row, [a, b]) == MergeRecord(Some(MergeRecord(Some(row), a)), b)
  {
    assert [a, b][1..] == [b];
    assert MergeAll(MergeRecord(Some(row), a), [b]) == MergeRecord(Some(MergeRecord(Some(row), a)), b);
  }

  /** A record of a delivery no other is newer than; several records can share the newest time. */
  ghost predicate IsNewest(newest: SyncRecord, records: seq<SyncRecord>) {
    newest in records && forall r :: r in records ==> !Less(newest.updatedAt, r.updatedAt)
  }

  /** Nothing any older applicable record sets is lost to this one. */
  ghost predicate NothingLostIn(row: Row, records: seq<SyncRecord>, newest: SyncRecord) {
    forall r :: r in records && Applies(row, r) && Less(r.updatedAt, newest.updatedAt) ==> NothingLost(row, r, newest)
  }

  /** Two records leave the same row: neither sets what the other loses, and what both set they set alike. */
  ghost predicate Alike(row: Row, a: SyncRecord, b: SyncRecord) {
    && NothingLost(row, a, b) && NothingLost(row, b, a)
    && forall f :: f in Incoming(a.data) && f in Incoming(b.data) && f != UpdatedAt ==> Incoming(a.data)[f] == Incoming(b.data)[f]
  }

  lemma WonAlike(row: Row, a: SyncRecord, b: SyncRecord)
    requires a.updatedAt == b.updatedAt
    ensures Won(row, a) == Won(row, b) <==> Alike(row, a, b)
  {
    if Alike(row, a, b) { AlikeWin(row, a, b); }
    if Won(row, a) == Won(row, b) {
      LostOnlyIfUnlike(row, a, b);
      LostOnlyIfUnlike(row, b, a);
      SetAlike(row, a, b);
    }
  }

  lemma AlikeWin(row: Row, a: SyncRecord, b: SyncRecord)
    requires a.updatedAt == b.updatedAt && Alike(row, a, b)
    ensures Won(row, a) == Won(row, b)
  {
    forall f ensures (f in Won(row, a) <==> f in Won(row, b)) && (f in Won(row, a) ==> Won(row, a)[f] == Won(row, b)[f]) {
    }
  }

  lemma SetAlike(row: Row, a: SyncRecord, b: SyncRecord)
    requires Won(row, a) == Won(row, b)
    ensures forall f :: f in Incoming(a.data) && f in Incoming(b.data) && f != UpdatedAt ==> Incoming(a.data)[f] == Incoming(b.data)[f]
  {
    forall f | f in Incoming(a.data) && f in Incoming(b.data) && f != UpdatedAt
      ensures Incoming(a.data)[f] == Incoming(b.data)[f]
    {
      assert Won(row, a)[f] == Incoming(a.data)[f] && Won(row, b)[f] == Incoming(b.data)[f];
    }
  }

  lemma LostOnlyIfUnlike(row: Row, a: SyncRecord, b: SyncRecord)
    requires Won(row, a) == Won(row, b)
    ensures NothingLost(row, a, b)
  {
    forall f | f in Incoming(a.data) && f !in Incoming(b.data) && f != UpdatedAt
      ensures f in row && row[f] == Incoming(a.data)[f]
    {
      assert f in Won(row, a) && Won(row, a)[f] == Incoming(a.data)[f];
      assert f in Won(row, b) <==> f in row;
    }
  }

  /** A row between deliveries differs from the first one only where the newest record will overwrite. */
  ghost predicate SettledBy(row: Row, now: Row, newest: SyncRecord) { Won(now, newest) == Won(row, newest) }

  lemma WonAfter(row: Row, now: Row, r: SyncRecord, newest: SyncRecord)
    requires SettledBy(row, now, newest) && NothingLost(row, r, newest)
    ensures SettledBy(row, Won(now, r), newest)
  {
    var x, y := Won(Won(now, r), newest), Won(row, newest);
    assert Won(now, newest) == y;
    forall f ensures (f in x <==> f in y) && (f in x ==> x[f] == y[f]) {
      if f in Incoming(newest.data) || f == UpdatedAt {
      } else {
        assert f in now <==> f in Won(now, newest);
        assert f in row <==> f in y;
      }
    }
  }

  /** What holds until a record of the newest time is delivered: the row is settled by each of them. */
  ghost predicate Settling(row: Row, now: Row, records: seq<SyncRecord>, newest: string) {
    && !Less(Time(now), Time(row)) && Less(Time(now), newest)
    && (forall r :: r in records ==> !Less(newest, r.updatedAt))
    && (forall n :: n in records && n.updatedAt == newest ==> SettledBy(row, now, n) && NothingLostIn(row, records, n))
  }

  /** So the first of them to be delivered decides the row. */
  lemma {:induction false} DeliverySettles(row: Row, now: Row, records: seq<SyncRecord>, newest: string)
    requires Settling(row, now, records, newest) && exists n :: n in records && n.updatedAt == newest
    ensures exists n :: n in records && n.updatedAt == newest && MergeAll(now, records) == Won(row, n)
    decreases |records|
  {
    var r, rest := records[0], records[1..];
    assert records == [r] + rest;
    if r.updatedAt == newest {
      NewestStays(Won(now, r), rest);
    } else {
      LessTotal(r.updatedAt, newest);
      OlderSettles(row, now, records, newest, rest);
      DeliverySettles(row, MergeRecord(Some(now), r), rest, newest);
      var n :| n in rest && n.updatedAt == newest && MergeAll(MergeRecord(Some(now), r), rest) == Won(row, n);
    }
  }

  lemma OlderSettles(row: Row, now: Row, records: seq<SyncRecord>, newest: string, rest: seq<SyncRecord>)
    requires Settling(row, now, records, newest)
    requires records != [] && rest == records[1..] && Less(records[0].updatedAt, newest)
    ensures Settling(row, MergeRecord(Some(now), records[0]), rest, newest)
  {
    var r := records[0];
    MergeTime(now, r);
    assert forall x :: x in rest ==> x in records;
    if Applies(now, r) {
      AppliesBelow(row, now, r);
      NotLessAfter(Time(row), Time(now), r.updatedAt);
      forall n | n in rest && n.updatedAt == newest ensures SettledBy(row, Won(now, r), n) && NothingLostIn(row, rest, n) {
        assert NothingLostIn(row, records, n) && r in records;
        WonAfter(row, now, r, n);
      }
    } else {
      forall n | n in rest && n.updatedAt == newest ensures SettledBy(row, now, n) && NothingLostIn(row, rest, n) {
        assert NothingLostIn(row, records, n);
      }
    }
  }

  lemma AppliesBelow(row: Row, now: Row, r: SyncRecord)
    requires Applies(now, r) && !Less(Time(now), Time(row))
    ensures Applies(row, r)
  {
    LessTotal(Time(row), Time(now));
    if Less(Time(row), Time(now)) { LessTransitive(Time(row), Time(now), r.updatedAt); }
  }

  lemma NotLessAfter(a: string, b: string, c: string)
    requires !Less(b, a) && Less(b, c)
    ensures !Less(c, a)
  {
    if Less(c, a) { LessTransitive(b, c, a); }
  }

  /** Records no newer than the row change nothing. */
  lemma {:induction false} NewestStays(now: Row, records: seq<SyncRecord>)
    requires forall r :: r in records ==> !Less(Time(now), r.updatedAt)
    ensures MergeAll(now, records) == now
    decreases |records|
  {
    if records != [] {
      NewestStays(now, records[1..]);
    }
  }

  ghost predicate EveryOrderAgrees(row: Row, records: seq<SyncRecord>) {
    forall p: seq<SyncRecord> :: multiset(p) == multiset(records) ==> MergeAll(row, p) == MergeAll(row, records)
  }

  /** No order can lose anything: where the newest records apply, nothing an older applicable record sets is
      lost to any of them, and they leave the same row. */
  ghost predicate LosesNothing(row: Row, records: seq<SyncRecord>) {
    forall n :: IsNewest(n, records) && Applies(row, n) ==>
      NothingLostIn(row, records, n) && forall m :: IsNewest(m, records) ==> Alike(row, n, m)
  }

  /** Every delivery order of a batch leaves the same row exactly when every field an applicable record sets
      and a newest one does not is already in the row with that value, and the newest ones, when several share
      their time, leave the same row. */
  lemma EveryOrderAgreesExactly(row: Row, records: seq<SyncRecord>)
    ensures EveryOrderAgrees(row, records) <==> LosesNothing(row, records)
  {
    if LosesNothing(row, records) {
      forall p: seq<SyncRecord> | multiset(p) == multiset(records) ensures MergeAll(row, p) == MergeAll(row, records) {
        SameElements(p, records);
        OrdersAgree(row, records, p);
      }
    }
    if EveryOrderAgrees(row, records) {
      forall n | IsNewest(n, records) && Applies(row, n)
        ensures NothingLostIn(row, records, n) && forall m :: IsNewest(m, records) ==> Alike(row, n, m)
      {
        forall r | r in records && Applies(row, r) && Less(r.updatedAt, n.updatedAt) ensures NothingLost(row, r, n) {
          LosingOrder(row, records, r, n);
        }
        forall m | IsNewest(m, records) ensures Alike(row, n, m) {
          SameTime(n, m, records);
          FirstDecides(row, records, n);
          FirstDecides(row, records, m);
          WonAlike(row, n, m);
        }
      }
    }
  }

  lemma SameTime(n: SyncRecord, m: SyncRecord, records: seq<SyncRecord>)
    requires IsNewest(n, records) && IsNewest(m, records)
    ensures n.updatedAt == m.updatedAt
  {
    LessTotal(n.updatedAt, m.updatedAt);
  }

  lemma {:induction false} SomeNewest(records: seq<SyncRecord>) returns (newest: SyncRecord)
    requires records != []
    ensures IsNewest(newest, records)
  {
    newest := records[0];
    if |records| > 1 {
      var other := SomeNewest(records[1..]);
      assert records == [records[0]] + records[1..];
      if Less(newest.updatedAt, other.updatedAt) {
        LessAsymmetric(newest.updatedAt, other.updatedAt);
        newest := other;
      } else {
        forall r | r in records ensures !Less(newest.updatedAt, r.updatedAt) {
          if r in records[1..] {
            NotNewer(newest.updatedAt, other.updatedAt, r.updatedAt);
          } else {
            LessAsymmetric(newest.updatedAt, newest.updatedAt);
          }
        }
      }
    }
    if |records| == 1 { LessAsymmetric(newest.updatedAt, newest.updatedAt); }
  }

  lemma NotNewer(a: string, b: string, c: string)
    requires !Less(a, b) && !Less(b, c)
    ensures !Less(a, c)
  {
    LessTotal(b, a);
    if Less(a, c) && b != a { LessTransitive(b, a, c); }
  }

  /** Where nothing is lost, each order leaves the row of a newest record, or the row itself. */
  lemma OrdersAgree(row: Row, records: seq<SyncRecord>, p: seq<SyncRecord>)
    requires LosesNothing(row, records) && multiset(p) == multiset(records) && forall r :: r in p <==> r in records
    ensures MergeAll(row, p) == MergeAll(row, records)
  {
    if records == [] {
      assert p == [] by { assert |multiset(p)| == |p| && |multiset(records)| == |records|; }
    } else {
      var newest := SomeNewest(records);
      if Applies(row, newest) {
        Decided(row, records, newest, p);
        Decided(row, records, newest, records);
      } else {
        forall r | r in records ensures !Applies(row, r) { NotNewer(Time(row), newest.updatedAt, r.updatedAt); }
        NewestStays(row, p);
        NewestStays(row, records);
      }
    }
  }

  lemma Decided(row: Row, records: seq<SyncRecord>, newest: SyncRecord, p: seq<SyncRecord>)
    requires LosesNothing(row, records) && IsNewest(newest, records) && Applies(row, newest)
    requires forall r :: r in p <==> r in records
    ensures MergeAll(row, p) == Won(row, newest)
  {
    LessAsymmetric(Time(row), Time(row));
    forall n | n in p && n.updatedAt == newest.updatedAt ensures SettledBy(row, row, n) && NothingLostIn(row, p, n) {
      assert IsNewest(n, records);
    }
    DeliverySettles(row, row, p, newest.updatedAt);
    var n :| n in p && n.updatedAt == newest.updatedAt && MergeAll(row, p) == Won(row, n);
    assert IsNewest(n, records);
    WonAlike(row, newest, n);
  }

  /** The order with a newest record first leaves its row. */
  lemma FirstDecides(row: Row, records: seq<SyncRecord>, n: SyncRecord)
    requires EveryOrderAgrees(row, records) && IsNewest(n, records) && Applies(row, n)
    ensures MergeAll(row, records) == Won(row, n)
  {
    var rest := TakeOut(records, n);
    FirstIs(row, records, n, rest, [n] + rest);
  }

  lemma FirstIs(row: Row, records: seq<SyncRecord>, n: SyncRecord, rest: seq<SyncRecord>, p: seq<SyncRecord>)
    requires EveryOrderAgrees(row, records) && IsNewest(n, records) && Applies(row, n)
    requires p == [n] + rest && multiset(p) == multiset(records)
    ensures MergeAll(row, records) == Won(row, n)
  {
    assert MergeAll(row, p) == MergeAll(row, records);
    SameElements(p, records);
    assert forall x :: x in rest ==> x in p;
    MergeFirst(row, n, rest);
    NewestStays(Won(row, n), rest);
  }

  /** The two orders that tell: the newest record first, and one other record just before it. */
  lemma LosingOrder(row: Row, records: seq<SyncRecord>, r: SyncRecord, newest: SyncRecord)
    requires IsNewest(newest, records) && r in records && Less(r.updatedAt, newest.updatedAt)
    requires Applies(row, r) && Applies(row, newest) && EveryOrderAgrees(row, records)
    ensures NothingLost(row, r, newest)
  {
    LessAsymmetric(newest.updatedAt, newest.updatedAt);
    var rest := WithoutTwo(records, r, newest);
    LosingOrders(row, records, r, newest, rest, [newest, r] + rest, [r, newest] + rest);
  }

  lemma LosingOrders(row: Row, records: seq<SyncRecord>, r: SyncRecord, newest: SyncRecord, rest: seq<SyncRecord>,
                     late: seq<SyncRecord>, early: seq<SyncRecord>)
    requires IsNewest(newest, records) && Less(r.updatedAt, newest.updatedAt) && Applies(row, r) && Applies(row, newest)
    requires EveryOrderAgrees(row, records) && late == [newest, r] + rest && early == [r, newest] + rest
    requires multiset(late) == multiset(records) == multiset(early)
    ensures NothingLost(row, r, newest)
  {
    assert MergeAll(row, late) == MergeAll(row, records) == MergeAll(row, early);
    SameElements(late, records);
    assert forall x :: x in rest ==> x in late;
    LessAsymmetric(r.updatedAt, newest.updatedAt);
    NewestFirst(row, r, newest, rest);
    NewestSecond(row, r, newest, rest);
    WonTwice(row, r, newest);
  }

  lemma MergeFirst(row: Row, r: SyncRecord, rest: seq<SyncRecord>)
    ensures MergeAll(row, [r] + rest) == MergeAll(MergeRecord(Some(row), r), rest)
  {
    assert ([r] + rest)[1..] == rest;
  }

  lemma NewestFirst(row: Row, r: SyncRecord, newest: SyncRecord, rest: seq<SyncRecord>)
    requires Applies(row, newest) && !Less(newest.updatedAt, r.updatedAt)
    requires forall x :: x in rest ==> !Less(newest.updatedAt, x.updatedAt)
    ensures MergeAll(row, [newest, r] + rest) == Won(row, newest)
  {
    assert [newest, r] + rest == [newest] + ([r] + rest);
    MergeFirst(row, newest, [r] + rest);
    NewestStays(Won(row, newest), [r] + rest);
  }

  lemma NewestSecond(row: Row, r: SyncRecord, newest: SyncRecord, rest: seq<SyncRecord>)
    requires Applies(row, r) && Less(r.updatedAt, newest.updatedAt)
    requires forall x :: x in rest ==> !Less(newest.updatedAt, x.updatedAt)
    ensures MergeAll(row, [r, newest] + rest) == Won(Won(row, r), newest)
  {
    assert [r, newest] + rest == [r] + ([newest] + rest);
    MergeFirst(row, r, [newest] + rest);
    MergeFirst(Won(row, r), newest, rest);
    NewestStays(Won(Won(row, r), newest), rest);
  }

  lemma TakeOut(records: seq<SyncRecord>, a: SyncRecord) returns (rest: seq<SyncRecord>)
    requires a in records
    ensures multiset(records) == multiset{a} + multiset(rest)
  {
    var i :| 0 <= i < |records| && records[i] == a;
    rest := records[..i] + records[i + 1..];
    assert records == records[..i] + [a] + records[i + 1..];
  }

  lemma WithoutTwo(records: seq<SyncRecord>, a: SyncRecord, b: SyncRecord) returns (rest: seq<SyncRecord>)
    requires a in records && b in records && a != b
    ensures multiset([a, b] + rest) == multiset(records) && multiset([b, a] + rest) == multiset(records)
  {
    var without := TakeOut(records, a);
    assert b in multiset(records);
    assert b in multiset(without);
    rest := TakeOut(without, b);
  }

  // ----- Messages: `consumed` is absorbing -----

  function Reconcile(stored: Value, incoming: Value): Value {
    if stored == Word(Consumed) || incoming == Word(Consumed) then Word(Consumed)
    else if stored == Word(Failed) then Word(Failed)
    else incoming
  }

  function OrElse(a: Value, b: Value): Value {
    if a == Null then b else a
  }

  function Stored(local: Option<Row>, f: Field): Value {
    if local.Some? then Get(local.value, f) else Null
  }

  /** The state guard of an inbound Message write, against the row read in the transaction. */
  function GuardState(local: Option<Row>, merged: Row): Row {
    var state := Reconcile(Stored(local, MessageState), Get(merged, MessageState));
    var guarded := merged[MessageState := state];
    if state != Word(Consumed) then guarded
    else guarded[FailureReason := Null]
                [ConsumedAt := OrElse(Stored(local, ConsumedAt), Get(merged, ConsumedAt))]
  }

  /** A Message row after an inbound record: the merge, the bookkeeping fields, then the state guard. */
  function MergeMessage(local: Option<Row>, remote: SyncRecord, bookkeeping: Row): Row {
    GuardState(local, MergeRecord(local, remote) + bookkeeping)
  }

  ghost predicate IsBookkeeping(row: Row) {
    row.Keys <= {Home, SyncedFrom, SyncedAt}
  }

  /** The rows after each of `records` in turn. */
  function Deliveries(local: Option<Row>, records: seq<(SyncRecord, Row)>): seq<Row>
    decreases |records|
  {
    if records == [] then []
    else
      var row := MergeMessage(local, records[0].0, records[0].1);
      [row] + Deliveries(Some(row), records[1..])
  }

  /** Once a message is consumed it stays consumed through every delivery, with no failure reason, and a
      consumption time once set never changes, whatever the records' times are. */
  lemma {:induction false} ConsumedAbsorbs(local: Row, records: seq<(SyncRecord, Row)>, i: nat)
    requires Get(local, MessageState) == Word(Consumed) && i < |records|
    requires forall k :: 0 <= k < |records| ==> IsBookkeeping(records[k].1)
    ensures |Deliveries(Some(local), records)| == |records|
    ensures var row := Deliveries(Some(local), records)[i];
      && Get(row, MessageState) == Word(Consumed) && Get(row, FailureReason) == Null
      && (Get(local, ConsumedAt) != Null ==> Get(row, ConsumedAt) == Get(local, ConsumedAt))
    decreases |records|
  {
    var row := MergeMessage(Some(local), records[0].0, records[0].1);
    if |records| > 1 {
      ConsumedAbsorbs(row, records[1..], if i > 0 then i - 1 else 0);
    }
  }

  /** A message becomes consumed exactly when it was, or the merged row says so; a failure reported for a
      consumed message never lands, and a failed one yields only to `consumed`. */
  lemma StateAfterDelivery(local: Row, r: SyncRecord, bookkeeping: Row)
    requires IsBookkeeping(bookkeeping)
    ensures
      var before, after := Get(local, MessageState), Get(MergeMessage(Some(local), r, bookkeeping), MessageState);
      var wins := Less(Time(local), r.updatedAt) && MessageState in r.data;
      && (after == Word(Consumed) <==> before == Word(Consumed) || (wins && r.data[MessageState] == Word(Consumed)))
      && (before == Word(Failed) ==> after == Word(Failed) || after == Word(Consumed))
      && (after != before ==> wins && after == r.data[MessageState])
  {
  }

  // ----- The write plan -----

  /** How a merged Memory row is written over the row read in the transaction. */
  function Plan(row: Option<Row>, merged: Row): Write {
    if row.None? then Put(merged)
    else if exists f :: f in row.value && f !in merged then Put(merged)
    else Update(map f | f in merged && !(f in row.value && row.value[f] == merged[f]) :: merged[f])
  }

  /** Incremental update or full rewrite, the stored row is exactly the merged one. */
  lemma PlanStoresMerged(row: Option<Row>, merged: Row)
    ensures Apply(row, Plan(row, merged)) == Some(merged)
  {
    if row.Some? && Plan(row, merged).Update? {
      assert row.value + Plan(row, merged).patch == merged;
    }
  }

  /** An incremental plan leaves a competing write to any field the merge did not change as it is, and
      names only fields the merge changed. */
  lemma PlanSparesCompetitor(row: Row, merged: Row, competing: Row, f: Field)
    requires Plan(Some(row), merged).Update?
    requires f in competing && f in row && f in merged && row[f] == merged[f]
    ensures Apply(Apply(Some(row), Update(competing)), Plan(Some(row), merged)).value[f] == competing[f]
    ensures forall g :: g in Plan(Some(row), merged).patch ==> g !in row || row[g] != merged[g]
  {
  }
}
