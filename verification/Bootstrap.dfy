/** Bootstrap packing: one token budget shared by the soul, the skills, the caller's own memories, the
    teammates' findings, collisions and events, with sub-budgets, a reserve held back for the task and one
    truncation rule. */
module Bootstrap {
  import opened Collections
  import opened Store

  const MaxCollisionEntries: nat := 10
  const DefaultEventCap: nat := 10
  const WorkspaceFilePriority: nat := 90
  const Ellipsis := "…(truncated)"

  function Tokens(length: nat): nat { (length + 3) / 4 }
  function Estimate(text: string): nat { Tokens(|text|) }
  function Max(a: int, b: int): int { if a >= b then a else b }
  function Min(a: int, b: int): int { if a <= b then a else b }

  // ---- The soul ----

  datatype SoulEntry = SoulEntry(key: string, value: string, priority: nat)

  function Line(e: SoulEntry): string { "**" + e.key + ":** " + e.value }

  /** The truncated line: as many characters of the value as the soul's remaining tokens allow. */
  function TruncatedLine(e: SoulEntry, maxChars: nat): string {
    "**" + e.key + ":** " + e.value[..Min(maxChars, |e.value|)] + Ellipsis
  }

  function SoulMax(maxTokens: int): int { 2 * maxTokens / 5 }

  datatype Admitted = Admitted(entry: SoulEntry, truncated: bool, cost: nat)

  function Charge(admitted: seq<Admitted>): nat {
    if admitted == [] then 0 else Charge(admitted[..|admitted| - 1]) + admitted[|admitted| - 1].cost
  }

  lemma ChargeAppend(admitted: seq<Admitted>, a: Admitted)
    ensures Charge(admitted + [a]) == Charge(admitted) + a.cost
  {
    assert (admitted + [a])[..|admitted|] == admitted;
  }

  ghost predicate OnlyLastTruncated(admitted: seq<Admitted>) {
    forall i :: 0 <= i < |admitted| - 1 ==> !admitted[i].truncated
  }

  ghost predicate DistinctValues(admitted: seq<Admitted>) {
    forall i, j :: 0 <= i < j < |admitted| ==> admitted[i].entry.value != admitted[j].entry.value
  }

  /** An entry is admitted whole at its own cost, or truncated when it is not a workspace file. */
  predicate Admissible(a: Admitted, entries: seq<SoulEntry>) {
    && a.entry in entries
    && (if a.truncated then a.entry.priority < WorkspaceFilePriority else a.cost == Estimate(Line(a.entry)))
  }

  /** The soul's whole allowance: its 40%, and past it only what one truncated entry's key and ellipsis add. */
  ghost predicate WithinAllowance(admitted: seq<Admitted>, maxTokens: int) {
    if admitted == [] || !admitted[|admitted| - 1].truncated
      then Charge(admitted) <= Max(0, SoulMax(maxTokens))
      else Charge(admitted) <= SoulMax(maxTokens) + Tokens(|admitted[|admitted| - 1].entry.key| + 18)
  }

  /** A truncated entry overspends the allowance, so nothing fits after it; and by no more than its own
      key and ellipsis. */
  lemma TruncationOverspends(e: SoulEntry, left: int)
    requires Estimate(Line(e)) > left && left * 4 > 100
    ensures left < Estimate(TruncatedLine(e, left * 4)) <= left + Tokens(|e.key| + 18)
  {
    assert |Line(e)| == |e.key| + 6 + |e.value|;
    assert |TruncatedLine(e, left * 4)| == |e.key| + 18 + Min(left * 4, |e.value|);
  }

  /** What holds while the soul is admitted: once an entry was truncated the allowance is overspent. */
  ghost predicate SoulSoFar(admitted: seq<Admitted>, maxTokens: int) {
    && OnlyLastTruncated(admitted) && WithinAllowance(admitted, maxTokens)
    && (admitted != [] && admitted[|admitted| - 1].truncated ==> Charge(admitted) > SoulMax(maxTokens))
  }

  lemma AdmitWhole(admitted: seq<Admitted>, maxTokens: int, e: SoulEntry)
    requires SoulSoFar(admitted, maxTokens) && Charge(admitted) + Estimate(Line(e)) <= SoulMax(maxTokens)
    ensures SoulSoFar(admitted + [Admitted(e, false, Estimate(Line(e)))], maxTokens)
  {
    ChargeAppend(admitted, Admitted(e, false, Estimate(Line(e))));
  }

  lemma AdmitTruncated(admitted: seq<Admitted>, maxTokens: int, e: SoulEntry, left: int)
    requires SoulSoFar(admitted, maxTokens) && left == SoulMax(maxTokens) - Charge(admitted)
    requires Estimate(Line(e)) > left && left * 4 > 100
    ensures SoulSoFar(admitted + [Admitted(e, true, Estimate(TruncatedLine(e, left * 4)))], maxTokens)
  {
    TruncationOverspends(e, left);
    ChargeAppend(admitted, Admitted(e, true, Estimate(TruncatedLine(e, left * 4))));
  }

  /** One entry: admitted whole when it fits, cut when it does not and is no workspace file, or skipped. */
  function AdmitOne(e: SoulEntry, admitted: seq<Admitted>, maxTokens: int): (more: seq<Admitted>)
    ensures |more| <= 1 && forall a :: a in more ==> Admissible(a, [e])
  {
    var left := SoulMax(maxTokens) - Charge(admitted);
    if Estimate(Line(e)) <= left then [Admitted(e, false, Estimate(Line(e)))]
    else if e.priority < WorkspaceFilePriority && left * 4 > 100
      then [Admitted(e, true, Estimate(TruncatedLine(e, left * 4)))]
    else []
  }

  predicate ValueIn(entries: seq<SoulEntry>, value: string) { exists e | e in entries :: e.value == value }

  /** What the soul admits: each entry in turn, unless an earlier one has its value. */
  function AdmitAll(entries: seq<SoulEntry>, maxTokens: int): seq<Admitted> {
    if entries == [] then []
    else
      var before, e := entries[..|entries| - 1], entries[|entries| - 1];
      var admitted := AdmitAll(before, maxTokens);
      if ValueIn(before, e.value) then admitted else admitted + AdmitOne(e, admitted, maxTokens)
  }

  function SoulCharge(entries: seq<SoulEntry>, maxTokens: int): nat { Charge(AdmitAll(entries, maxTokens)) }

  lemma AdmitOneKeeps(e: SoulEntry, admitted: seq<Admitted>, maxTokens: int)
    requires SoulSoFar(admitted, maxTokens)
    ensures SoulSoFar(admitted + AdmitOne(e, admitted, maxTokens), maxTokens)
  {
    var left := SoulMax(maxTokens) - Charge(admitted);
    if Estimate(Line(e)) <= left {
      AdmitWhole(admitted, maxTokens, e);
    } else if e.priority < WorkspaceFilePriority && left * 4 > 100 {
      AdmitTruncated(admitted, maxTokens, e, left);
    } else {
      assert admitted + [] == admitted;
    }
  }

  /** Over any entries at most one is truncated, the last admitted, and the charge is within the allowance. */
  lemma {:induction false} SoulIsWithinAllowance(entries: seq<SoulEntry>, maxTokens: int)
    ensures SoulSoFar(AdmitAll(entries, maxTokens), maxTokens)
  {
    if entries != [] {
      SoulIsWithinAllowance(entries[..|entries| - 1], maxTokens);
      AdmitOneKeeps(entries[|entries| - 1], AdmitAll(entries[..|entries| - 1], maxTokens), maxTokens);
    }
  }

  lemma DistinctAppend(admitted: seq<Admitted>, more: seq<Admitted>)
    requires DistinctValues(admitted) && |more| <= 1
    requires forall a, b :: a in admitted && b in more ==> a.entry.value != b.entry.value
    ensures DistinctValues(admitted + more)
  {
    forall i, j | 0 <= i < j < |admitted + more|
      ensures (admitted + more)[i].entry.value != (admitted + more)[j].entry.value
    {
      if j >= |admitted| { assert admitted[i] in admitted && more[0] in more; }
    }
  }

  /** Each distinct value is admitted once, each entry whole at its cost or truncated when it may be. */
  lemma {:induction false} SoulValuesAreDistinct(entries: seq<SoulEntry>, maxTokens: int)
    ensures DistinctValues(AdmitAll(entries, maxTokens))
    ensures forall a :: a in AdmitAll(entries, maxTokens) ==> Admissible(a, entries)
  {
    if entries != [] {
      var before, e := entries[..|entries| - 1], entries[|entries| - 1];
      SoulValuesAreDistinct(before, maxTokens);
      if !ValueIn(before, e.value) {
        DistinctAppend(AdmitAll(before, maxTokens), AdmitOne(e, AdmitAll(before, maxTokens), maxTokens));
      }
    }
  }

  /** One entry of the loop below. */
  method AdmitEntry(e: SoulEntry, admitted: seq<Admitted>, soulTokens: nat, maxTokens: int)
    returns (after: seq<Admitted>, tokens: nat)
    requires soulTokens == Charge(admitted)
    ensures after == admitted + AdmitOne(e, admitted, maxTokens) && tokens == Charge(after)
  {
    after, tokens := admitted, soulTokens;
    var soulMax := SoulMax(maxTokens);
    if soulTokens + Estimate(Line(e)) > soulMax {
      if e.priority >= WorkspaceFilePriority { return; }
      var maxChars := (soulMax - soulTokens) * 4;
      if maxChars > 100 {
        var cut := Admitted(e, true, Estimate(TruncatedLine(e, maxChars)));
        ChargeAppend(admitted, cut);
        after, tokens := admitted + [cut], soulTokens + cut.cost;
      }
      return;
    }
    var whole := Admitted(e, false, Estimate(Line(e)));
    ChargeAppend(admitted, whole);
    after, tokens := admitted + [whole], soulTokens + whole.cost;
  }

  lemma AdmitNext(entries: seq<SoulEntry>, i: nat, maxTokens: int)
    requires i < |entries|
    ensures
      var admitted := AdmitAll(entries[..i], maxTokens);
      AdmitAll(entries[..i + 1], maxTokens)
        == if ValueIn(entries[..i], entries[i].value) then admitted
           else admitted + AdmitOne(entries[i], admitted, maxTokens)
  {
    assert entries[..i + 1][..i] == entries[..i];
  }

  /** Admit the soul entries, highest priority first, each distinct value once. */
  method AdmitSoul(entries: seq<SoulEntry>, maxTokens: int) returns (admitted: seq<Admitted>)
    ensures admitted == AdmitAll(entries, maxTokens)
    ensures OnlyLastTruncated(admitted) && WithinAllowance(admitted, maxTokens) && DistinctValues(admitted)
    ensures forall a :: a in admitted ==> Admissible(a, entries)
  {
    var seen: set<string> := {};
    var soulTokens := 0;
    admitted := [];
    var i := 0;
    while i < |entries|
      invariant 0 <= i <= |entries| && soulTokens == Charge(admitted)
      invariant admitted == AdmitAll(entries[..i], maxTokens)
      invariant forall v :: v in seen <==> ValueIn(entries[..i], v)
    {
      NextValue(entries, i);
      AdmitNext(entries, i, maxTokens);
      if entries[i].value !in seen {
        seen := seen + {entries[i].value};
        admitted, soulTokens := AdmitEntry(entries[i], admitted, soulTokens, maxTokens);
      }
      i := i + 1;
    }
    assert entries[..|entries|] == entries;
    SoulIsWithinAllowance(entries, maxTokens);
    SoulValuesAreDistinct(entries, maxTokens);
  }

  lemma NextValue(entries: seq<SoulEntry>, i: nat)
    requires i < |entries|
    ensures forall v :: ValueIn(entries[..i + 1], v) <==> ValueIn(entries[..i], v) || v == entries[i].value
  {
    assert entries[..i + 1] == entries[..i] + [entries[i]];
    forall v | ValueIn(entries[..i], v) ensures ValueIn(entries[..i + 1], v) {
      var e :| e in entries[..i] && e.value == v;
      assert e in entries[..i + 1];
    }
    assert entries[i] in entries[..i + 1];
  }

  /** The soul can overspend the whole budget: one entry with a long key, 70 tokens, 108 charged. */
  lemma SoulCanOverspend(key: string, value: string)
    requires |key| == 300 && |value| == 200
    ensures SoulCharge([SoulEntry(key, value, 0)], 70) == 108
  {
    var e := SoulEntry(key, value, 0);
    assert [e][..0] == [];
    assert AdmitAll([], 70) == [] && !ValueIn([], value);
    assert |Line(e)| == 506 && |TruncatedLine(e, 112)| == 430;
    var cut := Admitted(e, true, 108);
    assert AdmitOne(e, [], 70) == [cut];
    assert AdmitAll([e], 70) == [] + [cut] == [cut];
    ChargeAppend([], cut);
  }

  /** It cannot when no entry that may be cut has a key longer than the other 60% has room for. */
  lemma ShortKeysCannotOverspend(entries: seq<SoulEntry>, maxTokens: int)
    requires forall e :: e in entries && e.priority < WorkspaceFilePriority ==>
      Tokens(|e.key| + 18) <= maxTokens - SoulMax(maxTokens)
    ensures SoulCharge(entries, maxTokens) <= Max(0, maxTokens)
  {
    SoulIsWithinAllowance(entries, maxTokens);
    SoulValuesAreDistinct(entries, maxTokens);
    var admitted := AdmitAll(entries, maxTokens);
    if admitted != [] && admitted[|admitted| - 1].truncated {
      assert Admissible(admitted[|admitted| - 1], entries);
    }
  }

  // ---- Events ----

  datatype Event = Event(id: nat, signature: nat, createdAt: nat, cost: nat)

  ghost predicate Newest(e: Event, events: seq<Event>) {
    e in events && forall other :: other in events && other.signature == e.signature ==> other.createdAt <= e.createdAt
  }

  function InsertByTime(e: Event, sorted: seq<Event>): seq<Event> {
    if sorted == [] || e.createdAt > sorted[0].createdAt then [e] + sorted
    else [sorted[0]] + InsertByTime(e, sorted[1..])
  }

  function NewestFirst(events: seq<Event>): seq<Event> {
    if events == [] then [] else InsertByTime(events[|events| - 1], NewestFirst(events[..|events| - 1]))
  }

  ghost predicate Descending(events: seq<Event>) {
    forall i, j :: 0 <= i < j < |events| ==> events[i].createdAt >= events[j].createdAt
  }

  lemma {:induction false} InsertByTimeKeeps(e: Event, sorted: seq<Event>)
    ensures multiset(InsertByTime(e, sorted)) == multiset(sorted) + multiset{e}
  {
    if sorted == [] || e.createdAt > sorted[0].createdAt {
    } else {
      InsertByTimeKeeps(e, sorted[1..]);
      assert sorted == [sorted[0]] + sorted[1..];
    }
  }

  lemma {:induction false} InsertByTimeSorts(e: Event, sorted: seq<Event>)
    requires Descending(sorted)
    ensures Descending(InsertByTime(e, sorted))
  {
    if sorted == [] || e.createdAt > sorted[0].createdAt {
    } else {
      var rest := InsertByTime(e, sorted[1..]);
      InsertByTimeSorts(e, sorted[1..]);
      InsertByTimeKeeps(e, sorted[1..]);
      forall i | 0 <= i < |rest| ensures rest[i].createdAt <= sorted[0].createdAt {
        assert rest[i] in multiset(rest);
        assert rest[i] == e || rest[i] in sorted[1..];
      }
    }
  }

  lemma {:induction false} NewestFirstSorts(events: seq<Event>)
    ensures Descending(NewestFirst(events)) && multiset(NewestFirst(events)) == multiset(events)
  {
    if events != [] {
      NewestFirstSorts(events[..|events| - 1]);
      InsertByTimeSorts(events[|events| - 1], NewestFirst(events[..|events| - 1]));
      InsertByTimeKeeps(events[|events| - 1], NewestFirst(events[..|events| - 1]));
      assert events == events[..|events| - 1] + [events[|events| - 1]];
    }
  }

  ghost predicate OnePerSignature(events: seq<Event>) {
    forall i, j :: 0 <= i < j < |events| ==> events[i].signature != events[j].signature
  }

  predicate Has(events: seq<Event>, signature: nat) {
    exists e | e in events :: e.signature == signature
  }

  /** Where the event of a signature is, or the length. */
  function Position(events: seq<Event>, signature: nat): (k: nat)
    ensures k <= |events| && (k < |events| <==> Has(events, signature))
    ensures k < |events| ==> events[k].signature == signature
  {
    if events == [] || events[0].signature == signature then 0
    else
      var k := Position(events[1..], signature);
      assert events == [events[0]] + events[1..];
      1 + k
  }

  /** One more event seen: appended, put in the place of an older one, or dropped. */
  function Keep(kept: seq<Event>, e: Event): seq<Event> {
    var at := Position(kept, e.signature);
    if at == |kept| then kept + [e] else if e.createdAt > kept[at].createdAt then kept[at := e] else kept
  }

  ghost predicate Deduped(kept: seq<Event>, events: seq<Event>) {
    && OnePerSignature(kept)
    && (forall e :: e in kept ==> Newest(e, events))
    && (forall e :: e in events ==> Has(kept, e.signature))
  }

  lemma KeepSignatures(kept: seq<Event>, e: Event)
    requires OnePerSignature(kept)
    ensures OnePerSignature(Keep(kept, e))
    ensures forall signature :: Has(Keep(kept, e), signature) <==> Has(kept, signature) || signature == e.signature
  {
    var at := Position(kept, e.signature);
    var after := Keep(kept, e);
    assert forall i :: 0 <= i < |kept| ==> after[i].signature == kept[i].signature;
    assert at == |kept| ==> forall i :: 0 <= i < |kept| ==> kept[i] in kept;
    forall signature | Has(kept, signature) ensures Has(after, signature) {
      var i :| 0 <= i < |kept| && kept[i].signature == signature;
      assert after[i] in after;
    }
    assert Has(after, e.signature) by { assert after[at] in after && after[at].signature == e.signature; }
    forall signature | Has(after, signature) ensures Has(kept, signature) || signature == e.signature {
      var i :| 0 <= i < |after| && after[i].signature == signature;
      assert i < |kept| ==> kept[i] in kept;
    }
  }

  lemma KeepNewest(kept: seq<Event>, events: seq<Event>, e: Event, x: Event)
    requires Deduped(kept, events) && x in Keep(kept, e)
    ensures Newest(x, events + [e])
  {
    var at := Position(kept, e.signature);
    var i :| 0 <= i < |Keep(kept, e)| && Keep(kept, e)[i] == x;
    if at == |kept| {
      assert forall y :: y in events && y.signature == e.signature ==> Has(kept, e.signature);
      assert i < |kept| ==> kept[i] in kept;
    } else {
      assert kept[at] in kept && kept[i] in kept;
    }
  }

  function KeepAll(events: seq<Event>): seq<Event> {
    if events == [] then [] else Keep(KeepAll(events[..|events| - 1]), events[|events| - 1])
  }

  /** Keep the newest event of each signature. */
  method Dedup(events: seq<Event>) returns (kept: seq<Event>)
    ensures kept == KeepAll(events) && Deduped(kept, events)
  {
    kept := [];
    for i := 0 to |events|
      invariant kept == KeepAll(events[..i])
    {
      assert events[..i + 1][..i] == events[..i];
      kept := Keep(kept, events[i]);
    }
    assert events[..|events|] == events;
    KeepAllDedupes(events);
  }

  lemma {:induction false} KeepAllDedupes(events: seq<Event>)
    ensures Deduped(KeepAll(events), events)
  {
    if events != [] {
      var init, last := events[..|events| - 1], events[|events| - 1];
      KeepAllDedupes(init);
      KeepDedupes(KeepAll(init), init, last);
      assert events == init + [last];
    }
  }

  lemma KeepDedupes(kept: seq<Event>, events: seq<Event>, e: Event)
    requires Deduped(kept, events)
    ensures Deduped(Keep(kept, e), events + [e])
  {
    KeepSignatures(kept, e);
    forall x | x in Keep(kept, e) ensures Newest(x, events + [e]) { KeepNewest(kept, events, e, x); }
  }

  /** What was shipped comes from the first `i` events, and stays ahead of the rest. */
  ghost predicate Ahead(shipped: seq<Event>, order: seq<Event>, i: nat) {
    && (forall e :: e in shipped ==> e in order)
    && (forall k, j :: 0 <= k < |shipped| && i <= j < |order| ==>
          shipped[k].createdAt >= order[j].createdAt && shipped[k].signature != order[j].signature)
  }

  lemma AheadStep(shipped: seq<Event>, order: seq<Event>, i: nat)
    requires i < |order| && Descending(order) && OnePerSignature(order)
    requires Descending(shipped) && OnePerSignature(shipped) && Ahead(shipped, order, i)
    ensures Ahead(shipped, order, i + 1)
    ensures Descending(shipped + [order[i]]) && OnePerSignature(shipped + [order[i]])
    ensures Ahead(shipped + [order[i]], order, i + 1)
  {
  }

  // ---- Memories ----

  /** A memory with the tokens its container object and trust entry cost; `own` is false for a teammate's. */
  datatype Item = Item(id: nat, own: bool, cost: nat)

  ghost predicate DistinctIds(items: seq<Item>) {
    forall i, j :: 0 <= i < j < |items| ==> items[i].id != items[j].id
  }

  function Ids(items: seq<Item>): set<nat> {
    if items == [] then {} else Ids(items[..|items| - 1]) + {items[|items| - 1].id}
  }

  lemma {:induction false} InIds(items: seq<Item>, id: nat)
    ensures id in Ids(items) <==> exists i :: 0 <= i < |items| && items[i].id == id
  {
    if items != [] {
      var init := items[..|items| - 1];
      InIds(init, id);
      assert forall i :: 0 <= i < |init| ==> items[i] == init[i];
    }
  }

  /** The scored pool: the candidates not already placed, in rank order. */
  function Scored(candidates: seq<Item>, placed: set<nat>): (pool: seq<Item>)
    ensures forall c :: c in pool <==> c in candidates && c.id !in placed
  {
    if candidates == [] then []
    else
      var init, last := Scored(candidates[..|candidates| - 1], placed), candidates[|candidates| - 1];
      if last.id in placed then init else init + [last]
  }

  /** The pool keeps the candidates' order: one list after another is scored as the one pool after the other. */
  lemma {:induction false} ScoredConcat(a: seq<Item>, b: seq<Item>, placed: set<nat>)
    ensures Scored(a + b, placed) == Scored(a, placed) + Scored(b, placed)
  {
    if b == [] {
      assert a + b == a;
    } else {
      assert (a + b)[..|a + b| - 1] == a + b[..|b| - 1];
      ScoredConcat(a, b[..|b| - 1], placed);
    }
  }

  lemma {:induction false} ScoredDistinct(candidates: seq<Item>, placed: set<nat>)
    requires DistinctIds(candidates)
    ensures DistinctIds(Scored(candidates, placed))
  {
    if candidates != [] {
      ScoredDistinct(candidates[..|candidates| - 1], placed);
      var init := Scored(candidates[..|candidates| - 1], placed);
      assert forall c :: c in init ==> c in candidates[..|candidates| - 1];
    }
  }

  function OwnIds(items: seq<Item>): set<nat> {
    if items == [] then {}
    else OwnIds(items[..|items| - 1]) + (if items[|items| - 1].own then {items[|items| - 1].id} else {})
  }

  lemma {:induction false} ScoredIds(items: seq<Item>, placed: set<nat>)
    ensures Ids(Scored(items, placed)) == Ids(items) - placed
  {
    if items != [] {
      var init, last := items[..|items| - 1], items[|items| - 1];
      ScoredIds(init, placed);
      assert (Scored(init, placed) + [last])[..|Scored(init, placed)|] == Scored(init, placed);
    }
  }

  lemma OwnScored(candidates: seq<Item>, placed: set<nat>, own: set<nat>)
    requires forall c :: c in candidates && c.own ==> c.id in own
    ensures OwnIds(Scored(candidates, placed)) <= own
  {
    OwnIdsWithin(Scored(candidates, placed), own);
  }

  lemma {:induction false} OwnIdsWithin(items: seq<Item>, own: set<nat>)
    requires forall c :: c in items && c.own ==> c.id in own
    ensures OwnIds(items) <= own
  {
    if items != [] {
      OwnIdsWithin(items[..|items| - 1], own);
      assert items[|items| - 1] in items;
    }
  }

  function CountTeammates(items: seq<Item>): nat {
    if items == [] then 0
    else CountTeammates(items[..|items| - 1]) + (if items[|items| - 1].own then 0 else 1)
  }

  datatype Request = Request(
    soul: seq<SoulEntry>, skills: seq<nat>, diagnostics: seq<nat>,
    permanent: seq<Item>, recent: seq<Item>, predicted: seq<Item>, relationships: seq<seq<nat>>,
    hasTask: bool, retrieves: bool, candidates: seq<Item>,
    collisions: seq<nat>, events: seq<Event>, eventCap: Option<nat>)

  /** The lists a request's reads return: own memories within `own`, each list without repeats, permanent
      memories apart from the others. */
  ghost predicate OneSnapshot(r: Request, own: set<nat>) {
    && DistinctIds(r.permanent) && DistinctIds(r.recent) && DistinctIds(r.predicted) && DistinctIds(r.candidates)
    && Ids(r.permanent) <= own && Ids(r.recent) <= own && Ids(r.predicted) <= own
    && Ids(r.permanent) !! Ids(r.recent) && Ids(r.permanent) !! Ids(r.predicted)
    && (forall c :: c in r.candidates && c.own ==> c.id in own)
    && (forall c :: c in r.candidates && !c.own ==> c.id !in own)
  }

  lemma IdsNext(items: seq<Item>, i: nat)
    requires DistinctIds(items) && i < |items|
    ensures Ids(items[..i + 1]) == Ids(items[..i]) + {items[i].id}
    ensures items[i].id !in Ids(items[..i]) && items[i].id in Ids(items)
  {
    InIds(items[..i], items[i].id);
    InIds(items, items[i].id);
    assert items[..i + 1][..i] == items[..i];
  }

  lemma ScoredNext(items: seq<Item>, i: nat)
    requires i < |items|
    ensures CountTeammates(items[..i + 1]) == CountTeammates(items[..i]) + (if items[i].own then 0 else 1)
    ensures OwnIds(items[..i + 1]) == OwnIds(items[..i]) + (if items[i].own then {items[i].id} else {})
  {
    assert items[..i + 1][..i] == items[..i];
  }

  lemma ShareWithin(budget: int, tenths: nat)
    requires 0 < tenths <= 10
    ensures budget >= 0 ==> 0 <= budget * tenths / 10 <= budget
    ensures budget < 0 ==> budget * tenths / 10 < 0
  {
    if budget >= 0 {
      assert budget * tenths <= budget * 10;
    } else {
      assert budget * tenths <= -1;
    }
  }

  lemma SignatureOnce(events: seq<Event>, k: nat)
    requires OnePerSignature(events) && k < |events|
    ensures multiset(events)[events[k]] == 1
    ensures forall e :: e in events && e.signature == events[k].signature ==> e == events[k]
  {
    assert events == events[..k] + [events[k]] + events[k + 1..];
    assert events[k] !in events[..k] && events[k] !in events[k + 1..];
  }

  lemma SortedSignatures(events: seq<Event>, sorted: seq<Event>)
    requires OnePerSignature(events) && multiset(sorted) == multiset(events)
    ensures OnePerSignature(sorted)
  {
    forall i, j | 0 <= i < j < |sorted| ensures sorted[i].signature != sorted[j].signature {
      Twice(sorted, i, j);
      assert sorted[i] in multiset(events) && sorted[j] in multiset(events);
      var p :| 0 <= p < |events| && events[p] == sorted[i];
      SignatureOnce(events, p);
    }
  }

  lemma CountsWithin(included: set<nat>, truncated: set<nat>, own: set<nat>)
    requires included <= own && truncated <= own
    ensures |included| + |truncated - included| <= |own|
  {
    SubsetCount(included + (truncated - included), own);
    assert |included + (truncated - included)| == |included| + |truncated - included|;
  }

  lemma {:induction false} DistinctCount(items: seq<Item>)
    requires DistinctIds(items)
    ensures |Ids(items)| == |items|
  {
    if items != [] {
      var init := items[..|items| - 1];
      DistinctCount(init);
      InIds(init, items[|items| - 1].id);
    }
  }

  // ---- What is shipped, and where the budget goes ----

  function Sum(costs: seq<nat>): nat {
    if costs == [] then 0 else Sum(costs[..|costs| - 1]) + costs[|costs| - 1]
  }

  function ItemsCost(items: seq<Item>): nat {
    if items == [] then 0 else ItemsCost(items[..|items| - 1]) + items[|items| - 1].cost
  }

  function EventsCost(events: seq<Event>): nat {
    if events == [] then 0 else EventsCost(events[..|events| - 1]) + events[|events| - 1].cost
  }

  lemma SumAppend(costs: seq<nat>, c: nat)
    ensures Sum(costs + [c]) == Sum(costs) + c
  {
    assert (costs + [c])[..|costs|] == costs;
  }

  lemma {:induction false} SumConcat(a: seq<nat>, b: seq<nat>)
    ensures Sum(a + b) == Sum(a) + Sum(b)
  {
    if b == [] {
      assert a + b == a;
    } else {
      assert (a + b)[..|a + b| - 1] == a + b[..|b| - 1];
      SumConcat(a, b[..|b| - 1]);
    }
  }

  lemma ItemsCostAppend(items: seq<Item>, m: Item)
    ensures ItemsCost(items + [m]) == ItemsCost(items) + m.cost && Ids(items + [m]) == Ids(items) + {m.id}
  {
    assert (items + [m])[..|items|] == items;
  }

  lemma EventsCostAppend(events: seq<Event>, e: Event)
    ensures EventsCost(events + [e]) == EventsCost(events) + e.cost
  {
    assert (events + [e])[..|events|] == events;
  }

  /** The memories shipped so far, what is left of the budget, the own memories included and cut, and how
      many of the teammates' were cut. */
  datatype Placed = Placed(budget: int, included: set<nat>, truncated: set<nat>,
                           memories: seq<Item>, predicted: seq<Item>, teammates: seq<Item>, teammatesCut: nat)

  /** The rest of what is shipped; skills, diagnostics, relationships and collisions by their costs. */
  datatype Sections = Sections(soul: seq<Admitted>, skills: seq<nat>, diagnostics: seq<nat>,
                               relationships: seq<nat>, collisions: seq<nat>, events: seq<Event>)

  datatype Packing = Packing(placed: Placed, sections: Sections, eventsRemaining: nat)

  function MemoriesCost(p: Placed): nat { ItemsCost(p.memories) + ItemsCost(p.predicted) + ItemsCost(p.teammates) }

  function SectionsCost(s: Sections): nat {
    Charge(s.soul) + Sum(s.skills) + Sum(s.diagnostics) + Sum(s.relationships) + Sum(s.collisions) + EventsCost(s.events)
  }

  /** The tokens of everything shipped. */
  function Cost(s: Packing): nat { MemoriesCost(s.placed) + SectionsCost(s.sections) }

  /** A memory the request may ship: one of its own lists, or an own candidate. */
  predicate Offered(r: Request, m: Item) {
    m in r.permanent || m in r.recent || m in r.predicted || (m in r.candidates && m.own)
  }

  /** The shipped own memories are the included ones, each once, all offered by the request; a shipped
      teammate's memory is one of the candidates. */
  ghost predicate Coherent(p: Placed, r: Request) {
    && DistinctIds(p.memories + p.predicted) && Ids(p.memories + p.predicted) == p.included
    && (forall m :: m in p.memories + p.predicted ==> Offered(r, m))
    && (forall m :: m in p.teammates ==> m in r.candidates && !m.own)
  }

  function Ship(p: Placed, m: Item, asPredicted: bool): Placed {
    var q := p.(budget := p.budget - m.cost, included := p.included + {m.id});
    if asPredicted then q.(predicted := q.predicted + [m]) else q.(memories := q.memories + [m])
  }

  /** One own memory of a section: placed when it fits, counted as cut otherwise. */
  function PlaceOrCut(p: Placed, m: Item, fits: bool, asPredicted: bool): Placed {
    if fits then Ship(p, m, asPredicted) else p.(truncated := p.truncated + {m.id})
  }

  /** How a section takes its memories: those that fit; those that fit and are not yet placed; those within a
      share of what it starts with; or the task's scored pool. */
  datatype Policy = Fits | Unplaced | Share(share: int, asPredicted: bool) | ForTask

  function PlaceOne(policy: Policy, start: int, p: Placed, m: Item): Placed {
    match policy
    case Fits => PlaceOrCut(p, m, m.cost <= p.budget, false)
    case Unplaced => if m.id in p.included then p else PlaceOrCut(p, m, m.cost <= p.budget, false)
    case Share(share, asPredicted) => PlaceOrCut(p, m, start - p.budget + m.cost <= share, asPredicted)
    case ForTask =>
      if m.own then PlaceOrCut(p, m, m.cost <= p.budget, false)
      else if m.cost > p.budget then p.(teammatesCut := p.teammatesCut + 1)
      else p.(budget := p.budget - m.cost, teammates := p.teammates + [m])
  }

  function PlaceAll(policy: Policy, items: seq<Item>, p: Placed): Placed {
    if items == [] then p else PlaceOne(policy, p.budget, PlaceAll(policy, items[..|items| - 1], p), items[|items| - 1])
  }

  // ---- What every section keeps ----

  lemma ShipApart(memories: seq<Item>, predicted: seq<Item>, m: Item)
    requires DistinctIds(memories + predicted) && m.id !in Ids(memories + predicted)
    ensures DistinctIds((memories + [m]) + predicted) && DistinctIds(memories + (predicted + [m]))
  {
    var all, first, last := memories + predicted, (memories + [m]) + predicted, memories + (predicted + [m]);
    InIds(all, m.id);
    assert last == all + [m];
    forall i, j | 0 <= i < j < |first| ensures first[i].id != first[j].id {
      Shifted(memories, predicted, m, i);
      Shifted(memories, predicted, m, j);
    }
  }

  lemma Shifted(memories: seq<Item>, predicted: seq<Item>, m: Item, i: nat)
    requires i <= |memories| + |predicted|
    ensures ((memories + [m]) + predicted)[i]
         == if i < |memories| then (memories + predicted)[i] else if i == |memories| then m else (memories + predicted)[i - 1]
  {
  }

  lemma {:induction false} IdsConcat(a: seq<Item>, b: seq<Item>)
    ensures Ids(a + b) == Ids(a) + Ids(b)
  {
    if b == [] {
      assert a + b == a;
    } else {
      assert (a + b)[..|a + b| - 1] == a + b[..|b| - 1];
      IdsConcat(a, b[..|b| - 1]);
    }
  }

  lemma ShipKeeps(p: Placed, m: Item, asPredicted: bool, r: Request)
    requires Coherent(p, r) && Offered(r, m) && m.id !in p.included
    ensures Coherent(Ship(p, m, asPredicted), r) && MemoriesCost(Ship(p, m, asPredicted)) == MemoriesCost(p) + m.cost
  {
    ShipApart(p.memories, p.predicted, m);
    IdsConcat(p.memories, p.predicted);
    if asPredicted {
      ItemsCostAppend(p.predicted, m);
      IdsConcat(p.memories, p.predicted + [m]);
    } else {
      ItemsCostAppend(p.memories, m);
      IdsConcat(p.memories + [m], p.predicted);
    }
  }

  /** What is spent is what is shipped; a budget is never overspent, and nothing is spent of a negative one. */
  ghost predicate Spends(p: Placed, q: Placed) {
    && MemoriesCost(q) + q.budget == MemoriesCost(p) + p.budget && q.budget <= p.budget
    && (p.budget >= 0 ==> q.budget >= 0) && (p.budget < 0 ==> q.budget == p.budget)
  }

  /** Every one of some own memories is included or cut, and of some teammates' shipped or counted. */
  ghost predicate Accounted(p: Placed, q: Placed, ids: set<nat>, teammates: nat) {
    && q.included + q.truncated == p.included + p.truncated + ids
    && p.included <= q.included <= p.included + ids && p.truncated <= q.truncated
    && |q.teammates| + q.teammatesCut == |p.teammates| + p.teammatesCut + teammates
  }

  function Names(policy: Policy, items: seq<Item>): set<nat> { if policy.ForTask? then OwnIds(items) else Ids(items) }

  function Teammates(policy: Policy, items: seq<Item>): nat { if policy.ForTask? then CountTeammates(items) else 0 }

  /** A section's memories are the request's; a share is within what the section starts with. */
  ghost predicate Proper(policy: Policy, items: seq<Item>, p: Placed, r: Request) {
    && (forall m :: m in items ==> if policy.ForTask? then m in r.candidates else Offered(r, m))
    && (policy.Unplaced? || (DistinctIds(items) && Ids(items) !! p.included))
    && (policy.Share? ==> if p.budget >= 0 then policy.share <= p.budget else policy.share < 0)
  }

  lemma OfferKeeps(p: Placed, m: Item, fits: bool, asPredicted: bool, r: Request)
    requires Coherent(p, r) && Offered(r, m) && (fits ==> m.cost <= p.budget && m.id !in p.included)
    ensures
      var q := PlaceOrCut(p, m, fits, asPredicted);
      Coherent(q, r) && Spends(p, q) && Accounted(p, q, {m.id}, 0)
  {
    if fits { ShipKeeps(p, m, asPredicted, r); }
    OfferAccounts(p, m, fits, asPredicted);
  }

  lemma OfferAccounts(p: Placed, m: Item, fits: bool, asPredicted: bool)
    ensures Accounted(p, PlaceOrCut(p, m, fits, asPredicted), {m.id}, 0)
  {
  }

  lemma OneKeeps(policy: Policy, start: int, p: Placed, m: Item, r: Request)
    requires Coherent(p, r) && if policy.ForTask? then m in r.candidates else Offered(r, m)
    requires policy.Unplaced? || m.id !in p.included
    requires policy.Share? ==> start - p.budget + m.cost <= policy.share ==> m.cost <= p.budget
    ensures
      var q := PlaceOne(policy, start, p, m);
      && Coherent(q, r) && Spends(p, q)
      && Accounted(p, q, if policy.ForTask? && !m.own then {} else {m.id}, if policy.ForTask? && !m.own then 1 else 0)
  {
    match policy
    case Fits => OfferKeeps(p, m, m.cost <= p.budget, false, r);
    case Unplaced => if m.id !in p.included { OfferKeeps(p, m, m.cost <= p.budget, false, r); }
    case Share(share, asPredicted) => OfferKeeps(p, m, start - p.budget + m.cost <= share, asPredicted, r);
    case ForTask =>
      if m.own { OfferKeeps(p, m, m.cost <= p.budget, false, r); } else { ItemsCostAppend(p.teammates, m); }
  }

  lemma ProperInit(policy: Policy, items: seq<Item>, p: Placed, r: Request)
    requires Proper(policy, items, p, r) && items != []
    ensures Proper(policy, items[..|items| - 1], p, r) && items[|items| - 1] in items
    ensures Ids(items) == Ids(items[..|items| - 1]) + {items[|items| - 1].id}
    ensures policy.Unplaced? || items[|items| - 1].id !in Ids(items[..|items| - 1]) + p.included
  {
    var init := items[..|items| - 1];
    InIds(init, items[|items| - 1].id);
    assert forall i :: 0 <= i < |init| ==> init[i] == items[i];
  }

  lemma {:induction false} OwnIdsAreIds(items: seq<Item>)
    ensures OwnIds(items) <= Ids(items)
  {
    if items != [] { OwnIdsAreIds(items[..|items| - 1]); }
  }

  /** Every section: what it spends is what it ships, within the budget; what is shipped stays the request's,
      each own memory once; and each of its memories is shipped or counted. */
  lemma {:induction false} PlaceAllKeeps(policy: Policy, items: seq<Item>, p: Placed, r: Request)
    requires Coherent(p, r) && Proper(policy, items, p, r)
    ensures
      var q := PlaceAll(policy, items, p);
      Coherent(q, r) && Spends(p, q) && Accounted(p, q, Names(policy, items), Teammates(policy, items))
  {
    if items != [] {
      var init, m := items[..|items| - 1], items[|items| - 1];
      ProperInit(policy, items, p, r);
      PlaceAllKeeps(policy, init, p, r);
      OwnIdsAreIds(init);
      OneKeeps(policy, p.budget, PlaceAll(policy, init, p), m, r);
    }
  }

  /** A share bounds what its section spends. */
  lemma {:induction false} ShareSpends(items: seq<Item>, share: int, asPredicted: bool, p: Placed)
    ensures 0 <= p.budget - PlaceAll(Share(share, asPredicted), items, p).budget <= Max(0, share)
  {
    if items != [] { ShareSpends(items[..|items| - 1], share, asPredicted, p); }
  }

  // ---- What each section leaves, as a function of what it starts from ----

  /** The costs admitted while they fit, skipping those that do not. */
  function Fitting(costs: seq<nat>, budget: int): (taken: seq<nat>)
    ensures budget >= 0 ==> Sum(taken) <= budget
    ensures budget < 0 ==> taken == []
  {
    if costs == [] then []
    else
      var taken := Fitting(costs[..|costs| - 1], budget);
      var c := costs[|costs| - 1];
      SumAppend(taken, c);
      if c > budget - Sum(taken) then taken else taken + [c]
  }

  /** The costs admitted up to the first that does not fit. */
  function FittingFirst(costs: seq<nat>, budget: int): (taken: seq<nat>)
    ensures budget >= 0 ==> Sum(taken) <= budget
    ensures budget < 0 ==> taken == []
    decreases |costs|
  {
    if costs == [] || costs[0] > budget then []
    else
      var rest := FittingFirst(costs[1..], budget - costs[0]);
      SumConcat([costs[0]], rest);
      SumAppend([], costs[0]);
      assert [] + [costs[0]] == [costs[0]];
      [costs[0]] + rest
  }

  function FittingBySubject(bySubject: seq<seq<nat>>, budget: int): (taken: seq<nat>)
    ensures budget >= 0 ==> Sum(taken) <= budget
    ensures budget < 0 ==> taken == []
  {
    if bySubject == [] then []
    else
      var taken := FittingBySubject(bySubject[..|bySubject| - 1], budget);
      var more := FittingFirst(bySubject[|bySubject| - 1], budget - Sum(taken));
      SumConcat(taken, more);
      taken + more
  }

  function AfterSoul(r: Request, maxTokens: int): int { Max(0, maxTokens) - SoulCharge(r.soul, maxTokens) }

  function Skills(r: Request, maxTokens: int): seq<nat> { Fitting(r.skills, AfterSoul(r, maxTokens)) }

  function Diagnostics(r: Request, maxTokens: int): seq<nat> {
    Fitting(r.diagnostics, AfterSoul(r, maxTokens) - Sum(Skills(r, maxTokens)))
  }

  function AfterSkills(r: Request, maxTokens: int): int {
    AfterSoul(r, maxTokens) - Sum(Skills(r, maxTokens)) - Sum(Diagnostics(r, maxTokens))
  }

  /** The reserve held back for the task. */
  function Reserve(r: Request, maxTokens: int): nat {
    if r.hasTask then Max(0, Min(AfterSkills(r, maxTokens), 3 * maxTokens / 10)) else 0
  }

  function First(r: Request, maxTokens: int): Placed {
    Placed(AfterSkills(r, maxTokens) - Reserve(r, maxTokens), {}, {}, [], [], [], 0)
  }

  function PlaceRecent(r: Request, p: Placed): Placed { PlaceAll(Share(p.budget * 4 / 10, false), r.recent, p) }

  function PlacePredicted(r: Request, p: Placed): Placed {
    if |r.predicted| > 0 && p.budget > 200
      then PlaceAll(Share(p.budget * 3 / 10, true), Scored(r.predicted, p.included), p) else p
  }

  /** The own memories placed before the task. */
  function PlaceOwn(r: Request, maxTokens: int): Placed {
    PlacePredicted(r, PlaceRecent(r, PlaceAll(Fits, r.permanent, First(r, maxTokens))))
  }

  function Relationships(r: Request, budget: int): seq<nat> {
    if budget <= 100 then [] else FittingBySubject(r.relationships, budget)
  }

  /** What is placed, and what is left, when the task section's turn comes, its reserve released. */
  function AtTask(r: Request, maxTokens: int): Placed {
    var p := PlaceOwn(r, maxTokens);
    p.(budget := p.budget - Sum(Relationships(r, p.budget)) + Reserve(r, maxTokens))
  }

  predicate Searches(r: Request, maxTokens: int) { r.hasTask && AtTask(r, maxTokens).budget > 0 && r.retrieves }

  /** The entries the search scores. */
  function Pool(r: Request, maxTokens: int): seq<Item> {
    if Searches(r, maxTokens) then Scored(r.candidates, AtTask(r, maxTokens).included) else []
  }

  /** All the memories shipped. */
  function Shipped(r: Request, maxTokens: int): Placed {
    var p := PlaceAll(ForTask, Pool(r, maxTokens), AtTask(r, maxTokens));
    if r.hasTask then PlaceAll(Unplaced, r.permanent, p) else p
  }

  /** What is shipped beside the memories when the task section's turn comes. */
  function BeforeTask(r: Request, maxTokens: int): Sections {
    Sections(AdmitAll(r.soul, maxTokens), Skills(r, maxTokens), Diagnostics(r, maxTokens),
             Relationships(r, PlaceOwn(r, maxTokens).budget), [], [])
  }

  function Collisions(r: Request, budget: int): seq<nat> {
    Fitting(r.collisions[..Min(MaxCollisionEntries, |r.collisions|)], budget)
  }

  function EventCap(r: Request): nat { if r.eventCap.Some? then r.eventCap.value else DefaultEventCap }

  /** The events shipped, of a list in the order of admission. */
  function FittingEvents(order: seq<Event>, cap: nat, budget: int): seq<Event> {
    if order == [] then []
    else
      var taken, e := FittingEvents(order[..|order| - 1], cap, budget), order[|order| - 1];
      if |taken| >= cap || e.cost > budget - EventsCost(taken) then taken else taken + [e]
  }

  /** The deduplicated events in the order of admission. */
  function Newests(r: Request): seq<Event> { NewestFirst(KeepAll(r.events)) }

  /** The collisions and the events, shipped last. */
  function LateSections(r: Request, order: seq<Event>, early: Sections, left: int): Sections {
    var collisions := Collisions(r, left);
    early.(collisions := collisions, events := FittingEvents(order, EventCap(r), left - Sum(collisions)))
  }

  function Late(r: Request, order: seq<Event>, p: Placed, early: Sections, eventsRemaining: nat): Packing {
    var sections := LateSections(r, order, early, p.budget);
    Packing(p.(budget := p.budget - Sum(sections.collisions) - EventsCost(sections.events)), sections, eventsRemaining)
  }

  function AllSections(r: Request, maxTokens: int): Sections {
    LateSections(r, Newests(r), BeforeTask(r, maxTokens), Shipped(r, maxTokens).budget)
  }

  /** The packing a request leads to. */
  function Packed(r: Request, maxTokens: int, eventsRemaining: nat): Packing {
    Late(r, Newests(r), Shipped(r, maxTokens), BeforeTask(r, maxTokens), eventsRemaining)
  }

  lemma {:induction false} EventsWithin(order: seq<Event>, cap: nat, budget: int)
    ensures
      var taken := FittingEvents(order, cap, budget);
      (budget >= 0 ==> EventsCost(taken) <= budget) && (budget < 0 ==> taken == [])
  {
    if order != [] {
      EventsWithin(order[..|order| - 1], cap, budget);
      EventsCostAppend(FittingEvents(order[..|order| - 1], cap, budget), order[|order| - 1]);
    }
  }

  // ---- The whole budget ----

  lemma OwnKeeps(r: Request, maxTokens: int, own: set<nat>)
    requires OneSnapshot(r, own)
    ensures Coherent(First(r, maxTokens), r) && Coherent(PlaceOwn(r, maxTokens), r)
    ensures Spends(First(r, maxTokens), PlaceOwn(r, maxTokens))
    ensures
      var p := PlaceOwn(r, maxTokens);
      Ids(r.permanent) + Ids(r.recent) <= p.included + p.truncated <= own && p.teammates == [] && p.teammatesCut == 0
  {
    var p0 := First(r, maxTokens);
    assert p0.memories + p0.predicted == [];
    PlaceAllKeeps(Fits, r.permanent, p0, r);
    var p1 := PlaceAll(Fits, r.permanent, p0);
    ShareWithin(p1.budget, 4);
    PlaceAllKeeps(Share(p1.budget * 4 / 10, false), r.recent, p1, r);
    var ids := PredictedKeeps(r, PlaceRecent(r, p1));
  }

  lemma PredictedKeeps(r: Request, p: Placed) returns (ids: set<nat>)
    requires Coherent(p, r) && DistinctIds(r.predicted)
    ensures Coherent(PlacePredicted(r, p), r) && Spends(p, PlacePredicted(r, p))
    ensures ids <= Ids(r.predicted) && Accounted(p, PlacePredicted(r, p), ids, 0)
  {
    if |r.predicted| > 0 && p.budget > 200 {
      var unplaced := Scored(r.predicted, p.included);
      ScoredDistinct(r.predicted, p.included);
      ScoredIds(r.predicted, p.included);
      ShareWithin(p.budget, 3);
      PlaceAllKeeps(Share(p.budget * 3 / 10, true), unplaced, p, r);
      ids := Ids(unplaced);
    } else {
      ids := {};
      assert PlacePredicted(r, p) == p;
    }
  }

  lemma TaskKeeps(r: Request, maxTokens: int, own: set<nat>)
    requires OneSnapshot(r, own)
    ensures
      var p, q := AtTask(r, maxTokens), Shipped(r, maxTokens);
      && Coherent(q, r) && Spends(p, q)
      && Ids(r.permanent) + Ids(r.recent) <= q.included + q.truncated <= own
      && |q.teammates| + q.teammatesCut == CountTeammates(Pool(r, maxTokens))
  {
    OwnKeeps(r, maxTokens, own);
    var p, pool := AtTask(r, maxTokens), Pool(r, maxTokens);
    ScoredDistinct(r.candidates, p.included);
    ScoredIds(r.candidates, p.included);
    OwnScored(r.candidates, p.included, own);
    PlaceAllKeeps(ForTask, pool, p, r);
    PlaceAllKeeps(Unplaced, r.permanent, PlaceAll(ForTask, pool, p), r);
  }

  lemma EarlyCharged(r: Request, maxTokens: int, own: set<nat>)
    requires OneSnapshot(r, own)
    ensures
      var p, early := AtTask(r, maxTokens), SectionsCost(BeforeTask(r, maxTokens));
      && MemoriesCost(p) + p.budget + early == Max(0, maxTokens)
      && (p.budget < 0 ==> MemoriesCost(p) == 0 && early == SoulCharge(r.soul, maxTokens))
  {
    OwnKeeps(r, maxTokens, own);
    assert MemoriesCost(First(r, maxTokens)) == 0;
  }

  /** The tokens of everything shipped and what is left are the whole budget; and only the soul can make
      that exceed it. */
  lemma EverythingIsCharged(r: Request, maxTokens: int, own: set<nat>)
    requires OneSnapshot(r, own)
    ensures
      var sections, placed := AllSections(r, maxTokens), Shipped(r, maxTokens);
      var left := placed.budget - Sum(sections.collisions) - EventsCost(sections.events);
      && MemoriesCost(placed) + SectionsCost(sections) + left == Max(0, maxTokens)
      && (left < 0 ==> MemoriesCost(placed) + SectionsCost(sections) == SoulCharge(r.soul, maxTokens))
  {
    EarlyCharged(r, maxTokens, own);
    TaskKeeps(r, maxTokens, own);
    LateCharged(r, Newests(r), BeforeTask(r, maxTokens), Shipped(r, maxTokens).budget);
  }

  lemma LateCharged(r: Request, order: seq<Event>, early: Sections, left: int)
    requires early.collisions == [] && early.events == []
    ensures
      var sections := LateSections(r, order, early, left);
      var spent := Sum(sections.collisions) + EventsCost(sections.events);
      && SectionsCost(sections) == SectionsCost(early) + spent
      && (left >= 0 ==> spent <= left) && (left < 0 ==> spent == 0)
  {
    EventsWithin(order, EventCap(r), left - Sum(Collisions(r, left)));
  }

  predicate SameSign(a: int, b: int) { a <= b && (a >= 0 <==> b >= 0) }

  lemma {:induction false} SectionKeepsSign(policy: Policy, items: seq<Item>, p: Placed)
    requires policy.Share? ==> if p.budget >= 0 then policy.share <= p.budget else policy.share < 0
    ensures SameSign(PlaceAll(policy, items, p).budget, p.budget)
  {
    if items != [] { SectionKeepsSign(policy, items[..|items| - 1], p); }
  }

  lemma OwnKeepsSign(r: Request, maxTokens: int)
    ensures SameSign(PlaceOwn(r, maxTokens).budget, First(r, maxTokens).budget)
  {
    var p1 := PlaceAll(Fits, r.permanent, First(r, maxTokens));
    SectionKeepsSign(Fits, r.permanent, First(r, maxTokens));
    ShareWithin(p1.budget, 4);
    SectionKeepsSign(Share(p1.budget * 4 / 10, false), r.recent, p1);
    var p2 := PlaceRecent(r, p1);
    ShareWithin(p2.budget, 3);
    SectionKeepsSign(Share(p2.budget * 3 / 10, true), Scored(r.predicted, p2.included), p2);
  }

  /** The task section's turn comes with at least its reserve exactly when the soul did not overspend the
      budget; when it did, the reserve is nothing, the budget is still negative and nothing is searched. */
  lemma TaskHasItsReserveExactly(r: Request, maxTokens: int)
    ensures AtTask(r, maxTokens).budget >= Reserve(r, maxTokens) <==> SoulCharge(r.soul, maxTokens) <= Max(0, maxTokens)
    ensures Searches(r, maxTokens) ==> AtTask(r, maxTokens).budget >= Reserve(r, maxTokens)
    ensures SoulCharge(r.soul, maxTokens) > Max(0, maxTokens) ==>
      Reserve(r, maxTokens) == 0 && AtTask(r, maxTokens).budget < 0
  {
    OwnKeepsSign(r, maxTokens);
  }

  // ---- The packing ----

  /** A section whose entries are admitted while they fit. */
  method TakeFitting(costs: seq<nat>, budget: int) returns (taken: seq<nat>, left: int, skipped: nat)
    ensures taken == Fitting(costs, budget) && left == budget - Sum(taken) && |taken| + skipped == |costs|
  {
    taken, left, skipped := [], budget, 0;
    for i := 0 to |costs|
      invariant taken == Fitting(costs[..i], budget) && left == budget - Sum(taken) && |taken| + skipped == i
    {
      assert costs[..i + 1][..i] == costs[..i];
      if costs[i] > left {
        skipped := skipped + 1;
      } else {
        SumAppend(taken, costs[i]);
        taken, left := taken + [costs[i]], left - costs[i];
      }
    }
    assert costs[..|costs|] == costs;
  }

  lemma NextOfSubject(costs: seq<nat>, i: nat, left: int)
    requires i < |costs|
    ensures FittingFirst(costs[i..], left)
         == if costs[i] > left then [] else [costs[i]] + FittingFirst(costs[i + 1..], left - costs[i])
  {
    assert costs[i..][0] == costs[i] && costs[i..][1..] == costs[i + 1..];
  }

  /** The relationships of one subject, up to the first that does not fit. */
  method TakeSubject(costs: seq<nat>, budget: int) returns (taken: seq<nat>, left: int)
    ensures taken == FittingFirst(costs, budget) && left == budget - Sum(taken)
  {
    taken, left := [], budget;
    var i := 0;
    while i < |costs|
      invariant 0 <= i <= |costs| && left == budget - Sum(taken)
      invariant FittingFirst(costs, budget) == taken + FittingFirst(costs[i..], left)
    {
      NextOfSubject(costs, i, left);
      if costs[i] > left { return; }
      taken, left := AddCost(taken, left, costs[i], FittingFirst(costs[i + 1..], left - costs[i]));
      i := i + 1;
    }
  }

  method AddCost(taken: seq<nat>, left: int, c: nat, ghost rest: seq<nat>) returns (more: seq<nat>, less: int)
    ensures more == taken + [c] && less == left - c && Sum(more) == Sum(taken) + c
    ensures taken + ([c] + rest) == more + rest
  {
    SumAppend(taken, c);
    more, less := taken + [c], left - c;
  }

  method TakeRelationships(bySubject: seq<seq<nat>>, budget: int) returns (taken: seq<nat>, left: int)
    ensures taken == FittingBySubject(bySubject, budget) && left == budget - Sum(taken)
  {
    taken, left := [], budget;
    for i := 0 to |bySubject|
      invariant taken == FittingBySubject(bySubject[..i], budget) && left == budget - Sum(taken)
    {
      assert bySubject[..i + 1][..i] == bySubject[..i];
      var more;
      more, left := TakeSubject(bySubject[i], left);
      SumConcat(taken, more);
      taken := taken + more;
    }
    assert bySubject[..|bySubject|] == bySubject;
  }

  /** The soul, the skills and their diagnostics, and then the reserve held back for the task. */
  method PackFirst(r: Request, maxTokens: int)
    returns (soul: seq<Admitted>, skills: seq<nat>, diagnostics: seq<nat>, taskReserve: nat, tokenBudget: int)
    ensures soul == AdmitAll(r.soul, maxTokens) && skills == Skills(r, maxTokens) && diagnostics == Diagnostics(r, maxTokens)
    ensures taskReserve == Reserve(r, maxTokens) && tokenBudget + taskReserve == AfterSkills(r, maxTokens)
  {
    var skipped;
    soul := AdmitSoul(r.soul, maxTokens);
    tokenBudget := Max(0, maxTokens) - Charge(soul);
    skills, tokenBudget, skipped := TakeFitting(r.skills, tokenBudget);
    diagnostics, tokenBudget, skipped := TakeFitting(r.diagnostics, tokenBudget);
    taskReserve := if r.hasTask then Max(0, Min(tokenBudget, 3 * maxTokens / 10)) else 0;
    tokenBudget := tokenBudget - taskReserve;
  }

  lemma PlaceNext(policy: Policy, items: seq<Item>, i: nat, p: Placed)
    requires i < |items|
    ensures PlaceAll(policy, items[..i + 1], p) == PlaceOne(policy, p.budget, PlaceAll(policy, items[..i], p), items[i])
  {
    assert items[..i + 1][..i] == items[..i];
  }

  method PackPermanent(items: seq<Item>, p0: Placed) returns (p: Placed)
    ensures p == PlaceAll(Fits, items, p0)
  {
    p := p0;
    for i := 0 to |items|
      invariant p == PlaceAll(Fits, items[..i], p0)
    {
      PlaceNext(Fits, items, i, p0);
      var m := items[i];
      if m.cost <= p.budget {
        p := p.(budget := p.budget - m.cost, included := p.included + {m.id}, memories := p.memories + [m]);
      } else {
        p := p.(truncated := p.truncated + {m.id});
      }
    }
    assert items[..|items|] == items;
  }

  /** After the task: what room is left goes to the permanent memories not yet placed. */
  method PackRemainingPermanent(items: seq<Item>, p0: Placed) returns (p: Placed)
    ensures p == PlaceAll(Unplaced, items, p0)
  {
    p := p0;
    for i := 0 to |items|
      invariant p == PlaceAll(Unplaced, items[..i], p0)
    {
      PlaceNext(Unplaced, items, i, p0);
      var m := items[i];
      if m.id !in p.included {
        if m.cost <= p.budget {
          p := p.(budget := p.budget - m.cost, included := p.included + {m.id}, memories := p.memories + [m]);
        } else {
          p := p.(truncated := p.truncated + {m.id});
        }
      }
    }
    assert items[..|items|] == items;
  }

  /** The recent or predicted section: a share of what is left, in tenths, bounds what it spends. */
  method PackShare(items: seq<Item>, tenths: nat, asPredicted: bool, p0: Placed) returns (p: Placed)
    ensures p == PlaceAll(Share(p0.budget * tenths / 10, asPredicted), items, p0)
    ensures 0 <= p0.budget - p.budget <= Max(0, p0.budget * tenths / 10)
  {
    var share := p0.budget * tenths / 10;
    p := p0;
    var spent := 0;
    for i := 0 to |items|
      invariant p == PlaceAll(Share(share, asPredicted), items[..i], p0) && spent == p0.budget - p.budget
    {
      PlaceNext(Share(share, asPredicted), items, i, p0);
      var m := items[i];
      if spent + m.cost > share {
        p := p.(truncated := p.truncated + {m.id});
      } else {
        p := p.(budget := p.budget - m.cost, included := p.included + {m.id});
        if asPredicted { p := p.(predicted := p.predicted + [m]); } else { p := p.(memories := p.memories + [m]); }
        spent := spent + m.cost;
      }
    }
    assert items[..|items|] == items;
    ShareSpends(items, share, asPredicted, p0);
  }

  /** The task section: own entries are placed or cut, teammates' ones shipped or counted, in rank order. */
  method PackTask(scored: seq<Item>, p0: Placed) returns (p: Placed)
    ensures p == PlaceAll(ForTask, scored, p0)
  {
    p := p0;
    for i := 0 to |scored|
      invariant p == PlaceAll(ForTask, scored[..i], p0)
    {
      PlaceNext(ForTask, scored, i, p0);
      var m := scored[i];
      if m.cost > p.budget {
        if m.own { p := p.(truncated := p.truncated + {m.id}); } else { p := p.(teammatesCut := p.teammatesCut + 1); }
      } else if m.own {
        p := p.(budget := p.budget - m.cost, included := p.included + {m.id}, memories := p.memories + [m]);
      } else {
        p := p.(budget := p.budget - m.cost, teammates := p.teammates + [m]);
      }
    }
    assert scored[..|scored|] == scored;
  }

  /** The own memories placed before the task: permanent, recent and predicted. */
  method PackOwn(r: Request, ghost maxTokens: int, p0: Placed) returns (p: Placed)
    requires p0 == First(r, maxTokens)
    ensures p == PlaceOwn(r, maxTokens)
  {
    p := PackPermanent(r.permanent, p0);
    p := PackShare(r.recent, 4, false, p);
    if |r.predicted| > 0 && p.budget > 200 {
      p := PackShare(Scored(r.predicted, p.included), 3, true, p);
    }
  }

  /** Everything before the task section, whose reserve is then released. */
  method PackBeforeTask(r: Request, maxTokens: int) returns (p: Placed, sections: Sections)
    ensures p == AtTask(r, maxTokens) && sections == BeforeTask(r, maxTokens)
  {
    var soul, skills, diagnostics, taskReserve, tokenBudget := PackFirst(r, maxTokens);
    p := PackOwn(r, maxTokens, Placed(tokenBudget, {}, {}, [], [], [], 0));
    var relationships: seq<nat>, left := [], p.budget;
    if p.budget > 100 { relationships, left := TakeRelationships(r.relationships, p.budget); }
    sections := Sections(soul, skills, diagnostics, relationships, [], []);
    p := p.(budget := left + taskReserve);
  }

  method PackTaskSection(r: Request, ghost maxTokens: int, p0: Placed) returns (p: Placed)
    requires p0 == AtTask(r, maxTokens)
    ensures p == Shipped(r, maxTokens)
  {
    p := p0;
    if r.hasTask && p0.budget > 0 && r.retrieves { p := PackTask(Scored(r.candidates, p0.included), p0); }
    if r.hasTask { p := PackRemainingPermanent(r.permanent, p); }
  }

  lemma NextFitting(order: seq<Event>, i: nat, cap: nat, budget: int)
    requires i < |order|
    ensures
      var taken := FittingEvents(order[..i], cap, budget);
      FittingEvents(order[..i + 1], cap, budget)
        == if |taken| >= cap || order[i].cost > budget - EventsCost(taken) then taken else taken + [order[i]]
  {
    assert order[..i + 1][..i] == order[..i];
  }

  /** The events in their order, up to the cap and while they fit. */
  method TakeEvents(order: seq<Event>, cap: nat, budget: int) returns (taken: seq<Event>, left: int, remaining: nat)
    ensures taken == FittingEvents(order, cap, budget) && left == budget - EventsCost(taken)
    ensures |taken| + remaining == |order|
  {
    taken, left, remaining := [], budget, 0;
    for i := 0 to |order|
      invariant taken == FittingEvents(order[..i], cap, budget) && left == budget - EventsCost(taken)
      invariant |taken| + remaining == i
    {
      NextFitting(order, i, cap, budget);
      if |taken| >= cap || order[i].cost > left {
        remaining := remaining + 1;
      } else {
        EventsCostAppend(taken, order[i]);
        taken, left := taken + [order[i]], left - order[i].cost;
      }
    }
    assert order[..|order|] == order;
  }

  /** What is shipped of the first events keeps their order, and one of each signature. */
  lemma {:induction false} FittingKeeps(order: seq<Event>, i: nat, cap: nat, budget: int)
    requires i <= |order| && Descending(order) && OnePerSignature(order)
    ensures
      var taken := FittingEvents(order[..i], cap, budget);
      |taken| <= cap && Descending(taken) && OnePerSignature(taken) && Ahead(taken, order, i)
  {
    if i > 0 {
      FittingKeeps(order, i - 1, cap, budget);
      NextFitting(order, i - 1, cap, budget);
      AheadStep(FittingEvents(order[..i - 1], cap, budget), order, i - 1);
    }
  }

  /** The newest event of each signature, newest first. */
  method OrderEvents(r: Request) returns (order: seq<Event>)
    ensures order == Newests(r) && |order| == |KeepAll(r.events)|
  {
    var deduped := Dedup(r.events);
    order := NewestFirst(deduped);
    NewestFirstSorts(deduped);
    assert |multiset(order)| == |order| && |multiset(deduped)| == |deduped|;
  }

  /** The shipped events, at most the cap, are each the newest of its signature, newest first. */
  lemma ShippedEvents(r: Request, budget: int)
    ensures
      var events := FittingEvents(Newests(r), EventCap(r), budget);
      && |events| <= EventCap(r) && Descending(events) && OnePerSignature(events)
      && (forall e :: e in events ==> Newest(e, r.events))
  {
    var order := Newests(r);
    KeepAllDedupes(r.events);
    NewestFirstSorts(KeepAll(r.events));
    SortedSignatures(KeepAll(r.events), order);
    FittingKeeps(order, |order|, EventCap(r), budget);
    assert order[..|order|] == order;
    forall e | e in FittingEvents(order, EventCap(r), budget) ensures Newest(e, r.events) {
      assert e in multiset(order);
    }
  }

  /** Every deduplicated event is shipped or counted as remaining; the shipped ones, at most the cap, are
      each the newest of its signature, newest first. */
  ghost predicate EventsPacked(events: seq<Event>, remaining: nat, r: Request) {
    && |events| + remaining == |KeepAll(r.events)| && |events| <= EventCap(r)
    && Descending(events) && OnePerSignature(events) && (forall e :: e in events ==> Newest(e, r.events))
  }

  /** The own memories' counters: included and truncated ones fit the available ones. */
  ghost predicate CountsFit(p: Placed, own: set<nat>) {
    && p.included <= own && p.truncated <= own && |p.included| + |p.truncated - p.included| <= |own|
    && |p.memories| + |p.predicted| == |p.included|
  }

  lemma CountsHold(p: Placed, r: Request, own: set<nat>)
    requires Coherent(p, r) && p.included + p.truncated <= own
    ensures CountsFit(p, own)
  {
    CountsWithin(p.included, p.truncated, own);
    DistinctCount(p.memories + p.predicted);
  }

  lemma PackedHolds(r: Request, maxTokens: int, own: set<nat>, eventsRemaining: nat)
    requires OneSnapshot(r, own)
    ensures
      var s := Packed(r, maxTokens, eventsRemaining);
      && Cost(s) + s.placed.budget == Max(0, maxTokens)
      && Cost(s) <= Max(Max(0, maxTokens), SoulCharge(r.soul, maxTokens))
      && Coherent(s.placed, r) && CountsFit(s.placed, own)
      && Ids(r.permanent) + Ids(r.recent) <= s.placed.included + s.placed.truncated
      && |s.placed.teammates| + s.placed.teammatesCut == CountTeammates(Pool(r, maxTokens))
  {
    EverythingIsCharged(r, maxTokens, own);
    TaskKeeps(r, maxTokens, own);
    CountsHold(Shipped(r, maxTokens), r, own);
  }

  lemma PackedEvents(r: Request, p: Placed, early: Sections, eventsRemaining: nat)
    requires |Late(r, Newests(r), p, early, eventsRemaining).sections.events| + eventsRemaining == |KeepAll(r.events)|
    ensures EventsPacked(Late(r, Newests(r), p, early, eventsRemaining).sections.events, eventsRemaining, r)
  {
    ShippedEvents(r, p.budget - Sum(Collisions(r, p.budget)));
  }

  method PackCollisions(r: Request, budget: int) returns (taken: seq<nat>, left: int)
    ensures taken == Collisions(r, budget) && left == budget - Sum(taken)
  {
    var skipped;
    taken, left, skipped := TakeFitting(r.collisions[..Min(MaxCollisionEntries, |r.collisions|)], budget);
  }

  /** The collisions and the events, from what the memories left. */
  method PackLate(r: Request, order: seq<Event>, p: Placed, early: Sections) returns (s: Packing)
    ensures s == Late(r, order, p, early, s.eventsRemaining) && |s.sections.events| + s.eventsRemaining == |order|
  {
    var collisions, left := PackCollisions(r, p.budget);
    var events, remaining;
    events, left, remaining := TakeEvents(order, EventCap(r), left);
    s := Packing(p.(budget := left), early.(collisions := collisions, events := events), remaining);
  }

  /** The whole packing. `own` is the caller's available memories. */
  method Bootstrap(r: Request, maxTokens: int, ghost own: set<nat>) returns (s: Packing)
    requires OneSnapshot(r, own)
    // The tokens of everything shipped and what is left are the whole budget; only the soul can exceed it.
    ensures Cost(s) + s.placed.budget == Max(0, maxTokens)
    ensures Cost(s) <= Max(Max(0, maxTokens), SoulCharge(r.soul, maxTokens))
    // What is shipped: the memories placed before the task, by a task section that searches when its turn
    // comes with a positive budget, and after it; and the other sections.
    ensures s == Packed(r, maxTokens, s.eventsRemaining)
    ensures Coherent(s.placed, r) && EventsPacked(s.sections.events, s.eventsRemaining, r)
    // The counters.
    ensures CountsFit(s.placed, own) && Ids(r.permanent) + Ids(r.recent) <= s.placed.included + s.placed.truncated
    ensures |s.placed.teammates| + s.placed.teammatesCut == CountTeammates(Pool(r, maxTokens))
  {
    var p, sections := PackBeforeTask(r, maxTokens);
    p := PackTaskSection(r, maxTokens, p);
    var order := OrderEvents(r);
    s := PackLate(r, order, p, sections);
    PackedHolds(r, maxTokens, own, s.eventsRemaining);
    PackedEvents(r, p, sections, s.eventsRemaining);
  }
}
