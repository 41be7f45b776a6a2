/** Published team-directory contacts: the resource writes of one Integration row, each decided from a row
    it read and committed only over that same row, against any other resource writes. */
module Integration {
  import opened Store

  const ATTEMPTS: nat := 3
  const MaxBytes: nat := 256

  /** Who calls; `operator` is the deliberate operator source. */
  datatype Caller = Anonymous | Internal(operator: bool) | Agent(id: string, admin: bool, operator: bool)

  predicate IsOperator(c: Caller) { !c.Anonymous? && c.operator }
  predicate Bound(c: Caller) { c.Agent? && !c.admin }

  /** What the Agent table answers for the agent a publication names. */
  datatype AgentRead = Unreadable | NotActive | ActiveAgent

  /** A `Post` names its row, or its row is a fresh one under a generated id. */
  datatype Verb = Post | Patch | PutRow | DeleteRow
  datatype Call = Call(caller: Caller, verb: Verb, content: Row)

  datatype Denial =
    | Unauthenticated | Forbidden | PlaintextCredentials | OwnerGuard | NotFound | RowExists
    | RequiresOperator | BindingFrozen | AgentRequired | PlatformUnsupported | EmailRequired | EmailTooLong
    | AgentStoreUnavailable | AgentNotActive | OwnerChanged | RowKeptChanging

  datatype Decision = Deny(why: Denial) | Land(row: Option<Row>)

  /** What an attempt reads beside the row: the Agent table, the owner guard's refusal, and the clock. */
  datatype Read = Read(agent: AgentRead, guarded: bool, now: nat)
  datatype Outcome = Denied(why: Denial) | Changed | Committed

  function Utf8Bytes(s: string): nat {
    if s == "" then 0
    else Utf8Bytes(s[1..]) + (if s[0] < '\U{80}' then 1 else if s[0] < '\U{800}' then 2
                              else if s[0] < '\U{10000}' then 3 else 4)
  }

  /** The UTF-8 lengths: one to four bytes a character by its code point, added up. */
  lemma {:induction false} Utf8BytesAppend(s: string, t: string)
    ensures Utf8Bytes(s + t) == Utf8Bytes(s) + Utf8Bytes(t)
  {
    if s == "" {
      assert s + t == t;
    } else {
      assert (s + t)[0] == s[0] && (s + t)[1..] == s[1..] + t;
      Utf8BytesAppend(s[1..], t);
    }
  }

  lemma {:induction false} Utf8BytesExactly(s: string, c: char)
    ensures |s| <= Utf8Bytes(s) <= 4 * |s|
    ensures Utf8Bytes(s) == |s| <==> forall i :: 0 <= i < |s| ==> s[i] as int <= 0x7F
    ensures
      var more := Utf8Bytes(s + [c]) - Utf8Bytes(s);
      && 1 <= more <= 4 && (more >= 2 <==> c as int > 0x7F) && (more >= 3 <==> c as int > 0x7FF)
      && (more == 4 <==> c as int > 0xFFFF)
  {
    Utf8BytesAppend(s, [c]);
    assert [c][1..] == "";
    if s != "" {
      Utf8BytesExactly(s[1..], c);
      assert forall i :: 0 < i < |s| ==> s[i] == s[1..][i - 1];
    }
  }

  function Get(row: Row, f: Field): Option<Value> { if f in row then Some(row[f]) else None }

  predicate NonEmptyText(v: Option<Value>) { v.Some? && v.value.Text? && v.value.s != "" }

  predicate Truthy(v: Option<Value>) { v.Some? && v.value !in {Null, Text(""), Number(0)} }

  /** A valid stamp is a parseable date. */
  predicate Published(row: Row) { PublishedAt in row && row[PublishedAt].Date? }

  predicate IsPublished(stored: Option<Row>) { stored.Some? && Published(stored.value) }

  /** The binding a contact is approved with. */
  function Binding(row: Row): (Option<Value>, Option<Value>, Option<Value>) {
    (Get(row, AgentId), Get(row, Platform), Get(row, Email))
  }

  predicate ChangesPublishedBinding(content: Row, stored: Option<Row>, full: bool) {
    IsPublished(stored)
    && exists f | f in {AgentId, Platform, Email} ::
         (if f in content then Some(content[f]) else if full then None else Get(stored.value, f))
         != Get(stored.value, f)
  }

  function ValidatePublication(content: Row, agent: AgentRead): Option<Denial> {
    if !NonEmptyText(Get(content, AgentId)) then Some(AgentRequired)
    else if Get(content, Platform) != Some(Word(TpsMail)) then Some(PlatformUnsupported)
    else if !NonEmptyText(Get(content, Email)) then Some(EmailRequired)
    else if Utf8Bytes(content[Email].s) > MaxBytes then Some(EmailTooLong)
    else if agent.Unreadable? then Some(AgentStoreUnavailable)
    else if agent.NotActive? then Some(AgentNotActive)
    else None
  }

  /** The stamp a write carries: a time, a withdrawal (`Null`), or nothing when it does not touch it. */
  datatype Stamp = Refused(why: Denial) | Carries(value: Value) | Leaves

  function ResolvePublicationStamp(c: Call, stored: Option<Row>, full: bool, agent: AgentRead, now: nat): Stamp {
    if PublishedAt in c.content then
      if c.caller.Anonymous? then Refused(Unauthenticated)
      else if !IsOperator(c.caller) then Refused(RequiresOperator)
      else if c.content[PublishedAt] == Null then Carries(Null)
      else if ChangesPublishedBinding(c.content, stored, full) then Refused(BindingFrozen)
      else
        var invalid := ValidatePublication(c.content, agent);
        if invalid.Some? then Refused(invalid.value) else Carries(Date(now))
    else if ChangesPublishedBinding(c.content, stored, full) then Refused(BindingFrozen)
    else Leaves
  }

  /** The checks before the owned transaction. */
  function RefusedUpFront(c: Call): Option<Denial> {
    if c.verb.DeleteRow? then None
    else if c.caller.Anonymous? then Some(Unauthenticated)
    else if Bound(c.caller) && Truthy(Get(c.content, AgentId)) && c.content[AgentId] != Text(c.caller.id)
      then Some(Forbidden)
    else if !c.verb.Patch? && ((Other("credential") in c.content && c.content[Other("credential")].Text?)
                               || (Other("token") in c.content && c.content[Other("token")].Text?))
      then Some(PlaintextCredentials)
    else None
  }

  function Stamped(row: Row, stamp: Stamp): Row { if stamp.Carries? then row[PublishedAt := stamp.value] else row }

  function DecidePost(c: Call, stored: Option<Row>, agent: AgentRead, now: nat): Decision {
    var stamp := ResolvePublicationStamp(c, None, true, agent, now);
    if stamp.Refused? then Deny(stamp.why)
    else if stored.Some? then Deny(RowExists)
    else Land(Some(Stamped(c.content[CreatedAt := Date(now)][UpdatedAt := Date(now)], stamp)))
  }

  function DecidePatch(c: Call, stored: Option<Row>, agent: AgentRead, now: nat): Decision {
    if stored.None? then Deny(NotFound)
    else
      var stamp := ResolvePublicationStamp(c, stored, false, agent, now);
      if stamp.Refused? then Deny(stamp.why)
      else
        var created := if CreatedAt in stored.value then map[CreatedAt := stored.value[CreatedAt]] else map[];
        Land(Some(stored.value + Stamped((c.content - {CreatedAt} + created)[UpdatedAt := Date(now)], stamp)))
  }

  function DecidePut(c: Call, stored: Option<Row>, agent: AgentRead, now: nat): Decision {
    var stamp := ResolvePublicationStamp(c, stored, true, agent, now);
    if stamp.Refused? then Deny(stamp.why)
    else
      var created := if stored.None? then map[CreatedAt := Date(now)]
                     else if CreatedAt in stored.value then map[CreatedAt := stored.value[CreatedAt]] else map[];
      var record := (c.content - {CreatedAt} + created)[UpdatedAt := Date(now)];
      var kept := if stamp.Leaves? && stored.Some?
                  then Carries(if PublishedAt in stored.value then stored.value[PublishedAt] else Null) else stamp;
      Land(Some(Stamped(record, kept)))
  }

  function DecideDelete(c: Call, stored: Option<Row>): Decision {
    if IsPublished(stored) then
      if c.caller.Anonymous? then Deny(Unauthenticated)
      else if !IsOperator(c.caller) then Deny(RequiresOperator) else Land(None)
    else if c.caller.Anonymous? then Deny(Unauthenticated)
    else if Bound(c.caller) && stored.Some? && Get(stored.value, AgentId) != Some(Text(c.caller.id)) then Deny(Forbidden)
    else Land(None)
  }

  /** One attempt's decision over the row it read. `guarded` is the owner guard's own refusal. */
  function Decide(c: Call, stored: Option<Row>, agent: AgentRead, guarded: bool, now: nat): Decision {
    var decision :=
      match c.verb
      case Post => DecidePost(c, stored, agent, now)
      case Patch => if guarded then Deny(OwnerGuard) else DecidePatch(c, stored, agent, now)
      case PutRow => if guarded then Deny(OwnerGuard) else DecidePut(c, stored, agent, now)
      case DeleteRow => DecideDelete(c, stored);
    if decision.Land? && stored.Some? && Bound(c.caller) && Get(stored.value, AgentId) != Some(Text(c.caller.id))
      then Deny(OwnerChanged) else decision
  }

  // ---- Exactly what is refused, and what lands ----

  /** What the caller may not ask for at all: nothing anonymously; a bound agent no other agent's row; and no write of
      a whole row with a plain-text credential or token. A delete is checked over the row alone. */
  lemma RefusedUpFrontExactly(c: Call)
    ensures
      var bound := c.caller.Agent? && !c.caller.admin;
      var free := c.verb.DeleteRow?;
      var others := bound && FieldOf(Some(c.content), AgentId)
                             !in {None, Some(Null), Some(Text("")), Some(Number(0)), Some(Text(c.caller.id))};
      var plain := !c.verb.Patch? && exists f :: f in {Other("credential"), Other("token")} && f in c.content && c.content[f].Text?;
      && (RefusedUpFront(c) == Some(Unauthenticated) <==> !free && c.caller.Anonymous?)
      && (RefusedUpFront(c) == Some(Forbidden) <==> !free && others)
      && (RefusedUpFront(c) == Some(PlaintextCredentials) <==> !free && !c.caller.Anonymous? && !others && plain)
      && (RefusedUpFront(c).None? <==> free || (!c.caller.Anonymous? && !others && !plain))
  {
  }

  ghost predicate IsText(row: Row, f: Field) { f in row && row[f].Text? && row[f].s != "" }

  /** The caller is the deliberate operator source. */
  ghost predicate ByOperator(c: Caller) {
    (c.Internal? || c.Agent?) && c.operator
  }

  /** The contact may be published: its three binding fields are set, the mail platform is named, and the email is
      within its bytes. */
  ghost predicate MayPublish(content: Row) {
    && IsText(content, AgentId) && FieldOf(Some(content), Platform) == Some(Word(TpsMail))
    && IsText(content, Email) && Utf8Bytes(content[Email].s) <= 256
  }

  /** The contact's binding stays as published, if it is: a named binding field keeps its value, and a full write
      names every one that is set. */
  ghost predicate KeepsBinding(content: Row, stored: Option<Row>, full: bool) {
    stored.Some? && PublishedAt in stored.value && stored.value[PublishedAt].Date? ==>
      forall f :: f in {AgentId, Platform, Email} ==>
        && (f in content ==> FieldOf(stored, f) == Some(content[f]))
        && (f !in content && full ==> FieldOf(stored, f) == None)
  }

  lemma KeepsBindingExactly(content: Row, stored: Option<Row>, full: bool)
    ensures ChangesPublishedBinding(content, stored, full) <==> !KeepsBinding(content, stored, full)
  {
  }

  /** A new stamp is refused for the first of six reasons that holds, and carried exactly when none does. */
  lemma NewStampExactly(c: Call, stored: Option<Row>, full: bool, agent: AgentRead, now: nat)
    requires PublishedAt in c.content && c.content[PublishedAt] != Null
    ensures
      var stamp := ResolvePublicationStamp(c, stored, full, agent, now);
      var content, bound := c.content, ByOperator(c.caller) && KeepsBinding(c.content, stored, full);
      && (stamp == Carries(Date(now)) <==> bound && MayPublish(content) && agent.ActiveAgent?)
      && (stamp == Refused(Unauthenticated) <==> c.caller.Anonymous?)
      && (stamp == Refused(RequiresOperator) <==> !c.caller.Anonymous? && !ByOperator(c.caller))
      && (stamp == Refused(BindingFrozen) <==> ByOperator(c.caller) && !KeepsBinding(content, stored, full))
      && (stamp == Refused(AgentRequired) <==> bound && !IsText(content, AgentId))
      && (stamp == Refused(PlatformUnsupported) <==>
            bound && IsText(content, AgentId) && FieldOf(Some(content), Platform) != Some(Word(TpsMail)))
      && (stamp == Refused(EmailRequired) <==>
            && bound && IsText(content, AgentId) && FieldOf(Some(content), Platform) == Some(Word(TpsMail))
            && !IsText(content, Email))
      && (stamp == Refused(EmailTooLong) <==>
            && bound && IsText(content, AgentId) && FieldOf(Some(content), Platform) == Some(Word(TpsMail))
            && IsText(content, Email) && Utf8Bytes(content[Email].s) > 256)
      && (stamp == Refused(AgentStoreUnavailable) <==> bound && MayPublish(content) && agent.Unreadable?)
      && (stamp == Refused(AgentNotActive) <==> bound && MayPublish(content) && agent.NotActive?)
  {
    KeepsBindingExactly(c.content, stored, full);
  }

  /** A write's stamp is acceptable: it leaves the stamp and keeps the binding, or an operator withdraws it, or
      publishes a contact that may be. */
  ghost predicate StampAccepted(c: Call, stored: Option<Row>, full: bool, agent: AgentRead) {
    if PublishedAt !in c.content then KeepsBinding(c.content, stored, full)
    else
      && ByOperator(c.caller)
      && (c.content[PublishedAt] != Null ==>
            KeepsBinding(c.content, stored, full) && MayPublish(c.content) && agent.ActiveAgent?)
  }

  /** A bound agent writes only its own stored row. */
  ghost predicate OwnsStored(c: Caller, stored: Option<Row>) {
    c.Agent? && !c.admin && stored.Some? ==> FieldOf(stored, AgentId) == Some(Text(c.id))
  }

  /** Exactly when each verb lands over the row it read. */
  lemma LandsExactly(c: Call, stored: Option<Row>, agent: AgentRead, guarded: bool, now: nat)
    ensures Decide(c, stored, agent, guarded, now).Land? <==>
      && OwnsStored(c.caller, stored)
      && match c.verb
         case Post => stored.None? && StampAccepted(c, None, true, agent)
         case Patch => !guarded && stored.Some? && StampAccepted(c, stored, false, agent)
         case PutRow => !guarded && StampAccepted(c, stored, true, agent)
         case DeleteRow => !c.caller.Anonymous? && (IsPublished(stored) ==> ByOperator(c.caller))
  {
    var full := !c.verb.Patch?;
    var over := if c.verb.Post? then None else stored;
    KeepsBindingExactly(c.content, over, full);
    if PublishedAt in c.content && c.content[PublishedAt] != Null { NewStampExactly(c, over, full, agent, now); }
  }

  /** The times and the stamp of a landed row: it is updated now; its creation is the stored one, or now for a new
      row; its stamp is now or withdrawn when the write names it, and otherwise as stored. */
  lemma LandedTimesAndStamp(c: Call, stored: Option<Row>, agent: AgentRead, guarded: bool, now: nat)
    requires Decide(c, stored, agent, guarded, now).Land? && !c.verb.DeleteRow?
    ensures
      var row := Decide(c, stored, agent, guarded, now).row;
      && row.Some? && FieldOf(row, UpdatedAt) == Some(Date(now))
      && FieldOf(row, CreatedAt) == (if stored.None? then Some(Date(now)) else FieldOf(stored, CreatedAt))
      && FieldOf(row, PublishedAt)
         == if PublishedAt in c.content then Some(if c.content[PublishedAt] == Null then Null else Date(now))
            else if stored.Some? && c.verb.PutRow? && PublishedAt !in stored.value then Some(Null)
            else FieldOf(stored, PublishedAt)
  {
  }

  // ---- What resource writes promise about a row ----

  ghost predicate WellFormed(stored: Option<Row>) {
    IsPublished(stored) ==>
      && NonEmptyText(Get(stored.value, AgentId))
      && Get(stored.value, Platform) == Some(Word(TpsMail))
      && NonEmptyText(Get(stored.value, Email)) && Utf8Bytes(stored.value[Email].s) <= MaxBytes
  }

  function StampOf(stored: Option<Row>): Option<Value> {
    if IsPublished(stored) then Some(stored.value[PublishedAt]) else None
  }

  /** A change of the row a resource write may make: published rows stay well formed, a stamp is set, cleared
      or removed only by an operator, and a row published before and after keeps its binding. */
  ghost predicate ResourceStep(before: Option<Row>, after: Option<Row>, operator: bool) {
    && (WellFormed(before) ==> WellFormed(after))
    && (StampOf(before) != StampOf(after) ==> operator)
    && (IsPublished(before) && IsPublished(after) ==> Binding(before.value) == Binding(after.value))
  }

  lemma FrozenFields(content: Row, stored: Option<Row>, full: bool, f: Field)
    requires IsPublished(stored) && !ChangesPublishedBinding(content, stored, full) && f in {AgentId, Platform, Email}
    ensures Get(stored.value, f) == if f in content then Some(content[f]) else if full then None else Get(stored.value, f)
  {
  }

  lemma Frozen(content: Row, stored: Option<Row>, full: bool, after: Row)
    requires IsPublished(stored) && !ChangesPublishedBinding(content, stored, full)
    requires forall f :: f in {AgentId, Platform, Email} ==>
      Get(after, f) == if f in content then Some(content[f]) else if full then None else Get(stored.value, f)
    ensures Binding(after) == Binding(stored.value)
  {
    FrozenFields(content, stored, full, AgentId);
    FrozenFields(content, stored, full, Platform);
    FrozenFields(content, stored, full, Email);
  }

  lemma PostIsResourceStep(c: Call, stored: Option<Row>, agent: AgentRead, now: nat)
    requires DecidePost(c, stored, agent, now).Land?
    ensures ResourceStep(stored, DecidePost(c, stored, agent, now).row, IsOperator(c.caller))
  {
  }

  /** A patch changes only the fields it names and its times and stamp; a put leaves only the fields it
      names and those. */
  lemma OnlyNamedFieldsChange(c: Call, stored: Row, agent: AgentRead, now: nat, f: Field)
    requires f !in {CreatedAt, UpdatedAt, PublishedAt}
    ensures DecidePatch(c, Some(stored), agent, now).Land? ==>
      Get(DecidePatch(c, Some(stored), agent, now).row.value, f)
      == if f in c.content then Some(c.content[f]) else Get(stored, f)
    ensures DecidePut(c, Some(stored), agent, now).Land? ==>
      Get(DecidePut(c, Some(stored), agent, now).row.value, f) == Get(c.content, f)
  {
  }

  lemma PatchIsResourceStep(c: Call, stored: Option<Row>, agent: AgentRead, now: nat)
    requires DecidePatch(c, stored, agent, now).Land?
    ensures ResourceStep(stored, DecidePatch(c, stored, agent, now).row, IsOperator(c.caller))
  {
    var after := DecidePatch(c, stored, agent, now).row.value;
    forall f | f in {AgentId, Platform, Email}
      ensures Get(after, f) == if f in c.content then Some(c.content[f]) else Get(stored.value, f)
    {
      OnlyNamedFieldsChange(c, stored.value, agent, now, f);
    }
    if IsPublished(stored) && Published(after) { Frozen(c.content, stored, false, after); }
  }

  lemma PutIsResourceStep(c: Call, stored: Option<Row>, agent: AgentRead, now: nat)
    requires DecidePut(c, stored, agent, now).Land?
    ensures ResourceStep(stored, DecidePut(c, stored, agent, now).row, IsOperator(c.caller))
  {
    var after := DecidePut(c, stored, agent, now).row.value;
    assert forall f :: f in {AgentId, Platform, Email} ==> Get(after, f) == Get(c.content, f);
    if IsPublished(stored) && Published(after) { Frozen(c.content, stored, true, after); }
  }

  /** Every verb, over every row and caller: what it lands is a resource step. */
  lemma DecisionIsResourceStep(c: Call, stored: Option<Row>, agent: AgentRead, guarded: bool, now: nat)
    requires Decide(c, stored, agent, guarded, now).Land?
    ensures ResourceStep(stored, Decide(c, stored, agent, guarded, now).row, IsOperator(c.caller))
  {
    match c.verb
    case Post => PostIsResourceStep(c, stored, agent, now);
    case Patch => PatchIsResourceStep(c, stored, agent, now);
    case PutRow => PutIsResourceStep(c, stored, agent, now);
    case DeleteRow =>
  }

  datatype Change = Change(before: Option<Row>, after: Option<Row>, operator: bool, own: bool)

  /** A run: each change starts from the row the one before it left. */
  ghost predicate Chain(start: Option<Row>, run: seq<Change>, end: Option<Row>) {
    if run == [] then start == end
    else
      var last := run[|run| - 1];
      last.after == end && ResourceStep(last.before, last.after, last.operator)
      && Chain(start, run[..|run| - 1], last.before)
  }

  /** Over every run: published contacts stay well formed, and a contact keeps its binding and its stamp
      until an operator changes the row. */
  lemma {:induction false} PublishedContactsAreFrozen(start: Option<Row>, run: seq<Change>, end: Option<Row>)
    requires Chain(start, run, end) && WellFormed(start)
    ensures WellFormed(end)
    ensures (forall i :: 0 <= i < |run| ==> !run[i].operator) ==>
      && StampOf(end) == StampOf(start)
      && (IsPublished(start) ==> IsPublished(end) && Binding(end.value) == Binding(start.value))
  {
    if run != [] {
      var init, last := run[..|run| - 1], run[|run| - 1];
      PublishedContactsAreFrozen(start, init, last.before);
      assert forall i :: 0 <= i < |init| ==> init[i] == run[i];
    }
  }

  /** The binding outlives operator writes too: it changes only after the row was withdrawn or removed. */
  lemma {:induction false} BindingHoldsUntilWithdrawn(start: Option<Row>, run: seq<Change>, end: Option<Row>)
    requires Chain(start, run, end) && IsPublished(start)
    requires forall i :: 0 <= i < |run| ==> IsPublished(run[i].after)
    ensures IsPublished(end) && Binding(end.value) == Binding(start.value)
  {
    if run != [] {
      BindingHoldsUntilWithdrawn(start, run[..|run| - 1], run[|run| - 1].before);
    }
  }

  lemma ChainExtend(start: Option<Row>, run: seq<Change>, middle: Option<Row>, c: Change)
    requires Chain(start, run, middle) && c.before == middle && ResourceStep(middle, c.after, c.operator)
    ensures Chain(start, run + [c], c.after)
  {
    assert (run + [c])[..|run|] == run;
  }

  // ---- The row's log: every resource write is a whole-row write ----

  function WriteOf(row: Option<Row>): Write { if row.Some? then Put(row.value) else Delete }

  ghost predicate WholeWrites(log: Log, clock: nat) {
    Ordered(log) && forall i :: 0 <= i < |log| ==> !log[i].write.Update? && log[i].at < clock
  }

  /** A commit is stored exactly when none timed later was committed before it; otherwise it leaves the
      stored row as it was. */
  lemma LandsExactlyWhenLatest(log: Log, clock: nat, row: Option<Row>, at: nat, writer: Writer)
    requires WholeWrites(log, clock) && Fresh(log, at) && at < clock
    ensures WholeWrites(Insert(log, Entry(at, WriteOf(row), writer)), clock)
    ensures Fold(Insert(log, Entry(at, WriteOf(row), writer)))
         == if forall i :: 0 <= i < |log| ==> log[i].at < at then row else Fold(log)
  {
    var e := Entry(at, WriteOf(row), writer);
    InsertOrdered(log, e);
    InsertMembers(log, e);
    forall i | 0 <= i < |Insert(log, e)| ensures !Insert(log, e)[i].write.Update? && Insert(log, e)[i].at < clock {
      assert Insert(log, e)[i] in Insert(log, e);
    }
    if i :| 0 <= i < |log| && log[i].at > at {
      DroppedByLaterFullWrite(log, e, i);
    } else {
      AppendLatest(log, e);
      FoldAppend(log, e);
    }
  }

  lemma CommitKeeps(log: Log, e: Entry)
    requires Ordered(log) && Fresh(log, e.at)
    ensures forall x :: x in log ==> x in Insert(log, e)
    ensures forall t :: t != e.at && Fresh(log, t) ==> Fresh(Insert(log, e), t)
  {
    InsertMembers(log, e);
    forall t | t != e.at && Fresh(log, t) ensures Fresh(Insert(log, e), t) {
      forall i | 0 <= i < |Insert(log, e)| ensures Insert(log, e)[i].at != t {
        assert Insert(log, e)[i] in Insert(log, e);
      }
    }
  }

  /** One Integration row, its log, and the run of its changes. */
  class Contact {
    var log: Log
    var clock: nat
    ghost const start: Option<Row>
    ghost var run: seq<Change>

    ghost predicate Valid()
      reads this
    {
      WholeWrites(log, clock) && Chain(start, run, Fold(log))
    }

    constructor (log: Log, clock: nat)
      requires WholeWrites(log, clock)
      ensures Valid() && run == [] && start == Fold(log) && this.log == log && this.clock == clock
    {
      this.log, this.clock, this.start, this.run := log, clock, Fold(log), [];
    }

    function Stored(): Option<Row>
      reads this
    {
      Fold(log)
    }

    ghost function Own(): nat
      reads this
    {
      OwnIn(run)
    }

    /** A transaction's time: later than every one taken before. */
    method Begin() returns (at: nat)
      requires Valid()
      modifies this`clock
      ensures Valid() && at == old(clock) < clock && Fresh(log, at)
    {
      at := clock;
      clock := clock + 1;
    }

    /** Another resource write, or an operator's delete by a collection or query target, commits at its
        transaction's time, whenever that was taken. `mine` is the time this request's attempt holds. */
    method Interfere(mine: Option<nat>)
      requires Valid() && (mine.Some? ==> mine.value < clock && Fresh(log, mine.value))
      modifies this
      ensures Valid() && Own() == old(Own()) && old(clock) <= clock
      ensures mine.Some? ==> Fresh(log, mine.value)
      ensures forall e :: e in old(log) ==> e in log
    {
      var c: Call := *;
      var agent: AgentRead := *;
      var guarded: bool := *;
      var now: nat := *;
      var at: nat := *;
      if at >= clock || (mine.Some? && at == mine.value) || !(forall i | 0 <= i < |log| :: log[i].at != at) {
        at := Begin();
      }
      var decision := Decide(c, Stored(), agent, guarded, now);
      if decision.Land? {
        DecisionIsResourceStep(c, Stored(), agent, guarded, now);
        Commit(decision.row, at, Outside, IsOperator(c.caller));
      } else if * {
        Commit(None, at, Outside, true);
      }
    }

    method Commit(after: Option<Row>, at: nat, writer: Writer, ghost operator: bool)
      requires Valid() && ResourceStep(Stored(), after, operator) && at < clock && Fresh(log, at)
      modifies this`log, this`run
      ensures Valid() && log == Insert(old(log), Entry(at, WriteOf(after), writer))
      ensures Stored() == if forall i :: 0 <= i < |old(log)| ==> old(log)[i].at < at then after else old(Stored())
      ensures run == old(run) + [Change(old(Stored()), Stored(), operator, writer.Request?)]
      ensures Own() == old(Own()) + (if writer.Request? then 1 else 0)
      ensures (forall e :: e in old(log) ==> e in log) && forall t :: t != at && Fresh(old(log), t) ==> Fresh(log, t)
    {
      ghost var e := Entry(at, WriteOf(after), writer);
      ghost var before := Fold(log);
      LandsExactlyWhenLatest(log, clock, after, at, writer);
      CommitKeeps(log, e);
      ghost var c := Change(before, Fold(Insert(log, e)), operator, writer.Request?);
      ChainExtend(start, run, before, c);
      assert (run + [c])[..|run|] == run;
      run := run + [c];
      log := Insert(log, Entry(at, WriteOf(after), writer));
    }

    /** What an attempt that committed did: one commit, at its transaction's time, of what it decided over the
        row stored at the commit; and that is stored exactly when no write timed later was committed before. */
    ghost predicate Landed(c: Call, read: Read, at: nat, prior: Log)
      reads this
    {
      var decision := Decide(c, Fold(prior), read.agent, read.guarded, read.now);
      && decision.Land? && log == Insert(prior, Entry(at, WriteOf(decision.row), Request(0)))
      && Fold(log) == if forall i :: 0 <= i < |prior| ==> prior[i].at < at then decision.row else Fold(prior)
    }

    /** One attempt, in its own transaction: it denies over the row it read, finds that row changed, or
        commits. `prior` is the log at the read that decided, and at the commit. */
    method Attempt(c: Call) returns (outcome: Outcome, read: Read, at: nat, ghost prior: Log)
      requires Valid()
      modifies this
      ensures Valid() && old(clock) <= at < clock && forall e :: e in old(log) ==> e in prior && e in log
      ensures Own() == old(Own()) + (if outcome.Committed? then 1 else 0)
      ensures outcome.Committed? ==> Landed(c, read, at, prior)
      ensures outcome.Denied? ==> Decide(c, Fold(prior), read.agent, read.guarded, read.now) == Deny(outcome.why)
      ensures outcome.Changed? ==> Moved(c, Move(prior, log, read))
    {
      Interfere(None);
      at := Begin();
      prior := log;
      var expected := Stored();
      read := *;
      Interfere(Some(at));
      var decision := Decide(c, expected, read.agent, read.guarded, read.now);
      if decision.Deny? { return Denied(decision.why), read, at, prior; }
      Interfere(Some(at));
      if Stored() != expected { return Changed, read, at, prior; }
      prior := log;
      DecisionIsResourceStep(c, expected, read.agent, read.guarded, read.now);
      Commit(decision.row, at, Request(0), IsOperator(c.caller));
      outcome := Committed;
    }

    /** A resource write: up to three attempts, each decided from the row it read and committed only over
        that row. It lands exactly one commit of its own, or denies and lands none. */
    method RunIntegrationWrite(c: Call)
      returns (denied: Option<Denial>, attempts: nat, read: Read, at: nat, ghost prior: Log, ghost moves: seq<Move>)
      requires Valid()
      modifies this
      ensures Valid() && attempts <= ATTEMPTS && Own() == old(Own()) + (if denied.None? then 1 else 0)
      ensures attempts > 0 ==> old(clock) <= at && forall e :: e in old(log) ==> e in prior
      ensures denied.None? ==> attempts > 0 && Landed(c, read, at, prior)
      ensures denied.Some? ==>
        || (denied == RefusedUpFront(c) && attempts == 0 && log == old(log))
        || (denied == Some(RowKeptChanging) && attempts == |moves| == 3)
        || (attempts > 0 && Decide(c, Fold(prior), read.agent, read.guarded, read.now) == Deny(denied.value))
      ensures attempts == 0 <==> RefusedUpFront(c).Some?
      // Only a row that really changed between its read and its confirmation costs an attempt.
      ensures attempts == |moves| + (if attempts == 0 || denied == Some(RowKeptChanging) then 0 else 1)
      ensures forall m :: m in moves ==> Moved(c, m)
    {
      denied, attempts, read, at, prior, moves := RefusedUpFront(c), 0, Read(Unreadable, false, 0), 0, [], [];
      if denied.Some? { return; }
      while true
        invariant attempts == |moves| && forall m :: m in moves ==> Moved(c, m)
        invariant Valid() && attempts < ATTEMPTS && Own() == old(Own()) && old(clock) <= clock
        invariant forall e :: e in old(log) ==> e in log
        decreases ATTEMPTS - attempts
      {
        attempts := attempts + 1;
        var outcome: Outcome;
        outcome, read, at, prior := Attempt(c);
        match outcome
        case Committed => return;
        case Denied(why) =>
          denied := Some(why);
          return;
        case Changed =>
          moves := moves + [Move(prior, log, read)];
          if attempts == ATTEMPTS {
            denied := Some(RowKeptChanging);
            return;
          }
      }
    }
  }

  /** A row that an attempt would have written, and that another write had changed by its confirmation. */
  datatype Move = Move(read: Log, confirmed: Log, seen: Read)

  ghost predicate Moved(c: Call, m: Move) {
    && Fold(m.confirmed) != Fold(m.read) && (forall e :: e in m.read ==> e in m.confirmed)
    && Decide(c, Fold(m.read), m.seen.agent, m.seen.guarded, m.seen.now).Land?
  }

  ghost function OwnIn(run: seq<Change>): nat {
    if run == [] then 0 else OwnIn(run[..|run| - 1]) + (if run[|run| - 1].own then 1 else 0)
  }
}
