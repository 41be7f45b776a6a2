/** Re-embedding a stored Memory row: at most three attempts, each of which re-reads, decides, stages,
    confirms, commits and reads back. What every read answers, and every failure, is the run's input, so
    the statements hold for any edits, deletes and dropped writes of other writers. */
module Reembed {
  import opened Store

  const ATTEMPTS: nat := 3

  type Vector = seq<int>

  /** The parts of a Memory row the call reads. `identity` stands for id, incarnation token, content hash
      and creation time. */
  datatype MemoryRow = MemoryRow(agentId: string, identity: nat, text: string,
                                 embedding: Vector, embeddedHash: Option<nat>, updatedAt: nat)

  /** The provider and the hash: any functions. */
  datatype Engine = Engine(embed: string -> Vector, hash: (string, string) -> Option<nat>)

  datatype ReadBack = Unreadable | Readable(row: Option<MemoryRow>)
  datatype Provider = Answers | TimesOut | Unusable | Fails

  /** A throw before the commit, or at it: then the write may have landed. */
  datatype Failure = Never | BeforeCommit | AtCommit(landed: bool)

  /** The answers around one attempt. */
  datatype Attempt = Attempt(
    stored: Option<MemoryRow>,      // the owned read
    withheld: bool,                 // the storage layer answers the update with a response
    failure: Failure,               // the transaction throws
    confirm: Option<MemoryRow>,     // the committed row, once the update is staged
    notifierFails: bool,            // the write-stamp notifier throws after the commit
    readBack: ReadBack,
    provider: Provider,             // the recomputation's answer
    now: nat)

  datatype Answer =
    | Success(updatedAt: nat)
    | NotFound | Forbidden | NoText | Withheld
    | StoredRowChanged              // 409: the row changed at a confirmation
    | RowChanged                    // 409: the text changed in every attempt
    | ProviderTimeout | EmbeddingUnavailable
    | OutcomeUnknown                // 503: the id is marked
    | Threw

  /** The fields one update stages. */
  datatype StagedUpdate = StagedUpdate(agentId: string, identity: nat, text: string,
                           embedding: Vector, embeddedHash: Option<nat>, updatedAt: nat)

  /** The read-back shows this attempt's update on the row it was staged over. */
  predicate Shown(row: Option<MemoryRow>, u: StagedUpdate) {
    row.Some? && row.value == MemoryRow(u.agentId, u.identity, u.text, u.embedding, u.embeddedHash, u.updatedAt)
  }

  predicate SameStoredRow(committed: Option<MemoryRow>, stored: MemoryRow) {
    committed.Some? && committed.value.agentId == stored.agentId && committed.value.identity == stored.identity
  }

  /** What the call did: the answer, whether the id was marked, and what each attempt read and committed. */
  datatype Outcome = Outcome(answer: Answer, marked: bool)

  /** A refusal, once an attempt has committed unconfirmed, is an unknown outcome that marks the id. */
  function Settled(refusal: Answer, committedUnconfirmed: bool): Outcome {
    if committedUnconfirmed then Outcome(OutcomeUnknown, true) else Outcome(refusal, false)
  }

  /** The stored vector and hash of a row were computed from its own text. */
  ghost predicate Matches(row: MemoryRow, e: Engine) {
    row.embedding == e.embed(row.text) && row.embeddedHash == e.hash(row.agentId, row.text)
  }

  /** The row an attempt read may be re-embedded by the caller. */
  ghost predicate Readied(a: Attempt, caller: Option<string>) {
    && !a.failure.BeforeCommit? && a.stored.Some? && a.stored.value.text != ""
    && (caller.Some? ==> a.stored.value.agentId == caller.value)
  }

  ghost predicate Kept(a: Attempt, caller: Option<string>, text: string) { Readied(a, caller) && a.stored.value.text == text }

  ghost predicate Moved(a: Attempt, caller: Option<string>, text: string) { Readied(a, caller) && a.stored.value.text != text }

  /** An attempt with the vector of `text` reaches its commit: over a row read, authorized, still of that
      text, and unchanged at its confirmation. */
  ghost predicate Reaches(a: Attempt, caller: Option<string>, text: string) {
    && Kept(a, caller, text) && !a.withheld && a.confirm.Some?
    && a.confirm.value.agentId == a.stored.value.agentId && a.confirm.value.identity == a.stored.value.identity
    && a.confirm.value.text == text
  }

  /** Its commit resolves. */
  ghost predicate Commits(a: Attempt, caller: Option<string>, text: string) {
    Reaches(a, caller, text) && !a.failure.AtCommit?
  }

  /** Its write lands though its commit throws. */
  ghost predicate Lands(a: Attempt, caller: Option<string>, text: string) {
    Reaches(a, caller, text) && a.failure == AtCommit(true)
  }

  /** Its commit resolves and the read-back shows it: the row read, of this text, with its vector, its hash
      and this attempt's time. */
  ghost predicate ReadsBack(engine: Engine, a: Attempt, caller: Option<string>, text: string) {
    && Commits(a, caller, text) && !a.notifierFails
    && a.readBack == Readable(Some(MemoryRow(a.stored.value.agentId, a.stored.value.identity, text, engine.embed(text),
                                             engine.hash(a.stored.value.agentId, text), a.now)))
  }

  /** An attempt that is not the last leaves the call to the next one: it found a new text, whose vector was
      computed, or its committed update was not the row read back. */
  ghost predicate Continues(engine: Engine, a: Attempt, caller: Option<string>, text: string) {
    || (Moved(a, caller, text) && a.provider.Answers?)
    || (Commits(a, caller, text) && !a.notifierFails && a.readBack.Readable? && !ReadsBack(engine, a, caller, text))
  }

  /** A refusal; once an attempt has committed, an unknown outcome that marks the id instead. */
  ghost predicate RefusedWith(outcome: Outcome, refusal: Answer, before: bool) {
    outcome == if before then Outcome(OutcomeUnknown, true) else Outcome(refusal, false)
  }

  /** The outcome of an attempt that ends the call, for everything it can meet. */
  ghost predicate Exact(engine: Engine, outcome: Outcome, a: Attempt, caller: Option<string>, text: string,
                        last: bool, before: bool) {
    && (a.failure.BeforeCommit? ==> RefusedWith(outcome, Threw, before))
    && (!a.failure.BeforeCommit? && a.stored.None? ==> outcome == Outcome(NotFound, false))
    && (!a.failure.BeforeCommit? && a.stored.Some? ==>
          var foreign := caller.Some? && a.stored.value.agentId != caller.value;
          && (foreign ==> RefusedWith(outcome, Forbidden, before))
          && (!foreign && a.stored.value.text == "" ==> RefusedWith(outcome, NoText, before)))
    && (Moved(a, caller, text) ==>
          if last then RefusedWith(outcome, RowChanged, before)
          else
            && (a.provider.TimesOut? ==> RefusedWith(outcome, ProviderTimeout, before))
            && (a.provider.Unusable? ==> RefusedWith(outcome, EmbeddingUnavailable, before))
            && (a.provider.Fails? ==> RefusedWith(outcome, Threw, before)))
    && (Kept(a, caller, text) && a.withheld ==> RefusedWith(outcome, Withheld, before))
    && (Kept(a, caller, text) && !a.withheld && !Reaches(a, caller, text) ==> RefusedWith(outcome, StoredRowChanged, before))
    && (Reaches(a, caller, text) && a.failure.AtCommit? ==> RefusedWith(outcome, Threw, before))
    && (ReadsBack(engine, a, caller, text) ==> outcome == Outcome(Success(a.now), false))
    && (Commits(a, caller, text) && !ReadsBack(engine, a, caller, text) ==> outcome == Outcome(OutcomeUnknown, true))
  }

  /** What an answer says of the attempt that gave it; `before` says that an earlier one had committed. */
  ghost predicate Answers(engine: Engine, outcome: Outcome, a: Attempt, caller: Option<string>, text: string,
                          last: bool, before: bool) {
    // Success: the read-back showed a row whose vector and hash are those of its own text.
    && (outcome.answer.Success? ==>
          && Commits(a, caller, text) && !outcome.marked && a.readBack.Readable? && a.readBack.row.Some?
          && Matches(a.readBack.row.value, engine)
          && a.readBack.row.value.updatedAt == outcome.answer.updatedAt == a.now)
    // Once a commit has resolved the answer is a success, a 404 from a fresh read, or an unknown outcome.
    && (before || Commits(a, caller, text) ==>
          outcome.answer.Success? || outcome.answer.OutcomeUnknown? || outcome.answer.NotFound?)
    && (outcome.answer.OutcomeUnknown? <==> outcome.marked)
    && (outcome.marked ==> before || Commits(a, caller, text))
    // A write that landed though its commit threw is answered by the throw, unmarked, unless an earlier
    // attempt had committed.
    && (Lands(a, caller, text) ==> outcome.answer == if before then OutcomeUnknown else Threw)
    // Every other refusal names what the attempt saw.
    && (outcome.answer.NotFound? ==> a.stored.None? && !a.failure.BeforeCommit?)
    && (outcome.answer.Forbidden? ==> a.stored.Some? && caller.Some? && a.stored.value.agentId != caller.value)
    && (outcome.answer.NoText? ==> a.stored.Some? && a.stored.value.text == "")
    && (outcome.answer.Withheld? ==> a.withheld)
    && (outcome.answer.StoredRowChanged? ==>
          && a.stored.Some?
          && (a.confirm.None? || a.confirm.value.agentId != a.stored.value.agentId
              || a.confirm.value.identity != a.stored.value.identity || a.confirm.value.text != a.stored.value.text))
    && (outcome.answer.RowChanged? ==> last && a.stored.Some? && a.stored.value.text != text)
    && (outcome.answer.ProviderTimeout? ==> a.provider.TimesOut?)
    && (outcome.answer.EmbeddingUnavailable? ==> a.provider.Unusable?)
    && (outcome.answer.Threw? ==> !a.failure.Never? || a.provider.Fails?)
  }

  /** The text the vector is for when attempt `n` starts: the text the one before it read. */
  ghost function TextBefore(script: seq<Attempt>, preReadText: string, n: nat): string
    requires n <= |script|
  {
    if n == 0 || script[n - 1].stored.None? then preReadText else script[n - 1].stored.value.text
  }

  /** Attempt `i` of a call commits. */
  ghost predicate CommitsAt(script: seq<Attempt>, caller: Option<string>, preReadText: string, i: nat)
    requires i < |script|
  {
    Commits(script[i], caller, TextBefore(script, preReadText, i))
  }

  ghost predicate CommittedBefore(script: seq<Attempt>, caller: Option<string>, preReadText: string, n: nat)
    requires n <= |script|
  {
    exists i :: 0 <= i < n && CommitsAt(script, caller, preReadText, i)
  }

  /** Each of the first `n` attempts read a text other than the one before it. */
  ghost predicate TextMoved(script: seq<Attempt>, preReadText: string, n: nat)
    requires n <= |script|
  {
    forall i :: 0 <= i < n ==>
      script[i].stored.Some? && script[i].stored.value.text != TextBefore(script, preReadText, i)
  }

  /** One attempt with the vector of `text`: the call's outcome, or the vector for the next one. */
  method OneAttempt(engine: Engine, caller: Option<string>, a: Attempt, textToEmbed: string, embedding: Vector,
                    last: bool, committedUnconfirmed: bool)
    returns (ended: Option<Outcome>, nextText: string, nextEmbedding: Vector, unconfirmed: bool)
    requires embedding == engine.embed(textToEmbed)
    ensures ended.None? <==> !last && Continues(engine, a, caller, textToEmbed)
    ensures ended.None? ==> nextText == a.stored.value.text && nextEmbedding == engine.embed(nextText)
    ensures ended.None? ==> (unconfirmed <==> committedUnconfirmed || Commits(a, caller, textToEmbed))
    ensures ended.Some? ==> Exact(engine, ended.value, a, caller, textToEmbed, last, committedUnconfirmed)
    ensures ended.Some? ==> Answers(engine, ended.value, a, caller, textToEmbed, last, committedUnconfirmed)
  {
    nextText, nextEmbedding, unconfirmed := textToEmbed, embedding, committedUnconfirmed;
    if a.failure.BeforeCommit? {
      ended := Some(if committedUnconfirmed then Outcome(OutcomeUnknown, true) else Outcome(Threw, false));
      return;
    }
    if a.stored.None? {
      ended := Some(Outcome(NotFound, false));
      return;
    }
    var stored := a.stored.value;
    if caller.Some? && stored.agentId != caller.value {
      ended := Some(Settled(Forbidden, committedUnconfirmed));
      return;
    }
    if stored.text == "" {
      ended := Some(Settled(NoText, committedUnconfirmed));
      return;
    }
    if stored.text != textToEmbed {
      if last {
        ended := Some(Settled(RowChanged, committedUnconfirmed));
        return;
      }
      match a.provider {
        case TimesOut => ended := Some(Settled(ProviderTimeout, committedUnconfirmed)); return;
        case Unusable => ended := Some(Settled(EmbeddingUnavailable, committedUnconfirmed)); return;
        case Fails => ended := Some(Settled(Threw, committedUnconfirmed)); return;
        case Answers =>
      }
      nextText, nextEmbedding, ended := stored.text, engine.embed(stored.text), None;
      return;
    }
    var update := StagedUpdate(stored.agentId, stored.identity, textToEmbed, embedding,
                               engine.hash(stored.agentId, textToEmbed), a.now);
    if a.withheld {
      ended := Some(Settled(Withheld, committedUnconfirmed));
      return;
    }
    if !SameStoredRow(a.confirm, stored) || a.confirm.value.text != textToEmbed {
      ended := Some(Settled(StoredRowChanged, committedUnconfirmed));
      return;
    }
    if a.failure.AtCommit? {
      ended := Some(if committedUnconfirmed then Outcome(OutcomeUnknown, true) else Outcome(Threw, false));
      return;
    }
    unconfirmed := true;
    if a.notifierFails || a.readBack.Unreadable? {
      ended := Some(Outcome(OutcomeUnknown, true));
      return;
    }
    if Shown(a.readBack.row, update) {
      ended := Some(Outcome(Success(a.now), false));
      return;
    }
    ended := if last then Some(Outcome(OutcomeUnknown, true)) else None;
  }

  /** The call: `used` is the attempt that ended it, the first that does not continue. Its answer says what
      that attempt saw, and whether any attempt had committed. */
  method ReembedStoredRow(engine: Engine, caller: Option<string>, preReadText: string, vector: Vector, script: seq<Attempt>)
    returns (outcome: Outcome, used: nat)
    requires |script| >= ATTEMPTS
    requires vector == engine.embed(preReadText)
    ensures 1 <= used <= ATTEMPTS
    ensures forall i :: 0 <= i < used - 1 ==>
      Continues(engine, script[i], caller, TextBefore(script, preReadText, i))
    ensures used < ATTEMPTS ==> !Continues(engine, script[used - 1], caller, TextBefore(script, preReadText, used - 1))
    ensures Exact(engine, outcome, script[used - 1], caller, TextBefore(script, preReadText, used - 1),
                  used == ATTEMPTS, CommittedBefore(script, caller, preReadText, used - 1))
    ensures Answers(engine, outcome, script[used - 1], caller, TextBefore(script, preReadText, used - 1),
                    used == ATTEMPTS, CommittedBefore(script, caller, preReadText, used - 1))
    ensures outcome.answer.RowChanged? ==> used == ATTEMPTS && TextMoved(script, preReadText, ATTEMPTS)
    // A first attempt that nothing disturbs succeeds.
    ensures ReadsBack(engine, script[0], caller, preReadText) ==> used == 1 && outcome == Outcome(Success(script[0].now), false)
  {
    var committedUnconfirmed := false;
    var textToEmbed := preReadText;
    var embedding := vector;
    var attempt := 1;
    while true
      invariant 1 <= attempt <= ATTEMPTS && embedding == engine.embed(textToEmbed)
      invariant textToEmbed == TextBefore(script, preReadText, attempt - 1)
      invariant committedUnconfirmed <==> CommittedBefore(script, caller, preReadText, attempt - 1)
      invariant forall i :: 0 <= i < attempt - 1 ==>
        Continues(engine, script[i], caller, TextBefore(script, preReadText, i))
      decreases ATTEMPTS - attempt
    {
      var ended;
      ended, textToEmbed, embedding, committedUnconfirmed :=
        OneAttempt(engine, caller, script[attempt - 1], textToEmbed, embedding, attempt == ATTEMPTS, committedUnconfirmed);
      if ended.Some? {
        outcome, used := ended.value, attempt;
        if outcome.answer.RowChanged? { MovedThroughout(engine, script, caller, preReadText); }
        return;
      }
      assert CommitsAt(script, caller, preReadText, attempt - 1)
        <==> Commits(script[attempt - 1], caller, TextBefore(script, preReadText, attempt - 1));
      attempt := attempt + 1;
    }
  }

  /** Attempts that went on without a commit each read a new text. */
  lemma MovedThroughout(engine: Engine, script: seq<Attempt>, caller: Option<string>, preReadText: string)
    requires |script| >= ATTEMPTS && !CommittedBefore(script, caller, preReadText, ATTEMPTS)
    requires forall i :: 0 <= i < ATTEMPTS - 1 ==>
      Continues(engine, script[i], caller, TextBefore(script, preReadText, i))
    requires
      var last := script[ATTEMPTS - 1];
      last.stored.Some? && last.stored.value.text != TextBefore(script, preReadText, ATTEMPTS - 1)
    ensures TextMoved(script, preReadText, ATTEMPTS)
  {
    forall i | 0 <= i < ATTEMPTS
      ensures script[i].stored.Some? && script[i].stored.value.text != TextBefore(script, preReadText, i)
    {
      assert !CommitsAt(script, caller, preReadText, i);
    }
  }
}
