/** The operator listing of one agent's candidates: pages in id order, continued after the last id. */
module Paging {
  import opened Store
  import opened Strings

  const DefaultLimit: int := 200
  const MaxLimit: int := 500

  /** A stored primary key: a string, or something else, which the store orders before the strings. */
  datatype Key = NotText(n: nat) | Name(s: string)

  predicate Precedes(a: Key, b: Key) {
    match (a, b)
    case (NotText(m), NotText(n)) => m < n
    case (NotText(_), Name(_)) => true
    case (Name(_), NotText(_)) => false
    case (Name(s), Name(t)) => Less(s, t)
  }

  predicate Usable(k: Key) { k.Name? && k.s != "" }

  /** The agent's rows as the store keeps them: in key order, each key once. */
  ghost predicate InOrder(rows: seq<Key>) {
    forall i, j :: 0 <= i < j < |rows| ==> Precedes(rows[i], rows[j])
  }

  predicate Selected(k: Key, after: Option<string>) { after.None? || Precedes(Name(after.value), k) }

  /** What the query answers before its limit: the rows whose key sorts after `after`, in order. */
  function Remaining(rows: seq<Key>, after: Option<string>): (rest: seq<Key>)
    ensures |rest| <= |rows|
  {
    if rows == [] then []
    else
      var init := Remaining(rows[..|rows| - 1], after);
      if Selected(rows[|rows| - 1], after) then init + [rows[|rows| - 1]] else init
  }

  datatype Reply = BadLimit | InvalidAfter | IdUnusable | Page(ids: seq<string>, hasMore: bool)

  function TextOf(k: Key): string { if k.Name? then k.s else "" }

  function Ids(rows: seq<Key>): (ids: seq<string>)
    ensures |ids| == |rows|
  {
    if rows == [] then [] else Ids(rows[..|rows| - 1]) + [TextOf(rows[|rows| - 1])]
  }

  ghost predicate AllUsable(rows: seq<Key>) { forall k :: k in rows ==> Usable(k) }

  /** The page over what remains: a row it reads without a usable id fails it whole. */
  ghost function PageOf(rest: seq<Key>, limit: nat): Reply {
    var read := rest[..if |rest| <= limit then |rest| else limit + 1];
    if !AllUsable(read) then IdUnusable
    else if |rest| <= limit then Page(Ids(rest), false)
    else Page(Ids(read[..limit]), true)
  }

  /** One request, with the query's parameters as given. */
  method Get(rows: seq<Key>, limitParam: Option<int>, afterParams: seq<string>) returns (reply: Reply)
    ensures
      var parsed := if limitParam.None? then DefaultLimit else limitParam.value;
      var after := if afterParams == [] then None else Some(afterParams[0]);
      reply == if parsed < 1 then BadLimit
               else if |afterParams| > 1 || after == Some("") then InvalidAfter
               else PageOf(Remaining(rows, after), if parsed <= MaxLimit then parsed else MaxLimit)
  {
    var parsed := if limitParam.None? then DefaultLimit else limitParam.value;
    if parsed < 1 { return BadLimit; }
    var limit := if parsed <= MaxLimit then parsed else MaxLimit;
    if |afterParams| > 1 || (|afterParams| == 1 && afterParams[0] == "") { return InvalidAfter; }
    var rest := Remaining(rows, if afterParams == [] then None else Some(afterParams[0]));
    var ids: seq<string> := [];
    var hasMore := false;
    var i := 0;
    while i < |rest| && i < limit + 1
      invariant 0 <= i <= |rest| && i <= limit && AllUsable(rest[..i])
      invariant ids == Ids(rest[..i]) && !hasMore
    {
      assert rest[..i + 1] == rest[..i] + [rest[i]];
      assert rest[..i + 1][..i] == rest[..i];
      ghost var read := rest[..if |rest| <= limit then |rest| else limit + 1];
      assert rest[i] == read[i];
      if !Usable(rest[i]) { return IdUnusable; }
      if |ids| == limit {
        hasMore := true;
        assert read == rest[..i + 1] && read[..limit] == rest[..i];
        return Page(ids, hasMore);
      }
      ids := ids + [rest[i].s];
      i := i + 1;
    }
    assert rest[..i] == rest;
    reply := Page(ids, hasMore);
  }

  lemma PrecedesTransitive(a: Key, b: Key, c: Key)
    requires Precedes(a, b) && Precedes(b, c)
    ensures Precedes(a, c)
  {
    if a.Name? && b.Name? && c.Name? { LessTransitive(a.s, b.s, c.s); }
  }

  lemma PrecedesAsymmetric(a: Key, b: Key)
    ensures !(Precedes(a, b) && Precedes(b, a)) && !Precedes(a, a)
  {
    if a.Name? && b.Name? { LessAsymmetric(a.s, b.s); }
    if a.Name? { LessAsymmetric(a.s, a.s); }
  }

  /** Continuing after a row's id reads exactly the rows after it. */
  lemma {:induction false} RemainingAfter(rows: seq<Key>, i: nat)
    requires InOrder(rows) && i < |rows| && rows[i].Name?
    ensures Remaining(rows, Some(rows[i].s)) == rows[i + 1..]
  {
    var last := |rows| - 1;
    PrecedesAsymmetric(rows[i], rows[last]);
    if i == last {
      NoneSelected(rows[..last], rows[last].s);
    } else {
      RemainingAfter(rows[..last], i);
      assert rows[i + 1..] == rows[..last][i + 1..] + [rows[last]];
    }
  }

  lemma {:induction false} NoneSelected(rows: seq<Key>, after: string)
    requires forall k :: k in rows ==> Precedes(k, Name(after))
    ensures Remaining(rows, Some(after)) == []
  {
    if rows != [] {
      PrecedesAsymmetric(rows[|rows| - 1], Name(after));
      NoneSelected(rows[..|rows| - 1], after);
    }
  }

  lemma {:induction false} AllSelected(rows: seq<Key>)
    ensures Remaining(rows, None) == rows
  {
    if rows != [] { AllSelected(rows[..|rows| - 1]); }
  }

  /** The pages a client reads, each continued after the last id of the one before, until one says there is
      no more; nothing when a page failed or a page did not get further. */
  ghost function ReadAll(rows: seq<Key>, after: Option<string>, limit: nat): Option<seq<string>>
    decreases |Remaining(rows, after)|
  {
    var page := PageOf(Remaining(rows, after), limit);
    if !page.Page? then None
    else if !page.hasMore then Some(page.ids)
    else
      var next := if page.ids == [] then None else Some(page.ids[|page.ids| - 1]);
      if |Remaining(rows, next)| >= |Remaining(rows, after)| then None
      else
        var rest := ReadAll(rows, next, limit);
        if rest.None? then None else Some(page.ids + rest.value)
  }

  lemma {:induction false} ReadAllIsComplete(rows: seq<Key>, after: Option<string>, limit: nat, start: nat)
    requires 1 <= limit && start <= |rows| && InOrder(rows) && Remaining(rows, after) == rows[start..]
    requires AllUsable(rows)
    ensures ReadAll(rows, after, limit) == Some(Ids(rows[start..]))
    decreases |rows| - start
  {
    if |rows| - start <= limit {
      PageOfUsable(rows, start, limit);
      ReadLast(rows, after, limit, Ids(rows[start..]));
    } else {
      var next := NextAfter(rows, limit, start);
      ReadAllIsComplete(rows, next, limit, start + limit);
      ReadOn(rows, after, limit, start, next);
    }
  }

  lemma NextAfter(rows: seq<Key>, limit: nat, start: nat) returns (next: Option<string>)
    requires 1 <= limit && start + limit < |rows| && InOrder(rows) && AllUsable(rows)
    ensures next == Some(TextOf(rows[start + limit - 1])) && Remaining(rows, next) == rows[start + limit..]
  {
    PageOfUsable(rows, start, limit);
    next := Some(TextOf(rows[start + limit - 1]));
    RemainingAfter(rows, start + limit - 1);
  }

  lemma ReadOn(rows: seq<Key>, after: Option<string>, limit: nat, start: nat, next: Option<string>)
    requires 1 <= limit && start + limit < |rows| && AllUsable(rows)
    requires Remaining(rows, after) == rows[start..] && Remaining(rows, next) == rows[start + limit..]
    requires next == Some(TextOf(rows[start + limit - 1]))
    requires ReadAll(rows, next, limit) == Some(Ids(rows[start + limit..]))
    ensures ReadAll(rows, after, limit) == Some(Ids(rows[start..]))
  {
    PageOfUsable(rows, start, limit);
    LastId(rows, start, limit);
    ReadNext(rows, after, limit, Ids(rows[start..start + limit]));
    IdsSplit(rows, start, start + limit);
  }

  lemma ReadLast(rows: seq<Key>, after: Option<string>, limit: nat, ids: seq<string>)
    requires PageOf(Remaining(rows, after), limit) == Page(ids, false)
    ensures ReadAll(rows, after, limit) == Some(ids)
  {
  }

  lemma ReadNext(rows: seq<Key>, after: Option<string>, limit: nat, ids: seq<string>)
    requires PageOf(Remaining(rows, after), limit) == Page(ids, true) && ids != []
    requires |Remaining(rows, Some(ids[|ids| - 1]))| < |Remaining(rows, after)|
    ensures
      var rest := ReadAll(rows, Some(ids[|ids| - 1]), limit);
      ReadAll(rows, after, limit) == if rest.None? then None else Some(ids + rest.value)
  {
  }

  lemma LastId(rows: seq<Key>, start: nat, limit: nat)
    requires 1 <= limit && start + limit <= |rows|
    ensures |Ids(rows[start..start + limit])| == limit
    ensures Ids(rows[start..start + limit])[limit - 1] == TextOf(rows[start + limit - 1])
  {
  }

  lemma {:induction false} IdsConcat(a: seq<Key>, b: seq<Key>)
    ensures Ids(a + b) == Ids(a) + Ids(b)
  {
    if b == [] {
      assert a + b == a;
    } else {
      assert (a + b)[..|a + b| - 1] == a + b[..|b| - 1];
      IdsConcat(a, b[..|b| - 1]);
    }
  }

  lemma IdsSplit(rows: seq<Key>, i: nat, j: nat)
    requires i <= j <= |rows|
    ensures Ids(rows[i..]) == Ids(rows[i..j]) + Ids(rows[j..])
  {
    assert rows[i..] == rows[i..j] + rows[j..];
    IdsConcat(rows[i..j], rows[j..]);
  }

  lemma PageOfUsable(rows: seq<Key>, start: nat, limit: nat)
    requires 1 <= limit && start <= |rows| && AllUsable(rows)
    ensures |rows| - start <= limit ==> PageOf(rows[start..], limit) == Page(Ids(rows[start..]), false)
    ensures |rows| - start > limit ==> PageOf(rows[start..], limit) == Page(Ids(rows[start..start + limit]), true)
    ensures |rows| - start > limit ==> rows[start + limit - 1].Name?
  {
    var rest := rows[start..];
    assert forall k :: k in rest ==> k in rows;
    if |rest| > limit {
      assert forall k :: k in rest[..limit + 1] ==> k in rest;
      assert rest[..limit + 1][..limit] == rows[start..start + limit];
      assert rows[start + limit - 1] in rows;
    }
  }

  /** Paging ends for every limit of at least one; when every id is usable the pages are together exactly
      the agent's ids, each once, in order; and when one is not, the very first page fails. */
  lemma PagesAreComplete(rows: seq<Key>, limit: nat)
    requires 1 <= limit && InOrder(rows)
    ensures ReadAll(rows, None, limit) == if AllUsable(rows) then Some(Ids(rows)) else None
  {
    AllSelected(rows);
    assert rows[0..] == rows;
    if AllUsable(rows) {
      ReadAllIsComplete(rows, None, limit, 0);
    } else {
      FirstUnusable(rows);
      assert rows[0] in rows[..if |rows| <= limit then |rows| else limit + 1];
    }
  }

  /** An unusable id sorts first. */
  lemma FirstUnusable(rows: seq<Key>)
    requires InOrder(rows) && !AllUsable(rows)
    ensures rows != [] && !Usable(rows[0])
  {
    var i :| 0 <= i < |rows| && !Usable(rows[i]);
    if i > 0 {
      assert Precedes(rows[0], rows[i]);
    }
  }
}
