/** The response store (Services/ResponseService.php, duplicated in Plugin.php): saving is an
    upsert by id with template fill and score clamping; a query sorts newest first by plain string
    comparison of `created_at`, keeps the records that match every non-empty filter, then applies
    offset and limit. */
module Responses {
  import opened PhpValues

  /** A response record. `None` marks a key that is absent or null in the stored JSON. */
  datatype Response = Response(
    id: Option<string>,
    contactId: Option<string>,
    ticketId: Option<string>,
    score: Option<int>,
    comment: Option<string>,
    followUpResponse: Option<string>,
    agentId: Option<string>,
    teamId: Option<string>,
    category: Option<string>,
    createdAt: Option<string>)

  /** `ResponseService::template()`: every string key empty, the score null. */
  function Template(): Response {
    Response(Some(""), Some(""), Some(""), None, Some(""), Some(""), Some(""), Some(""), Some(""), Some(""))
  }

  /** Every key of the template holds a value. */
  predicate Complete(r: Response) {
    r.id.Some? && r.contactId.Some? && r.ticketId.Some? && r.score.Some? && r.comment.Some?
    && r.followUpResponse.Some? && r.agentId.Some? && r.teamId.Some? && r.category.Some?
    && r.createdAt.Some?
  }

  /** `array_merge($template, $r)` for one key: the record's own value wins. */
  function Fill<T>(own: Option<T>, template: Option<T>): Option<T> {
    if own.Some? then own else template
  }

  /** `max(0, min(10, $x))`. */
  function Clamp(x: int): int {
    if x < 0 then 0 else if x > 10 then 10 else x
  }

  /** A save assigns a fresh id (and stamps `created_at`) when the given id is PHP-empty. */
  predicate IsNew(input: Response) {
    EmptyOpt(input.id)
  }

  /** The record `save` writes for `input`, given the generated id and the formatted current time. */
  function Prepare(input: Response, freshId: string, stamp: string): (r: Response)
    ensures Complete(r)
    ensures IsNew(input) ==> r.id == Some(freshId) && r.createdAt == Some(stamp)
    ensures !IsNew(input) ==> r.id == input.id && r.createdAt == Fill(input.createdAt, Some(""))
    ensures 0 <= r.score.value <= 10
    ensures input.score.Some? && 0 <= input.score.value <= 10 ==> r.score == input.score
    ensures input.score.None? ==> r.score == Some(0)
    ensures input.score.Some? && input.score.value > 10 ==> r.score == Some(10)
    ensures input.score.Some? && input.score.value < 0 ==> r.score == Some(0)
    ensures r.contactId == Fill(input.contactId, Some("")) && r.ticketId == Fill(input.ticketId, Some(""))
    ensures r.agentId == Fill(input.agentId, Some("")) && r.teamId == Fill(input.teamId, Some(""))
    ensures r.category == Fill(input.category, Some(""))
    ensures r.comment == Fill(input.comment, Some(""))
    ensures r.followUpResponse == Fill(input.followUpResponse, Some(""))
  {
    var own := if IsNew(input) then input.(id := Some(freshId), createdAt := Some(stamp)) else input;
    var t := Template();
    Response(
      Fill(own.id, t.id), Fill(own.contactId, t.contactId), Fill(own.ticketId, t.ticketId),
      Some(Clamp(OrElse(Fill(own.score, t.score), 0))),
      Fill(own.comment, t.comment), Fill(own.followUpResponse, t.followUpResponse),
      Fill(own.agentId, t.agentId), Fill(own.teamId, t.teamId), Fill(own.category, t.category),
      Fill(own.createdAt, t.createdAt))
  }

  /** `$r['id'] ?? ''`. */
  function IdOf(r: Response): string {
    OrElse(r.id, "")
  }

  /** The first position at or after `from` whose id is `id`. */
  function FirstWithId(s: seq<Response>, id: string, from: nat): (i: Option<nat>)
    requires from <= |s|
    ensures i.Some? ==> from <= i.value < |s| && IdOf(s[i.value]) == id
    ensures i.Some? ==> forall j :: from <= j < i.value ==> IdOf(s[j]) != id
    ensures i.None? ==> forall j :: from <= j < |s| ==> IdOf(s[j]) != id
    decreases |s| - from
  {
    if from == |s| then None
    else if IdOf(s[from]) == id then Some(from)
    else FirstWithId(s, id, from + 1)
  }

  /** The store after saving `r`: the first record with the same id is replaced in place,
      otherwise `r` is appended. */
  function Upsert(s: seq<Response>, r: Response): (u: seq<Response>)
    ensures r in u
    ensures (exists j :: 0 <= j < |s| && IdOf(s[j]) == IdOf(r)) ==>
              |u| == |s| &&
              exists i :: 0 <= i < |s| && IdOf(s[i]) == IdOf(r) && u == s[i := r]
                && forall j :: 0 <= j < i ==> IdOf(s[j]) != IdOf(r)
    ensures (forall j :: 0 <= j < |s| ==> IdOf(s[j]) != IdOf(r)) ==> u == s + [r]
  {
    match FirstWithId(s, IdOf(r), 0)
    case Some(i) =>
      assert s[i := r][i] == r;
      s[i := r]
    case None => s + [r]
  }

  lemma {:induction false} FirstWithIdAt(s: seq<Response>, id: string, from: nat, i: nat)
    requires from <= i < |s| && IdOf(s[i]) == id
    requires forall j :: from <= j < i ==> IdOf(s[j]) != id
    ensures FirstWithId(s, id, from) == Some(i)
    decreases i - from
  {
    if from < i { FirstWithIdAt(s, id, from + 1, i); }
  }

  /** Saving the same record twice leaves the store as saving it once. */
  lemma UpsertIdempotent(s: seq<Response>, r: Response)
    ensures Upsert(Upsert(s, r), r) == Upsert(s, r)
  {
    var u := Upsert(s, r);
    match FirstWithId(s, IdOf(r), 0)
    case Some(i) =>
      assert forall j :: 0 <= j < i ==> u[j] == s[j];
      FirstWithIdAt(u, IdOf(r), 0, i);
    case None =>
      FirstWithIdAt(u, IdOf(r), 0, |s|);
  }

  /** Re-saving a saved response (its id is kept and not empty) writes it back unchanged. */
  lemma ResaveKeepsRecord(input: Response, freshId: string, stamp: string, otherId: string, later: string)
    requires !EmptyStr(freshId)
    ensures Prepare(Prepare(input, freshId, stamp), otherId, later) == Prepare(input, freshId, stamp)
  {
  }

  // ---------------------------------------------------------------------------
  // Query
  // ---------------------------------------------------------------------------

  /** `$r['created_at'] ?? ''`, the sort key. */
  function CreatedKey(r: Response): string {
    OrElse(r.createdAt, "")
  }

  /** Ordered by `created_at` descending under `strcmp`. */
  predicate NewestFirst(s: seq<Response>) {
    forall i, j :: 0 <= i < j < |s| ==> StrLeq(CreatedKey(s[j]), CreatedKey(s[i]))
  }

  /** No record of s is newer than `key`. */
  predicate NotNewerThan(s: seq<Response>, key: string) {
    forall i :: 0 <= i < |s| ==> StrLeq(CreatedKey(s[i]), key)
  }

  /** Puts r in front of the first record that is not newer than it, so that r stays ahead of
      records with an equal key that came after it in the store. */
  function InsertNewestFirst(r: Response, s: seq<Response>): (t: seq<Response>)
    ensures |t| == |s| + 1
    ensures multiset(t) == multiset(s) + multiset{r}
  {
    if s == [] || StrLeq(CreatedKey(s[0]), CreatedKey(r)) then [r] + s
    else
      assert s == [s[0]] + s[1..];
      [s[0]] + InsertNewestFirst(r, s[1..])
  }

  lemma {:induction false} InsertNotNewer(r: Response, s: seq<Response>, key: string)
    requires NotNewerThan(s, key) && StrLeq(CreatedKey(r), key)
    ensures NotNewerThan(InsertNewestFirst(r, s), key)
  {
    var t := InsertNewestFirst(r, s);
    forall i | 0 <= i < |t| ensures StrLeq(CreatedKey(t[i]), key) {
      assert t[i] in multiset(t);
      assert t[i] == r || t[i] in multiset(s);
    }
  }

  lemma {:induction false} InsertKeepsOrder(r: Response, s: seq<Response>)
    requires NewestFirst(s)
    ensures NewestFirst(InsertNewestFirst(r, s))
  {
    var t := InsertNewestFirst(r, s);
    if s == [] {
    } else if StrLeq(CreatedKey(s[0]), CreatedKey(r)) {
      forall i, j | 0 <= i < j < |t| ensures StrLeq(CreatedKey(t[j]), CreatedKey(t[i])) {
        if i == 0 && j > 1 {
          StrLeqTrans(CreatedKey(s[j - 1]), CreatedKey(s[0]), CreatedKey(r));
        }
      }
    } else {
      StrLeqTotal(CreatedKey(s[0]), CreatedKey(r));
      assert NotNewerThan(s[1..], CreatedKey(s[0]));
      InsertNotNewer(r, s[1..], CreatedKey(s[0]));
      InsertKeepsOrder(r, s[1..]);
    }
  }

  /** The `usort` of `query`: a stable sort, newest first. */
  function SortNewestFirst(s: seq<Response>): (t: seq<Response>)
    ensures NewestFirst(t)
    ensures |t| == |s| && multiset(t) == multiset(s)
  {
    if s == [] then []
    else
      var rest := SortNewestFirst(s[1..]);
      InsertKeepsOrder(s[0], rest);
      assert s == [s[0]] + s[1..];
      InsertNewestFirst(s[0], rest)
  }

  /** The filters `query` understands; `None` marks an absent key. */
  datatype Filters = Filters(
    contactId: Option<string>,
    ticketId: Option<string>,
    agentId: Option<string>,
    teamId: Option<string>,
    category: Option<string>,
    dateFrom: Option<string>,
    dateTo: Option<string>,
    offset: Option<int>,
    limit: Option<int>)

  function NoFilters(): Filters {
    Filters(None, None, None, None, None, None, None, None, None)
  }

  /** An equality filter applies only when its value is not PHP-empty ("" and "0" are ignored). */
  predicate FieldMatches(field: Option<string>, wanted: Option<string>) {
    EmptyOpt(wanted) || OrElse(field, "") == wanted.value
  }

  /** PHP's truth value of a `strtotime` result (`false` when parsing failed). */
  predicate Truthy(t: Option<int>) {
    t.Some? && t.value != 0
  }

  /** PHP's `$a >= $b` on two `strtotime` results; a failed parse compares as a boolean. */
  predicate PhpGe(a: Option<int>, b: Option<int>) {
    if a.Some? && b.Some? then a.value >= b.value else Truthy(a) || !Truthy(b)
  }

  /** PHP's `$a <= $b` on two `strtotime` results. */
  predicate PhpLe(a: Option<int>, b: Option<int>) {
    if a.Some? && b.Some? then a.value <= b.value else !Truthy(a) || Truthy(b)
  }

  /** The conjunction of every filter `query` applies; `parse` stands for `strtotime`. */
  predicate Matches(r: Response, f: Filters, parse: string -> Option<int>) {
    FieldMatches(r.contactId, f.contactId)
    && FieldMatches(r.ticketId, f.ticketId)
    && FieldMatches(r.agentId, f.agentId)
    && FieldMatches(r.teamId, f.teamId)
    && FieldMatches(r.category, f.category)
    && (EmptyOpt(f.dateFrom) || PhpGe(parse(CreatedKey(r)), parse(f.dateFrom.value)))
    && (EmptyOpt(f.dateTo) || PhpLe(parse(CreatedKey(r)), parse(f.dateTo.value + " 23:59:59")))
  }

  /** The chain of `array_filter` calls: the matching records, in order. */
  function Select(s: seq<Response>, f: Filters, parse: string -> Option<int>): (t: seq<Response>)
    ensures forall i :: 0 <= i < |t| ==> Matches(t[i], f, parse)
    ensures forall r :: multiset(t)[r] == if Matches(r, f, parse) then multiset(s)[r] else 0
  {
    if s == [] then []
    else
      assert s == [s[0]] + s[1..];
      (if Matches(s[0], f, parse) then [s[0]] else []) + Select(s[1..], f, parse)
  }

  /** Concatenation is associative (kept apart from the filter's quantifiers, where it is costly). */
  lemma ConcatAssociates<T>(x: seq<T>, y: seq<T>, z: seq<T>)
    ensures x + (y + z) == (x + y) + z
  {
  }

  /** Filtering distributes over concatenation: the kept records keep their relative order, ties
      included, so the result is a subsequence of the input. */
  lemma {:induction false} SelectAppend(a: seq<Response>, b: seq<Response>, f: Filters, parse: string -> Option<int>)
    ensures Select(a + b, f, parse) == Select(a, f, parse) + Select(b, f, parse)
  {
    if a != [] {
      var head := if Matches(a[0], f, parse) then [a[0]] else [];
      assert (a + b)[0] == a[0] && (a + b)[1..] == a[1..] + b;
      assert Select(a + b, f, parse) == head + Select(a[1..] + b, f, parse);
      SelectAppend(a[1..], b, f, parse);
      var rest, tail := Select(a[1..], f, parse), Select(b, f, parse);
      assert Select(a, f, parse) == head + rest;
      ConcatAssociates(head, rest, tail);
    } else {
      assert a + b == b;
    }
  }

  /** Filtering a newest-first sequence keeps it newest first. */
  lemma {:induction false} SelectKeepsOrder(s: seq<Response>, f: Filters, parse: string -> Option<int>)
    requires NewestFirst(s)
    ensures NewestFirst(Select(s, f, parse))
  {
    if s != [] {
      var rest := Select(s[1..], f, parse);
      SelectKeepsOrder(s[1..], f, parse);
      if Matches(s[0], f, parse) {
        forall i | 0 <= i < |rest| ensures StrLeq(CreatedKey(rest[i]), CreatedKey(s[0])) {
          assert rest[i] in multiset(rest);
          assert rest[i] in multiset(s[1..]);
          var k :| 0 <= k < |s[1..]| && s[1..][k] == rest[i];
          assert s[k + 1] == rest[i];
        }
      }
    }
  }

  /** How many leading records a (possibly absent or non-positive) offset drops. */
  function Skipped(len: nat, offset: Option<int>): (n: nat)
    ensures n <= len
  {
    var o := OrElse(offset, 0);
    if o <= 0 then 0 else if o < len then o else len
  }

  /** `array_slice` by offset, then by limit; non-positive values change nothing. */
  function Paginate(s: seq<Response>, offset: Option<int>, limit: Option<int>): (t: seq<Response>)
    ensures |t| <= |s| - Skipped(|s|, offset)
    ensures t == s[Skipped(|s|, offset)..][..|t|]
    ensures OrElse(limit, 0) > 0 ==> |t| == if OrElse(limit, 0) < |s| - Skipped(|s|, offset)
                                              then OrElse(limit, 0) else |s| - Skipped(|s|, offset)
    ensures OrElse(limit, 0) <= 0 ==> |t| == |s| - Skipped(|s|, offset)
  {
    var rest := s[Skipped(|s|, offset)..];
    var l := OrElse(limit, 0);
    if l > 0 && l < |rest| then rest[..l] else rest
  }

  /** A window of a newest-first sequence is newest first. */
  lemma WindowKeepsOrder(s: seq<Response>, offset: Option<int>, limit: Option<int>)
    requires NewestFirst(s)
    ensures NewestFirst(Paginate(s, offset, limit))
  {
    var t := Paginate(s, offset, limit);
    var k := Skipped(|s|, offset);
    forall i, j | 0 <= i < j < |t| ensures StrLeq(CreatedKey(t[j]), CreatedKey(t[i])) {
      assert t[i] == s[k + i] && t[j] == s[k + j];
    }
  }

  /** `ResponseService::query($filters)`. */
  function Query(records: seq<Response>, f: Filters, parse: string -> Option<int>): (q: seq<Response>)
    ensures NewestFirst(q)
    ensures forall i :: 0 <= i < |q| ==> Matches(q[i], f, parse)
    ensures OrElse(f.limit, 0) > 0 ==> |q| <= OrElse(f.limit, 0)
    ensures OrElse(f.offset, 0) <= 0 && OrElse(f.limit, 0) <= 0 ==>
              forall r :: multiset(q)[r] == if Matches(r, f, parse) then multiset(records)[r] else 0
  {
    var selected := Select(SortNewestFirst(records), f, parse);
    SelectKeepsOrder(SortNewestFirst(records), f, parse);
    WindowKeepsOrder(selected, f.offset, f.limit);
    var q := Paginate(selected, f.offset, f.limit);
    assert forall i :: 0 <= i < |q| ==> q[i] == selected[Skipped(|selected|, f.offset) + i];
    q
  }

  /** `ResponseService::forContact($c)`: the query with only the contact filter. A PHP-empty
      contact id ("" or "0") leaves the filter out, so every response comes back. */
  function ForContact(records: seq<Response>, contactId: string, parse: string -> Option<int>): (q: seq<Response>)
    ensures NewestFirst(q)
    ensures !EmptyStr(contactId) ==>
              forall r :: multiset(q)[r] == if OrElse(r.contactId, "") == contactId then multiset(records)[r] else 0
    ensures EmptyStr(contactId) ==> multiset(q) == multiset(records)
  {
    var f := NoFilters().(contactId := Some(contactId));
    var q := Query(records, f, parse);
    assert forall r :: Matches(r, f, parse) <==> FieldMatches(r.contactId, Some(contactId));
    q
  }

  /** A contact's history holds exactly the stored responses of that contact. */
  lemma InContactHistory(records: seq<Response>, contactId: string, parse: string -> Option<int>, r: Response)
    requires !EmptyStr(contactId)
    ensures r in ForContact(records, contactId, parse) <==> r in records && OrElse(r.contactId, "") == contactId
  {
    var history := ForContact(records, contactId, parse);
    assert r in history <==> multiset(history)[r] > 0;
    assert r in records <==> multiset(records)[r] > 0;
  }

  /** A saved response is found again by its contact. */
  lemma SavedFoundByContact(records: seq<Response>, input: Response, freshId: string, stamp: string,
                            parse: string -> Option<int>)
    requires !EmptyStr(OrElse(Prepare(input, freshId, stamp).contactId, ""))
    ensures var saved := Prepare(input, freshId, stamp);
            saved in ForContact(Upsert(records, saved), OrElse(saved.contactId, ""), parse)
  {
    var saved := Prepare(input, freshId, stamp);
    var q := ForContact(Upsert(records, saved), OrElse(saved.contactId, ""), parse);
    assert multiset(Upsert(records, saved))[saved] > 0;
    assert multiset(q)[saved] > 0;
  }

  /** The stored responses (`responses.json`). */
  class ResponseLog {
    var file: File<seq<Response>>

    constructor (file: File<seq<Response>>)
      ensures this.file == file
    {
      this.file := file;
    }

    /** `ResponseService::all()`: an unreadable or missing file reads as no responses. */
    function Records(): seq<Response>
      reads this
    {
      match file
      case Json(s) => s
      case _ => []
    }

    /** `ResponseService::save($response)`. */
    method Save(input: Response, freshId: string, stamp: string) returns (saved: Response)
      modifies this
      ensures saved == Prepare(input, freshId, stamp)
      ensures file == Json(Upsert(old(Records()), saved))
    {
      var responses := Records();
      saved := Prepare(input, freshId, stamp);
      var key := IdOf(saved);
      var found := false;
      var index := 0;
      while index < |responses|
        invariant 0 <= index <= |responses|
        invariant responses == old(Records())
        invariant FirstWithId(responses, key, 0) == FirstWithId(responses, key, index)
      {
        if IdOf(responses[index]) == key {
          responses := responses[index := saved];
          found := true;
          break;
        }
        index := index + 1;
      }
      if !found {
        responses := responses + [saved];
      }
      file := Json(responses);
    }
  }
}
