/**
 * Values handled by the todo API: the stored record, the already-parsed
 * request payload, the abstract HTTP response, and the pure decision logic
 * of the handlers (status filtering, lookup by id, the field loop of put).
 */
module Todos {

  datatype Option<+T> = None | Some(value: T) {
    function GetOr(default: T): T {
      match this
      case Some(v) => v
      case None => default
    }
  }

  /** A stored todo item, also its serialised form `{id, title, completed}`. */
  datatype Todo = Todo(id: int, title: string, completed: bool)

  /** A parsed JSON request body; `None` means the key is absent. */
  datatype Payload = Payload(title: Option<string>, completed: Option<bool>, action: Option<string>)

  /** The two writable fields of a todo, in the order put checks them. */
  datatype Field = Title | Completed

  const PutFields: seq<Field> := [Title, Completed]

  function Name(f: Field): string {
    match f
    case Title => "title"
    case Completed => "completed"
  }

  predicate Present(p: Payload, f: Field) {
    match f
    case Title => p.title.Some?
    case Completed => p.completed.Some?
  }

  /** `setattr(todo, field, payload[field])` for a field the payload carries. */
  function Assign(t: Todo, f: Field, p: Payload): (r: Todo)
    requires Present(p, f)
    ensures r.id == t.id
    ensures f == Title ==> r.title == p.title.value && r.completed == t.completed
    ensures f == Completed ==> r.completed == p.completed.value && r.title == t.title
  {
    match f
    case Title => t.(title := p.title.value)
    case Completed => t.(completed := p.completed.value)
  }

  // ---------------------------------------------------------------------
  // Responses

  datatype Body =
    | NoContent                                              // HttpResponse(status=204)
    | NotFoundPage                                           // raised by the 404 lookup
    | Msg(msg: string)                                       // {"msg": ...}
    | Error(error: string)                                   // {"error": ...}
    | Failure(msg: string)                                   // {"success": false, "msg": ...}
    | Serialized(todo: Todo)                                 // one serialised item
    | Listing(count: int, filter: string, results: seq<Todo>)

  datatype Response = Response(status: int, body: Body)

  const NotFound: Response := Response(404, NotFoundPage)

  function MissingArgument(f: Field): Response {
    Response(400, Error("Missing argument: " + Name(f)))
  }

  const InvalidPayload: Response := Response(400, Failure("Provided payload is not valid"))

  // ---------------------------------------------------------------------
  // List filtering

  /** `r` occurs in `s` in the same relative order (greedy matching). */
  predicate Subseq(r: seq<Todo>, s: seq<Todo>)
    decreases |s|
  {
    if r == [] then true
    else if s == [] then false
    else if r[0] == s[0] then Subseq(r[1..], s[1..])
    else Subseq(r, s[1..])
  }

  /** `todos.filter(completed=flag)`: the items whose flag equals `flag`, in store order. */
  function Filter(s: seq<Todo>, flag: bool): (r: seq<Todo>)
    ensures |r| <= |s|
    ensures forall i :: 0 <= i < |r| ==> r[i].completed == flag
  {
    if s == [] then []
    else if s[0].completed == flag then [s[0]] + Filter(s[1..], flag)
    else Filter(s[1..], flag)
  }

  /** The filter keeps every item with the flag, as often as it is stored, and no other. */
  lemma {:induction false} FilterCounts(s: seq<Todo>, flag: bool)
    ensures forall t :: multiset(Filter(s, flag))[t] == if t.completed == flag then multiset(s)[t] else 0
  {
    if s != [] {
      FilterCounts(s[1..], flag);
      assert s == [s[0]] + s[1..];
    }
  }

  /** The filter keeps the store order of the items it selects. */
  lemma {:induction false} FilterInOrder(s: seq<Todo>, flag: bool)
    ensures Subseq(Filter(s, flag), s)
  {
    if s != [] {
      FilterInOrder(s[1..], flag);
    }
  }

  /** A subsequence holds each item at most as often as the sequence. */
  lemma {:induction false} SubseqCounts(r: seq<Todo>, s: seq<Todo>)
    requires Subseq(r, s)
    ensures multiset(r) <= multiset(s)
  {
    if r != [] {
      assert s == [s[0]] + s[1..];
      if r[0] == s[0] {
        SubseqCounts(r[1..], s[1..]);
        assert r == [r[0]] + r[1..];
      } else {
        SubseqCounts(r, s[1..]);
      }
    }
  }

  /**
   * The filter is the only in-order selection that holds only items with
   * the flag and each such item as often as the store does.
   */
  lemma {:induction false} FilterCharacterized(s: seq<Todo>, flag: bool, r: seq<Todo>)
    requires Subseq(r, s)
    requires forall i :: 0 <= i < |r| ==> r[i].completed == flag
    requires forall t: Todo :: t.completed == flag ==> multiset(r)[t] == multiset(s)[t]
    ensures r == Filter(s, flag)
  {
    if s == [] {
      assert r == [];
    } else {
      assert s == [s[0]] + s[1..];
      if s[0].completed == flag {
        assert multiset(r)[s[0]] == multiset(s)[s[0]] > 0;
        assert r == [r[0]] + r[1..];
        if r[0] == s[0] {
          forall t: Todo | t.completed == flag
            ensures multiset(r[1..])[t] == multiset(s[1..])[t]
          {
            assert multiset(r)[t] == multiset(s)[t];
          }
          assert Subseq(r[1..], s[1..]);
          assert forall i :: 0 <= i < |r[1..]| ==> r[1..][i].completed == flag;
          FilterCharacterized(s[1..], flag, r[1..]);
        } else {
          SubseqCounts(r, s[1..]);
          assert false;
        }
      } else {
        assert r != [] ==> r[0] != s[0];
        assert Subseq(r, s[1..]);
        forall t: Todo | t.completed == flag
          ensures multiset(r)[t] == multiset(s[1..])[t]
        {
          assert multiset(r)[t] == multiset(s)[t];
        }
        FilterCharacterized(s[1..], flag, r);
      }
    }
  }

  /** Every stored item is listed by exactly one of the two flag filters. */
  lemma {:induction false} FilterPartition(s: seq<Todo>)
    ensures |Filter(s, true)| + |Filter(s, false)| == |s|
    ensures multiset(Filter(s, true)) + multiset(Filter(s, false)) == multiset(s)
  {
    if s != [] {
      FilterPartition(s[1..]);
      assert s == [s[0]] + s[1..];
    }
  }

  /** Filtering a table that grew by one item at the end. */
  lemma {:induction false} FilterAppend(s: seq<Todo>, t: Todo, flag: bool)
    ensures Filter(s + [t], flag) == Filter(s, flag) + (if t.completed == flag then [t] else [])
  {
    if s == [] {
      assert s + [t] == [t];
    } else {
      assert (s + [t])[0] == s[0] && (s + [t])[1..] == s[1..] + [t];
      FilterAppend(s[1..], t, flag);
    }
  }

  // ---------------------------------------------------------------------
  // Lookup by id

  /** The position of the first item with identifier `id`, if any. */
  function Find(s: seq<Todo>, id: int): (r: Option<nat>)
    ensures r.Some? ==> r.value < |s| && s[r.value].id == id
    ensures r.Some? ==> forall j :: 0 <= j < r.value ==> s[j].id != id
    ensures r.None? <==> forall j :: 0 <= j < |s| ==> s[j].id != id
  {
    if s == [] then None
    else if s[0].id == id then Some(0)
    else match Find(s[1..], id)
      case None => None
      case Some(k) => Some(k + 1)
  }

  // ---------------------------------------------------------------------
  // The field loop of put

  /** The item as last saved, and the response put returns. */
  datatype PutOutcome = PutOutcome(saved: Todo, response: Response)

  /**
   * Put's loop from the current item over the remaining `fields`: a missing
   * field stops with 400 naming it; a field whose save the store refuses
   * (`refused`) stops with 400; otherwise the field is assigned and saved
   * before the next one is looked at. Running out of fields gives 204.
   */
  function PutFrom(t: Todo, fields: seq<Field>, p: Payload, refused: set<Field>): (o: PutOutcome)
    ensures o.saved.id == t.id
    ensures o.response.status == 204 <==> forall f :: f in fields ==> Present(p, f) && f !in refused
    ensures o.response.status == 204 ==> o.response.body == NoContent
    ensures o.response.status != 204 ==> o.response.status == 400
    ensures Title !in fields ==> o.saved.title == t.title
    ensures Completed !in fields ==> o.saved.completed == t.completed
    ensures o.response.status == 204 && Title in fields ==> o.saved.title == p.title.value
    ensures o.response.status == 204 && Completed in fields ==> o.saved.completed == p.completed.value
    decreases |fields|
  {
    if fields == [] then PutOutcome(t, Response(204, NoContent))
    else
      var f := fields[0];
      assert forall g :: g in fields <==> g == f || g in fields[1..];
      if !Present(p, f) then PutOutcome(t, MissingArgument(f))
      else if f in refused then PutOutcome(t, InvalidPayload)
      else PutFrom(Assign(t, f, p), fields[1..], p, refused)
  }

  /** A put without `title` fails naming `title` and saves nothing. */
  lemma PutWithoutTitle(t: Todo, p: Payload, refused: set<Field>)
    requires p.title.None?
    ensures PutFrom(t, PutFields, p, refused) == PutOutcome(t, MissingArgument(Title))
  {
  }

  /**
   * A put with `title` but without `completed` fails naming `completed`,
   * yet the new title has already been saved.
   */
  lemma PutWithoutCompleted(t: Todo, p: Payload, refused: set<Field>)
    requires p.title.Some? && Title !in refused && p.completed.None?
    ensures PutFrom(t, PutFields, p, refused) == PutOutcome(t.(title := p.title.value), MissingArgument(Completed))
  {
    assert PutFields[1..] == [Completed];
  }

  /** A store refusal of a field keeps the saves of the fields before it. */
  lemma PutRefused(t: Todo, p: Payload, refused: set<Field>)
    requires p.title.Some?
    ensures Title in refused ==> PutFrom(t, PutFields, p, refused) == PutOutcome(t, InvalidPayload)
    ensures Title !in refused && p.completed.Some? && Completed in refused ==>
      PutFrom(t, PutFields, p, refused) == PutOutcome(t.(title := p.title.value), InvalidPayload)
  {
    assert PutFields[1..] == [Completed];
  }

  /** A put with both fields, both accepted, replaces both and answers 204. */
  lemma PutComplete(t: Todo, p: Payload, refused: set<Field>)
    requires p.title.Some? && p.completed.Some? && Title !in refused && Completed !in refused
    ensures PutFrom(t, PutFields, p, refused) ==
      PutOutcome(Todo(t.id, p.title.value, p.completed.value), Response(204, NoContent))
  {
    assert PutFields[1..] == [Completed];
  }
}
