/**
 * The request handlers of the todo API over an in-memory table that stands
 * in for the database. `TodoListView` (list, create) and `TodoDetailView`
 * (get, delete, patch, put) hold no state of their own, so every handler is
 * a member of the table it reads or changes.
 */
module TodoApi {
  import opened Todos

  class TodoTable {
    /** The stored items in the table's natural (insertion) order. */
    var items: seq<Todo>
    /** The identifier the store hands out to the next created item. */
    var nextId: int

    /** Identifiers are positive, increase along the table and are all below `nextId`. */
    ghost predicate Valid()
      reads this
    {
      1 <= nextId &&
      (forall i :: 0 <= i < |items| ==> 1 <= items[i].id < nextId) &&
      (forall i, j :: 0 <= i < j < |items| ==> items[i].id < items[j].id)
    }

    constructor ()
      ensures Valid() && items == [] && nextId == 1
    {
      items := [];
      nextId := 1;
    }

    /** `TodoListView.get`: list the items selected by the `status` query parameter. */
    function List(status: Option<string>): (r: Response)
      reads this
      ensures r.status == 200 && r.body.Listing?
      ensures r.body.filter == status.GetOr("all")
      ensures r.body.count == |r.body.results|
      ensures r.body.filter == "completed" ==> r.body.results == Filter(items, true)
      ensures r.body.filter == "active" ==> r.body.results == Filter(items, false)
      ensures r.body.filter != "completed" && r.body.filter != "active" ==> r.body.results == items
    {
      var shown := status.GetOr("all");
      var selected :=
        if shown == "completed" then Filter(items, true)
        else if shown == "active" then Filter(items, false)
        else items;
      Response(200, Listing(|selected|, shown, selected))
    }

    /** `TodoListView.post`: create an item from the payload. */
    method Create(p: Payload) returns (r: Response)
      requires Valid()
      modifies this
      ensures Valid()
      ensures p.title.None? ==>
        r == Response(400, Msg("not a valid format")) && items == old(items) && nextId == old(nextId)
      ensures p.title.Some? ==>
        r == Response(201, Msg("todo created")) &&
        items == old(items) + [Todo(old(nextId), p.title.value, p.completed.GetOr(false))] &&
        nextId > old(nextId)
      ensures forall i :: 0 <= i < |old(items)| ==> old(items)[i].id != old(nextId)
    {
      if p.title.None? {
        return Response(400, Msg("not a valid format"));
      }
      var todo := Todo(nextId, p.title.value, p.completed.GetOr(false));
      items := items + [todo];
      nextId := nextId + 1;
      r := Response(201, Msg("todo created"));
    }

    /** `TodoDetailView.get`: the serialised item with identifier `id`. */
    function Retrieve(id: int): (r: Response)
      reads this
      ensures r.status == 404 <==> forall i :: 0 <= i < |items| ==> items[i].id != id
      ensures r.status == 404 ==> r == NotFound
      ensures r.status != 404 ==> r.status == 200 && r.body.Serialized? && r.body.todo in items && r.body.todo.id == id
    {
      match Find(items, id)
      case None => NotFound
      case Some(k) => Response(200, Serialized(items[k]))
    }

    /** `TodoDetailView.delete`: remove the item with identifier `id`. */
    method Delete(id: int) returns (r: Response)
      requires Valid()
      modifies this
      ensures Valid() && nextId == old(nextId)
      ensures Find(old(items), id).None? ==> r == NotFound && items == old(items)
      ensures Find(old(items), id).Some? ==>
        var k := Find(old(items), id).value;
        r == Response(204, NoContent) && items == old(items)[..k] + old(items)[k + 1..]
      ensures forall i :: 0 <= i < |items| ==> items[i].id != id
    {
      var found := Find(items, id);
      if found.None? {
        return NotFound;
      }
      var k := found.value;
      items := items[..k] + items[k + 1..];
      r := Response(204, NoContent);
    }

    /** `TodoDetailView.patch`: toggle the flag, or overwrite the fields the payload carries. */
    method Patch(id: int, p: Payload) returns (r: Response)
      requires Valid()
      modifies this
      ensures Valid() && nextId == old(nextId) && |items| == |old(items)|
      ensures Find(old(items), id).None? ==> r == NotFound && items == old(items)
      ensures Find(old(items), id).Some? ==>
        var k := Find(old(items), id).value;
        var was := old(items)[k];
        (forall j :: 0 <= j < |items| && j != k ==> items[j] == old(items)[j]) &&
        items[k].id == id &&
        (p.action == Some("toggle") ==> items[k].completed == !was.completed && items[k].title == was.title) &&
        (p.action != Some("toggle") ==>
          items[k].title == p.title.GetOr(was.title) && items[k].completed == p.completed.GetOr(was.completed)) &&
        r == Response(200, Serialized(items[k]))
    {
      var found := Find(items, id);
      if found.None? {
        return NotFound;
      }
      var k := found.value;
      var todo := items[k];
      if p.action == Some("toggle") {
        todo := todo.(completed := !todo.completed);
      } else {
        if p.title.Some? {
          todo := todo.(title := p.title.value);
        }
        if p.completed.Some? {
          todo := todo.(completed := p.completed.value);
        }
      }
      items := items[k := todo];
      r := Response(200, Serialized(todo));
    }

    /**
     * `TodoDetailView.put`: assign and save `title`, then `completed`, in that
     * order; a missing field, or a field whose save the store rejects (the
     * fields in `refused`), stops the update with 400 after the earlier
     * fields have been saved.
     */
    method Put(id: int, p: Payload, refused: set<Field>) returns (r: Response)
      requires Valid()
      modifies this
      ensures Valid() && nextId == old(nextId)
      ensures Find(old(items), id).None? ==> r == NotFound && items == old(items)
      ensures Find(old(items), id).Some? ==>
        var k := Find(old(items), id).value;
        var o := PutFrom(old(items)[k], PutFields, p, refused);
        items == old(items)[k := o.saved] && r == o.response
    {
      var found := Find(items, id);
      if found.None? {
        return NotFound;
      }
      var k := found.value;
      var todo := items[k];
      var fields := PutFields;
      var i := 0;
      while i < |fields|
        invariant 0 <= i <= |fields|
        invariant Valid() && nextId == old(nextId)
        invariant k < |old(items)| && todo.id == old(items)[k].id
        invariant items == old(items)[k := todo]
        invariant PutFrom(old(items)[k], fields, p, refused) == PutFrom(todo, fields[i..], p, refused)
      {
        var f := fields[i];
        if !Present(p, f) {
          return MissingArgument(f);
        }
        todo := Assign(todo, f, p);
        if f in refused {
          return InvalidPayload;
        }
        items := items[k := todo];
        i := i + 1;
      }
      r := Response(204, NoContent);
    }
  }

  /** Creating on an empty table, then listing with and without a filter. */
  method CreateThenList() {
    var table := new TodoTable();
    var r := table.Create(Payload(None, Some(true), None));
    assert r.status == 400 && table.items == [];

    r := table.Create(Payload(Some("Buy milk"), None, None));
    assert r == Response(201, Msg("todo created"));
    assert table.items == [Todo(1, "Buy milk", false)];
    var listing := table.List(None);
    assert listing.body == Listing(1, "all", [Todo(1, "Buy milk", false)]);
    listing := table.List(Some("completed"));
    assert listing.body == Listing(0, "completed", []);
  }

  /** Toggling, then a put that lacks `completed`, then a complete put. */
  method PatchThenPut() {
    var table := new TodoTable();
    var r := table.Create(Payload(Some("Buy milk"), None, None));
    assert table.items == [Todo(1, "Buy milk", false)];

    r := table.Patch(1, Payload(Some("ignored"), Some(false), Some("toggle")));
    assert r == Response(200, Serialized(Todo(1, "Buy milk", true)));

    var partial := Payload(Some("Buy bread"), None, None);
    PutWithoutCompleted(table.items[0], partial, {});
    r := table.Put(1, partial, {});
    assert r == MissingArgument(Completed);
    assert MissingArgument(Completed).body.error == "Missing argument: completed";
    assert table.items == [Todo(1, "Buy bread", true)];

    var full := Payload(Some("Buy eggs"), Some(false), None);
    PutComplete(table.items[0], full, {});
    r := table.Put(1, full, {});
    assert r == Response(204, NoContent);
    assert table.items == [Todo(1, "Buy eggs", false)];
  }

  /** A second delete of the same id, and a get after it, find nothing. */
  method DeleteTwice() {
    var table := new TodoTable();
    var r := table.Create(Payload(Some("Buy milk"), Some(true), None));
    assert table.items == [Todo(1, "Buy milk", true)];
    r := table.Delete(1);
    assert r == Response(204, NoContent) && table.items == [];
    r := table.Delete(1);
    assert r == NotFound;
    assert table.Retrieve(1) == NotFound;
  }
}
