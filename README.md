# Todo API handlers, modelled in Dafny

This project models the request handlers of a small Django todo API
(`django_todos/todos_app/api.py`). `TodoListView` lists todos, filtered by
a `status` query parameter, and creates them. `TodoDetailView` reads,
deletes, patches and puts a single todo by id. The database is replaced by
an in-memory table: a class `TodoApi.TodoTable` holding the stored items
in insertion order and the counter that hands out fresh ids. Each handler
is a member of that table. It returns an HTTP status code and an abstract
response body.

- `todos.dfy`, module `Todos`: the values. A stored `Todo(id, title,
  completed)`, which is also its serialised form. A parsed JSON `Payload`
  with optional `title`, `completed` and `action`. The `Response`/`Body`
  shapes. The pure logic of the handlers: `Filter` for the status filter,
  `Find` for lookup by id, and `PutFrom`, which states the field loop of
  put as a recursive function.
- `api.dfy`, module `TodoApi`: the table class and its handlers. `List`
  and `Retrieve` only read, so they are functions. `Create`, `Delete`,
  `Patch` and `Put` change the table, so they are methods. `Put` keeps the
  source's loop over the field list `[title, completed]`, saving after each
  field. `CreateThenList`, `PatchThenPut` and `DeleteTwice` are client
  sessions. They show what the contracts let a caller conclude.

The table invariant `Valid()` says that ids are positive, strictly
increasing in store order, and below the next id. Every mutating handler
keeps it. So created ids are fresh, ids are unique, and a delete leaves no
item with the deleted id.

Payload conventions: `None` stands for a key absent from the JSON body.
`Some(v)` stands for a key present with value `v`. The handlers test only
presence (`'title' in payload`), so a key present with a JSON `null` is
present here too. The model types it as `string`/`bool`.

## Model

| member | source | states |
|---|---|---|
| `TodoApi.TodoTable.List` | django_todos/todos_app/api.py:18-33 | status 200; `filter` echoes the `status` parameter, or `all` if it is absent; `count` is the length of `results`; `completed` selects `Filter(items, true)`, `active` selects `Filter(items, false)`, any other label returns every stored item unfiltered |
| `Todos.Filter` | django_todos/todos_app/api.py:22-25 | the filtered list is no longer than the table, and every item in it has the requested flag |
| `Todos.FilterCounts` | django_todos/todos_app/api.py:22-25 | each item with the flag appears in the filter result as many times as in the table; items without the flag never appear |
| `Todos.FilterInOrder` | django_todos/todos_app/api.py:19-25 | the filter result is a subsequence of the table, so it keeps store order |
| `Todos.FilterCharacterized` | django_todos/todos_app/api.py:22-25 | any in-order selection that holds only flagged items, each as often as the table does, equals `Filter`; so the filtered list is exactly the flagged items in store order |
| `Todos.FilterPartition` | django_todos/todos_app/api.py:22-25 | the `completed` and `active` listings together hold every stored item exactly once (lengths add up, multisets add up to the table) |
| `Todos.FilterAppend` | django_todos/todos_app/api.py:22-25 | after an item is added at the end of the table, a filtered listing is the old listing plus that item if its flag matches |
| `TodoApi.TodoTable.Create` | django_todos/todos_app/api.py:35-46 | without `title`: 400 `not a valid format`, table unchanged; with `title`: 201 `todo created`, exactly one item appended, with a fresh id (different from every stored id), that title, and `completed` from the payload or false; existing items unchanged; invariant kept |
| `Todos.Find` | django_todos/todos_app/api.py:51 | the lookup used by every detail handler: it returns the first position holding that id, or nothing exactly when no stored item has that id |
| `TodoApi.TodoTable.Retrieve` | django_todos/todos_app/api.py:50-53 | 404 exactly when no stored item has the id; otherwise 200 with a stored item that has that id |
| `TodoApi.TodoTable.Delete` | django_todos/todos_app/api.py:55-58 | missing id: 404, table unchanged; otherwise 204 with empty body, and only that item is removed; afterwards no item has the id |
| `TodoApi.TodoTable.Patch` | django_todos/todos_app/api.py:61-76 | missing id: 404, table unchanged; `action == "toggle"`: the flag is negated and the title kept, whatever else the payload carries; otherwise each of title and completed is overwritten only if present; other items and the id unchanged; 200 with the body equal to the stored item after the update |
| `TodoApi.TodoTable.Put` | django_todos/todos_app/api.py:78-95 | missing id: 404, table unchanged; otherwise the stored item becomes what the field loop last saved and the response is the loop's response (`PutFrom` over `[title, completed]`), whose cases the four `Put…` lemmas below spell out; invariant kept |
| `Todos.PutFrom` | django_todos/todos_app/api.py:82-93 | the loop answers 204 exactly when every field in the list is present and accepted, and 400 otherwise; the id never changes; fields outside the list are untouched; on 204 every listed field holds the payload's value |
| `Todos.Assign` | django_todos/todos_app/api.py:88 | setting one field changes that field to the payload value and leaves the id and the other field alone |
| `Todos.PutWithoutTitle` | django_todos/todos_app/api.py:82-86 | a put without `title` answers 400 `Missing argument: title` and saves nothing |
| `Todos.PutWithoutCompleted` | django_todos/todos_app/api.py:82-89 | a put with `title` but no `completed` answers 400 `Missing argument: completed`, yet the new title is already saved |
| `Todos.PutRefused` | django_todos/todos_app/api.py:87-93 | a field whose save the store rejects answers 400 `Provided payload is not valid`; fields saved before it stay saved |
| `Todos.PutComplete` | django_todos/todos_app/api.py:82-95 | a put with both fields, both accepted, sets both and answers 204 with an empty body |

## Left out

- CSRF exemption and Django's `View` dispatch (api.py:11-14) are framework plumbing. Each handler is called directly.
- `json.loads` of request bodies, and its uncaught failure on malformed JSON: the handlers take an already-parsed `Payload`. A payload value of the wrong JSON type cannot be expressed, because the fields are typed.
- `serialize_todo_as_json` (`todos_app/serializers.py`) is not part of this model. The serialised form is taken to be the `Todo` record itself.
- The `ValueError` raised by the ORM while saving in put (api.py:90-93) depends on field coercion that cannot be seen here. It is modelled by a parameter `refused`, the set of fields whose save the store rejects. The in-memory assignment happens, that save fails, and the earlier saves persist.
- Patch and create have no error handling around `save()`/`create()`; a store failure there would be an uncaught server error. It is not modelled.
- Database id generation: ids come from a counter that starts at 1 and only grows. A database may reuse the id of a deleted last row (SQLite without AUTOINCREMENT does); the model does not.
- The store's natural order is taken to be insertion order. `Todo.objects.all()` has no `order_by`, so the database is free to return another order.
- Response construction beyond the status code and an abstract body. `get_object_or_404` raises `Http404`, whose page is `NotFoundPage` here.
- Concurrency between requests. The handlers do no coordination of their own.
- `TodoApi.TodoTable.Create`: states that the counter grows (`nextId > old(nextId)`), not by how much, because only freshness is observable.
