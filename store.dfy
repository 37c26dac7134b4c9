/**
 * The client-side todo store of app.js: the record type, the order-preserving
 * filter behind the filter buttons, the summary counts, and the three list
 * updates applied after the server confirms a mutation.
 */
module Store {
  import opened Wrappers

  /** A todo as the service returns it: `_id`, `title`, optional `description`, `completed`, `createdAt` (ms). */
  datatype Todo = Todo(id: string, title: string, description: Option<string>, completed: bool, createdAt: int)

  /** The summary badges: total, pending and completed counts. */
  datatype Stats = Stats(total: nat, pending: nat, completed: nat)

  // ---------------------------------------------------------------------------
  // Array.prototype.filter and a reference count
  // ---------------------------------------------------------------------------

  /** Number of elements of `s` satisfying `p`, position by position. */
  function Count<T>(s: seq<T>, p: T -> bool): (n: nat)
    ensures n <= |s|
  {
    if s == [] then 0 else (if p(s[0]) then 1 else 0) + Count(s[1..], p)
  }

  /** `s.filter(keep)`: the elements satisfying `keep`, in their original order. */
  function Filter<T(!new)>(s: seq<T>, keep: T -> bool): (r: seq<T>)
    ensures |r| == Count(s, keep)
    ensures forall x :: x in r <==> x in s && keep(x)
  {
    if s == [] then []
    else
      assert s == [s[0]] + s[1..];
      if keep(s[0]) then [s[0]] + Filter(s[1..], keep) else Filter(s[1..], keep)
  }

  /** Filtering distributes over concatenation: the kept elements stay in their relative order. */
  lemma {:induction false} FilterAppend<T(!new)>(a: seq<T>, b: seq<T>, keep: T -> bool)
    ensures Filter(a + b, keep) == Filter(a, keep) + Filter(b, keep)
  {
    if a == [] {
      assert a + b == b;
    } else {
      assert (a + b)[0] == a[0];
      assert (a + b)[1..] == a[1..] + b;
      FilterAppend(a[1..], b, keep);
    }
  }

  /** A filter that keeps every element returns its input unchanged. */
  lemma {:induction false} FilterKeepsAll<T(!new)>(s: seq<T>, keep: T -> bool)
    requires forall i :: 0 <= i < |s| ==> keep(s[i])
    ensures Filter(s, keep) == s
  {
    if s != [] {
      FilterKeepsAll(s[1..], keep);
      assert s == [s[0]] + s[1..];
    }
  }

  /** Elements satisfying `p` and elements satisfying its negation together make up the whole sequence. */
  lemma {:induction false} CountComplement<T>(s: seq<T>, p: T -> bool, q: T -> bool)
    requires forall x :: q(x) == !p(x)
    ensures Count(s, p) + Count(s, q) == |s|
  {
    if s != [] {
      CountComplement(s[1..], p, q);
    }
  }

  // ---------------------------------------------------------------------------
  // getFilteredTodos
  // ---------------------------------------------------------------------------

  predicate IsDone(t: Todo) { t.completed }

  predicate IsPending(t: Todo) { !t.completed }

  /** Whether `t` belongs in the view selected by `filter`; any value but the two named ones shows everything. */
  predicate Shows(filter: string, t: Todo)
  {
    if filter == "pending" then !t.completed
    else if filter == "completed" then t.completed
    else true
  }

  /** The list the page renders for the current filter (getFilteredTodos). */
  function Visible(todos: seq<Todo>, filter: string): (r: seq<Todo>)
    ensures forall t :: t in r <==> t in todos && Shows(filter, t)
    ensures filter == "pending" ==> |r| == Count(todos, IsPending)
    ensures filter == "completed" ==> |r| == Count(todos, IsDone)
    ensures filter != "pending" && filter != "completed" ==> r == todos
  {
    match filter
    case "pending" => Filter(todos, IsPending)
    case "completed" => Filter(todos, IsDone)
    case _ => todos
  }

  /** The view of a concatenation is the concatenation of the views: the filter preserves order. */
  lemma VisibleAppend(a: seq<Todo>, b: seq<Todo>, filter: string)
    ensures Visible(a + b, filter) == Visible(a, filter) + Visible(b, filter)
  {
    if filter == "pending" {
      FilterAppend(a, b, IsPending);
    } else if filter == "completed" {
      FilterAppend(a, b, IsDone);
    }
  }

  /** A one-element list shows its element exactly when the filter admits it. */
  lemma VisibleSingle(t: Todo, filter: string)
    ensures Visible([t], filter) == if Shows(filter, t) then [t] else []
  {
    assert [t][1..] == [];
  }

  /** After a create, the new todo heads every view that admits it; the rest of the view is as before. */
  lemma {:induction false} VisibleAfterPrepend(t: Todo, s: seq<Todo>, filter: string)
    ensures Visible([t] + s, filter) == if Shows(filter, t) then [t] + Visible(s, filter) else Visible(s, filter)
  {
    VisibleAppend([t], s, filter);
    VisibleSingle(t, filter);
  }

  // ---------------------------------------------------------------------------
  // updateStats
  // ---------------------------------------------------------------------------

  /** The counts shown in the summary badges, always over the full list. */
  function StatsOf(todos: seq<Todo>): (st: Stats)
    ensures st.total == |todos|
    ensures st.completed == Count(todos, IsDone)
    ensures st.pending == Count(todos, IsPending)
    ensures st.pending + st.completed == st.total
  {
    var total := |todos|;
    var completed := |Filter(todos, IsDone)|;
    CountComplement(todos, IsDone, IsPending);
    Stats(total, total - completed, completed)
  }

  /** The badges agree with the lists the filter buttons show. */
  lemma StatsMatchViews(todos: seq<Todo>)
    ensures StatsOf(todos).total == |Visible(todos, "all")|
    ensures StatsOf(todos).pending == |Visible(todos, "pending")|
    ensures StatsOf(todos).completed == |Visible(todos, "completed")|
  {
  }

  /** Creating a todo adds one to the total and one to the count of its own status. */
  lemma StatsAfterPrepend(t: Todo, s: seq<Todo>)
    ensures StatsOf([t] + s).total == StatsOf(s).total + 1
    ensures StatsOf([t] + s).completed == StatsOf(s).completed + (if t.completed then 1 else 0)
    ensures StatsOf([t] + s).pending == StatsOf(s).pending + (if t.completed then 0 else 1)
  {
    assert ([t] + s)[1..] == s;
  }

  // ---------------------------------------------------------------------------
  // Lookups and updates keyed by `_id`
  // ---------------------------------------------------------------------------

  /** No two entries share an `_id`. */
  ghost predicate UniqueIds(s: seq<Todo>)
  {
    forall i, j :: 0 <= i < j < |s| ==> s[i].id != s[j].id
  }

  function HasId(id: string): Todo -> bool
  {
    (t: Todo) => t.id == id
  }

  function OtherId(id: string): Todo -> bool
  {
    (t: Todo) => t.id != id
  }

  /** `todos.find(t => t._id === id)`. */
  function FindById(s: seq<Todo>, id: string): (r: Option<Todo>)
    ensures r.Some? ==> r.value in s && r.value.id == id
    ensures r.None? <==> forall t :: t in s ==> t.id != id
  {
    if s == [] then None
    else if s[0].id == id then Some(s[0])
    else
      assert s == [s[0]] + s[1..];
      FindById(s[1..], id)
  }

  /** `find` returns the first entry with the id. */
  lemma {:induction false} FindByIdFirst(s: seq<Todo>, id: string, i: nat)
    requires i < |s| && s[i].id == id
    requires forall j :: 0 <= j < i ==> s[j].id != id
    ensures FindById(s, id) == Some(s[i])
  {
    if i > 0 {
      FindByIdFirst(s[1..], id, i - 1);
    }
  }

  /** `todos.map(todo => todo._id === id ? updated : todo)`. */
  function ReplaceById(s: seq<Todo>, id: string, updated: Todo): (r: seq<Todo>)
    ensures |r| == |s|
    ensures forall i :: 0 <= i < |s| ==> r[i] == if s[i].id == id then updated else s[i]
  {
    if s == [] then []
    else [if s[0].id == id then updated else s[0]] + ReplaceById(s[1..], id, updated)
  }

  /** Replacing an id that is not in the list leaves the list unchanged. */
  lemma ReplaceAbsent(s: seq<Todo>, id: string, updated: Todo)
    requires forall t :: t in s ==> t.id != id
    ensures ReplaceById(s, id, updated) == s
  {
    var r := ReplaceById(s, id, updated);
    forall i | 0 <= i < |s| ensures r[i] == s[i] {
      assert s[i] in s;
    }
  }

  /** When the server returns the todo under the same id, ids stay unique. */
  lemma ReplaceKeepsIds(s: seq<Todo>, id: string, updated: Todo)
    requires UniqueIds(s) && updated.id == id
    ensures UniqueIds(ReplaceById(s, id, updated))
  {
    var r := ReplaceById(s, id, updated);
    assert forall i :: 0 <= i < |s| ==> r[i].id == s[i].id;
  }

  /** After replacing a present id, a lookup of that id finds the returned todo. */
  lemma ReplaceThenFind(s: seq<Todo>, id: string, updated: Todo, i: nat)
    requires i < |s| && s[i].id == id && updated.id == id
    ensures FindById(ReplaceById(s, id, updated), id) == Some(updated)
  {
    var r := ReplaceById(s, id, updated);
    assert r[i] in r;
    var found := FindById(r, id).value;
    var k :| 0 <= k < |r| && r[k] == found;
    assert s[k].id == id;
  }

  /** `todos.filter(todo => todo._id !== id)`. */
  function RemoveById(s: seq<Todo>, id: string): (r: seq<Todo>)
    ensures forall t :: t in r <==> t in s && t.id != id
    ensures |r| == |s| - Count(s, HasId(id))
  {
    CountComplement(s, HasId(id), OtherId(id));
    Filter(s, OtherId(id))
  }

  /** Removing keeps the survivors in order: the removal distributes over concatenation. */
  lemma RemoveAppend(a: seq<Todo>, b: seq<Todo>, id: string)
    ensures RemoveById(a + b, id) == RemoveById(a, id) + RemoveById(b, id)
  {
    FilterAppend(a, b, OtherId(id));
  }

  /** Removing an id that is not in the list is a no-op. */
  lemma RemoveAbsent(s: seq<Todo>, id: string)
    requires forall t :: t in s ==> t.id != id
    ensures RemoveById(s, id) == s
  {
    forall i | 0 <= i < |s| ensures OtherId(id)(s[i]) {
      assert s[i] in s;
    }
    FilterKeepsAll(s, OtherId(id));
  }

  /** With unique ids an id matches at most one entry. */
  lemma {:induction false} UniqueCountAtMostOne(s: seq<Todo>, id: string)
    requires UniqueIds(s)
    ensures Count(s, HasId(id)) == if exists t :: t in s && t.id == id then 1 else 0
  {
    if s != [] {
      UniqueCountAtMostOne(s[1..], id);
      assert s == [s[0]] + s[1..];
      if s[0].id == id {
        assert forall t :: t in s[1..] ==> t.id != id by {
          forall t | t in s[1..] ensures t.id != id {
            var j :| 0 <= j < |s[1..]| && s[1..][j] == t;
            assert s[j + 1] == t;
          }
        }
      }
    }
  }

  /** Deleting keeps the ids unique: the survivors are a subsequence of the list. */
  lemma {:induction false} RemoveKeepsIds(s: seq<Todo>, id: string)
    requires UniqueIds(s)
    ensures UniqueIds(RemoveById(s, id))
  {
    if s != [] {
      var rest := s[1..];
      assert UniqueIds(rest) by {
        forall i, j | 0 <= i < j < |rest| ensures rest[i].id != rest[j].id {
          assert rest[i] == s[i + 1] && rest[j] == s[j + 1];
        }
      }
      RemoveKeepsIds(rest, id);
      assert s == [s[0]] + rest;
      RemoveAppend([s[0]], rest, id);
      assert [s[0]][1..] == [];
      if s[0].id != id {
        forall u | u in RemoveById(rest, id) ensures u.id != s[0].id {
          var j :| 0 <= j < |rest| && rest[j] == u;
          assert s[j + 1] == u;
        }
        PrependKeepsIds(s[0], RemoveById(rest, id));
      }
    }
  }

  /** On a list with unique ids, deleting a present id removes exactly one entry and keeps the ids unique. */
  lemma RemoveUnique(s: seq<Todo>, id: string)
    requires UniqueIds(s)
    ensures |RemoveById(s, id)| == |s| - (if exists t :: t in s && t.id == id then 1 else 0)
    ensures UniqueIds(RemoveById(s, id))
  {
    UniqueCountAtMostOne(s, id);
    RemoveKeepsIds(s, id);
  }

  /** Prepending a todo whose id is new keeps the ids unique. */
  lemma PrependKeepsIds(t: Todo, s: seq<Todo>)
    requires UniqueIds(s) && forall u :: u in s ==> u.id != t.id
    ensures UniqueIds([t] + s)
  {
    var r := [t] + s;
    forall i, j | 0 <= i < j < |r| ensures r[i].id != r[j].id {
      if i == 0 {
        assert r[j] == s[j - 1] && s[j - 1] in s;
      } else {
        assert r[i] == s[i - 1] && r[j] == s[j - 1];
      }
    }
  }
}
