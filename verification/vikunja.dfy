/** internal/vikunja's TasksDueToday: a bounded walk over the pages of a task list. */
module Vikunja {
  import opened Base

  const TASKS_PER_PAGE := 50
  const TASKS_MAX_PAGES := 10

  datatype Task = Task(id: int, title: string, priority: int, dueDate: Option<int>)

  /** How the server answers each page request, pages counted from 1; None is an error. */
  type Server = int -> Option<seq<Task>>

  /** The first k pages one after another. */
  function FirstPages(server: Server, k: nat): seq<Task>
    requires forall p :: 1 <= p <= k ==> server(p).Some?
  {
    if k == 0 then [] else FirstPages(server, k - 1) + server(k).value
  }

  /** What a walk of the given number of requests amounts to: it went on after full pages only, stopped
      at a short page, an error or the page limit, and returns all pages it saw unless one failed. */
  ghost predicate Walked(server: Server, requests: nat, out: Option<seq<Task>>) {
    && 1 <= requests <= TASKS_MAX_PAGES
    && (forall p :: 1 <= p < requests ==> server(p).Some? && |server(p).value| >= TASKS_PER_PAGE)
    && (requests < TASKS_MAX_PAGES && server(requests).Some? ==> |server(requests).value| < TASKS_PER_PAGE)
    && out == if server(requests).None? then None else Some(FirstPages(server, requests))
  }

  method TasksDueToday(server: Server) returns (out: Option<seq<Task>>, requests: nat)
    ensures Walked(server, requests, out)
  {
    var tasks := [];
    requests := 0;
    for page := 1 to TASKS_MAX_PAGES + 1
      invariant requests == page - 1
      invariant forall p :: 1 <= p < page ==> server(p).Some? && |server(p).value| >= TASKS_PER_PAGE
      invariant tasks == FirstPages(server, page - 1)
    {
      requests := page;
      var batch := server(page);
      if batch.None? {
        return None, page;
      }
      for i := 0 to |batch.value|
        invariant tasks == FirstPages(server, page - 1) + batch.value[..i]
      {
        tasks := tasks + [batch.value[i]];
      }
      assert batch.value[..|batch.value|] == batch.value;
      if |batch.value| < TASKS_PER_PAGE {
        return Some(tasks), page;
      }
    }
    out := Some(tasks);
  }

  /** A server that keeps one list and cuts it into full pages. */
  function PageOf(list: seq<Task>, page: int): seq<Task> {
    var from := TASKS_PER_PAGE * (page - 1);
    if from < 0 || from >= |list| then []
    else if from + TASKS_PER_PAGE <= |list| then list[from..from + TASKS_PER_PAGE]
    else list[from..]
  }

  function StableServer(list: seq<Task>): Server {
    page => Some(PageOf(list, page))
  }

  function Min(a: int, b: int): int {
    if a < b then a else b
  }

  lemma {:induction false} PagesArePrefix(list: seq<Task>, k: nat)
    ensures FirstPages(StableServer(list), k) == list[..Min(|list|, TASKS_PER_PAGE * k)]
  {
    if k > 0 {
      PagesArePrefix(list, k - 1);
    }
  }

  /** Against a stable list of any length n the walk makes min(10, n/50 + 1) requests and returns exactly
      the first min(n, 500) tasks. */
  lemma StableList(list: seq<Task>, requests: nat, out: Option<seq<Task>>)
    requires Walked(StableServer(list), requests, out)
    ensures requests == if |list| < 450 then |list| / 50 + 1 else 10
    ensures out == Some(if |list| <= 500 then list else list[..500])
  {
    PagesArePrefix(list, requests);
    if requests > 1 {
      assert |PageOf(list, requests - 1)| >= TASKS_PER_PAGE;
    }
    if requests < TASKS_MAX_PAGES {
      assert |PageOf(list, requests)| < TASKS_PER_PAGE;
    }
    if |list| <= TASKS_PER_PAGE * TASKS_MAX_PAGES {
      assert list[..|list|] == list;
    } else {
      assert |out.value| < |list|;
    }
  }
}
