/** Tasks that pass their result on to the tasks depending on them (`core/AsyncTask.java`).

    A task's `dependencies` list holds, despite its name, the tasks that depend on it: `dependsOn`
    adds the caller to the list of each task it names, and `notifyDone` calls `take` on every task
    in the list, in order. Results and errors are opaque values, `None` being `null`. The default
    `start` and `take` do nothing; the calls `notifyDone` makes are returned, in order. */
module Tasks {
  import opened Text

  /** One `take(name, result, error)` call, on `dependent`. */
  datatype TakeCall = TakeCall(dependent: AsyncTask, from: string, result: Option<nat>, error: Option<nat>)

  /** How many times `t` occurs in `s`. */
  function Occurrences(s: seq<AsyncTask>, t: AsyncTask): nat
  {
    if s == [] then 0
    else Occurrences(s[..|s| - 1], t) + if s[|s| - 1] == t then 1 else 0
  }

  /** `n` copies of `t`. */
  function Copies(t: AsyncTask, n: nat): (r: seq<AsyncTask>)
    ensures |r| == n && forall k :: 0 <= k < n ==> r[k] == t
  {
    if n == 0 then [] else Copies(t, n - 1) + [t]
  }

  /** The calls `notifyDone(result, error)` of a task named `from` makes, one per entry of its
      list. */
  function TakesOf(deps: seq<AsyncTask>, from: string, result: Option<nat>, error: Option<nat>): (r: seq<TakeCall>)
  {
    if deps == [] then []
    else TakesOf(deps[..|deps| - 1], from, result, error) + [TakeCall(deps[|deps| - 1], from, result, error)]
  }

  /** The tasks a run of calls reaches, in order. */
  function Reached(calls: seq<TakeCall>): (r: seq<AsyncTask>)
    ensures |r| == |calls| && forall k :: 0 <= k < |calls| ==> r[k] == calls[k].dependent
  {
    if calls == [] then [] else Reached(calls[..|calls| - 1]) + [calls[|calls| - 1].dependent]
  }

  class AsyncTask {
    const name: string
    /** The tasks depending on this one, in registration order. */
    var dependencies: seq<AsyncTask>

    constructor(n: string)
      ensures name == n && dependencies == []
    {
      name := n;
      dependencies := [];
    }

    /** `start`: the default does nothing. */
    method Start()
    {
    }

    /** `take`: the default does nothing with the result or error of a task named `from`. */
    method Take(from: string, result: Option<nat>, error: Option<nat>)
    {
    }

    /** `dependsOn(tasks)`: this task joins the list of each task named, once per time it is
        named; a task named twice notifies this one twice. */
    method DependsOn(tasks: seq<AsyncTask>)
      modifies tasks
      ensures forall t :: t in tasks ==> t.dependencies == old(t.dependencies) + Copies(this, Occurrences(tasks, t))
    {
      var i := 0;
      while i < |tasks|
        invariant i <= |tasks|
        invariant forall t :: t in tasks ==> t.dependencies == old(t.dependencies) + Copies(this, Occurrences(tasks[..i], t))
      {
        var task := tasks[i];
        assert tasks[..i + 1][..i] == tasks[..i];
        forall t | t in tasks
          ensures Copies(this, Occurrences(tasks[..i + 1], t)) ==
            Copies(this, Occurrences(tasks[..i], t)) + if t == task then [this] else []
        {
        }
        task.dependencies := task.dependencies + [this];
        i := i + 1;
      }
      assert tasks[..i] == tasks;
    }

    /** `notifyDone(result, error)`: `take` is called on every task of the list, in order, with
        this task's name. */
    method NotifyDone(result: Option<nat>, error: Option<nat>) returns (calls: seq<TakeCall>)
      ensures calls == TakesOf(dependencies, name, result, error)
    {
      calls := [];
      var i := 0;
      while i < |dependencies|
        invariant i <= |dependencies|
        invariant calls == TakesOf(dependencies[..i], name, result, error)
      {
        var dependent := dependencies[i];
        dependent.Take(name, result, error);
        assert dependencies[..i + 1][..i] == dependencies[..i];
        calls := calls + [TakeCall(dependent, name, result, error)];
        i := i + 1;
      }
      assert dependencies[..i] == dependencies;
    }
  }

  /** The calls of `notifyDone` reach exactly the tasks of the list, in order and with their
      repetitions, each told the notifying task's name, result and error. */
  lemma {:induction false} TakesReachList(deps: seq<AsyncTask>, from: string, result: Option<nat>, error: Option<nat>)
    ensures Reached(TakesOf(deps, from, result, error)) == deps
    ensures forall c :: c in TakesOf(deps, from, result, error) ==> c.from == from && c.result == result && c.error == error
  {
    if deps != [] {
      TakesReachList(deps[..|deps| - 1], from, result, error);
      var calls := TakesOf(deps, from, result, error);
      assert calls[..|calls| - 1] == TakesOf(deps[..|deps| - 1], from, result, error);
      assert deps == deps[..|deps| - 1] + [deps[|deps| - 1]];
    }
  }

  lemma {:induction false} OccurrencesAppend(s: seq<AsyncTask>, u: seq<AsyncTask>, t: AsyncTask)
    ensures Occurrences(s + u, t) == Occurrences(s, t) + Occurrences(u, t)
    decreases |u|
  {
    if u == [] {
      assert s + u == s;
    } else {
      assert (s + u)[..|s + u| - 1] == s + u[..|u| - 1];
      OccurrencesAppend(s, u[..|u| - 1], t);
    }
  }

  lemma {:induction false} OccurrencesOfCopies(t: AsyncTask, n: nat)
    ensures Occurrences(Copies(t, n), t) == n
  {
    if n > 0 {
      assert Copies(t, n)[..n - 1] == Copies(t, n - 1);
      OccurrencesOfCopies(t, n - 1);
    }
  }

  /** After `a.dependsOn` named `b` `k` times, the next `notifyDone` of `b` reaches `a` `k` times
      more than it did before. */
  lemma NotifiedPerRegistration(before: seq<AsyncTask>, a: AsyncTask, k: nat, from: string,
                                result: Option<nat>, error: Option<nat>)
    ensures Occurrences(Reached(TakesOf(before + Copies(a, k), from, result, error)), a) ==
      Occurrences(before, a) + k
  {
    TakesReachList(before + Copies(a, k), from, result, error);
    OccurrencesAppend(before, Copies(a, k), a);
    OccurrencesOfCopies(a, k);
  }
}
