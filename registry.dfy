/**
 * The cancellation registry of a processing service: `_processing_tasks`, a
 * dictionary from task ID to "cancel requested". LLMService and
 * OllamaOCRIntegration each own one and drive it with the same four methods;
 * each method runs under the service's lock, so each is one atomic step here.
 */
module Registry {

  /** `_processing_tasks[t] = False`: (re)registers t, not cancelled. */
  function Started(m: map<string, bool>, t: string): (m': map<string, bool>)
    ensures t in m' && !m'[t]
    ensures m'.Keys == m.Keys + {t}
    ensures forall u :: u in m && u != t ==> m'[u] == m[u]
  {
    m[t := false]
  }

  /** `cancel_task(t)`: flags t if it is registered, and changes nothing otherwise. */
  function CancelRequested(m: map<string, bool>, t: string): (m': map<string, bool>)
    ensures m'.Keys == m.Keys
    ensures t in m ==> m'[t]
    ensures forall u :: u in m && u != t ==> m'[u] == m[u]
    ensures t !in m ==> m' == m
  {
    if t in m then m[t := true] else m
  }

  /** `_is_task_cancelled(t)`: an unregistered task reads as not cancelled. */
  predicate Flagged(m: map<string, bool>, t: string)
  {
    t in m && m[t]
  }

  /** `finish_task(t)`: forgets t if present. */
  function Finished(m: map<string, bool>, t: string): (m': map<string, bool>)
    ensures m'.Keys == m.Keys - {t}
    ensures forall u :: u in m' ==> m'[u] == m[u]
  {
    m - {t}
  }

  class TaskRegistry {
    var tasks: map<string, bool>

    constructor ()
      ensures tasks == map[]
    {
      tasks := map[];
    }

    method StartTask(t: string)
      modifies this
      ensures tasks == Started(old(tasks), t)
    {
      tasks := tasks[t := false];
    }

    method CancelTask(t: string) returns (ok: bool)
      modifies this
      ensures ok <==> t in old(tasks)
      ensures tasks == CancelRequested(old(tasks), t)
    {
      if t in tasks {
        tasks := tasks[t := true];
        return true;
      }
      return false;
    }

    method IsTaskCancelled(t: string) returns (c: bool)
      ensures c <==> t in tasks && tasks[t]
    {
      if t !in tasks {
        return false;
      }
      return tasks[t];
    }

    method FinishTask(t: string)
      modifies this
      ensures tasks == Finished(old(tasks), t)
    {
      if t in tasks {
        tasks := tasks - {t};
      }
    }
  }

  // ------------------------------------------------------------ sequences of calls

  datatype Call = Start(t: string) | Cancel(t: string) | Finish(t: string)

  function Step(m: map<string, bool>, call: Call): map<string, bool>
  {
    match call
    case Start(t) => Started(m, t)
    case Cancel(t) => CancelRequested(m, t)
    case Finish(t) => Finished(m, t)
  }

  /** The registry after the calls, one after the other. */
  function Apply(m: map<string, bool>, calls: seq<Call>): map<string, bool>
    decreases |calls|
  {
    if calls == [] then m else Apply(Step(m, calls[0]), calls[1..])
  }

  /** The calls touch only task t. */
  predicate AllAbout(calls: seq<Call>, t: string)
  {
    forall i :: 0 <= i < |calls| ==> calls[i].t == t
  }

  /** Neither starts nor finishes t: what other jobs and cancel requests do while t runs. */
  predicate KeepsRegistration(calls: seq<Call>, t: string)
  {
    forall i :: 0 <= i < |calls| ==> calls[i] != Start(t) && calls[i] != Finish(t)
  }

  /**
   * Once t is started, `_is_task_cancelled(t)` answers true exactly when a
   * cancel_task(t) has arrived since, whatever happens to the other tasks.
   */
  lemma {:induction false} FlagMeansCancelRequested(m: map<string, bool>, t: string, calls: seq<Call>)
    requires KeepsRegistration(calls, t)
    ensures t in Apply(Started(m, t), calls)
    ensures Flagged(Apply(Started(m, t), calls), t) <==> Cancel(t) in calls
    decreases |calls|
  {
    if calls != [] {
      var m1 := Started(m, t);
      var m2 := Step(m1, calls[0]);
      assert KeepsRegistration(calls[1..], t);
      if calls[0] == Cancel(t) {
        FlagStaysOnceSet(m2, t, calls[1..]);
      } else {
        assert t in m2 && !m2[t];
        assert m2 == Started(m2, t);
        FlagMeansCancelRequested(m2, t, calls[1..]);
        assert Cancel(t) in calls <==> Cancel(t) in calls[1..];
      }
    }
  }

  /** A flag, once set, stays set while the task stays registered. */
  lemma {:induction false} FlagStaysOnceSet(m: map<string, bool>, t: string, calls: seq<Call>)
    requires Flagged(m, t)
    requires KeepsRegistration(calls, t)
    ensures Flagged(Apply(m, calls), t)
    decreases |calls|
  {
    if calls != [] {
      var m2 := Step(m, calls[0]);
      assert Flagged(m2, t);
      assert KeepsRegistration(calls[1..], t);
      FlagStaysOnceSet(m2, t, calls[1..]);
    }
  }

  /** Calls about t leave every other task's entry as it was. */
  lemma {:induction false} OthersUntouched(m: map<string, bool>, t: string, calls: seq<Call>, u: string)
    requires AllAbout(calls, t) && u != t
    ensures u in Apply(m, calls) <==> u in m
    ensures u in m ==> Apply(m, calls)[u] == m[u]
    decreases |calls|
  {
    if calls != [] {
      var m2 := Step(m, calls[0]);
      assert AllAbout(calls[1..], t);
      OthersUntouched(m2, t, calls[1..], u);
    }
  }

  /**
   * A job brackets its work with start_task and finish_task: whatever cancel
   * requests for t arrive in between, t is unregistered afterwards and the
   * other tasks' entries are as before.
   */
  lemma BracketedJobLeavesNoTrace(m: map<string, bool>, t: string, during: seq<Call>)
    requires AllAbout(during, t) && KeepsRegistration(during, t)
    ensures Apply(m, [Start(t)] + during + [Finish(t)]) == m - {t}
  {
    var calls := [Start(t)] + during + [Finish(t)];
    ApplyAppend(m, [Start(t)] + during, [Finish(t)]);
    assert ([Start(t)] + during)[1..] == during;
    var mid := Apply(m, [Start(t)] + during);
    assert mid == Apply(Started(m, t), during);
    FlagMeansCancelRequested(m, t, during);
    forall u | u != t
      ensures u in Apply(Started(m, t), during) <==> u in m
      ensures u in m ==> Apply(Started(m, t), during)[u] == m[u]
    {
      OthersUntouched(Started(m, t), t, during, u);
    }
    assert Apply(m, calls) == Finished(mid, t);
  }

  /** finish_task after start_task drops t, whether or not a cancel request arrived in between. */
  lemma FinishUndoesStart(m0: map<string, bool>, t: string, m: map<string, bool>)
    requires m == Started(m0, t) || m == CancelRequested(Started(m0, t), t)
    ensures Finished(m, t) == m0 - {t}
  {
    assert Finished(m, t).Keys == (m0 - {t}).Keys;
  }

  lemma {:induction false} ApplyAppend(m: map<string, bool>, a: seq<Call>, b: seq<Call>)
    ensures Apply(m, a + b) == Apply(Apply(m, a), b)
    decreases |a|
  {
    if a != [] {
      assert (a + b)[0] == a[0];
      assert (a + b)[1..] == a[1..] + b;
      var m2 := Step(m, a[0]);
      ApplyAppend(m2, a[1..], b);
    } else {
      assert a + b == b;
    }
  }

  // ------------------------------------------------------------ one job's queries

  /**
   * A job's queries of `_is_task_cancelled(t)` are numbered 0, 1, 2, ...; the
   * concurrent cancel_task(t) of another thread is modelled as landing just
   * before query number `cancelAt` (a number past the last query: never).
   * Landed is the registry after the first k queries.
   */
  function Landed(m: map<string, bool>, t: string, cancelAt: nat, k: nat): map<string, bool>
  {
    if cancelAt < k then CancelRequested(m, t) else m
  }

  /** The answer query number k gets. */
  predicate SeenCancelled(m: map<string, bool>, t: string, cancelAt: nat, k: nat)
  {
    t in m && (m[t] || cancelAt <= k)
  }

  /**
   * Query number k of task t's job: the concurrent cancel request lands first
   * when it is due, then the flag is read.
   */
  method Checkpoint(reg: TaskRegistry, t: string, cancelAt: nat, k: nat, ghost m0: map<string, bool>)
    returns (c: bool)
    requires reg.tasks == Landed(m0, t, cancelAt, k)
    modifies reg
    ensures reg.tasks == Landed(m0, t, cancelAt, k + 1)
    ensures c == SeenCancelled(m0, t, cancelAt, k)
  {
    if k == cancelAt {
      var _ := reg.CancelTask(t);
    }
    c := reg.IsTaskCancelled(t);
  }
}
