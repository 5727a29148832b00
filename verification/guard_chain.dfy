/** The middlewares a route runs before its handler, and how Express runs
    them: each one either hands the (possibly changed) request on to the
    next, or stops the chain by answering or by throwing. */
module GuardChain {
  import opened Common
  import opened ErrorHandler
  import opened TodoModel
  import opened AuthMiddleware
  import opened NotDeleted

  datatype Guard =
    | Authenticate              // requireAuth
    | RoleIn(roles: seq<string>) // requireRole(...roles)
    | TaskNotDeleted            // requireNotDelete
    | HideDeleted               // hideDeletedTasks

  /** One middleware: Ok with the request it passes on, or Err with the
      way it stopped. Only requireAuth changes the request, and
      hideDeletedTasks never stops. */
  function Step(g: Guard, req: Request, tasks: map<TaskId, Task>, verify: TokenVerifier): (r: Result<Request, Verdict>)
    ensures r.Err? ==> !r.error.Pass?
    ensures r.Ok? && (g.RoleIn? || g.TaskNotDeleted?) ==> r.value == req
    ensures g.RoleIn? ==> (r.Ok? <==> RequireRole(g.roles, req.user) == Pass)
    ensures g.TaskNotDeleted? ==> (r.Ok? <==> Phase(tasks, req.id) == Live)
    ensures g.HideDeleted? ==> r == Ok(req)
  {
    match g
    case Authenticate => RequireAuth(req, verify)
    case RoleIn(roles) =>
      var v := RequireRole(roles, req.user);
      if v == Pass then Ok(req) else Err(v)
    case TaskNotDeleted =>
      var v := RequireNotDelete(tasks, req.id);
      if v == Pass then Ok(req) else Err(v)
    case HideDeleted => Ok(HideDeletedTasks(req))
  }

  /** The chain in order: the first middleware that stops decides, and the
      handler sees the request as the last middleware left it. */
  function RunChain(chain: seq<Guard>, req: Request, tasks: map<TaskId, Task>, verify: TokenVerifier)
    : (r: Result<Request, Verdict>)
    ensures r.Err? ==> !r.error.Pass?
    ensures chain == [] ==> r == Ok(req)
    ensures chain != [] && Step(chain[0], req, tasks, verify).Err? ==> r == Step(chain[0], req, tasks, verify)
    ensures |chain| == 1 ==> r == Step(chain[0], req, tasks, verify)
    decreases |chain|
  {
    if chain == [] then Ok(req)
    else
      match Step(chain[0], req, tasks, verify)
      case Err(v) => Err(v)
      case Ok(next) => RunChain(chain[1..], next, tasks, verify)
  }

  /** Running two chains one after the other is running their
      concatenation: a middleware of the first that stops decides, wherever
      it sits, and otherwise the second runs on the request the first left.
      With `a` the guards before position i and `b` the rest, this says
      the i-th middleware decides when it is the first to stop. */
  lemma {:induction false} RunChainAppend(a: seq<Guard>, b: seq<Guard>, req: Request, tasks: map<TaskId, Task>,
                                          verify: TokenVerifier)
    ensures RunChain(a + b, req, tasks, verify) ==
      match RunChain(a, req, tasks, verify)
      case Err(v) => Err(v)
      case Ok(next) => RunChain(b, next, tasks, verify)
    decreases |a|
  {
    if a == [] {
      assert a + b == b;
    } else {
      assert (a + b)[0] == a[0] && (a + b)[1..] == a[1..] + b;
      match Step(a[0], req, tasks, verify)
      case Err(_) =>
      case Ok(next) => RunChainAppend(a[1..], b, next, tasks, verify);
    }
  }

  /** The first middleware to stop decides: if the guards before position
      i all pass and the i-th stops, the chain stops as the i-th did; if
      every guard passes, the handler gets the request the last one left. */
  lemma FirstStopDecides(chain: seq<Guard>, i: nat, req: Request, tasks: map<TaskId, Task>, verify: TokenVerifier)
    requires i <= |chain| && RunChain(chain[..i], req, tasks, verify).Ok?
    ensures var next := RunChain(chain[..i], req, tasks, verify).value;
      && (i < |chain| && Step(chain[i], next, tasks, verify).Err? ==>
            RunChain(chain, req, tasks, verify) == Step(chain[i], next, tasks, verify))
      && (i == |chain| ==> RunChain(chain, req, tasks, verify) == Ok(next))
  {
    assert chain == chain[..i] + chain[i..];
    RunChainAppend(chain[..i], chain[i..], req, tasks, verify);
  }

  /** The reply to a chain that stopped: a middleware's own answer, or for
      a throw, whatever the error handler makes of an error without a
      status code. */
  function StopReply<T>(v: Verdict): (r: Reply<T>)
    requires !v.Pass?
    ensures v.Halt? ==> r == Message(v.status, v.message)
    ensures v.Crash? && v.message != "" ==> r == Message(StatusInternal, v.message)
  {
    if v.Halt? then Message(v.status, v.message)
    else HandleError(OtherError(None, Some(v.message)))
  }
}
