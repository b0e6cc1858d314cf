/** The risk master as it is updated in place: a call with its wait, and the risk thread, whose steps come
    between those of the call. */
module RiskMaster {
  import opened RiskHandshake

  // ---- Steps of the other threads, seen from a call ----

  ghost predicate OthersMove<M>(actions: seq<Action<M>>) {
    forall i | 0 <= i < |actions| :: actions[i].WorkerMoves? || actions[i].ReporterPushes?
  }

  lemma {:induction false} RunAppend<S, M>(y: System<S, M>, routes: Routes<S, M>, a: seq<Action<M>>,
                                           b: seq<Action<M>>)
    ensures Run(y, routes, a + b) == Run(Run(y, routes, a), routes, b)
    decreases |a|
  {
    if a == [] {
      assert a + b == b;
    } else {
      assert (a + b)[1..] == a[1..] + b;
      RunAppend(Step(y, routes, a[0]), routes, a[1..], b);
    }
  }

  lemma RunPush<S, M>(y: System<S, M>, routes: Routes<S, M>, a: seq<Action<M>>, x: Action<M>)
    ensures Run(y, routes, a + [x]) == Step(Run(y, routes, a), routes, x)
  {
    RunAppend(y, routes, a, [x]);
    assert [x][1..] == [];
    var z := Run(y, routes, a);
    assert Run(z, routes, [x]) == Run(Step(z, routes, x), routes, []);
  }

  /** A call is brought no further than its answer by `moves` steps of the risk thread among others. */
  predicate Advanced<S, M(==)>(y: System<S, M>, z: System<S, M>, moves: nat) {
    && z.requester == y.requester && z.answers == y.answers
    && (y.requester.Waiting? && y.async.AsyncDone? ==> z.async.AsyncDone?)
    && (y.requester.Waiting? && !z.async.AsyncDone? ==>
          0 <= StepsLeft(z, y.requester.at) == StepsLeft(y, y.requester.at) - moves)
  }

  lemma OtherAdvances<S, M>(y: System<S, M>, routes: Routes<S, M>, s: S, a: Action<M>)
    requires Inv(y, routes, s) && (a.WorkerMoves? || a.ReporterPushes?)
    ensures Advanced(y, Step(y, routes, a), if a.WorkerMoves? then 1 else 0)
  {
    if y.requester.Waiting? && !y.async.AsyncDone? {
      WaitShrinks(y, routes, s, a);
    }
  }

  /** The other threads leave the call where it is and an answer as it is, and bring the answer nearer by the
      steps of the risk thread. */
  lemma {:induction false} OthersKeep<S, M>(y: System<S, M>, routes: Routes<S, M>, s: S, actions: seq<Action<M>>)
    requires Inv(y, routes, s) && OthersMove(actions)
    ensures var z := Run(y, routes, actions);
            Inv(z, routes, s) && Advanced(y, z, WorkerMovesIn(actions))
    decreases |actions|
  {
    if actions == [] {
      if y.requester.Waiting? && !y.async.AsyncDone? {
        WaitShrinks(y, routes, s, WorkerMoves);
      }
    } else {
      StepKeeps(y, routes, s, actions[0]);
      OtherAdvances(y, routes, s, actions[0]);
      OthersKeep(Step(y, routes, actions[0]), routes, s, actions[1..]);
    }
  }

  /** One more step, by the thread that calls. */
  lemma OwnStep<S, M>(y: System<S, M>, routes: Routes<S, M>, s: S, actions: seq<Action<M>>, before: System<S, M>,
                      x: Action<M>, after: System<S, M>)
    requires before == Run(y, routes, actions) && Inv(before, routes, s) && after == Step(before, routes, x)
    ensures after == Run(y, routes, actions + [x]) && Inv(after, routes, s)
  {
    RunPush(y, routes, actions, x);
    StepKeeps(before, routes, s, x);
  }

  lemma AnswerIsVerdict<S, M>(y: System<S, M>, routes: Routes<S, M>, s: S)
    requires Inv(y, routes, s) && y.answers != []
    ensures var a := y.answers[|y.answers| - 1];
            && a.at < |y.pushed| && y.pushed[a.at] == a.req
            && a.text == Outcome(Handle(routes, Sequential(routes, s, y.pushed[..a.at]), a.req).1, a.given)
  {
    assert AnswerStands(y, routes, s, y.answers[|y.answers| - 1]);
  }

  class RiskMasterImpl<!S, !M> {
    const routes: Routes<S, M>
    var async: Async
    var result: string
    var queue: seq<Msg<M>>
    var risk: S
    var worker: Worker<M>
    // Where the requester is, and the history.
    ghost var requester: Requester<M>
    ghost var pushed: seq<Msg<M>>
    ghost var handled: nat
    ghost var answers: seq<Answer<M>>

    constructor (routes: Routes<S, M>, risk: S)
      ensures this.routes == routes && View() == Initial(risk)
    {
      this.routes, this.risk := routes, risk;
      async, result, queue := AsyncIdle, "", [];
      requester, worker := Ready, Polling;
      pushed, handled, answers := [], 0, [];
    }

    ghost function View(): System<S, M>
      reads this
    {
      System(async, result, queue, requester, worker, risk, pushed, handled, answers)
    }

    // ---- The requester's thread ----

    /** Steps the other threads make between two of a call, `before` being those made since `y`. */
    method Meanwhile(steps: seq<Action<M>>, ghost y: System<S, M>, ghost before: seq<Action<M>>, ghost s: S)
        returns (ghost after: seq<Action<M>>)
      requires Inv(View(), routes, s) && OthersMove(steps) && View() == Run(y, routes, before)
      modifies this
      ensures after == before + steps && View() == Run(y, routes, after)
      ensures Inv(View(), routes, s) && requester == old(requester) && answers == old(answers)
      ensures old(requester.Waiting?) && !async.AsyncDone? ==>
                0 <= StepsLeft(View(), requester.at) == old(StepsLeft(View(), requester.at)) - WorkerMovesIn(steps)
    {
      OthersKeep(View(), routes, s, steps);
      RunAppend(y, routes, before, steps);
      after := before + steps;
      for i := 0 to |steps|
        invariant Run(View(), routes, steps[i..]) == Run(old(View()), routes, steps)
      {
        assert steps[i..][0] == steps[i] && steps[i..][1..] == steps[i + 1..];
        match steps[i] {
          case WorkerMoves => RunOneStep();
          case ReporterPushes(report) => PushReport(report);
          case _ => assert false;
        }
      }
    }

    /** The threads take turns with `meanwhile(n)` between two steps of a call; the risk thread makes a step at
        least between two looks at the state. */
    static ghost predicate TakesTurns(meanwhile: nat -> seq<Action<M>>) {
      forall n :: OthersMove(meanwhile(n)) && (n >= 2 ==> WorkerMovesIn(meanwhile(n)) > 0)
    }

    /** The wait, which ends as the risk thread does not stop. */
    method AwaitDone(meanwhile: nat -> seq<Action<M>>, ghost y: System<S, M>, ghost before: seq<Action<M>>, ghost s: S)
        returns (n: nat, ghost after: seq<Action<M>>)
      requires Inv(View(), routes, s) && View() == Run(y, routes, before)
      requires requester.Waiting? && TakesTurns(meanwhile)
      modifies this
      ensures n >= 2 && async == AsyncDone && requester == old(requester) && answers == old(answers)
      ensures Inv(View(), routes, s) && View() == Run(y, routes, after)
    {
      n, after := 2, before;
      while async != AsyncDone
        invariant n >= 2 && requester == old(requester) && answers == old(answers)
        invariant Inv(View(), routes, s) && View() == Run(y, routes, after)
        decreases if async == AsyncDone then -1 else StepsLeft(View(), requester.at)
      {
        OwnStep(y, routes, s, after, View(), RequesterMoves, View());
        WaitShrinks(View(), routes, s, WorkerMoves);
        after := Meanwhile(meanwhile(n), y, after + [RequesterMoves], s);
        n := n + 1;
      }
    }

    /** The end of a call: takes over the result and gives the state back. */
    method TakeResult(req: Msg<M>, given: string, between: seq<Action<M>>, ghost at: nat, ghost y: System<S, M>,
                      ghost before: seq<Action<M>>, ghost s: S)
        returns (text: string, ghost after: seq<Action<M>>)
      requires Inv(View(), routes, s) && View() == Run(y, routes, before) && OthersMove(between)
      requires requester == Seen(req, given, at)
      modifies this
      ensures requester.Ready? && async == AsyncIdle && answers == old(answers) + [Answer(req, at, given, text)]
      ensures Inv(View(), routes, s) && View() == Run(y, routes, after)
    {
      ghost var x := View();
      text := given;
      if result != "" {
        text := result;
      }
      requester := Copied(req, given, at, text);
      OwnStep(y, routes, s, before, x, RequesterMoves, View());
      after := Meanwhile(between, y, before + [RequesterMoves], s);
      x := View();
      async, requester, answers := AsyncIdle, Ready, answers + [Answer(req, at, given, text)];
      OwnStep(y, routes, s, after, x, RequesterMoves, View());
      after := after + [RequesterMoves];
    }

    /** The start of a call that found the state idle: marks it running and pushes the request. */
    method PostRequest(req: Msg<M>, given: string, meanwhile: nat -> seq<Action<M>>, ghost y: System<S, M>, ghost s: S)
        returns (ghost at: nat, ghost after: seq<Action<M>>)
      requires IsRequest(req) && requester.Ready? && TakesTurns(meanwhile) && async == AsyncIdle
      requires Inv(View(), routes, s) && View() == y
      modifies this
      ensures requester == Waiting(req, given, at) && answers == old(answers)
      ensures Inv(View(), routes, s) && View() == Run(y, routes, after)
    {
      ghost var x := View();
      requester := Claimed(req, given);
      OwnStep(y, routes, s, [], x, Call(req, given), View());
      after := Meanwhile(meanwhile(0), y, [] + [Call(req, given)], s);
      x := View();
      async, requester := AsyncRunning, Marked(req, given);
      OwnStep(y, routes, s, after, x, RequesterMoves, View());
      after := Meanwhile(meanwhile(1), y, after + [RequesterMoves], s);
      x := View();
      at := |pushed|;
      queue, pushed, requester := queue + [req], pushed + [req], Waiting(req, given, at);
      OwnStep(y, routes, s, after, x, RequesterMoves, View());
      after := after + [RequesterMoves];
    }

    /** One call. It throws exactly when it finds another state than idle; else it is left with the verdict on
        its own request, whatever the other threads do between its steps. */
    method HandleRequest(req: Msg<M>, given: string, meanwhile: nat -> seq<Action<M>>, ghost s: S)
        returns (threw: bool, text: string, ghost actions: seq<Action<M>>)
      requires IsRequest(req) && requester.Ready? && TakesTurns(meanwhile)
      requires async == AsyncIdle ==> Inv(View(), routes, s)
      modifies this
      ensures View() == Run(old(View()), routes, actions)
      ensures threw <==> old(async) != AsyncIdle
      ensures !threw ==>
                && Inv(View(), routes, s) && requester.Ready? && async == AsyncIdle
                && exists at: nat :: at < |pushed| && pushed[at] == req
                     && answers == old(answers) + [Answer(req, at, given, text)]
                     && text == Outcome(Handle(routes, Sequential(routes, s, pushed[..at]), req).1, given)
    {
      ghost var y := View();
      threw, text := async != AsyncIdle, given;
      if threw {
        requester := RequesterThrew;
        actions := [] + [Call(req, given)];
        RunPush(y, routes, [], Call(req, given));
        return;
      }
      ghost var at;
      at, actions := PostRequest(req, given, meanwhile, y, s);
      var n;
      n, actions := AwaitDone(meanwhile, y, actions, s);
      ghost var x := View();
      requester := Seen(req, given, at);
      OwnStep(y, routes, s, actions, x, RequesterMoves, View());
      actions := Meanwhile(meanwhile(n), y, actions + [RequesterMoves], s);
      text, actions := TakeResult(req, given, meanwhile(n + 1), at, y, actions, s);
      AnswerIsVerdict(View(), routes, s);
    }

    /** A reporter's thread pushes a response, a withdrawal's response or a fill. */
    method PushReport(report: Msg<M>)
      modifies this
      ensures View() == Step(old(View()), routes, ReporterPushes(report))
    {
      if !IsRequest(report) {
        queue, pushed := queue + [report], pushed + [report];
      }
    }

    // ---- The risk thread ----

    method CheckRiskers(riskers: seq<Risker<S, M>>, m: Msg<M>) returns (error: string)
      modifies `risk
      ensures (risk, error) == CheckAll(old(risk), riskers, m)
    {
      error := "";
      var i := 0;
      while i < |riskers|
        invariant 0 <= i <= |riskers| && error == ""
        invariant CheckAll(risk, riskers[i..], m) == CheckAll(old(risk), riskers, m)
      {
        assert riskers[i..][0] == riskers[i] && riskers[i..][1..] == riskers[i + 1..];
        var (s, e) := riskers[i].check(risk, m);
        risk, error := s, e;
        if error != "" {
          return;
        }
        i := i + 1;
      }
    }

    method PassRiskers(riskers: seq<Risker<S, M>>, m: Msg<M>)
      modifies `risk
      ensures risk == PassAll(old(risk), riskers, m)
    {
      for i := 0 to |riskers|
        invariant PassAll(risk, riskers[i..], m) == PassAll(old(risk), riskers, m)
      {
        assert riskers[i..][0] == riskers[i] && riskers[i..][1..] == riskers[i + 1..];
        risk := riskers[i].pass(risk, m);
      }
    }

    method ReportRiskers(riskers: seq<Risker<S, M>>, m: Msg<M>)
      modifies `risk
      ensures risk == ReportAll(old(risk), riskers, m)
    {
      for i := 0 to |riskers|
        invariant ReportAll(risk, riskers[i..], m) == ReportAll(old(risk), riskers, m)
      {
        assert riskers[i..][0] == riskers[i] && riskers[i..][1..] == riskers[i + 1..];
        risk := riskers[i].report(risk, m);
      }
    }

    /** Asks the riskers about a request, or tells them of a report. */
    method HandleMessage(m: Msg<M>) returns (error: string)
      modifies `risk
      ensures (risk, error) == Handle(routes, old(risk), m)
    {
      var (s, riskers) := routes(risk, m.fundId);
      risk, error := s, "";
      if IsRequest(m) {
        error := CheckRiskers(riskers, m);
        if error == "" {
          PassRiskers(riskers, m);
        } else if error[0] != '[' {
          error := PREFIX + error;
        }
      } else {
        ReportRiskers(riskers, m);
      }
    }

    method RunOneStep()
      modifies this
      ensures View() == Step(old(View()), routes, WorkerMoves)
    {
      match worker {
        case Polling =>
          if queue != [] {
            worker, queue := Holding(queue[0]), queue[1..];
          }
        case Holding(m) =>
          var error := HandleMessage(m);
          handled := handled + 1;
          worker := if IsRequest(m) then Judged(error) else Polling;
        case Judged(error) =>
          worker := if async == AsyncRunning then Cleared(error) else WorkerThrew;
        case Cleared(error) =>
          result, worker := error, Stored;
        case Stored =>
          async, worker := AsyncDone, Polling;
        case WorkerThrew =>
      }
    }
  }
}
