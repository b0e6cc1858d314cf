/** The requester, the reporters and the risk thread around one queue and one atomic state, as an
    interleaving of their single steps. */
module RiskHandshake {
  datatype Kind = OrderReq | WithdrawReq | OrderRep | WithdrawRep | TradeKnock

  datatype Msg<M> = Msg(kind: Kind, fundId: string, body: M)

  /** One risk control. `S` is the state of all of them; an empty text is consent. */
  datatype Risker<!S, !M> = Risker(
    check: (S, Msg<M>) -> (S, string),
    pass: (S, Msg<M>) -> S,
    report: (S, Msg<M>) -> S)

  /** The riskers of a fund; asking for an unknown fund sets it up. */
  type Routes<!S, !M> = (S, string) -> (S, seq<Risker<S, M>>)

  predicate IsRequest<M>(m: Msg<M>) {
    m.kind.OrderReq? || m.kind.WithdrawReq?
  }

  // ---- One message ----

  const PREFIX := "[FAN-RISK-Error] "

  /** The riskers are asked in turn, up to the first that objects. */
  function CheckAll<S, M>(s: S, riskers: seq<Risker<S, M>>, m: Msg<M>): (S, string) {
    if riskers == [] then (s, "")
    else
      var (t, error) := riskers[0].check(s, m);
      if error != "" then (t, error) else CheckAll(t, riskers[1..], m)
  }

  function PassAll<S, M>(s: S, riskers: seq<Risker<S, M>>, m: Msg<M>): S {
    if riskers == [] then s else PassAll(riskers[0].pass(s, m), riskers[1..], m)
  }

  function ReportAll<S, M>(s: S, riskers: seq<Risker<S, M>>, m: Msg<M>): S {
    if riskers == [] then s else ReportAll(riskers[0].report(s, m), riskers[1..], m)
  }

  function Labelled(error: string): string {
    if error != "" && error[0] != '[' then PREFIX + error else error
  }

  /** What the risk thread makes of a message; the text is the verdict on a request. */
  function Handle<S, M>(routes: Routes<S, M>, s: S, m: Msg<M>): (S, string) {
    var (t, riskers) := routes(s, m.fundId);
    if IsRequest(m) then
      var (u, error) := CheckAll(t, riskers, m);
      (if error == "" then PassAll(u, riskers, m) else u, Labelled(error))
    else (ReportAll(t, riskers, m), "")
  }

  /** The state after riskers were asked in turn. */
  function Asked<S, M>(s: S, riskers: seq<Risker<S, M>>, m: Msg<M>): S {
    if riskers == [] then s else Asked(riskers[0].check(s, m).0, riskers[1..], m)
  }

  predicate Consents<S, M>(s: S, riskers: seq<Risker<S, M>>, m: Msg<M>, i: nat)
    requires i < |riskers|
  {
    riskers[i].check(Asked(s, riskers[..i], m), m).1 == ""
  }

  /** A request passes exactly when every risker consents, each in the state its predecessors left. */
  lemma {:induction false} PassNeedsEveryConsent<S, M>(s: S, riskers: seq<Risker<S, M>>, m: Msg<M>)
    ensures CheckAll(s, riskers, m).1 == "" <==> forall i | 0 <= i < |riskers| :: Consents(s, riskers, m, i)
  {
    if riskers != [] {
      var t, rest := riskers[0].check(s, m).0, riskers[1..];
      PassNeedsEveryConsent(t, rest, m);
      assert riskers[..0] == [];
      assert Consents(s, riskers, m, 0) <==> riskers[0].check(s, m).1 == "";
      forall i: nat | i < |rest| ensures Consents(s, riskers, m, i + 1) <==> Consents(t, rest, m, i) {
        assert riskers[..i + 1][1..] == rest[..i];
      }
      assert forall i | 1 <= i < |riskers| :: Consents(s, riskers, m, i) <==> Consents(t, rest, m, i - 1);
    }
  }

  /** A verdict is labelled: it is empty or starts with a bracket, and it is empty exactly when the
      riskers passed the request. */
  lemma VerdictIsLabelled<S, M>(routes: Routes<S, M>, s: S, m: Msg<M>)
    requires IsRequest(m)
    ensures var v, (t, riskers) := Handle(routes, s, m).1, routes(s, m.fundId);
            var objection := CheckAll(t, riskers, m).1;
            && (v == "" <==> objection == "")
            && (v != "" ==> v[0] == '[')
            && (v == objection || v == "[FAN-RISK-Error] " + objection)
            && (v == objection <==> objection == "" || objection[0] == '[')
  {}

  /** The first risker that objects decides: it is the last one asked, and its objection is the result. */
  lemma {:induction false} FirstObjectionDecides<S, M>(s: S, riskers: seq<Risker<S, M>>, m: Msg<M>, i: nat)
    requires i < |riskers| && !Consents(s, riskers, m, i)
    requires forall k | 0 <= k < i :: Consents(s, riskers, m, k)
    ensures CheckAll(s, riskers, m) == riskers[i].check(Asked(s, riskers[..i], m), m)
  {
    if i > 0 {
      var t, rest := riskers[0].check(s, m).0, riskers[1..];
      assert riskers[..0] == [];
      assert Consents(s, riskers, m, 0) ==> riskers[0].check(s, m).1 == "";
      forall k: nat | k < i ensures Consents(t, rest, m, k) <==> Consents(s, riskers, m, k + 1) {
        assert riskers[..k + 1][1..] == rest[..k];
      }
      assert riskers[..i][1..] == rest[..i - 1];
      FirstObjectionDecides(t, rest, m, i - 1);
    } else {
      assert riskers[..0] == [];
    }
  }

  /** Without an objection all are asked, one after the other; and all are told of a pass or a report so. */
  lemma {:induction false} ToldInOrder<S, M>(s: S, riskers: seq<Risker<S, M>>, last: Risker<S, M>, m: Msg<M>)
    ensures PassAll(s, riskers + [last], m) == last.pass(PassAll(s, riskers, m), m)
    ensures ReportAll(s, riskers + [last], m) == last.report(ReportAll(s, riskers, m), m)
    ensures CheckAll(s, riskers, m).1 == "" ==>
              CheckAll(s, riskers + [last], m) == last.check(CheckAll(s, riskers, m).0, m)
    ensures PassAll(s, [], m) == ReportAll(s, [], m) == s && CheckAll(s, [], m) == (s, "")
  {
    var all := riskers + [last];
    if riskers == [] {
      assert all[0] == last && all[1..] == [];
    } else {
      assert all[0] == riskers[0] && all[1..] == riskers[1..] + [last];
      ToldInOrder(riskers[0].pass(s, m), riskers[1..], last, m);
      ToldInOrder(riskers[0].report(s, m), riskers[1..], last, m);
      ToldInOrder(riskers[0].check(s, m).0, riskers[1..], last, m);
    }
  }

  /** Messages handled one after the other. */
  function Sequential<S, M>(routes: Routes<S, M>, s: S, msgs: seq<Msg<M>>): S {
    if msgs == [] then s
    else Handle(routes, Sequential(routes, s, msgs[..|msgs| - 1]), msgs[|msgs| - 1]).0
  }

  function Verdict<S, M>(routes: Routes<S, M>, s: S, msgs: seq<Msg<M>>, at: nat): string
    requires at < |msgs|
  {
    Handle(routes, Sequential(routes, s, msgs[..at]), msgs[at]).1
  }

  /** The text a caller ends up with: its own when there is no verdict against it. */
  function Outcome(verdict: string, given: string): string {
    if verdict != "" then verdict else given
  }

  // ---- The threads ----

  datatype Async = AsyncIdle | AsyncRunning | AsyncDone

  /** Where the requester is in its call; `at` is the place of its request among all pushed. */
  datatype Requester<M> =
    | Ready
    | Claimed(req: Msg<M>, given: string)
    | Marked(req: Msg<M>, given: string)
    | Waiting(req: Msg<M>, given: string, at: nat)
    | Seen(req: Msg<M>, given: string, at: nat)
    | Copied(req: Msg<M>, given: string, at: nat, text: string)
    | RequesterThrew

  datatype Worker<M> =
    | Polling
    | Holding(msg: Msg<M>)
    | Judged(error: string)
    | Cleared(error: string)
    | Stored
    | WorkerThrew

  /** An answered call: its request and the request's place among all pushed, the text the caller
      gave and the text it was left with. */
  datatype Answer<M> = Answer(req: Msg<M>, at: nat, given: string, text: string)

  /** The shared state, the two threads and the riskers' state; then the history: all messages in
      the order pushed, how many of them were handled, and the answered calls. */
  datatype System<S, M> = System(
    async: Async, result: string, queue: seq<Msg<M>>,
    requester: Requester<M>, worker: Worker<M>, risk: S,
    pushed: seq<Msg<M>>, handled: nat, answers: seq<Answer<M>>)

  function Initial<S, M>(s: S): System<S, M> {
    System(AsyncIdle, "", [], Ready, Polling, s, [], 0, [])
  }

  datatype Action<M> =
    | Call(req: Msg<M>, given: string)
    | RequesterMoves
    | ReporterPushes(report: Msg<M>)
    | WorkerMoves

  function Push<S, M>(y: System<S, M>, m: Msg<M>): System<S, M> {
    y.(queue := y.queue + [m], pushed := y.pushed + [m])
  }

  function RequesterStep<S, M>(y: System<S, M>): System<S, M> {
    match y.requester
    case Claimed(req, given) => y.(async := AsyncRunning, requester := Marked(req, given))
    case Marked(req, given) => Push(y, req).(requester := Waiting(req, given, |y.pushed|))
    case Waiting(req, given, at) => if y.async.AsyncDone? then y.(requester := Seen(req, given, at)) else y
    case Seen(req, given, at) =>
      y.(requester := Copied(req, given, at, if y.result != "" then y.result else given))
    case Copied(req, given, at, text) =>
      y.(async := AsyncIdle, requester := Ready, answers := y.answers + [Answer(req, at, given, text)])
    case _ => y
  }

  function WorkerStep<S, M>(y: System<S, M>, routes: Routes<S, M>): System<S, M> {
    match y.worker
    case Polling => if y.queue == [] then y else y.(queue := y.queue[1..], worker := Holding(y.queue[0]))
    case Holding(m) =>
      var (s, error) := Handle(routes, y.risk, m);
      y.(risk := s, handled := y.handled + 1, worker := if IsRequest(m) then Judged(error) else Polling)
    case Judged(error) =>
      y.(worker := if y.async.AsyncRunning? then Cleared(error) else WorkerThrew)
    case Cleared(error) => y.(result := error, worker := Stored)
    case Stored => y.(async := AsyncDone, worker := Polling)
    case WorkerThrew => y
  }

  /** A call starts only between calls, as there is one requester; reporters push only reports. */
  function Step<S, M>(y: System<S, M>, routes: Routes<S, M>, a: Action<M>): System<S, M> {
    match a
    case Call(req, given) =>
      if !y.requester.Ready? || !IsRequest(req) then y
      else y.(requester := if y.async.AsyncIdle? then Claimed(req, given) else RequesterThrew)
    case RequesterMoves => RequesterStep(y)
    case ReporterPushes(m) => if IsRequest(m) then y else Push(y, m)
    case WorkerMoves => WorkerStep(y, routes)
  }

  function Run<S, M>(y: System<S, M>, routes: Routes<S, M>, actions: seq<Action<M>>): System<S, M>
    decreases |actions|
  {
    if actions == [] then y else Run(Step(y, routes, actions[0]), routes, actions[1..])
  }

  // ---- What every interleaving keeps ----

  /** What the risk thread has still to handle, first the message in its hands. */
  function Backlog<S, M>(y: System<S, M>): seq<Msg<M>> {
    (if y.worker.Holding? then [y.worker.msg] else []) + y.queue
  }

  ghost predicate NoRequests<M>(msgs: seq<Msg<M>>) {
    forall i | 0 <= i < |msgs| :: !IsRequest(msgs[i])
  }

  ghost predicate OneRequest<M>(msgs: seq<Msg<M>>, k: int) {
    0 <= k < |msgs| && IsRequest(msgs[k]) && forall i | 0 <= i < |msgs| && i != k :: !IsRequest(msgs[i])
  }

  predicate Unoccupied<S, M>(y: System<S, M>) {
    y.worker.Polling? || y.worker.Holding?
  }

  /** The handled messages were handled in the order pushed, and the rest wait in that order. */
  ghost predicate InOrder<S, M>(y: System<S, M>, routes: Routes<S, M>, s: S) {
    && y.handled <= |y.pushed|
    && Backlog(y) == y.pushed[y.handled..]
    && y.risk == Sequential(routes, s, y.pushed[..y.handled])
  }

  ghost predicate RequestPending<S, M>(y: System<S, M>, at: nat) {
    y.async.AsyncRunning? && Unoccupied(y) && OneRequest(Backlog(y), at - y.handled)
  }

  ghost predicate RequestJudged<S, M>(y: System<S, M>, routes: Routes<S, M>, s: S, at: nat) {
    && y.async.AsyncRunning? && y.handled == at + 1 <= |y.pushed| && NoRequests(Backlog(y))
    && var v := Verdict(routes, s, y.pushed, at);
       match y.worker
       case Judged(error) => error == v
       case Cleared(error) => error == v
       case Stored => y.result == v
       case _ => false
  }

  ghost predicate RequestDone<S, M>(y: System<S, M>, routes: Routes<S, M>, s: S, at: nat) {
    && y.async.AsyncDone? && at < y.handled <= |y.pushed| && NoRequests(Backlog(y)) && Unoccupied(y)
    && y.result == Verdict(routes, s, y.pushed, at)
  }

  predicate PushedAt<S, M(==)>(y: System<S, M>, req: Msg<M>, at: nat) {
    at < |y.pushed| && y.pushed[at] == req && IsRequest(req)
  }

  ghost predicate InPhase<S, M>(y: System<S, M>, routes: Routes<S, M>, s: S) {
    match y.requester
    case Ready => y.async.AsyncIdle? && Unoccupied(y) && NoRequests(Backlog(y))
    case Claimed(req, _) => y.async.AsyncIdle? && Unoccupied(y) && NoRequests(Backlog(y)) && IsRequest(req)
    case Marked(req, _) => y.async.AsyncRunning? && Unoccupied(y) && NoRequests(Backlog(y)) && IsRequest(req)
    case Waiting(req, _, at) =>
      && PushedAt(y, req, at)
      && (RequestPending(y, at) || RequestJudged(y, routes, s, at) || RequestDone(y, routes, s, at))
    case Seen(req, _, at) => PushedAt(y, req, at) && RequestDone(y, routes, s, at)
    case Copied(req, given, at, text) =>
      PushedAt(y, req, at) && RequestDone(y, routes, s, at) && text == Outcome(y.result, given)
    case RequesterThrew => false
  }

  ghost predicate AnswerStands<S, M>(y: System<S, M>, routes: Routes<S, M>, s: S, a: Answer<M>) {
    PushedAt(y, a.req, a.at) && a.text == Outcome(Verdict(routes, s, y.pushed, a.at), a.given)
  }

  ghost predicate Answered<S, M>(y: System<S, M>, routes: Routes<S, M>, s: S) {
    forall i | 0 <= i < |y.answers| :: AnswerStands(y, routes, s, y.answers[i])
  }

  ghost predicate Inv<S, M>(y: System<S, M>, routes: Routes<S, M>, s: S) {
    InOrder(y, routes, s) && InPhase(y, routes, s) && Answered(y, routes, s)
  }

  // ---- Pushing ----

  lemma PushKeepsVerdicts<S, M>(routes: Routes<S, M>, s: S, msgs: seq<Msg<M>>, m: Msg<M>, at: nat)
    requires at < |msgs|
    ensures Verdict(routes, s, msgs + [m], at) == Verdict(routes, s, msgs, at)
  {
    assert (msgs + [m])[..at] == msgs[..at];
  }

  lemma PushKeepsOrder<S, M>(y: System<S, M>, routes: Routes<S, M>, s: S, m: Msg<M>)
    requires InOrder(y, routes, s)
    ensures InOrder(Push(y, m), routes, s)
    ensures Backlog(Push(y, m)) == Backlog(y) + [m]
  {
    assert (y.pushed + [m])[..y.handled] == y.pushed[..y.handled];
    assert (y.pushed + [m])[y.handled..] == y.pushed[y.handled..] + [m];
  }

  lemma PushKeepsAnswers<S, M>(y: System<S, M>, routes: Routes<S, M>, s: S, m: Msg<M>)
    requires Answered(y, routes, s)
    ensures Answered(Push(y, m), routes, s)
  {
    forall i | 0 <= i < |y.answers| ensures AnswerStands(Push(y, m), routes, s, y.answers[i]) {
      assert AnswerStands(y, routes, s, y.answers[i]);
      PushKeepsVerdicts(routes, s, y.pushed, m, y.answers[i].at);
    }
  }

  lemma ReporterKeeps<S, M>(y: System<S, M>, routes: Routes<S, M>, s: S, m: Msg<M>)
    requires Inv(y, routes, s) && !IsRequest(m)
    ensures Inv(Push(y, m), routes, s)
  {
    PushKeepsOrder(y, routes, s, m);
    PushKeepsAnswers(y, routes, s, m);
    var z := Push(y, m);
    if y.requester.Waiting? || y.requester.Seen? || y.requester.Copied? {
      PushKeepsVerdicts(routes, s, y.pushed, m, y.requester.at);
    }
  }

  lemma RequesterKeeps<S, M>(y: System<S, M>, routes: Routes<S, M>, s: S)
    requires Inv(y, routes, s)
    ensures Inv(RequesterStep(y), routes, s)
  {
    var z := RequesterStep(y);
    match y.requester
    case Marked(req, given) =>
      PushKeepsOrder(y, routes, s, req);
      PushKeepsAnswers(y, routes, s, req);
      assert OneRequest(Backlog(z), |y.pushed| - y.handled);
    case Copied(req, given, at, text) =>
      assert AnswerStands(y, routes, s, Answer(req, at, given, text));
    case _ =>
  }

  // ---- The risk thread ----

  lemma SequentialNext<S, M>(routes: Routes<S, M>, s: S, msgs: seq<Msg<M>>, k: nat)
    requires k < |msgs|
    ensures Sequential(routes, s, msgs[..k + 1]) == Handle(routes, Sequential(routes, s, msgs[..k]), msgs[k]).0
  {
    assert msgs[..k + 1][..k] == msgs[..k];
  }

  lemma HandlingKeepsOrder<S, M>(y: System<S, M>, routes: Routes<S, M>, s: S)
    requires InOrder(y, routes, s) && y.worker.Holding?
    ensures InOrder(WorkerStep(y, routes), routes, s)
    ensures Backlog(WorkerStep(y, routes)) == Backlog(y)[1..]
    ensures y.handled < |y.pushed| && y.pushed[y.handled] == y.worker.msg
    ensures IsRequest(y.worker.msg) ==>
              WorkerStep(y, routes).worker == Judged(Verdict(routes, s, y.pushed, y.handled))
  {
    assert Backlog(y)[0] == y.worker.msg == y.pushed[y.handled];
    assert y.pushed[y.handled..][1..] == y.pushed[y.handled + 1..];
    SequentialNext(routes, s, y.pushed, y.handled);
  }

  lemma WorkerKeepsOrder<S, M>(y: System<S, M>, routes: Routes<S, M>, s: S)
    requires InOrder(y, routes, s)
    ensures InOrder(WorkerStep(y, routes), routes, s)
    ensures !y.worker.Holding? ==> Backlog(WorkerStep(y, routes)) == Backlog(y)
  {
    if y.worker.Holding? {
      HandlingKeepsOrder(y, routes, s);
    } else if y.worker.Polling? && y.queue != [] {
      assert [y.queue[0]] + y.queue[1..] == y.queue;
    }
  }

  lemma NoneBehind<M>(m: Msg<M>, queue: seq<Msg<M>>)
    requires NoRequests([m] + queue)
    ensures !IsRequest(m) && NoRequests(queue)
  {
    var backlog := [m] + queue;
    assert backlog[0] == m && forall i | 0 <= i < |queue| :: queue[i] == backlog[i + 1];
  }

  lemma NoneBehindIt<M>(m: Msg<M>, queue: seq<Msg<M>>, k: int)
    requires OneRequest([m] + queue, k) && IsRequest(m)
    ensures k == 0 && NoRequests(queue)
  {
    var backlog := [m] + queue;
    assert backlog[0] == m && forall i | 0 <= i < |queue| :: queue[i] == backlog[i + 1];
  }

  /** Taking a report off the front brings the request behind it one place nearer. */
  lemma OneBehind<M>(m: Msg<M>, queue: seq<Msg<M>>, k: int)
    requires OneRequest([m] + queue, k) && !IsRequest(m)
    ensures OneRequest(queue, k - 1)
  {
    var backlog := [m] + queue;
    assert backlog[0] == m && forall i | 0 <= i < |queue| :: queue[i] == backlog[i + 1];
  }

  lemma HandlingOther<S, M>(y: System<S, M>, routes: Routes<S, M>, s: S, at: nat)
    requires RequestPending(y, at) && y.worker.Holding? && !IsRequest(y.worker.msg)
    ensures RequestPending(WorkerStep(y, routes), at)
  {
    var z := WorkerStep(y, routes);
    OneBehind(y.worker.msg, y.queue, at - y.handled);
    assert Backlog(z) == y.queue;
    assert at - z.handled == at - y.handled - 1;
  }

  lemma HandlingIt<S, M>(y: System<S, M>, routes: Routes<S, M>, s: S, at: nat)
    requires InOrder(y, routes, s) && RequestPending(y, at) && y.worker.Holding? && IsRequest(y.worker.msg)
    ensures RequestJudged(WorkerStep(y, routes), routes, s, at)
  {
    HandlingKeepsOrder(y, routes, s);
    NoneBehindIt(y.worker.msg, y.queue, at - y.handled);
    assert Backlog(WorkerStep(y, routes)) == y.queue;
  }

  lemma HandlingPending<S, M>(y: System<S, M>, routes: Routes<S, M>, s: S, at: nat)
    requires InOrder(y, routes, s) && RequestPending(y, at) && y.worker.Holding?
    ensures RequestPending(WorkerStep(y, routes), at) || RequestJudged(WorkerStep(y, routes), routes, s, at)
  {
    if IsRequest(y.worker.msg) {
      HandlingIt(y, routes, s, at);
    } else {
      HandlingOther(y, routes, s, at);
    }
  }

  lemma HandlingKeepsPhase<S, M>(y: System<S, M>, routes: Routes<S, M>, s: S)
    requires InOrder(y, routes, s) && InPhase(y, routes, s) && y.worker.Holding?
    ensures InPhase(WorkerStep(y, routes), routes, s)
  {
    if y.requester.Waiting? && RequestPending(y, y.requester.at) {
      HandlingPending(y, routes, s, y.requester.at);
    } else {
      HandlingKeepsOrder(y, routes, s);
      NoneBehind(y.worker.msg, y.queue);
      assert Backlog(WorkerStep(y, routes)) == y.queue;
    }
  }

  lemma WorkerKeepsPhase<S, M>(y: System<S, M>, routes: Routes<S, M>, s: S)
    requires InOrder(y, routes, s) && InPhase(y, routes, s)
    ensures InPhase(WorkerStep(y, routes), routes, s)
  {
    WorkerKeepsOrder(y, routes, s);
    if y.worker.Holding? {
      HandlingKeepsPhase(y, routes, s);
    }
  }

  lemma StepKeeps<S, M>(y: System<S, M>, routes: Routes<S, M>, s: S, a: Action<M>)
    requires Inv(y, routes, s)
    ensures Inv(Step(y, routes, a), routes, s)
  {
    match a
    case Call(req, given) =>
    case RequesterMoves => RequesterKeeps(y, routes, s);
    case ReporterPushes(m) =>
      if !IsRequest(m) {
        ReporterKeeps(y, routes, s, m);
      }
    case WorkerMoves =>
      WorkerKeepsOrder(y, routes, s);
      WorkerKeepsPhase(y, routes, s);
  }

  lemma {:induction false} RunKeeps<S, M>(y: System<S, M>, routes: Routes<S, M>, s: S, actions: seq<Action<M>>)
    requires Inv(y, routes, s)
    ensures Inv(Run(y, routes, actions), routes, s)
    decreases |actions|
  {
    if actions != [] {
      StepKeeps(y, routes, s, actions[0]);
      RunKeeps(Step(y, routes, actions[0]), routes, s, actions[1..]);
    }
  }

  // ---- The main results ----

  function Reached<S, M>(routes: Routes<S, M>, s: S, actions: seq<Action<M>>): System<S, M> {
    Run(Initial(s), routes, actions)
  }

  lemma ReachedKeeps<S, M>(routes: Routes<S, M>, s: S, actions: seq<Action<M>>)
    ensures Inv(Reached(routes, s, actions), routes, s)
  {
    assert Inv(Initial<S, M>(s), routes, s);
    RunKeeps(Initial(s), routes, s, actions);
  }

  ghost predicate AtMostOneRequest<M>(msgs: seq<Msg<M>>) {
    forall i, j | 0 <= i < |msgs| && 0 <= j < |msgs| && IsRequest(msgs[i]) && IsRequest(msgs[j]) :: i == j
  }

  lemma PhaseAllowsOneRequest<S, M>(y: System<S, M>, routes: Routes<S, M>, s: S)
    requires InPhase(y, routes, s)
    ensures AtMostOneRequest(Backlog(y)) && !y.worker.WorkerThrew?
  {}

  lemma OneRequestOfTail<M>(head: seq<Msg<M>>, tail: seq<Msg<M>>)
    requires AtMostOneRequest(head + tail)
    ensures AtMostOneRequest(tail)
  {
    assert forall i | 0 <= i < |tail| :: tail[i] == (head + tail)[|head| + i];
  }

  /** In no interleaving does either thread find an unexpected state, is there a second request on
      its way to the riskers, or is the result read while the risk thread has still to write it. */
  lemma HandshakeIsSafe<S, M>(routes: Routes<S, M>, s: S, actions: seq<Action<M>>)
    ensures var y := Reached(routes, s, actions);
            && !y.requester.RequesterThrew? && !y.worker.WorkerThrew?
            && AtMostOneRequest(Backlog(y)) && AtMostOneRequest(y.queue)
            && (y.requester.Seen? ==> Unoccupied(y))
  {
    ReachedKeeps(routes, s, actions);
    var y := Reached(routes, s, actions);
    PhaseAllowsOneRequest(y, routes, s);
    OneRequestOfTail(if y.worker.Holding? then [y.worker.msg] else [], y.queue);
  }

  /** Every answered call was left with the verdict on its own request, as handling all messages
      pushed before it one after the other would give it, or with its own text if there is none. */
  lemma EveryCallGetsItsVerdict<S, M>(routes: Routes<S, M>, s: S, actions: seq<Action<M>>, i: nat)
    requires i < |Reached(routes, s, actions).answers|
    ensures var y := Reached(routes, s, actions);
            var a := y.answers[i];
            && a.at < |y.pushed| && y.pushed[a.at] == a.req
            && var verdict := Handle(routes, Sequential(routes, s, y.pushed[..a.at]), a.req).1;
               a.text == if verdict == "" then a.given else verdict
  {
    ReachedKeeps(routes, s, actions);
    var y := Reached(routes, s, actions);
    assert AnswerStands(y, routes, s, y.answers[i]);
  }

  /** The riskers see the messages one at a time, in the order pushed, each once. */
  lemma RiskersSeeTheQueueInOrder<S, M>(routes: Routes<S, M>, s: S, actions: seq<Action<M>>)
    ensures var y := Reached(routes, s, actions);
            && y.handled <= |y.pushed|
            && y.risk == Sequential(routes, s, y.pushed[..y.handled])
            && y.pushed == y.pushed[..y.handled] + Backlog(y)
  {
    ReachedKeeps(routes, s, actions);
  }

  // ---- The wait ends ----

  /** Steps of the risk thread until the request pushed at place `at` is answered. */
  function StepsLeft<S, M>(y: System<S, M>, at: nat): int {
    match y.worker
    case Polling => if y.async.AsyncDone? then 0 else 2 * (at - y.handled) + 5
    case Holding(_) => if y.async.AsyncDone? then 0 else 2 * (at - y.handled) + 4
    case Judged(_) => 3
    case Cleared(_) => 2
    case Stored => 1
    case WorkerThrew => 0
  }

  /** While a requester waits, each step of the risk thread brings the answer one step nearer, and
      no other step moves it away. */
  lemma WaitShrinks<S, M>(y: System<S, M>, routes: Routes<S, M>, s: S, a: Action<M>)
    requires Inv(y, routes, s) && y.requester.Waiting? && !y.async.AsyncDone?
    ensures var z := Step(y, routes, a);
            && z.requester == y.requester
            && 0 <= StepsLeft(z, y.requester.at) && 0 < StepsLeft(y, y.requester.at)
            && StepsLeft(z, y.requester.at) == StepsLeft(y, y.requester.at) - (if a.WorkerMoves? then 1 else 0)
            && (StepsLeft(z, y.requester.at) == 0 ==> z.async.AsyncDone?)
  {
    if a.WorkerMoves? {
      if y.worker.Holding? && IsRequest(y.worker.msg) {
        NoneBehindIt(y.worker.msg, y.queue, y.requester.at - y.handled);
      } else if y.worker.Holding? {
        OneBehind(y.worker.msg, y.queue, y.requester.at - y.handled);
      }
    } else {
      assert Step(y, routes, a).worker == y.worker && Step(y, routes, a).async == y.async;
    }
  }

  function WorkerMovesIn<M>(actions: seq<Action<M>>): nat {
    if actions == [] then 0 else (if actions[0].WorkerMoves? then 1 else 0) + WorkerMovesIn(actions[1..])
  }

  /** A waiting requester is answered once the risk thread has made the steps left, whatever the
      reporters push meanwhile. */
  lemma {:induction false} WaitEnds<S, M>(y: System<S, M>, routes: Routes<S, M>, s: S, actions: seq<Action<M>>)
      returns (k: nat)
    requires Inv(y, routes, s) && y.requester.Waiting?
    requires WorkerMovesIn(actions) >= StepsLeft(y, y.requester.at)
    ensures k <= |actions|
    ensures var z := Run(y, routes, actions[..k]); z.async.AsyncDone? && z.requester == y.requester
    decreases |actions|
  {
    if y.async.AsyncDone? {
      k := 0;
    } else {
      WaitShrinks(y, routes, s, if actions == [] then WorkerMoves else actions[0]);
      StepKeeps(y, routes, s, actions[0]);
      k := WaitEnds(Step(y, routes, actions[0]), routes, s, actions[1..]);
      assert actions[..k + 1][1..] == actions[1..][..k];
      k := k + 1;
    }
  }
}
