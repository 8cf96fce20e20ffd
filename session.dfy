/**
 * The auth-gated analysis flow of the application shell (App.tsx) as a transition
 * function over the shell's state. Each user event is one atomic step; the
 * asynchronous analysis call is split at its `await`: the synchronous start is part
 * of the event that triggers it, and its settlement is an event of its own that
 * carries the outcome.
 */
module Session {
  import opened AppTypes
  import opened ErrorMessages

  /** How the call to the analysis service ended: an opaque result or a thrown error. */
  datatype AnalysisOutcome<R> = Succeeded(result: R) | Failed(error: AnalysisError)

  /** The component state App.tsx keeps for this flow (App.tsx:13-21). */
  datatype AppState<R> = AppState(
    mode: FeatureMode,
    analysisData: Option<R>,
    isLoading: bool,
    isLoggedIn: bool,
    showAuthModal: bool,
    pendingAnalysis: Option<AnalysisRequest>)

  /** The events that change that state. */
  datatype Event<R> =
    | AnalysisRequested(request: AnalysisRequest)   // handleAnalysisRequest
    | LoginSucceeded                                // handleLoginSuccess
    | AuthModalClosed                               // AuthModal onClose
    | AuthModalOpened                               // "Log in / Sign up"
    | SignedOut                                     // "Sign Out"
    | StartedOver                                   // "Start Over"
    | DataCleared                                   // "Clear Current Analysis Data"
    | Navigated(target: FeatureMode)                // sidebar, mobile header, bottom navigation
    | AnalysisSettled(outcome: AnalysisOutcome<R>)  // the awaited analyzeProfile call returns

  /** What a step does outside the component state. */
  datatype Effect = NoEffect | Analyze(request: AnalysisRequest) | Alert(message: string)

  datatype Transition<R> = Transition(next: AppState<R>, effect: Effect)

  /** The state a freshly mounted shell starts in (App.tsx:13-21). */
  function Initial<R>(): AppState<R>
  {
    AppState(Analysis, None, false, false, false, None)
  }

  /** The shell's invariant: while logged in, no request is waiting for a login. */
  predicate Consistent<R>(s: AppState<R>)
  {
    s.isLoggedIn ==> s.pendingAnalysis == None
  }

  /**
   * The synchronous part of executeAnalysis (App.tsx:38-44): show the loading
   * state on the analysis screen and hand the request to the analysis service.
   */
  function StartAnalysis<R>(s: AppState<R>, request: AnalysisRequest): Transition<R>
  {
    Transition(s.(isLoading := true, mode := Analysis), Analyze(request))
  }

  /** One event applied to the shell; every step keeps the shell consistent. */
  function Step<R>(s: AppState<R>, e: Event<R>): (t: Transition<R>)
    ensures Consistent(s) ==> Consistent(t.next)
    ensures t.effect.Analyze? ==> e.AnalysisRequested? || e.LoginSucceeded?
    ensures e.LoginSucceeded? ==> t.next.isLoggedIn && t.next.pendingAnalysis == None
  {
    match e
    case AnalysisRequested(request) =>
      if !s.isLoggedIn then
        Transition(s.(pendingAnalysis := Some(request), showAuthModal := true), NoEffect)
      else
        StartAnalysis(s, request)
    case LoginSucceeded =>
      var loggedIn := s.(isLoggedIn := true, showAuthModal := false);
      if s.pendingAnalysis.Some? then
        var started := StartAnalysis(loggedIn, s.pendingAnalysis.value);
        Transition(started.next.(pendingAnalysis := None), started.effect)
      else
        Transition(loggedIn, NoEffect)
    case AuthModalClosed =>
      Transition(s.(showAuthModal := false), NoEffect)
    case AuthModalOpened =>
      Transition(s.(showAuthModal := true), NoEffect)
    case SignedOut =>
      Transition(s.(isLoggedIn := false), NoEffect)
    case StartedOver =>
      Transition(s.(analysisData := None), NoEffect)
    case DataCleared =>
      Transition(s.(analysisData := None), Alert("Local analysis data cleared."))
    case Navigated(target) =>
      Transition(s.(mode := target), NoEffect)
    case AnalysisSettled(Succeeded(result)) =>
      Transition(s.(analysisData := Some(result), isLoading := false), NoEffect)
    case AnalysisSettled(Failed(error)) =>
      Transition(s.(isLoading := false), Alert("Error: " + UserMessage(error)))
  }

  /** The requests a step hands to the analysis service. */
  function Issued(effect: Effect): (rs: seq<AnalysisRequest>)
    ensures |rs| <= 1
    ensures rs != [] <==> effect.Analyze?
  {
    if effect.Analyze? then [effect.request] else []
  }

  /** The final state after a run of events, and the requests handed to the analysis service, in order. */
  datatype Trace<R> = Trace(final: AppState<R>, issued: seq<AnalysisRequest>)

  /** Applies the events one after another; a run from a consistent state ends in a consistent state. */
  function Run<R>(s: AppState<R>, events: seq<Event<R>>): (t: Trace<R>)
    ensures Consistent(s) ==> Consistent(t.final)
    ensures |t.issued| <= |events|
    decreases |events|
  {
    if events == [] then
      Trace(s, [])
    else
      var first := Step(s, events[0]);
      var rest := Run(first.next, events[1..]);
      Trace(rest.final, Issued(first.effect) + rest.issued)
  }

  /** Every state the shell can reach from its initial state is consistent. */
  lemma ReachableStatesConsistent<R>(events: seq<Event<R>>)
    ensures Consistent(Run(Initial<R>(), events).final)
  {
  }

  /** Running two runs back to back is one run over the concatenated events. */
  lemma {:induction false} RunAppend<R>(s: AppState<R>, a: seq<Event<R>>, b: seq<Event<R>>)
    ensures Run(s, a + b).final == Run(Run(s, a).final, b).final
    ensures Run(s, a + b).issued == Run(s, a).issued + Run(Run(s, a).final, b).issued
    decreases |a|
  {
    if a == [] {
      assert a + b == b;
    } else {
      assert (a + b)[0] == a[0];
      assert (a + b)[1..] == a[1..] + b;
      RunAppend(Step(s, a[0]).next, a[1..], b);
    }
  }

  /** `n` closings of the login modal in a row. */
  function Closes<R>(n: nat): (events: seq<Event<R>>)
    ensures |events| == n
    ensures forall i :: 0 <= i < n ==> events[i] == AuthModalClosed
  {
    if n == 0 then [] else [AuthModalClosed] + Closes(n - 1)
  }

  /**
   * Closing the modal without logging in only hides the modal: the login flag and
   * the pending request stay, and nothing is handed to the analysis service.
   */
  lemma {:induction false} ClosingOnlyHidesModal<R>(s: AppState<R>, n: nat)
    ensures Run(s, Closes<R>(n)).issued == []
    ensures Run(s, Closes<R>(n)).final == if n == 0 then s else s.(showAuthModal := false)
    decreases n
  {
    if n > 0 {
      var events := Closes<R>(n);
      assert events[1..] == Closes<R>(n - 1);
      ClosingOnlyHidesModal(s.(showAuthModal := false), n - 1);
    }
  }

  /**
   * A request submitted while logged out survives any number of cancelled login
   * attempts and is handed to the analysis service exactly once on the next login.
   */
  lemma CancelledLoginStillFlushes<R>(s: AppState<R>, request: AnalysisRequest, n: nat)
    requires !s.isLoggedIn
    ensures Run(s, [AnalysisRequested(request)] + Closes<R>(n) + [LoginSucceeded]).issued == [request]
    ensures Run(s, [AnalysisRequested(request)] + Closes<R>(n) + [LoginSucceeded]).final.pendingAnalysis == None
  {
    var deferred := s.(pendingAnalysis := Some(request), showAuthModal := true);
    var first: seq<Event<R>> := [AnalysisRequested(request)];
    RunAppend(s, first, Closes<R>(n));
    RunAppend(s, first + Closes<R>(n), [LoginSucceeded]);
    ClosingOnlyHidesModal(deferred, n);
  }

  /** Of two requests submitted while logged out, only the later one is run on login. */
  lemma LatestRequestWins<R>(s: AppState<R>, first: AnalysisRequest, second: AnalysisRequest)
    requires !s.isLoggedIn
    ensures Run(s, [AnalysisRequested(first), AnalysisRequested(second), LoginSucceeded]).issued == [second]
  {
    var events: seq<Event<R>> := [AnalysisRequested(first), AnalysisRequested(second), LoginSucceeded];
    var afterFirst := Step(s, AnalysisRequested(first)).next;
    var afterSecond := Step(afterFirst, AnalysisRequested(second)).next;
    assert afterSecond.pendingAnalysis == Some(second) && !afterSecond.isLoggedIn;
    assert events[1..] == [AnalysisRequested(second), LoginSucceeded];
    assert events[1..][1..] == [LoginSucceeded];
    assert Run(afterSecond, [LoginSucceeded]).issued == [second];
  }

  /** A second login in a row hands nothing to the analysis service. */
  lemma SecondLoginRunsNothing<R>(s: AppState<R>)
    ensures Run(s, [LoginSucceeded, LoginSucceeded]).issued == Issued(Step(s, LoginSucceeded).effect)
    ensures Run(s, [LoginSucceeded, LoginSucceeded]).issued == if s.pendingAnalysis.Some? then [s.pendingAnalysis.value] else []
  {
    var events: seq<Event<R>> := [LoginSucceeded, LoginSucceeded];
    assert events[1..] == [LoginSucceeded];
  }

  /** The number of request submissions among the events. */
  function Submissions<R>(events: seq<Event<R>>): (n: nat)
    ensures n <= |events|
  {
    if events == [] then 0
    else (if events[0].AnalysisRequested? then 1 else 0) + Submissions(events[1..])
  }

  /** The requests submitted by the events. */
  function Submitted<R>(events: seq<Event<R>>): (rs: set<AnalysisRequest>)
    ensures forall i :: 0 <= i < |events| && events[i].AnalysisRequested? ==> events[i].request in rs
  {
    if events == [] then {}
    else (if events[0].AnalysisRequested? then {events[0].request} else {}) + Submitted(events[1..])
  }

  function PendingCount<R>(s: AppState<R>): nat
  {
    if s.pendingAnalysis.Some? then 1 else 0
  }

  /**
   * At most once: over any run, the requests handed to the analysis service plus
   * the one still waiting never outnumber the submissions plus the one waiting at
   * the start. A deferred request is never run twice and never duplicated.
   */
  lemma {:induction false} AtMostOnce<R>(s: AppState<R>, events: seq<Event<R>>)
    requires Consistent(s)
    ensures |Run(s, events).issued| + PendingCount(Run(s, events).final) <= PendingCount(s) + Submissions(events)
    decreases |events|
  {
    if events != [] {
      AtMostOnce(Step(s, events[0]).next, events[1..]);
    }
  }

  /** Nothing is invented: every request handed to the analysis service was submitted or was already waiting. */
  lemma {:induction false} NoRequestInvented<R>(s: AppState<R>, events: seq<Event<R>>)
    ensures forall r :: r in Run(s, events).issued ==> r in Submitted(events) || s.pendingAnalysis == Some(r)
    decreases |events|
  {
    if events != [] {
      var next := Step(s, events[0]).next;
      NoRequestInvented(next, events[1..]);
      assert next.pendingAnalysis.Some? ==>
        next.pendingAnalysis == s.pendingAnalysis || next.pendingAnalysis == Some(events[0].request);
    }
  }
}
