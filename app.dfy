/**
 * The App component of App.tsx as an object: its state variables are fields and
 * each event handler is a method that updates them in place. Every method is
 * specified by the transition function Session.Step, and the ghost log `issued`
 * records the calls made to the analysis service.
 */
module AppComponent {
  import opened AppTypes
  import opened ErrorMessages
  import opened Session

  /** The shell; `R` stands for the opaque CareerAnalysisResult of types.ts. */
  class App<R> {
    var mode: FeatureMode
    var analysisData: Option<R>
    var isLoading: bool
    var isLoggedIn: bool
    var showAuthModal: bool
    var pendingAnalysis: Option<AnalysisRequest>
    /** The requests handed to the analysis service so far, oldest first. */
    ghost var issued: seq<AnalysisRequest>

    /** The object invariant: logged in implies nothing is pending. */
    ghost predicate Valid()
      reads this
    {
      Consistent(State())
    }

    /** The fields as one value. */
    function State(): AppState<R>
      reads this
    {
      AppState(mode, analysisData, isLoading, isLoggedIn, showAuthModal, pendingAnalysis)
    }

    /** Mounting the component (App.tsx:13-21). */
    constructor ()
      ensures Valid() && State() == Initial() && issued == []
    {
      mode := Analysis;
      analysisData := None;
      isLoading := false;
      isLoggedIn := false;
      showAuthModal := false;
      pendingAnalysis := None;
      issued := [];
    }

    /** executeAnalysis up to its await (App.tsx:38-44): loading, analysis screen, one service call. */
    method ExecuteAnalysis(text: string, image: Option<string>)
      modifies this
      ensures State() == StartAnalysis(old(State()), AnalysisRequest(text, image)).next
      ensures isLoading && mode == Analysis
      ensures analysisData == old(analysisData) && pendingAnalysis == old(pendingAnalysis)
      ensures isLoggedIn == old(isLoggedIn) && showAuthModal == old(showAuthModal)
      ensures issued == old(issued) + [AnalysisRequest(text, image)]
    {
      isLoading := true;
      mode := Analysis;
      issued := issued + [AnalysisRequest(text, image)];
    }

    /**
     * handleAnalysisRequest (App.tsx:67-76): logged out, the request replaces the
     * pending one and the login modal opens; logged in, the analysis starts at once.
     */
    method HandleAnalysisRequest(text: string, image: Option<string>)
      requires Valid()
      modifies this
      ensures Valid()
      ensures State() == Step(old(State()), AnalysisRequested(AnalysisRequest(text, image))).next
      ensures !old(isLoggedIn) ==>
        pendingAnalysis == Some(AnalysisRequest(text, image)) && showAuthModal &&
        issued == old(issued) && isLoading == old(isLoading) && mode == old(mode)
      ensures old(isLoggedIn) ==>
        issued == old(issued) + [AnalysisRequest(text, image)] && isLoading && mode == Analysis &&
        pendingAnalysis == old(pendingAnalysis) && showAuthModal == old(showAuthModal)
      ensures isLoggedIn == old(isLoggedIn) && analysisData == old(analysisData)
    {
      if !isLoggedIn {
        pendingAnalysis := Some(AnalysisRequest(text, image));
        showAuthModal := true;
      } else {
        ExecuteAnalysis(text, image);
      }
    }

    /**
     * handleLoginSuccess (App.tsx:78-87): logged in, modal closed, and the pending
     * request, if any, started exactly once and removed.
     */
    method HandleLoginSuccess()
      requires Valid()
      modifies this
      ensures Valid()
      ensures State() == Step(old(State()), LoginSucceeded).next
      ensures issued == old(issued) + Issued(Step(old(State()), LoginSucceeded).effect)
      ensures isLoggedIn && !showAuthModal && pendingAnalysis == None
      ensures old(pendingAnalysis).Some? ==>
        issued == old(issued) + [old(pendingAnalysis).value] && isLoading && mode == Analysis
      ensures old(pendingAnalysis).None? ==>
        issued == old(issued) && isLoading == old(isLoading) && mode == old(mode)
      ensures analysisData == old(analysisData)
    {
      isLoggedIn := true;
      showAuthModal := false;
      if pendingAnalysis.Some? {
        ExecuteAnalysis(pendingAnalysis.value.text, pendingAnalysis.value.image);
        pendingAnalysis := None;
      }
    }

    /** The modal's onClose (App.tsx:278): only hides the modal; the pending request stays. */
    method CloseAuthModal()
      requires Valid()
      modifies this
      ensures Valid()
      ensures State() == Step(old(State()), AuthModalClosed).next
      ensures !showAuthModal && pendingAnalysis == old(pendingAnalysis) && isLoggedIn == old(isLoggedIn)
      ensures issued == old(issued)
    {
      showAuthModal := false;
    }

    /** The "Log in / Sign up" buttons (App.tsx:222, App.tsx:361): only shows the modal. */
    method OpenAuthModal()
      requires Valid()
      modifies this
      ensures Valid()
      ensures State() == Step(old(State()), AuthModalOpened).next
      ensures showAuthModal && pendingAnalysis == old(pendingAnalysis) && isLoggedIn == old(isLoggedIn)
      ensures issued == old(issued)
    {
      showAuthModal := true;
    }

    /** "Sign Out" (App.tsx:233): clears the login flag and nothing else. */
    method SignOut()
      requires Valid()
      modifies this
      ensures Valid()
      ensures State() == Step(old(State()), SignedOut).next
      ensures !isLoggedIn && pendingAnalysis == old(pendingAnalysis) && showAuthModal == old(showAuthModal)
      ensures issued == old(issued)
    {
      isLoggedIn := false;
    }

    /** "Start Over" (App.tsx:119): drops the displayed result. */
    method StartOver()
      requires Valid()
      modifies this
      ensures Valid()
      ensures State() == Step(old(State()), StartedOver).next
      ensures analysisData == None && isLoggedIn == old(isLoggedIn) && pendingAnalysis == old(pendingAnalysis)
      ensures issued == old(issued)
    {
      analysisData := None;
    }

    /** "Clear Current Analysis Data" (App.tsx:187-190): drops the result and returns the alert text. */
    method ClearAnalysisData() returns (alert: string)
      requires Valid()
      modifies this
      ensures Valid()
      ensures State() == Step(old(State()), DataCleared).next
      ensures Step(old(State()), DataCleared).effect == Alert(alert)
      ensures analysisData == None && isLoggedIn == old(isLoggedIn) && pendingAnalysis == old(pendingAnalysis)
      ensures issued == old(issued)
    {
      analysisData := None;
      alert := "Local analysis data cleared.";
    }

    /** The navigation buttons (setMode: App.tsx:295-329, App.tsx:382, App.tsx:396). */
    method Navigate(target: FeatureMode)
      requires Valid()
      modifies this
      ensures Valid()
      ensures State() == Step(old(State()), Navigated(target)).next
      ensures mode == target && isLoggedIn == old(isLoggedIn) && pendingAnalysis == old(pendingAnalysis)
      ensures issued == old(issued)
    {
      mode := target;
    }

    /**
     * The rest of executeAnalysis once the service call returns (App.tsx:44-64): a
     * result replaces the displayed one, an error leaves it and yields the alert
     * text; either way the loading state ends. The login state is not touched, so
     * a failure never re-queues the request or asks for a login again.
     */
    method SettleAnalysis(outcome: AnalysisOutcome<R>) returns (alert: Option<string>)
      requires Valid()
      modifies this
      ensures Valid()
      ensures State() == Step(old(State()), AnalysisSettled(outcome)).next
      ensures !isLoading
      ensures outcome.Succeeded? ==> analysisData == Some(outcome.result) && alert == None
      ensures outcome.Failed? ==>
        analysisData == old(analysisData) && alert == Some("Error: " + UserMessage(outcome.error))
      ensures isLoggedIn == old(isLoggedIn) && pendingAnalysis == old(pendingAnalysis)
      ensures showAuthModal == old(showAuthModal) && mode == old(mode)
      ensures issued == old(issued)
    {
      match outcome {
        case Succeeded(result) =>
          analysisData := Some(result);
          alert := None;
        case Failed(error) =>
          var errorMessage := UserMessage(error);
          alert := Some("Error: " + errorMessage);
      }
      isLoading := false;
    }
  }

  /** A request made while logged out runs once on login, even after the modal was dismissed. */
  method DeferredRequestRunsOnceAfterLogin()
  {
    var app := new App<string>();
    var request := AnalysisRequest("Java developer", None);
    app.HandleAnalysisRequest("Java developer", None);
    assert app.pendingAnalysis == Some(request) && app.showAuthModal && app.issued == [];
    app.CloseAuthModal();
    app.HandleLoginSuccess();
    assert app.issued == [request] && app.isLoading;
    app.HandleLoginSuccess();
    assert app.issued == [request];
  }

  /** Of two requests made while logged out, only the later one runs. */
  method LaterRequestReplacesEarlier()
  {
    var app := new App<string>();
    app.HandleAnalysisRequest("X", None);
    app.HandleAnalysisRequest("Y", Some("image"));
    app.HandleLoginSuccess();
    assert app.issued == [AnalysisRequest("Y", Some("image"))];
  }

  /** Logged in, a request runs at once; a failed call ends the loading state and keeps the login. */
  method LoggedInRequestRunsAtOnce()
  {
    var app := new App<string>();
    app.HandleLoginSuccess();
    app.HandleAnalysisRequest("Z", None);
    assert app.issued == [AnalysisRequest("Z", None)] && app.pendingAnalysis == None;
    var alert := app.SettleAnalysis(Failed(AnalysisError(None, Some(500), None)));
    assert alert == Some("Error: " + NetworkMessage);
    assert !app.isLoading && app.isLoggedIn && app.analysisData == None;
  }
}
