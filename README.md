# FuturePath AI shell: auth-gated analysis flow

This project models the part of the FuturePath AI single-page shell (`App.tsx`) that has behaviour of its own.

**The login gate in front of the career analysis.** A user submits resume text and an optional image. While logged out, the shell parks the request as its single pending analysis and opens the login modal. The latest submission replaces any earlier one. On login success the shell runs the pending request once and empties the slot. Closing the modal only hides it, so the request survives until the next login. Sign-out clears the login flag and nothing else.

**The analysis screen.** Starting an analysis sets the loading flag and switches to the analysis screen. When the call to the AI service returns, a result replaces the displayed one. An error instead produces one alert message. In both cases loading ends.

**The error message.** The alert text comes from the message, status and code of the thrown error. The precedence is network/server text, then model-unavailable text, then the error's own message, then the generic text.

Modules:

- `AppTypes` (`types.dfy`): `FeatureMode` from `types.ts`, the `{text, image?}` request record and `Option`.
- `ErrorMessages` (`error_messages.dfy`): `String.prototype.includes` as `Includes` and the message choice `UserMessage`.
- `Session` (`session.dfy`): the shell's state as a value, the transition function `Step` for one event, `Run` for a sequence of events, and lemmas about sequences of events.
- `AppComponent` (`app.dfy`): the component as the class `App`. Its fields are the React state variables and each handler is a method. Every method is specified by `Step`. The ghost field `issued` logs the calls made to the analysis service. Three client methods replay the usage scenarios.

`CareerAnalysisResult` is opaque here and becomes the type parameter `R`. The call to the AI service (`analyzeProfile`) is split at its `await`. The synchronous start belongs to the event that triggers it. The return is a separate event carrying the outcome, either a result or an error record.

## Model

| member | source | states |
|---|---|---|
| ErrorMessages.Includes | App.tsx:52 | `Includes(s, sub)` holds exactly when `sub` occurs in `s` at some index (the `includes` test applied to the error message) |
| ErrorMessages.UserMessage | App.tsx:49-58 | network/server (message contains "xhr" or "fetch", or code or status is 500) gives the network text even when the 404 test also holds; otherwise 404 in the message or status 404 gives the model-unavailable text; otherwise a non-empty message is shown as is; otherwise the generic text; the result is never empty |
| ErrorMessages.RawMessageShownOnlyUnclassified | App.tsx:49-58 | for a non-empty message different from the two fixed texts, the raw message is shown if and only if neither the network nor the 404 condition holds |
| ErrorMessages.FetchFailureWith404IsNetworkError | App.tsx:52-58 | "Failed to fetch" with status 404 yields the network text, not the 404 text |
| ErrorMessages.NotFoundMessageIsModelUnavailable | App.tsx:52-54 | a message "Error 404" with no status or code yields the model-unavailable text |
| Session.Step | App.tsx:38-87 | every event keeps the invariant "logged in implies nothing pending"; only a submission or a login success calls the analysis service; after login success the user is logged in and nothing is pending |
| Session.Run | App.tsx:19-21 | a run of events from a consistent state ends in a consistent state and issues at most one service call per event |
| Session.ReachableStatesConsistent | App.tsx:19-21 | every state reachable from the initial state (logged out, nothing pending) satisfies "logged in implies nothing pending" |
| Session.ClosingOnlyHidesModal | App.tsx:278 | any number of modal closings only hides the modal; login flag and pending request are unchanged and no service call is made |
| Session.CancelledLoginStillFlushes | App.tsx:67-87 | a request submitted while logged out, then any number of modal closings, then login success: exactly that request is handed to the service, once, and the slot is empty afterwards |
| Session.LatestRequestWins | App.tsx:70 | two submissions while logged out followed by login success hand only the second request to the service |
| Session.SecondLoginRunsNothing | App.tsx:78-87 | two login successes in a row hand at most the request pending before the first to the service; the second runs nothing |
| Session.AtMostOnce | App.tsx:67-87 | over any run from a consistent state: (requests handed to the service) + (requests still pending) <= (submissions) + (requests pending at the start) |
| Session.NoRequestInvented | App.tsx:67-87 | every request handed to the service during a run was submitted in that run or was pending at its start |
| AppComponent.App.constructor | App.tsx:13-21 | the component mounts logged out, modal hidden, nothing pending, not loading, on the analysis screen with no result; invariant holds |
| AppComponent.App.ExecuteAnalysis | App.tsx:38-44 | starting an analysis sets loading, switches to the analysis screen and makes exactly one service call with the given text and image; everything else is unchanged |
| AppComponent.App.HandleAnalysisRequest | App.tsx:67-76 | logged out: the pending slot holds exactly `{text, image}`, the modal opens, no call is made; logged in: one call with the same text and image, pending slot and modal unchanged; login flag and result unchanged either way |
| AppComponent.App.HandleLoginSuccess | App.tsx:78-87 | afterwards logged in, modal closed, nothing pending; a pending request is handed to the service exactly once; with nothing pending no call is made and loading/screen are unchanged |
| AppComponent.App.CloseAuthModal | App.tsx:278 | only hides the modal; login flag and pending request unchanged; no call |
| AppComponent.App.OpenAuthModal | App.tsx:222 | only shows the modal; login flag and pending request unchanged; no call |
| AppComponent.App.SignOut | App.tsx:233 | only clears the login flag; pending request and modal unchanged; invariant kept |
| AppComponent.App.StartOver | App.tsx:119 | clears the displayed result and nothing of the login state |
| AppComponent.App.ClearAnalysisData | App.tsx:187-190 | clears the displayed result and returns the alert "Local analysis data cleared." |
| AppComponent.App.Navigate | App.tsx:295-329 | switches the screen to the chosen mode; login state untouched |
| AppComponent.App.SettleAnalysis | App.tsx:43-64 | loading ends after either outcome; a result replaces the displayed one with no alert; an error leaves the displayed result and yields "Error: " followed by `UserMessage`; login flag, pending request, modal and screen unchanged, so a failure neither re-queues the request nor asks for login again |

## Left out

- Rendering: `renderContent`, the sidebar, the mobile header, the settings and profile markup and the imported components (`FileUpload`, `AuthModal`, `ChatInterface`, `AnalysisResult`, `BottomNav`). This is presentation. Their callbacks that change state are modelled as methods.
- `analyzeProfile` and `getQuickTip`: foreign asynchronous network calls whose code is not part of this model. The analysis call is an outcome parameter, success with an opaque result or failure with an error record. The quick-tip loader (App.tsx:23-36) is left out with them.
- `alert` and `console.error` are I/O. Alert texts are returned as values; logging is dropped.
- React semantics: batched `setState`, stale closures over `pendingAnalysis`, and overlapping in-flight `executeAnalysis` promises. Each event is one atomic step. A settlement may arrive in any state; it is not tied to the call that produced it.
- Error fields are modelled as `Option`. A `status` or `code` that is not a number behaves like a missing one, because the code only compares them with `===` against numbers. A message that is not a string is not modelled.
- The submitted request is not validated (empty text, no image). The shell does not validate it either.
- A submission while logged in is not a pure decision. The code also sets the loading flag and the analysis screen, and the model follows the code.
