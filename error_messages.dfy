/**
 * The choice of the one user-facing message shown when an analysis fails
 * (App.tsx, the catch block of executeAnalysis).
 */
module ErrorMessages {
  import opened AppTypes

  /**
   * What the shell reads from a thrown error: `error.message`, `error.status` and
   * `error.code`. A field that is missing, or whose value is not a number, is `None`:
   * the source only ever compares status and code with `===` against number
   * literals, so any non-number value behaves exactly like a missing one.
   */
  datatype AnalysisError = AnalysisError(message: Option<string>, status: Option<int>, code: Option<int>)

  const GenericMessage: string := "Something went wrong with the AI analysis. Please try again."
  const ModelUnavailableMessage: string := "The selected Gemini model is currently unavailable. Please try again later."
  const NetworkMessage: string :=
    "Network or Server Error: The request took too long or the connection failed. Please try again with a smaller image or shorter text."

  /** `sub` occurs in `s` starting at index `i`. */
  predicate OccursAt(s: string, sub: string, i: int)
  {
    0 <= i && i + |sub| <= |s| && s[i..i + |sub|] == sub
  }

  lemma OccursAtShift(s: string, sub: string, i: int)
    requires |s| > 0 && 1 <= i
    ensures OccursAt(s, sub, i) <==> OccursAt(s[1..], sub, i - 1)
  {
    if i + |sub| <= |s| {
      assert s[1..][i - 1..i - 1 + |sub|] == s[i..i + |sub|];
    }
  }

  /**
   * String.prototype.includes: whether `sub` occurs anywhere in `s`, computed by
   * scanning from the left; the result agrees with the existence of an occurrence.
   */
  function Includes(s: string, sub: string): (b: bool)
    ensures b <==> exists i :: OccursAt(s, sub, i)
    decreases |s|
  {
    if |sub| > |s| then
      false
    else if s[..|sub|] == sub then
      assert OccursAt(s, sub, 0);
      true
    else
      var rest := Includes(s[1..], sub);
      assert rest ==> exists i :: OccursAt(s, sub, i) by {
        if rest {
          var j :| OccursAt(s[1..], sub, j);
          OccursAtShift(s, sub, j + 1);
        }
      }
      assert (exists i :: OccursAt(s, sub, i)) ==> rest by {
        if exists i :: OccursAt(s, sub, i) {
          var i :| OccursAt(s, sub, i);
          OccursAtShift(s, sub, i);
        }
      }
      rest
  }

  /** A text that does not contain the first character of `sub` does not include `sub`. */
  lemma FirstCharAbsent(s: string, sub: string)
    requires |sub| > 0 && sub[0] !in s
    ensures !Includes(s, sub)
  {
  }

  /** `error.message?.includes(sub)`: false when there is no message. */
  predicate MessageIncludes(e: AnalysisError, sub: string)
  {
    e.message.Some? && Includes(e.message.value, sub)
  }

  /** The network / server-error condition of App.tsx:57. */
  predicate IsNetworkOrServerError(e: AnalysisError)
  {
    MessageIncludes(e, "xhr") || MessageIncludes(e, "fetch") || e.code == Some(500) || e.status == Some(500)
  }

  /** The model-not-found condition of App.tsx:52. */
  predicate IsModelNotFound(e: AnalysisError)
  {
    MessageIncludes(e, "404") || e.status == Some(404)
  }

  /** `error.message` is truthy: present and not the empty string. */
  predicate HasMessage(e: AnalysisError)
  {
    e.message.Some? && e.message.value != ""
  }

  /**
   * The message of App.tsx:49-59, computed as the source does it: start from the
   * error's own message or the generic text, then let the 404 test and afterwards
   * the network test overwrite it. The contract states the resulting precedence:
   * network/server beats model-not-found, which beats the raw message, which beats
   * the generic fallback; the message shown is never empty.
   */
  function UserMessage(e: AnalysisError): (m: string)
    ensures IsNetworkOrServerError(e) ==> m == NetworkMessage
    ensures !IsNetworkOrServerError(e) && IsModelNotFound(e) ==> m == ModelUnavailableMessage
    ensures !IsNetworkOrServerError(e) && !IsModelNotFound(e) && HasMessage(e) ==> m == e.message.value
    ensures !IsNetworkOrServerError(e) && !IsModelNotFound(e) && !HasMessage(e) ==> m == GenericMessage
    ensures m != ""
  {
    var initial := if HasMessage(e) then e.message.value else GenericMessage;
    var after404 := if IsModelNotFound(e) then ModelUnavailableMessage else initial;
    if IsNetworkOrServerError(e) then NetworkMessage else after404
  }

  /** The user's own message is shown exactly when neither special case applies and it is non-empty. */
  lemma RawMessageShownOnlyUnclassified(e: AnalysisError)
    requires HasMessage(e)
    requires e.message.value != NetworkMessage && e.message.value != ModelUnavailableMessage
    ensures UserMessage(e) == e.message.value <==> !IsNetworkOrServerError(e) && !IsModelNotFound(e)
  {
  }

  /** A "Failed to fetch" error that also reports status 404 gets the network text, not the 404 text. */
  lemma FetchFailureWith404IsNetworkError()
    ensures UserMessage(AnalysisError(Some("Failed to fetch"), Some(404), None)) == NetworkMessage
  {
    assert OccursAt("Failed to fetch", "fetch", 10);
  }

  /** A message mentioning 404 with no network marker gets the model-unavailable text. */
  lemma NotFoundMessageIsModelUnavailable()
    ensures UserMessage(AnalysisError(Some("Error 404"), None, None)) == ModelUnavailableMessage
  {
    var msg := "Error 404";
    assert OccursAt(msg, "404", 6);
    FirstCharAbsent(msg, "xhr");
    FirstCharAbsent(msg, "fetch");
  }
}
