/**
 * The AI Writer button of a form field: a request to rewrite the field's
 * text, guarded by a blank-text check and a sign-in check; a pending
 * suggestion that is mirrored into session storage under `aiWriter_<fieldKey>`;
 * and accept / reject actions that settle it. The HTTP call is not modelled:
 * its reply is an input of the request handler.
 */
module AIWriter {
  import opened Wrappers
  import Strings
  import opened Environment

  const EmptyTextError: string := "Please add some text first before using AI Writer"
  const SignInError: string := "Please sign in to use AI Writer"
  const ImproveError: string := "Error improving text. Please try again."

  /**
   * What the AI-write endpoint gives back, as far as the button looks at it.
   * `rewrittenText` is `response.data?.data?.data?.rewritten_text`; `parsedText`
   * is the `.text` of `JSON.parse(rewrittenText)`, `None` when parsing throws
   * or the field is missing (JSON parsing itself is not modelled).
   */
  datatype AIWriteReply =
    | RequestFailed
    | Answered(rewrittenText: Option<string>, parsedText: Option<string>)

  /** The body posted to the AI-write endpoint; `html` is the text `extractText` is applied to. */
  datatype AIWriteRequest = AIWriteRequest(userId: string, resumeId: string, html: string)

  /** The session-storage key of a field's pending suggestion. */
  function StorageKey(fieldKey: string): string
  {
    "aiWriter_" + fieldKey
  }

  /** `resumeId || ""` for the `resume_id` search parameter. */
  function ResumeIdOrEmpty(resumeIdParam: Option<string>): string
  {
    Strings.OrNull(resumeIdParam).GetOr("")
  }

  /**
   * The suggestion made from a truthy `rewritten_text`: the parsed `.text`
   * when that is truthy, the raw string otherwise. Either way it is one of
   * the two and never empty.
   */
  function UnwrapRewritten(raw: string, parsedText: Option<string>): (text: string)
    requires raw != ""
    ensures text != ""
    ensures text == raw || Some(text) == parsedText
    ensures Strings.Truthy(parsedText) ==> text == parsedText.value
  {
    if Strings.Truthy(parsedText) then parsedText.value else raw
  }

  /** What one press of the button ends in. */
  datatype WriteOutcome = BlankText | NotSignedIn | Suggested(text: string) | ImproveFailed

  /** The outcome of `handleAIWrite` for the field's text, the signed-in user and the endpoint's reply. */
  function WriteOutcomeOf(currentText: string, user: Option<User>, reply: AIWriteReply): WriteOutcome
  {
    if Strings.Trim(currentText) == "" then BlankText
    else if !SignedIn(user) then NotSignedIn
    else match reply
      case RequestFailed => ImproveFailed
      case Answered(raw, parsed) =>
        if Strings.Truthy(raw) then Suggested(UnwrapRewritten(raw.value, parsed)) else ImproveFailed
  }

  /** The request reaches the endpoint exactly when it passes both guards. */
  predicate SendsRequest(outcome: WriteOutcome)
  {
    outcome.Suggested? || outcome == ImproveFailed
  }

  /**
   * The blank-text check comes first: blank text fails with `BlankText`
   * whoever is signed in; non-blank text with nobody signed in fails with
   * `NotSignedIn` whatever the endpoint would have said.
   */
  lemma GuardOrder(currentText: string, user: Option<User>, reply: AIWriteReply)
    ensures Strings.IsBlank(currentText) <==> WriteOutcomeOf(currentText, user, reply) == BlankText
    ensures !Strings.IsBlank(currentText) && !SignedIn(user) <==> WriteOutcomeOf(currentText, user, reply) == NotSignedIn
    ensures SendsRequest(WriteOutcomeOf(currentText, user, reply)) <==> !Strings.IsBlank(currentText) && SignedIn(user)
  {
    Strings.TrimEmptyIffBlank(currentText);
  }

  /** A signed-in request with non-blank text and a truthy `rewritten_text` always yields a non-empty suggestion. */
  lemma SuggestionWhenRewritten(currentText: string, user: Option<User>, raw: string, parsed: Option<string>)
    requires !Strings.IsBlank(currentText) && SignedIn(user) && raw != ""
    ensures WriteOutcomeOf(currentText, user, Answered(Some(raw), parsed)).Suggested?
    ensures WriteOutcomeOf(currentText, user, Answered(Some(raw), parsed)).text != ""
  {
    Strings.TrimEmptyIffBlank(currentText);
  }

  /**
   * One AI Writer button. `accepted` records the arguments of the `onAccept`
   * calls, `errorNotices` those of the `onErrorChange` calls, `requests` the
   * bodies posted to the endpoint and `loadingTrail` every value `isLoading`
   * was set to.
   */
  class AIWriterButton {
    const fieldKey: string
    const storage: SessionStorage
    var isLoading: bool
    var suggestion: Option<string>
    var showSuggestion: bool
    var errorMessage: Option<string>
    var accepted: seq<string>
    var errorNotices: seq<bool>
    var requests: seq<AIWriteRequest>
    ghost var loadingTrail: seq<bool>

    /**
     * Between handlers nothing is loading, a suggestion is shown exactly
     * when there is one and it is non-empty, and the parent's last error
     * notice agrees with whether an error is shown.
     */
    ghost predicate Valid()
      reads this
    {
      && !isLoading
      && (showSuggestion <==> suggestion.Some?)
      && (suggestion.Some? ==> suggestion.value != "")
      && (errorMessage.Some? ==> errorMessage.value != "")
      && (errorMessage.Some? <==> |errorNotices| > 0 && errorNotices[|errorNotices| - 1])
    }

    constructor (fieldKey: string, storage: SessionStorage)
      ensures Valid()
      ensures this.fieldKey == fieldKey && this.storage == storage
      ensures suggestion == None && !showSuggestion && errorMessage == None
      ensures accepted == [] && errorNotices == [] && requests == [] && loadingTrail == []
    {
      this.fieldKey := fieldKey;
      this.storage := storage;
      isLoading := false;
      suggestion := None;
      showSuggestion := false;
      errorMessage := None;
      accepted := [];
      errorNotices := [];
      requests := [];
      loadingTrail := [];
    }

    /** `clearError`: only a shown error is cleared and reported as gone. */
    method ClearError()
      modifies this`errorMessage, this`errorNotices
      ensures Strings.Truthy(old(errorMessage)) ==> errorMessage == None && errorNotices == old(errorNotices) + [false]
      ensures !Strings.Truthy(old(errorMessage)) ==> errorMessage == old(errorMessage) && errorNotices == old(errorNotices)
    {
      if Strings.Truthy(errorMessage) {
        errorMessage := None;
        errorNotices := errorNotices + [false];
      }
    }

    /** `setError`: the message is shown and reported, whatever was shown before. */
    method SetError(message: string)
      modifies this`errorMessage, this`errorNotices
      ensures errorMessage == Some(message) && errorNotices == old(errorNotices) + [true]
    {
      errorMessage := Some(message);
      errorNotices := errorNotices + [true];
    }

    /**
     * `handleAIWrite` for the field's `currentText`, the signed-in `user`,
     * the page's `resume_id` parameter and the endpoint's `reply`.
     */
    method HandleAIWrite(currentText: string, user: Option<User>, resumeIdParam: Option<string>, reply: AIWriteReply)
      requires Valid()
      modifies this, storage
      ensures Valid()
      ensures accepted == old(accepted)
      ensures var outcome := WriteOutcomeOf(currentText, user, reply);
        && (outcome == BlankText ==> errorMessage == Some(EmptyTextError))
        && (outcome == NotSignedIn ==> errorMessage == Some(SignInError))
        && (outcome == ImproveFailed ==> errorMessage == Some(ImproveError))
        && (outcome.Suggested? ==> errorMessage == None)
        && errorNotices == old(errorNotices) + (if old(errorMessage).Some? then [false] else [])
                           + (if outcome.Suggested? then [] else [true])
    ensures var outcome := WriteOutcomeOf(currentText, user, reply);
        && (!SendsRequest(outcome) ==> requests == old(requests) && loadingTrail == old(loadingTrail))
        && (SendsRequest(outcome) ==>
              requests == old(requests) + [AIWriteRequest(user.value.uid, ResumeIdOrEmpty(resumeIdParam), currentText)]
              && loadingTrail == old(loadingTrail) + [true, false])
    ensures var outcome := WriteOutcomeOf(currentText, user, reply);
        && (outcome.Suggested? ==>
              suggestion == Some(outcome.text) && showSuggestion
              && storage.items == old(storage.items)[StorageKey(fieldKey) := SuggestionRecord(currentText, outcome.text, fieldKey)])
        && (!outcome.Suggested? ==>
              suggestion == old(suggestion) && showSuggestion == old(showSuggestion)
              && storage.items == old(storage.items))
    {
      ClearError();
      if Strings.Trim(currentText) == "" {
        SetError(EmptyTextError);
        return;
      }
      if !SignedIn(user) {
        SetError(SignInError);
        return;
      }
      RequestRewrite(currentText, user.value.uid, resumeIdParam, reply);
    }

    /**
     * The part of `handleAIWrite` past both guards: post the text, then show
     * the suggestion or the error; `isLoading` is raised for the request and
     * lowered on every path.
     */
    method RequestRewrite(currentText: string, uid: string, resumeIdParam: Option<string>, reply: AIWriteReply)
      requires !isLoading
      requires showSuggestion <==> suggestion.Some?
      requires suggestion.Some? ==> suggestion.value != ""
      modifies this, storage
      ensures !isLoading
      ensures showSuggestion <==> suggestion.Some?
      ensures suggestion.Some? ==> suggestion.value != ""
      ensures accepted == old(accepted)
      ensures requests == old(requests) + [AIWriteRequest(uid, ResumeIdOrEmpty(resumeIdParam), currentText)]
      ensures loadingTrail == old(loadingTrail) + [true, false]
      ensures reply.Answered? && Strings.Truthy(reply.rewrittenText) ==>
        var text := UnwrapRewritten(reply.rewrittenText.value, reply.parsedText);
        && suggestion == Some(text) && showSuggestion
        && storage.items == old(storage.items)[StorageKey(fieldKey) := SuggestionRecord(currentText, text, fieldKey)]
        && errorMessage == old(errorMessage) && errorNotices == old(errorNotices)
      ensures !(reply.Answered? && Strings.Truthy(reply.rewrittenText)) ==>
        && suggestion == old(suggestion) && showSuggestion == old(showSuggestion)
        && storage.items == old(storage.items)
        && errorMessage == Some(ImproveError) && errorNotices == old(errorNotices) + [true]
    {
      isLoading := true;
      loadingTrail := loadingTrail + [true];
      requests := requests + [AIWriteRequest(uid, ResumeIdOrEmpty(resumeIdParam), currentText)];
      if reply.Answered? && Strings.Truthy(reply.rewrittenText) {
        var rewritten := UnwrapRewritten(reply.rewrittenText.value, reply.parsedText);
        storage.SetItem(StorageKey(fieldKey), SuggestionRecord(currentText, rewritten, fieldKey));
        suggestion := Some(rewritten);
        showSuggestion := true;
      } else {
        SetError(ImproveError);
      }
      isLoading := false;
      loadingTrail := loadingTrail + [false];
    }

    /**
     * `handleAccept`: a pending suggestion is handed to `onAccept` exactly as
     * it is, then dropped from the button and from session storage; with no
     * suggestion nothing happens.
     */
    method HandleAccept()
      requires Valid()
      modifies this, storage
      ensures Valid()
      ensures Strings.Truthy(old(suggestion)) ==>
        && accepted == old(accepted) + [old(suggestion).value]
        && suggestion == None && !showSuggestion && errorMessage == None
        && errorNotices == old(errorNotices) + (if old(errorMessage).Some? then [false] else [])
        && storage.items == old(storage.items) - {StorageKey(fieldKey)}
        && requests == old(requests) && loadingTrail == old(loadingTrail)
      ensures !Strings.Truthy(old(suggestion)) ==> unchanged(this) && unchanged(storage)
    {
      if Strings.Truthy(suggestion) {
        accepted := accepted + [suggestion.value];
        showSuggestion := false;
        suggestion := None;
        ClearError();
        storage.RemoveItem(StorageKey(fieldKey));
      }
    }

    /**
     * `handleReject`: the suggestion, the shown error and the session entry
     * are dropped, and `onAccept` is not called.
     */
    method HandleReject()
      requires Valid()
      modifies this, storage
      ensures Valid()
      ensures accepted == old(accepted)
      ensures suggestion == None && !showSuggestion && errorMessage == None
      ensures errorNotices == old(errorNotices) + (if old(errorMessage).Some? then [false] else [])
      ensures storage.items == old(storage.items) - {StorageKey(fieldKey)}
      ensures requests == old(requests) && loadingTrail == old(loadingTrail)
    {
      showSuggestion := false;
      suggestion := None;
      ClearError();
      storage.RemoveItem(StorageKey(fieldKey));
    }
  }
}
