/**
 * The Resume Optimizer page: uploading a file and following its parse
 * status, asking for an analysis of a parsed resume, the two-step delete,
 * and tailoring a resume to a job description from the tailor dialog.
 * Every backend call is replaced by its outcome, given as an input; the
 * calls themselves are recorded in `sent`.
 */
module ResumeOptimizer {
  import opened Wrappers
  import Strings
  import opened Environment
  import ResumeListing

  const ParseFailedError: string := "Failed to parse resume. Please try again."
  const NoResumeIdError: string := "Failed to get resume ID. Please try again."
  const ProcessingError: string := "An error occurred while processing your resume. Please try again."
  const MissingAnalysisDataError: string := "Missing required data for analysis"
  const AnalysisDefaultError: string := "An error occurred while analyzing the resume"
  const NotAuthenticatedError: string := "User not authenticated"
  const DeleteFailedError: string := "Failed to delete resume. Please try again."
  const TailorSignInError: string := "Please sign in to tailor your resume"
  const MissingTailoredIdError: string := "Invalid response format: missing tailored_resume_id"
  const TailorDefaultError: string := "An error occurred while tailoring the resume"

  /** The key under which a tailored resume is handed to the editor. */
  const TailoredDataKey: string := "tailoredResumeData"

  /** The page-level parse status. */
  datatype ParseState = Idle | Parsing | Completed | Failed

  /** A caught exception: an `Error` with its message, or some other thrown value. */
  datatype Thrown = Thrown(isError: bool, message: string)

  /** `error instanceof Error ? error.message : fallback`. */
  function MessageOf(thrown: Thrown, fallback: string): string
  {
    if thrown.isError then thrown.message else fallback
  }

  /** The shape of what `uploadResume(file)` resolves to, as lines 98-101 inspect it. */
  datatype UploadReply =
    | NoDataField              // not an object, or no `data` key
    | DataWithoutResumeId      // `data` falsy, not an object, or without `resume_id`
    | DataWithResumeId(resumeId: string)

  datatype UploadOutcome = UploadThrew | UploadReturned(reply: UploadReply)

  /**
   * The HTTP status of an answer `axios` resolves with. With its default
   * `validateStatus` it rejects every status outside 200..299, so a 4xx or
   * 5xx answer is a thrown request, not an answer.
   */
  type SuccessStatus = s: int | 200 <= s <= 299 witness 200

  /** The parse request either throws (including any non-2xx status) or resolves with a 2xx status. */
  datatype ParseOutcome = ParseThrew | ParseAnswered(status: SuccessStatus)

  datatype ResumeAnalysis = ResumeAnalysis(areasOfImprovement: seq<string>, strengths: seq<string>)

  datatype AnalysisOutcome = AnalysisThrew(thrown: Thrown) | AnalysisReturned(analysis: ResumeAnalysis)

  /** The delete request either throws (including any non-2xx status) or resolves with a 2xx status. */
  datatype DeleteOutcome = DeleteThrew | DeleteAnswered(status: SuccessStatus)

  /**
   * The tailor endpoint's answer: `tailoredResumeId` is
   * `response.data?.data?.data?.tailored_resume_id`, `parsedJson` the
   * stringified `parsed_json` when that is truthy.
   */
  datatype TailorOutcome =
    | TailorThrew(thrown: Thrown)
    | TailorAnswered(tailoredResumeId: Option<string>, parsedJson: Option<string>)

  /** A call the page makes to the backend. */
  datatype Request =
    | UploadFile(uid: string)
    | ParseUploaded(resumeId: string, uid: string)
    | Analyze(uid: string, jsonUrl: string)
    | DeleteResume(uid: string, resumeId: string)
    | TailorResume(uid: string, resumeId: string, jobDescription: string)

  /** The values `parsingStatus` takes during one file selection, in order. */
  function FileStatusSteps(upload: UploadOutcome, parse: ParseOutcome): seq<ParseState>
  {
    match upload
    case UploadThrew => [Idle, Failed]
    case UploadReturned(reply) =>
      if reply.DataWithResumeId? && parse == ParseAnswered(200) then [Idle, Parsing, Completed]
      else [Idle, Parsing, Failed]
  }

  /** The error one file selection shows; `None` when it leaves the error as it was. */
  function FileErrorOf(upload: UploadOutcome, parse: ParseOutcome): Option<string>
  {
    match upload
    case UploadThrew => Some(ProcessingError)
    case UploadReturned(NoDataField) => Some(NoResumeIdError)
    case UploadReturned(DataWithoutResumeId) => Some(NoResumeIdError)
    case UploadReturned(DataWithResumeId(_)) =>
      match parse
      case ParseThrew => Some(ProcessingError)
      case ParseAnswered(status) => if status == 200 then None else Some(ParseFailedError)
  }

  /** The error shown after a handler that sets `newError` (or nothing, when `None`) over `before`. */
  function ErrorAfter(newError: Option<string>, before: Option<string>): Option<string>
  {
    if newError.Some? then newError else before
  }

  /** The values `currentlyParsingResumeId` takes during one file selection, in order. */
  function ParsingIdSteps(upload: UploadOutcome): seq<Option<string>>
  {
    match upload
    case UploadReturned(DataWithResumeId(id)) => [Some(id), None]
    case _ => [None]
  }

  /** The backend calls of one file selection. */
  function FileRequests(uid: string, upload: UploadOutcome): seq<Request>
  {
    match upload
    case UploadReturned(DataWithResumeId(id)) => [UploadFile(uid), ParseUploaded(id, uid)]
    case _ => [UploadFile(uid)]
  }

  /**
   * A file selection always settles: it ends `Completed` exactly when the
   * upload gave a resume id and the parse answered 200, and `Failed`
   * otherwise; it sets an error exactly when it fails (a completed upload
   * leaves any earlier error as it was); and it passes through `Parsing`
   * whenever the upload resolved.
   */
  lemma FileChangeSettles(upload: UploadOutcome, parse: ParseOutcome)
    ensures var steps := FileStatusSteps(upload, parse);
      && steps[0] == Idle
      && (steps[|steps| - 1] == Completed <==> upload.UploadReturned? && upload.reply.DataWithResumeId? && parse == ParseAnswered(200))
      && (steps[|steps| - 1] == Completed || steps[|steps| - 1] == Failed)
      && (FileErrorOf(upload, parse).None? <==> steps[|steps| - 1] == Completed)
      && (upload.UploadReturned? ==> |steps| == 3 && steps[1] == Parsing)
  {
  }

  /**
   * The parsing id is only ever set to the id the upload returned, and it is
   * `null` again when the selection settles.
   */
  lemma ParsingIdOnlyOnceKnown(upload: UploadOutcome)
    ensures var ids := ParsingIdSteps(upload);
      && ids[|ids| - 1] == None
      && forall i :: 0 <= i < |ids| && ids[i].Some? ==>
           upload.UploadReturned? && upload.reply == DataWithResumeId(ids[i].value)
  {
  }

  /** The Resume Optimizer page's own state. */
  class ResumeSection {
    const storage: SessionStorage
    var parsingStatus: ParseState
    var currentlyParsingResumeId: Option<string>
    var error: Option<string>
    var showDeleteModal: bool
    var resumeToDelete: Option<string>
    var analysisLoading: bool
    var showAnalysisModal: bool
    var currentAnalysis: Option<ResumeAnalysis>
    var showTailorSuccessModal: bool
    var sent: seq<Request>
    /** Every value `parsingStatus` was set to. */
    ghost var statusTrail: seq<ParseState>
    /** Every value `currentlyParsingResumeId` was set to. */
    ghost var parsingIdTrail: seq<Option<string>>
    /** Every value `analysisLoading` was set to. */
    ghost var analysisLoadingTrail: seq<bool>

    /**
     * Between handlers no resume is being parsed and no analysis is loading,
     * the shown status is the last one set, and the delete dialog is only
     * open with a resume recorded for deletion.
     */
    ghost predicate Valid()
      reads this
    {
      && currentlyParsingResumeId == None
      && !analysisLoading
      && parsingStatus == (if statusTrail == [] then Idle else statusTrail[|statusTrail| - 1])
      && (showDeleteModal ==> resumeToDelete.Some?)
    }

    constructor (storage: SessionStorage)
      ensures Valid()
      ensures this.storage == storage
      ensures parsingStatus == Idle && error == None && !showDeleteModal && resumeToDelete == None
      ensures !showAnalysisModal && currentAnalysis == None && !showTailorSuccessModal
      ensures sent == [] && statusTrail == [] && parsingIdTrail == [] && analysisLoadingTrail == []
    {
      this.storage := storage;
      parsingStatus := Idle;
      currentlyParsingResumeId := None;
      error := None;
      showDeleteModal := false;
      resumeToDelete := None;
      analysisLoading := false;
      showAnalysisModal := false;
      currentAnalysis := None;
      showTailorSuccessModal := false;
      sent := [];
      statusTrail := [];
      parsingIdTrail := [];
      analysisLoadingTrail := [];
    }

    method SetParsingStatus(status: ParseState)
      modifies this`parsingStatus, this`statusTrail
      ensures parsingStatus == status && statusTrail == old(statusTrail) + [status]
    {
      parsingStatus := status;
      statusTrail := statusTrail + [status];
    }

    method SetParsingResumeId(id: Option<string>)
      modifies this`currentlyParsingResumeId, this`parsingIdTrail
      ensures currentlyParsingResumeId == id && parsingIdTrail == old(parsingIdTrail) + [id]
    {
      currentlyParsingResumeId := id;
      parsingIdTrail := parsingIdTrail + [id];
    }

    /** The three setter calls every failing path of `handleFileChange` makes. */
    method FailParsing(message: string)
      modifies this`parsingStatus, this`statusTrail, this`currentlyParsingResumeId, this`parsingIdTrail, this`error
      ensures parsingStatus == Failed && statusTrail == old(statusTrail) + [Failed]
      ensures currentlyParsingResumeId == None && parsingIdTrail == old(parsingIdTrail) + [None]
      ensures error == Some(message)
    {
      SetParsingStatus(Failed);
      SetParsingResumeId(None);
      error := Some(message);
    }

    /**
     * The part of `handleFileChange` after the upload resolved (lines 95-131):
     * show `Parsing`, then look at the reply's shape and, with a resume id,
     * at the parse request's outcome.
     */
    method AfterUpload(uid: string, reply: UploadReply, parse: ParseOutcome)
      modifies this`parsingStatus, this`statusTrail, this`currentlyParsingResumeId, this`parsingIdTrail, this`error, this`sent
      ensures statusTrail == old(statusTrail) + FileStatusSteps(UploadReturned(reply), parse)[1..]
      ensures parsingStatus == statusTrail[|statusTrail| - 1]
      ensures parsingIdTrail == old(parsingIdTrail) + ParsingIdSteps(UploadReturned(reply))
      ensures currentlyParsingResumeId == None
      ensures error == ErrorAfter(FileErrorOf(UploadReturned(reply), parse), old(error))
      ensures sent == old(sent) + FileRequests(uid, UploadReturned(reply))[1..]
    {
      SetParsingStatus(Parsing);
      match reply {
        case DataWithResumeId(resumeId) =>
          SetParsingResumeId(Some(resumeId));
          sent := sent + [ParseUploaded(resumeId, uid)];
          match parse {
            case ParseThrew =>
              FailParsing(ProcessingError);
            case ParseAnswered(status) =>
              if status == 200 {
                SetParsingStatus(Completed);
                SetParsingResumeId(None);
              } else {
                FailParsing(ParseFailedError);
              }
          }
        case DataWithoutResumeId =>
          FailParsing(NoResumeIdError);
        case NoDataField =>
          FailParsing(NoResumeIdError);
      }
    }

    /**
     * `handleFileChange`: with no file chosen or nobody signed in nothing
     * happens; otherwise the status runs through `FileStatusSteps` and the
     * parsing id through `ParsingIdSteps`.
     */
    method HandleFileChange(fileChosen: bool, user: Option<User>, upload: UploadOutcome, parse: ParseOutcome)
      requires Valid()
      modifies this
      ensures Valid()
      ensures !(fileChosen && user.Some?) ==> unchanged(this)
      ensures fileChosen && user.Some? ==>
        && statusTrail == old(statusTrail) + FileStatusSteps(upload, parse)
        && parsingIdTrail == old(parsingIdTrail) + ParsingIdSteps(upload)
        && error == ErrorAfter(FileErrorOf(upload, parse), old(error))
        && sent == old(sent) + FileRequests(user.value.uid, upload)
      ensures showDeleteModal == old(showDeleteModal) && resumeToDelete == old(resumeToDelete)
      ensures showAnalysisModal == old(showAnalysisModal) && currentAnalysis == old(currentAnalysis)
      ensures showTailorSuccessModal == old(showTailorSuccessModal) && analysisLoadingTrail == old(analysisLoadingTrail)
    {
      if fileChosen && user.Some? {
        var uid := user.value.uid;
        SetParsingStatus(Idle);
        sent := sent + [UploadFile(uid)];
        match upload {
          case UploadThrew =>
            FailParsing(ProcessingError);
          case UploadReturned(reply) =>
            AfterUpload(uid, reply, parse);
        }
      }
    }

    /**
     * `handleAnalyze`: without a signed-in user or a parsed resume the error
     * is set and nothing else happens; otherwise the dialog opens, the request
     * is sent and `analysisLoading` is raised and lowered again.
     */
    method HandleAnalyze(user: Option<User>, resume: ResumeListing.Resume, outcome: AnalysisOutcome)
      requires Valid()
      modifies this`analysisLoading, this`analysisLoadingTrail, this`showAnalysisModal, this`error, this`sent, this`currentAnalysis
      ensures Valid()
      ensures !(SignedIn(user) && Strings.Truthy(resume.jsonUrl)) ==>
        && error == Some(MissingAnalysisDataError)
        && showAnalysisModal == old(showAnalysisModal) && analysisLoadingTrail == old(analysisLoadingTrail)
        && sent == old(sent) && currentAnalysis == old(currentAnalysis)
      ensures SignedIn(user) && Strings.Truthy(resume.jsonUrl) ==>
        && showAnalysisModal
        && analysisLoadingTrail == old(analysisLoadingTrail) + [true, false]
        && sent == old(sent) + [Analyze(user.value.uid, resume.jsonUrl.value)]
        && (outcome.AnalysisReturned? ==> currentAnalysis == Some(outcome.analysis) && error == None)
        && (outcome.AnalysisThrew? ==>
              currentAnalysis == old(currentAnalysis) && error == Some(MessageOf(outcome.thrown, AnalysisDefaultError)))
    {
      if !SignedIn(user) || !Strings.Truthy(resume.jsonUrl) {
        error := Some(MissingAnalysisDataError);
        return;
      }
      analysisLoading := true;
      analysisLoadingTrail := analysisLoadingTrail + [true];
      showAnalysisModal := true;
      error := None;
      sent := sent + [Analyze(user.value.uid, resume.jsonUrl.value)];
      match outcome {
        case AnalysisReturned(analysis) =>
          currentAnalysis := Some(analysis);
        case AnalysisThrew(thrown) =>
          error := Some(MessageOf(thrown, AnalysisDefaultError));
      }
      analysisLoading := false;
      analysisLoadingTrail := analysisLoadingTrail + [false];
    }

    /**
     * `handleDelete`: without a signed-in user only the error is set;
     * otherwise the delete is sent and a thrown request shows the delete error.
     */
    method HandleDelete(resumeId: string, user: Option<User>, outcome: DeleteOutcome)
      modifies this`error, this`sent
      ensures !SignedIn(user) ==> error == Some(NotAuthenticatedError) && sent == old(sent)
      ensures SignedIn(user) ==>
        && sent == old(sent) + [DeleteResume(user.value.uid, resumeId)]
        && error == (if outcome == DeleteThrew then Some(DeleteFailedError) else old(error))
    {
      if !SignedIn(user) {
        error := Some(NotAuthenticatedError);
        return;
      }
      sent := sent + [DeleteResume(user.value.uid, resumeId)];
      if outcome == DeleteThrew {
        error := Some(DeleteFailedError);
      }
    }

    /** `handleDeleteClick`: the first step records the resume and opens the dialog. */
    method HandleDeleteClick(resumeId: string)
      requires Valid()
      modifies this`resumeToDelete, this`showDeleteModal
      ensures Valid()
      ensures resumeToDelete == Some(resumeId) && showDeleteModal
    {
      resumeToDelete := Some(resumeId);
      showDeleteModal := true;
    }

    /** The dialog's Cancel button: it closes and the recorded resume stays. */
    method CancelDelete()
      requires Valid()
      modifies this`showDeleteModal
      ensures Valid()
      ensures !showDeleteModal
    {
      showDeleteModal := false;
    }

    /**
     * `handleConfirmDelete`: with no resume recorded nothing happens;
     * otherwise exactly that resume is deleted, the dialog closes and the
     * record is cleared.
     */
    method HandleConfirmDelete(user: Option<User>, outcome: DeleteOutcome)
      requires Valid()
      modifies this`error, this`sent, this`showDeleteModal, this`resumeToDelete
      ensures Valid()
      ensures !Strings.Truthy(old(resumeToDelete)) ==> unchanged(this)
      ensures Strings.Truthy(old(resumeToDelete)) ==>
        && !showDeleteModal && resumeToDelete == None
        && (!SignedIn(user) ==> error == Some(NotAuthenticatedError) && sent == old(sent))
        && (SignedIn(user) ==>
              && sent == old(sent) + [DeleteResume(user.value.uid, old(resumeToDelete).value)]
              && error == (if outcome == DeleteThrew then Some(DeleteFailedError) else old(error)))
    {
      if Strings.Truthy(resumeToDelete) {
        HandleDelete(resumeToDelete.value, user, outcome);
        showDeleteModal := false;
        resumeToDelete := None;
      }
    }

    /**
     * What `handleTailorResume(jobDescription, resumeId)` does to the page:
     * without a signed-in user it only sets the error; otherwise it clears
     * the error, sends the request, and on a truthy `tailored_resume_id`
     * stores the tailored data (when present) and opens the success dialog,
     * while any other answer ends in an error.
     */
    twostate predicate TailoredAs(jobDescription: string, resumeId: string, user: Option<User>, outcome: TailorOutcome)
      reads this, storage
    {
      && parsingStatus == old(parsingStatus) && currentlyParsingResumeId == old(currentlyParsingResumeId)
      && showDeleteModal == old(showDeleteModal) && resumeToDelete == old(resumeToDelete)
      && analysisLoading == old(analysisLoading) && showAnalysisModal == old(showAnalysisModal)
      && currentAnalysis == old(currentAnalysis)
      && statusTrail == old(statusTrail) && parsingIdTrail == old(parsingIdTrail)
      && analysisLoadingTrail == old(analysisLoadingTrail)
      && (!SignedIn(user) ==>
            && error == Some(TailorSignInError) && sent == old(sent)
            && showTailorSuccessModal == old(showTailorSuccessModal) && storage.items == old(storage.items))
      && (SignedIn(user) ==>
            && sent == old(sent) + [TailorResume(user.value.uid, resumeId, jobDescription)]
            && match outcome
               case TailorThrew(thrown) =>
                 && error == Some(MessageOf(thrown, TailorDefaultError))
                 && showTailorSuccessModal == old(showTailorSuccessModal) && storage.items == old(storage.items)
               case TailorAnswered(tailoredId, parsedJson) =>
                 if Strings.Truthy(tailoredId) then
                   && error == None && showTailorSuccessModal
                   && storage.items == (if parsedJson.Some? then old(storage.items)[TailoredDataKey := TailoredResumeData(parsedJson.value)]
                                        else old(storage.items))
                 else
                   && error == Some(MissingTailoredIdError)
                   && showTailorSuccessModal == old(showTailorSuccessModal) && storage.items == old(storage.items))
    }

    /** `handleTailorResume`, the dialog's `onTailor`; the redirect after success is not modelled. */
    method HandleTailorResume(jobDescription: string, resumeId: string, user: Option<User>, outcome: TailorOutcome)
      modifies this`error, this`sent, this`showTailorSuccessModal, storage
      ensures TailoredAs(jobDescription, resumeId, user, outcome)
    {
      if !SignedIn(user) {
        error := Some(TailorSignInError);
        return;
      }
      error := None;
      sent := sent + [TailorResume(user.value.uid, resumeId, jobDescription)];
      match outcome {
        case TailorThrew(thrown) =>
          error := Some(MessageOf(thrown, TailorDefaultError));
        case TailorAnswered(tailoredId, parsedJson) =>
          if Strings.Truthy(tailoredId) {
            if parsedJson.Some? {
              storage.SetItem(TailoredDataKey, TailoredResumeData(parsedJson.value));
            }
            showTailorSuccessModal := true;
          } else {
            error := Some(MissingTailoredIdError);
          }
      }
    }
  }

  /** The "Tailor Resume" dialog; its `onTailor` is the page's `HandleTailorResume`. */
  class TailorModal {
    var showTailorModal: bool
    var jobDescription: string
    var selectedResumeId: string
    var isTailoring: bool
    /** Every value `isTailoring` was set to. */
    ghost var tailoringTrail: seq<bool>

    ghost predicate Valid()
      reads this
    {
      !isTailoring
    }

    constructor ()
      ensures Valid()
      ensures !showTailorModal && jobDescription == "" && selectedResumeId == "" && tailoringTrail == []
    {
      showTailorModal := false;
      jobDescription := "";
      selectedResumeId := "";
      isTailoring := false;
      tailoringTrail := [];
    }

    /** Clicking the "Tailor Resume" card opens the dialog. */
    method Open()
      modifies this`showTailorModal
      ensures showTailorModal
    {
      showTailorModal := true;
    }

    /** Typing in the job-description box. */
    method EditJobDescription(text: string)
      modifies this`jobDescription
      ensures jobDescription == text
    {
      jobDescription := text;
    }

    /** Picking a resume in the selector. */
    method SelectResume(resumeId: string)
      modifies this`selectedResumeId
      ensures selectedResumeId == resumeId
    {
      selectedResumeId := resumeId;
    }

    /**
     * `handleTailor`: unless the trimmed job description is non-empty and a
     * resume is selected nothing happens; otherwise the page tailors exactly
     * that description and resume, the form is cleared, the dialog closes and
     * `isTailoring` is raised and lowered again.
     */
    method HandleTailor(page: ResumeSection, user: Option<User>, outcome: TailorOutcome)
      requires Valid()
      modifies this, page, page.storage
      ensures Valid()
      ensures Strings.Trim(old(jobDescription)) == "" || old(selectedResumeId) == "" ==>
        unchanged(this) && unchanged(page) && unchanged(page.storage)
      ensures Strings.Trim(old(jobDescription)) != "" && old(selectedResumeId) != "" ==>
        && page.TailoredAs(old(jobDescription), old(selectedResumeId), user, outcome)
        && jobDescription == "" && selectedResumeId == "" && !showTailorModal
        && tailoringTrail == old(tailoringTrail) + [true, false]
    {
      if Strings.Trim(jobDescription) == "" || selectedResumeId == "" {
        return;
      }
      isTailoring := true;
      tailoringTrail := tailoringTrail + [true];
      page.HandleTailorResume(jobDescription, selectedResumeId, user, outcome);
      jobDescription := "";
      selectedResumeId := "";
      showTailorModal := false;
      isTailoring := false;
      tailoringTrail := tailoringTrail + [false];
    }
  }
}
