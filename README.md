# Resume listing and AI-assisted editing workflows, modelled in Dafny

This project models the three parts of the CVSwitch resume web application that carry sequential logic:

- **The resume listing** (`services/resumeService.ts`, `getUserResumes`). The backend returns two lists of `{cloud_path, public_url}` records: uploaded resume files and parsed-JSON files. The service keys each parsed file by its *base name*, which is the last `/`-segment of its path cut at the first `.`. It fills a table with `Map.set`, so the last record with a given key wins. It then turns each upload into a `Resume` record with:
  - an index-based id;
  - a file name, falling back to `Resume <i+1>`;
  - the url of the parsed file that shares the upload's base name;
  - a `completed` status exactly when such a url exists.

  Module `ResumeListing` holds this part. Module `Strings` holds the JavaScript string operations it relies on.
- **The AI Writer button** (`components/ui/AIWriterButton.tsx`). A rewrite request is guarded first by a blank-text check and then by a sign-in check. A successful reply becomes a pending suggestion, and the suggestion is copied to session storage under `aiWriter_<fieldKey>`. Accept passes the suggestion to `onAccept` and clears it; reject clears it. The parent is told through `onErrorChange` whenever an error appears or goes away. Class `AIWriter.AIWriterButton` models this part.
- **The Resume Optimizer page** (`components/resume-optimizer/ResumeSection.tsx`). This covers:
  - the parse-status machine of a file upload (`idle`, `parsing`, `completed`, `failed`) together with the id of the resume being parsed;
  - the guarded analysis request;
  - the two-step delete;
  - tailoring a resume from the Tailor dialog, whose `onTailor` is the page's `handleTailorResume`.

  Classes `ResumeOptimizer.ResumeSection` and `ResumeOptimizer.TailorModal` model this part.

Each event handler is one method. Where a handler awaits the backend, the backend's outcome is a parameter: thrown or answered, the shape of the answer, the HTTP status. Every backend call the page or button makes is appended to a log (`sent`, `requests`). So "sends nothing" is part of each contract. Ghost trails record every value a handler passes to `parsingStatus`, `currentlyParsingResumeId`, `isLoading`, `analysisLoading` and `isTailoring`. They show the intermediate states between awaits. One `Environment.SessionStorage` object stands for the browser's `sessionStorage`, shared by all components. The callbacks `onAccept` and `onErrorChange` are modelled as logs of their arguments.

The listing's contract is stated against a reference definition, not against the table. `JoinedUrl(parsed, key)` is the url of the *last* parsed record whose key is `key`, when that url is truthy. `BuildParsedTable` is the `forEach` loop, and it is proved to build exactly that table. `GetUserResumes` is proved to produce records that satisfy `ListedAs` against the reference.

## Model

| member | source | states |
|---|---|---|
| `Strings.OrNull` | services/resumeService.ts:52 | `x \|\| null` is non-null exactly when `x` is a non-empty string, and is then `x` itself |
| `Strings.TrimStart` | components/ui/AIWriterButton.tsx:50 | the result is a suffix of the input; everything dropped is whitespace; the result does not start with whitespace |
| `Strings.TrimEnd` | components/ui/AIWriterButton.tsx:50 | the result is a prefix of the input; everything dropped is whitespace; the result does not end with whitespace |
| `Strings.TrimEmptyIffBlank` | components/ui/AIWriterButton.tsx:50 | `s.trim()` is empty exactly when every character of `s` is ECMAScript whitespace or a line terminator |
| `Strings.DigitChar` | services/resumeService.ts:55 | a digit value below ten maps to the character whose code is `'0'` plus that value |
| `Strings.NatToDecimal` | services/resumeService.ts:55 | `index.toString()` is a non-empty string of decimal digits with no leading zero unless the index is 0 |
| `Strings.DecimalRoundTrip` | services/resumeService.ts:55 | reading an id back as a decimal number gives the index it was made from |
| `Strings.DecimalInjective` | services/resumeService.ts:55 | two indices give the same id exactly when they are equal |
| `ResumeListing.LastSegment` | services/resumeService.ts:46-47 | `path.split('/').pop()` is a suffix of the path with no `/` in it, and is either the whole path or preceded by a `/` |
| `ResumeListing.UpToFirstDot` | services/resumeService.ts:39 | `s.split('.')[0]` is a prefix of `s` with no `.` in it, and is either all of `s` or followed by a `.` |
| `ResumeListing.BaseName` | services/resumeService.ts:38-39 | the join key contains neither `/` nor `.` |
| `ResumeListing.LastIndexOf` | services/resumeService.ts:36-41 | finds the last position holding the key (no later position holds it), or reports that no position holds it |
| `ResumeListing.KeysOfSnoc` | services/resumeService.ts:36-41 | processing one more parsed record adds exactly its key at the end |
| `ResumeListing.LastIndexOfSnoc` | services/resumeService.ts:40 | after one more `Map.set`, that key's last position is the new record; every other key keeps its position |
| `ResumeListing.BuildParsedTable` | services/resumeService.ts:34-42 | the `forEach`/`Map.set` loop builds a table whose keys are exactly the keys of the parsed records, each mapped to the url of the last record with that key |
| `ResumeListing.TableAgreesWithJoin` | services/resumeService.ts:52 | for every key, `parsedJsonMap.get(key) \|\| null` on such a table equals the reference join `JoinedUrl` |
| `ResumeListing.GetUserResumes` | services/resumeService.ts:32-67 | with no upload array the result is empty. Otherwise there is one record per upload, in order, with: id = decimal of its position; name = last path segment or the `Resume i+1` fallback; url and cloudPath copied; jsonUrl = the reference join; status `completed` exactly when jsonUrl is non-null. With no parsed list, every jsonUrl is null |
| `ResumeListing.IdsAreDistinct` | services/resumeService.ts:55 | no two records of a listing share an id |
| `ResumeListing.EmptySegmentCases` | services/resumeService.ts:46-47 | the last segment is empty exactly for an empty path or a path ending in `/` |
| `ResumeListing.FallbackName` | services/resumeService.ts:46-47 | the name is `Resume <i+1>` for an empty path or a trailing slash. Otherwise it is the last segment. It is never empty |
| `ResumeListing.EmptyKeyCases` | services/resumeService.ts:37-39 | the key is empty exactly when the last segment is empty or starts with `.` |
| `ResumeListing.LastSegmentOfJoin` | services/resumeService.ts:47 | the last segment of `dir/segment` is `segment` when `segment` contains no `/` |
| `ResumeListing.UpToFirstDotOfStem` | services/resumeService.ts:39 | the text before the first dot of `stem.rest` is `stem` when `stem` contains no dot |
| `ResumeListing.KeyIsStem` | services/resumeService.ts:50-51 | `dir/stem.rest` is keyed by `stem`; what follows the first dot does not matter |
| `ResumeListing.EmptyKeyExamples` | services/resumeService.ts:37-39 | an empty path, `dir/` and `dir/.rest` all have the empty key, so such uploads join with parsed records whose key is also empty |
| `ResumeListing.TimestampJoin` | services/resumeService.ts:50-52 | `…/1743795375.008884_x.pdf` and `…/1743795375.json` share the key `1743795375`, and in general any two paths `dir/stamp.rest` with the same `stamp` do |
| `ResumeListing.LastWriteWins` | services/resumeService.ts:36-41 | appending a parsed record decides the url for its own key (its url when truthy, otherwise null) and leaves the url of every other key unchanged |
| `ResumeListing.JoinedIffMatch` | services/resumeService.ts:52 | an upload gets a jsonUrl exactly when some parsed record has its key, that record's url is truthy, and no later parsed record has the key |
| `Environment.SessionStorage.SetItem` | components/ui/AIWriterButton.tsx:104 | `setItem` stores the value under the key, replacing any earlier one, and leaves other keys alone |
| `Environment.SessionStorage.RemoveItem` | components/ui/AIWriterButton.tsx:127 | `removeItem` drops the key and nothing else, so removing a missing key changes nothing |
| `AIWriter.UnwrapRewritten` | components/ui/AIWriterButton.tsx:83-94 | the suggestion is the parsed `.text` when that is truthy, otherwise the raw `rewritten_text`; it is never empty |
| `AIWriter.GuardOrder` | components/ui/AIWriterButton.tsx:47-58 | blank text fails with the blank-text error whoever is signed in. Non-blank text with nobody signed in fails with the sign-in error. A request is sent exactly when the text is not blank and a user is signed in |
| `AIWriter.SuggestionWhenRewritten` | components/ui/AIWriterButton.tsx:82-107 | a guarded request with a truthy `rewritten_text` always ends with a non-empty suggestion |
| `AIWriter.AIWriterButton.constructor` | components/ui/AIWriterButton.tsx:27-30 | starts not loading, with no suggestion, nothing shown and no error |
| `AIWriter.AIWriterButton.ClearError` | components/ui/AIWriterButton.tsx:35-40 | clears and reports `false` only when an error is shown; otherwise changes nothing |
| `AIWriter.AIWriterButton.SetError` | components/ui/AIWriterButton.tsx:42-45 | always shows the message and reports `true` |
| `AIWriter.AIWriterButton.HandleAIWrite` | components/ui/AIWriterButton.tsx:47-118 | blank text and a missing sign-in set their messages, send nothing and never load. A reply with `rewritten_text` sets and shows the suggestion and stores `{original, rewritten, fieldKey}` under `aiWriter_<fieldKey>`. Any other reply sets the improve error and keeps the old suggestion. Loading ends false. The parent's last error notice matches the error shown |
| `AIWriter.AIWriterButton.RequestRewrite` | components/ui/AIWriterButton.tsx:60-117 | posts exactly one request carrying the user id, `resume_id \|\| ""` and the text. It raises and then lowers `isLoading`, and handles the reply as above |
| `AIWriter.AIWriterButton.HandleAccept` | components/ui/AIWriterButton.tsx:120-130 | with a suggestion, calls `onAccept` with exactly that suggestion, clears the suggestion, the shown error and the session entry. With none, changes nothing |
| `AIWriter.AIWriterButton.HandleReject` | components/ui/AIWriterButton.tsx:132-139 | clears the suggestion, the shown error and the session entry, and never calls `onAccept` |
| `ResumeOptimizer.FileChangeSettles` | components/resume-optimizer/ResumeSection.tsx:88-136 | an upload starts at `idle`. It always ends `completed` or `failed`. It ends `completed` exactly when the upload gave a resume id and the parse answered 200. It sets an error exactly when it fails; a completed upload leaves any earlier error as it was. It passes through `parsing` whenever the upload resolved |
| `ResumeOptimizer.ParsingIdOnlyOnceKnown` | components/resume-optimizer/ResumeSection.tsx:102-135 | the parsing id is only ever set to the id the upload returned, and is null again at the end |
| `ResumeOptimizer.ResumeSection.constructor` | components/resume-optimizer/ResumeSection.tsx:76-83 | starts `idle` with no error, closed dialogs and nothing recorded for deletion |
| `ResumeOptimizer.ResumeSection.SetParsingStatus` | components/resume-optimizer/ResumeSection.tsx:76 | sets the status and records it in the status trail |
| `ResumeOptimizer.ResumeSection.SetParsingResumeId` | components/resume-optimizer/ResumeSection.tsx:82 | sets the parsing id and records it in the id trail |
| `ResumeOptimizer.ResumeSection.FailParsing` | components/resume-optimizer/ResumeSection.tsx:128-130 | a failing path sets `failed`, clears the parsing id and shows its message |
| `ResumeOptimizer.ResumeSection.AfterUpload` | components/resume-optimizer/ResumeSection.tsx:95-131 | once the upload resolves the status is `parsing`. Only with a resume id is the parse request sent and the id recorded. The parse answer then decides `completed` or `failed` and the matching message |
| `ResumeOptimizer.ResumeSection.HandleFileChange` | components/resume-optimizer/ResumeSection.tsx:85-139 | with no file or no user nothing changes. Otherwise the status and the parsing id run through the steps specified above, the error and the calls sent follow the outcome, and nothing else on the page changes |
| `ResumeOptimizer.ResumeSection.HandleAnalyze` | components/resume-optimizer/ResumeSection.tsx:141-161 | with no user id or no jsonUrl, sets "Missing required data for analysis" and opens no dialog, starts no loading and sends nothing. Otherwise it opens the dialog, sends one request, ends with loading false, and records the analysis or the thrown message |
| `ResumeOptimizer.ResumeSection.HandleDelete` | components/resume-optimizer/ResumeSection.tsx:163-187 | with no user, sets "User not authenticated" and sends nothing. Otherwise it sends the delete, and a thrown request shows the delete error |
| `ResumeOptimizer.ResumeSection.HandleDeleteClick` | components/resume-optimizer/ResumeSection.tsx:189-192 | records the resume id and opens the dialog |
| `ResumeOptimizer.ResumeSection.CancelDelete` | components/resume-optimizer/ResumeSection.tsx:438-442 | closes the dialog and keeps the recorded id |
| `ResumeOptimizer.ResumeSection.HandleConfirmDelete` | components/resume-optimizer/ResumeSection.tsx:194-200 | with no id recorded, changes nothing. Otherwise it deletes exactly the recorded resume, then closes the dialog and clears the id |
| `ResumeOptimizer.ResumeSection.HandleTailorResume` | components/resume-optimizer/ResumeSection.tsx:203-268 | with no user, sets the sign-in error and sends nothing. Otherwise it clears the error and sends one request. A truthy `tailored_resume_id` stores the tailored data when present and opens the success dialog. Its absence ends with "Invalid response format: missing tailored_resume_id". A thrown request shows its message |
| `ResumeOptimizer.TailorModal.constructor` | components/resume-optimizer/ResumeSection.tsx:560-563 | starts closed, with an empty form and not tailoring |
| `ResumeOptimizer.TailorModal.Open` | components/resume-optimizer/ResumeSection.tsx:584 | the card opens the dialog |
| `ResumeOptimizer.TailorModal.EditJobDescription` | components/resume-optimizer/ResumeSection.tsx:612 | the text box sets the job description |
| `ResumeOptimizer.TailorModal.SelectResume` | components/resume-optimizer/ResumeSection.tsx:623 | the selector sets the chosen resume id |
| `ResumeOptimizer.TailorModal.HandleTailor` | components/resume-optimizer/ResumeSection.tsx:565-579 | does nothing unless the trimmed job description is non-empty and a resume is selected. Otherwise the page tailors exactly that description and resume, the form is cleared, the dialog closes and `isTailoring` ends false |

## Left out

- Network I/O is not modelled: the `fetch` and `axios` calls, `uploadResume` and `getLinkedInSuggestions` in `services/resumeService.ts`, and the endpoint constants of `config/api.ts`. Each outcome is a parameter of the handler that awaits it.
- The listing takes the decoded response body as input. The `!response.ok` error, the JSON decoding and the re-thrown exception are not modelled.
- `lastModified` is the date part of `new Date().toISOString()`. The clock is not modelled; that date is the parameter `today`.
- The hard-coded `userId` at services/resumeService.ts:23 and :112 is not modelled, because it is debugging residue.
- The delayed PDF conversion at services/resumeService.ts:99-101 is not modelled, and neither are the timers: the two-second redirect after tailoring, `window.location` navigation and reload after a delete, and the error auto-clear after a failed delete.
- `JSON.parse`, `JSON.stringify` and `extractText` are not modelled. `lib/extractText` is not part of this model. The reply's parsed `.text` is an input. A session item is the record that was stringified. The AI-write request records the HTML that `extractText` would be applied to.
- Firebase authentication, `useAuth` and the `useResumes` hook are not part of this model. A user is reduced to its `uid`. The upload made through `useResumes` is recorded as one `UploadFile` call, and its result is an input.
- JSX rendering is not modelled: `dangerouslySetInnerHTML`, the analysis dialog's tabs, the disabled states of buttons, the success dialog's `onOpenChange`, and the other pages and mock-data components.
- Handlers are atomic. During an await the source can run other handlers, and React can batch or re-render; neither is modelled. The ghost trails record the intermediate values a single handler sets.
- Callback arguments are logged whether or not the parent passed a callback. The source calls `onErrorChange` only when the parent passed one.
- Values the source never type-checks are not modelled: a non-string truthy `.text`, a numeric `tailored_resume_id`, or a truthy non-array `parsed_resume_json`, on which `forEach` would throw. A parsed list is either a list or missing.
- `handleAnalyze` calls `resumeService.analyzeResume`, which services/resumeService.ts does not define. As written, the call throws and the handler shows that error. The model treats the outcome as an input and covers both paths.
- Request statuses follow `axios`'s default `validateStatus`, since `config/api.ts` sets none. A parse or delete answer with a status outside 200..299 rejects, so it is modelled as a thrown request (`ParseThrew`, `DeleteThrew`). Only 2xx statuses can be answers.
