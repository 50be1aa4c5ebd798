# MindTrack logic, modelled in Dafny

MindTrack is a student well-being web app. It has:

- a mood chat whose assistant picks one of five canned replies by keyword;
- a focus/break countdown timer;
- save and share of a chat transcript;
- an OpenAI API-key dialog;
- a daily mood check-in;
- a teacher dashboard;
- a mood/performance scatter chart.

This project models the decision logic and the state changes of those components, one
Dafny module per component:

| module | file | component |
|---|---|---|
| `Text` | `text.dfy` | the string primitives the components rely on: lower-casing, `includes`, `trim`, `startsWith`, decimal printing and `padStart` |
| `Chat` | `chat.dfy` | `ChatInterface`: reply selection, the message log, the input field, the typing indicator, the mood chips |
| `Focus` | `focus_timer.dfy` | `FocusTimer`: loading settings, the countdown and its mode switch, start/pause, reset, the `mm:ss` clock |
| `Transcript` | `transcript.dfy` | `ConversationActions`: the transcript text and the empty-conversation guard of save and share |
| `ApiKey` | `api_key.dfy` | `ApiKeyModal`: load on open, trim, validate, store, close |
| `MoodCheckIn` | `mood_tracker.dfy` | `MoodTracker`: the five mood options, select, submit, reset |
| `Insights` | `teacher_insights.dfy` | `TeacherInsights`: the mood-score face, the risk and change badges, the sample tables |
| `Correlation` | `ai_correlation.dfy` | `AiCorrelation`: the subject filter, the per-subject series and their colours |

Code that updates component state step by step is modelled as classes:

- `Chat.ChatSession`
- `Focus.FocusTimer`
- `ApiKey.ApiKeyDialog`
- `MoodCheckIn.MoodTracker`

Each handler is a method whose postcondition gives the complete new state. The timer's
handlers are tied to pure step functions (`Ticked`, `Toggled`, `ResetTimer`), and the lemmas
about the timer are stated over those functions.

Some modelling choices:

- **Replies are delivered in order.** React's `setTimeout` reply is split into two steps:
  - `Send` appends the user message and queues its text in `pending`;
  - `CompleteReply` later appends the assistant's answer to the oldest pending text.

  Every send uses the same 1500 ms delay, so the queued replies fire first-in first-out. The
  class invariant says the log after the greeting answers its user messages in order.
- **Where a send comes from.** `handleSend` takes an optional event, modelled as `SendEvent`.
  Two callers pass one:
  - the form's `onSubmit` passes its submit event (`FormSubmit`), whose `target` is the form element;
  - `handleMoodSelect` passes a synthetic event (`MoodChip`) with the chip text as `target`.

  The parameter is optional, so a call without an event (`NoEvent`) is allowed, though no
  caller makes one. The guard `!input.trim() && !e?.target` drops a send only when the input
  is blank and the target is falsy: there is no event, or the chip text is the empty string.
  Every offered chip has a non-empty text, and a form submit always has a target. So the
  guard lets both through whatever the input holds. The model follows the code. The send
  button, which is disabled for a blank input, is modelled separately as `SendDisabled`.
- **Chips while a reply is pending.** A chip click is not blocked while a reply is pending.
  The first reply to complete clears the typing indicator even when more replies are still
  pending. Both are modelled as written.
- **How the timer steps.** Each elapsed second is one `Tick`. The effect branch that switches
  mode once the countdown reaches zero is one more `Tick`. So a running session with `k`
  seconds left ends after `k + 1` steps.
- **Mood scores.** Teacher-dashboard mood scores are `real`s. The face depends only on
  comparisons against 2, 3 and 4.

## Model

| member | source | states |
|---|---|---|
| Text.Trim | src/components/ApiKeyModal.tsx:26-27 | the trimmed string is a contiguous slice of the input with only whitespace cut at both ends, and it neither starts nor ends with whitespace |
| Text.Lower | src/components/ChatInterface.tsx:67 | `toLowerCase` on ASCII letters, character by character; `LowerIdempotent` and `LowerExcludes` state its properties |
| Text.Includes | src/components/ChatInterface.tsx:69-75 | `includes`: some position begins an occurrence; `IncludesAt` and `NotIncludedWithoutChar` fix both directions used |
| Text.StartsWith | src/pages/TeacherInsights.tsx:330 | `startsWith`: the prefix test used by the change badge |
| Text.IntToString | src/components/FocusTimer.tsx:71 | `toString` of an integer: a minus sign before the digits of a negative number |
| Text.TrimEmptyIffBlank | src/components/ChatInterface.tsx:46 | `trim()` is empty exactly when the string is all whitespace |
| Text.TrimOfPadded | src/components/ApiKeyModal.tsx:26-27 | trimming a text that has no whitespace at either end, wrapped in whitespace, gives back exactly that text |
| Text.TrimIdempotent | src/components/ApiKeyModal.tsx:27 | trimming twice is trimming once |
| Text.LowerIdempotent | src/components/ChatInterface.tsx:67 | lower-casing a lower-cased string changes nothing |
| Text.IncludesAt | src/components/ChatInterface.tsx:69-75 | a word occurring at some index is included |
| Text.NotIncludedWithoutChar | src/components/ChatInterface.tsx:69-75 | a string lacking one of a word's letters does not include the word |
| Text.NatToString | src/components/FocusTimer.tsx:71 | a number prints as at least one decimal digit; it is one digit exactly below 10 and two digits exactly from 10 to 99 |
| Text.NatToStringValue | src/components/FocusTimer.tsx:71 | reading the printed digits back gives the number |
| Text.LeadingZeroValue | src/components/FocusTimer.tsx:71 | `padStart`'s leading zero does not change the value |
| Chat.SelectReplyIsFirstMatch | src/components/ChatInterface.tsx:66-79 | the if/else chain equals a first-match scan of the rule table (positive, stress, tired, motivated words, then the fallback) over the lower-cased text |
| Chat.SelectReply | src/components/ChatInterface.tsx:66-79 | the if/else chain over the lower-cased text; `SelectReplyIsFirstMatch` and `SelectReplyPriority` state what it chooses |
| Chat.Respond | src/components/ChatInterface.tsx:64-86 | the text of the reply chosen for a message |
| Chat.SendDropped | src/components/ChatInterface.tsx:46 | the guard: a blank input and a falsy target (no event, or an empty chip text) |
| Chat.MessageText | src/components/ChatInterface.tsx:49 | the chip text when the target is a string, otherwise the untrimmed input |
| Chat.OfferedChipsAreSent | src/components/ChatInterface.tsx:31-33 | every offered chip, and every form submit, gets past the guard whatever the input holds |
| Chat.SelectReplyPriority | src/components/ChatInterface.tsx:67-79 | each reply is chosen exactly when its words occur and no earlier group's words do; the fallback exactly when no keyword occurs |
| Chat.SelectReplyIgnoresCase | src/components/ChatInterface.tsx:67 | texts equal up to case get the same reply |
| Chat.NoPositiveWord | src/components/ChatInterface.tsx:69 | without the letters p and g no positive word occurs |
| Chat.NoStressWord | src/components/ChatInterface.tsx:71 | without the letters s and w no stress word occurs |
| Chat.NoTiredWord | src/components/ChatInterface.tsx:73 | without the letters r and x no tired word occurs |
| Chat.StressReplyWithoutPositiveLetters | src/components/ChatInterface.tsx:69-72 | a text containing "stress" in any case and no p or g gets the stress reply, whatever tired or motivated words it also holds |
| Chat.ExhaustedAndStressed | src/components/ChatInterface.tsx:71-74 | "I'm exhausted and stressed" gets the stress reply, not the tired one |
| Chat.MoodChipReplies | src/components/ChatInterface.tsx:31-33 | the offered chips map Happy to positive, Stressed and Anxious to stress, Tired to tired, Motivated to motivated |
| Chat.TextsPartitionLog | src/components/ChatInterface.tsx:8-13 | every message is either a user or an assistant message |
| Chat.UserTextsSnoc | src/components/ChatInterface.tsx:59 | appending a user message adds its text at the end of the user texts |
| Chat.AiTextsSnoc | src/components/ChatInterface.tsx:88 | appending an assistant message adds its text at the end of the assistant texts |
| Chat.AnsweredAfterSend | src/components/ChatInterface.tsx:59-61 | a send keeps "the log answers its user messages in order", with the new text queued last |
| Chat.AnsweredAfterReply | src/components/ChatInterface.tsx:64-90 | answering the oldest pending text keeps "the log answers its user messages in order" |
| Chat.ChatSession.constructor | src/components/ChatInterface.tsx:15-27 | the log is the single assistant greeting, the input is empty, nothing is pending |
| Chat.ChatSession.EditInput | src/components/ChatInterface.tsx:26 | only the input changes |
| Chat.ChatSession.Send | src/components/ChatInterface.tsx:43-61 | a blank input with a falsy target (no event, or an empty chip text) changes nothing; otherwise exactly one user message (the chip text or the untrimmed input) is appended, the input is cleared, the indicator is on and the text is queued; the invariant holds |
| Chat.ChatSession.SelectMood | src/components/ChatInterface.tsx:93-95 | a chip appends exactly one user message with the chip text, even when the input is blank or a reply is pending; only an empty chip text with a blank input changes nothing |
| Chat.ChatSession.CompleteReply | src/components/ChatInterface.tsx:64-90 | exactly one assistant message, the reply to the oldest pending text, is appended; the indicator is cleared; earlier messages are unchanged |
| Chat.ChatSession.LogSize | src/components/ChatInterface.tsx:59-89 | the log holds the greeting, two messages per answered send and one per pending send |
| Chat.ChatSession.ChipsVisible | src/components/ChatInterface.tsx:162 | the chips show (at most two messages) exactly until a reply has arrived or a second message is sent |
| Chat.ChatSession.SendDisabled | src/components/ChatInterface.tsx:195 | the button is disabled exactly when the input is blank or a reply is pending |
| Focus.Mounted | src/components/FocusTimer.tsx:10-29 | after mounting the timer is paused in focus mode; saved minutes become seconds, and without settings the session is the default 1500 s |
| Focus.Ticked | src/components/FocusTimer.tsx:31-66 | one step of the countdown effect; the step lemmas below state its behaviour |
| Focus.Toggled | src/components/FocusTimer.tsx:74-76 | start/pause flips the running flag |
| Focus.ResetTimer | src/components/FocusTimer.tsx:78-85 | reset pauses and refills the current mode's session |
| Focus.PadTwo | src/components/FocusTimer.tsx:71 | `padStart(2, '0')`; `PadTwoDigits` states its effect on digit strings |
| Focus.FormatTime | src/components/FocusTimer.tsx:68-72 | the `mm:ss` clock; `FormatTimeRoundTrip` and `ClockShape` state what it shows |
| Focus.MountedConsistent | src/components/FocusTimer.tsx:17-29 | with non-negative saved minutes the mounted state is well formed |
| Focus.StepsPreserveConsistency | src/components/FocusTimer.tsx:31-85 | a tick, start/pause and reset keep the state well formed (time left within the current mode's session, total equal to it) |
| Focus.TicksPreserveConsistency | src/components/FocusTimer.tsx:31-66 | any number of ticks keep the state well formed, so the time left never goes negative |
| Focus.CountdownToZero | src/components/FocusTimer.tsx:34-37 | while running, `j <= timeLeft` ticks lower the time left by exactly `j` and change nothing else |
| Focus.TicksAdd | src/components/FocusTimer.tsx:31-66 | `m + n` ticks are `m` ticks then `n` ticks |
| Focus.SessionEnds | src/components/FocusTimer.tsx:38-62 | a session with `k` seconds left ends after `k + 1` ticks with the mode switched, the timer still running and the other session at full length |
| Focus.FocusBreakCycle | src/components/FocusTimer.tsx:31-66 | a running timer at the start of a focus session returns to the same state after a focus session and a break |
| Focus.PausedTimerIsFrozen | src/components/FocusTimer.tsx:34-38 | ticks do nothing to a paused timer |
| Focus.StartPauseTwice | src/components/FocusTimer.tsx:74-76 | pressing start/pause twice changes nothing |
| Focus.ResetRestartsSession | src/components/FocusTimer.tsx:78-85 | reset pauses the timer, keeps the mode and refills the current session |
| Focus.ClockFields | src/components/FocusTimer.tsx:69-70 | for non-negative seconds, minutes and seconds recombine to the input, with seconds below 60 |
| Focus.ColonIndex | src/components/FocusTimer.tsx:71 | the index found is the first colon, or the end |
| Focus.PadTwoDigits | src/components/FocusTimer.tsx:71 | a padded number is at least two digits and has the same value |
| Focus.FormatTimeRoundTrip | src/components/FocusTimer.tsx:68-72 | reading the `mm:ss` clock back gives the seconds |
| Focus.ClockShape | src/components/FocusTimer.tsx:68-72 | below 100 minutes the clock is two digits of minutes, a colon and two digits of seconds |
| Focus.FocusTimer.constructor | src/components/FocusTimer.tsx:10-29 | the component starts in the mounted state |
| Focus.FocusTimer.Tick | src/components/FocusTimer.tsx:31-66 | one countdown step: decrement while running and above zero, switch mode at zero, nothing while paused |
| Focus.FocusTimer.StartPause | src/components/FocusTimer.tsx:74-76 | only the running flag flips |
| Focus.FocusTimer.Reset | src/components/FocusTimer.tsx:78-85 | the timer pauses and the time left becomes the current mode's duration |
| Focus.FocusTimer.Display | src/components/FocusTimer.tsx:68-72 | the shown clock of a well-formed timer reads back as the time left |
| Transcript.Entry | src/components/ConversationActions.tsx:30-31 | a line is the sender's label, ": ", then the content unchanged |
| Transcript.Entries | src/components/ConversationActions.tsx:30-31 | one line per message, in order |
| Transcript.Label | src/components/ConversationActions.tsx:31 | the user is labelled "You" and only the user; a label holds no colon and no line break |
| Transcript.Join | src/components/ConversationActions.tsx:32 | `join`; `JoinSnoc` and `SplitJoin` state its behaviour |
| Transcript.TranscriptText | src/components/ConversationActions.tsx:30-32 | the entries joined by blank lines; `AppendMessage` and `TranscriptSplitsIntoEntries` state its shape |
| Transcript.EntryWithoutNewline | src/components/ConversationActions.tsx:30-31 | an entry has a line break only if its content has one |
| Transcript.SaveConversation | src/components/ConversationActions.tsx:19-32 | refused with "Nothing to save" exactly when there are no messages; otherwise the transcript |
| Transcript.ShareConversation | src/components/ConversationActions.tsx:51-64 | refused with "Nothing to share" exactly when there are no messages; otherwise the transcript |
| Transcript.SaveAndShareAgree | src/components/ConversationActions.tsx:30-32 | save and share produce the same text |
| Transcript.JoinSnoc | src/components/ConversationActions.tsx:32 | joining one more part appends the separator and the part |
| Transcript.AppendMessage | src/components/ConversationActions.tsx:30-32 | one more message extends the transcript by a blank line and its entry |
| Transcript.SplitBlankLines | src/components/ConversationActions.tsx:32 | splitting at blank lines yields at least one piece |
| Transcript.SplitWithoutNewline | src/components/ConversationActions.tsx:32 | a text without newlines is one piece |
| Transcript.SplitAtSeparator | src/components/ConversationActions.tsx:32 | splitting after a newline-free first piece peels that piece off |
| Transcript.SplitJoin | src/components/ConversationActions.tsx:32 | splitting undoes joining with "\n\n" when the parts have no newlines |
| Transcript.TranscriptSplitsIntoEntries | src/components/ConversationActions.tsx:30-32 | for newline-free messages the transcript splits back into exactly one labelled line per message |
| ApiKey.ValidatedKey | src/components/ApiKeyModal.tsx:26-27 | there is no key exactly when the input is blank; otherwise the key is the trimmed input, non-empty and without whitespace at either end |
| ApiKey.SavedStore | src/components/ApiKeyModal.tsx:25-39 | a blank input leaves the store unchanged; otherwise the trimmed input is stored under "openai_api_key" and no other entry changes |
| ApiKey.StoredKey | src/components/ApiKeyModal.tsx:20 | the stored key, or "" when there is none |
| ApiKey.SavesTrimmedKey | src/components/ApiKeyModal.tsx:26-27 | "  sk-test  " is stored as "sk-test" |
| ApiKey.SaveIdempotent | src/components/ApiKeyModal.tsx:18-39 | saving twice is saving once, and re-saving the key loaded back on reopening changes nothing |
| ApiKey.ApiKeyDialog.constructor | src/components/ApiKeyModal.tsx:14-15 | the dialog starts closed with an empty field |
| ApiKey.ApiKeyDialog.SetOpen | src/components/ApiKeyModal.tsx:18-23 | going from closed to open loads the stored key, or "" without one; any other change of the prop, including a repeated open, keeps the field |
| ApiKey.ApiKeyDialog.EditKey | src/components/ApiKeyModal.tsx:59-60 | only the field changes |
| ApiKey.ApiKeyDialog.Save | src/components/ApiKeyModal.tsx:25-39 | the error outcome occurs exactly for a blank field, and then the dialog stays as it was; on success the store gets the trimmed key and the dialog closes |
| MoodCheckIn.Values | src/components/MoodTracker.tsx:9-15 | the values of the options, one per option, in order |
| MoodCheckIn.MoodOptionValues | src/components/MoodTracker.tsx:9-15 | the options are valued 5, 4, 3, 2, 1 |
| MoodCheckIn.MoodTracker.constructor | src/components/MoodTracker.tsx:28-29 | nothing is selected or submitted |
| MoodCheckIn.MoodTracker.SelectMood | src/components/MoodTracker.tsx:31-33 | the selection becomes the value; submission is unchanged |
| MoodCheckIn.MoodTracker.Submit | src/components/MoodTracker.tsx:35-41 | submitted exactly when a mood is selected (or already submitted); pressing the disabled button changes nothing and pressing the enabled one submits; a submitted check-in always has a mood |
| MoodCheckIn.MoodTracker.Reset | src/components/MoodTracker.tsx:43-46 | the selection and submission are cleared |
| MoodCheckIn.MoodTracker.SubmitDisabled | src/components/MoodTracker.tsx:59-95 | the button is disabled exactly when nothing is selected, which happens only on a card not yet submitted, where the button is shown |
| Insights.MoodFaceCountsBoundaries | src/pages/TeacherInsights.tsx:85-90 | the face's rank is the number of the bounds 2, 3, 4 the score exceeds: up to 2 sad, (2, 3] neutral, (3, 4] slight smile, above 4 grin |
| Insights.MoodFaceMonotone | src/pages/TeacherInsights.tsx:85-90 | a higher score never shows a lower face |
| Insights.MoodFace | src/pages/TeacherInsights.tsx:85-90 | the bucket chain of `formatMoodScore`; `MoodFaceCountsBoundaries` states which face each score gets |
| Insights.EmojiIdentifiesFace | src/pages/TeacherInsights.tsx:86-90 | the four buckets show four different emoji, so the emoji shown identifies the bucket |
| Insights.RiskBadge | src/pages/TeacherInsights.tsx:280-284 | red exactly for "High", yellow for anything else, never green |
| Insights.ChangeBadge | src/pages/TeacherInsights.tsx:330-333 | green exactly when the text starts with '+', red otherwise (including "" and "0%") |
| Insights.AtRiskStudentsShowNeutral | src/pages/TeacherInsights.tsx:44-50 | every sample at-risk mood lies in (2, 3] and shows the neutral face |
| Insights.ChangeBadgeMatchesScores | src/pages/TeacherInsights.tsx:53-59 | each sample change text is the signed difference of the averages, so its badge is green exactly when the average rose |
| Correlation.FilterBySubject | src/components/AiCorrelation.tsx:87 | every kept point has the subject, and no more points are kept than there are |
| Correlation.FilterCounts | src/components/AiCorrelation.tsx:87 | each point of the subject is kept as often as it occurs in the data, and no point of another subject is kept |
| Correlation.FilterConcat | src/components/AiCorrelation.tsx:87 | the filter of a concatenation is the concatenation of the filters, so the original order is kept |
| Correlation.FilterKeepsAll | src/components/AiCorrelation.tsx:87 | points all of the subject pass unchanged |
| Correlation.FilterDropsAll | src/components/AiCorrelation.tsx:87 | points none of which has the subject are all dropped |
| Correlation.FilteredData | src/components/AiCorrelation.tsx:85-87 | "all" gives the data set unchanged; any other value exactly the points of that subject |
| Correlation.Lookup | src/components/AiCorrelation.tsx:89-94 | a colour is found exactly for the table's keys, and it is that key's colour |
| Correlation.LookupDistinct | src/components/AiCorrelation.tsx:89-94 | with distinct keys each key finds its own colour |
| Correlation.SeriesColor | src/components/AiCorrelation.tsx:141 | a subject without a colour gets the fallback "#007AFF" |
| Correlation.PerSubjectSeries | src/components/AiCorrelation.tsx:128-136 | one series per colour key, in key order, with that key's colour and filtered points |
| Correlation.ChartSeries | src/components/AiCorrelation.tsx:128-142 | one series per colour key for "all", otherwise one series of the selected subject in its colour; `AllViewPartitionsData`, `SelectedMatchesAllView` and `AbsentSubjectSeries` state what it draws |
| Correlation.PerSubjectSeriesCounts | src/components/AiCorrelation.tsx:128-136 | with distinct keys the series together hold each point of a known subject as often as the data does, and nothing else |
| Correlation.DataSubjectsHaveColors | src/components/AiCorrelation.tsx:19-40 | every sample point's subject is a colour key |
| Correlation.AllViewPartitionsData | src/components/AiCorrelation.tsx:128-136 | the "all" view draws four series named and coloured by the keys that together are a permutation of the data set |
| Correlation.SelectedMatchesAllView | src/components/AiCorrelation.tsx:137-142 | selecting a coloured subject draws exactly that subject's series from the "all" view |
| Correlation.AbsentSubjectSeries | src/components/AiCorrelation.tsx:137-142 | a subject no point has and with no colour draws one empty series in the fallback colour |
| Correlation.SubjectsSweepMoods | src/components/AiCorrelation.tsx:19-40 | within each subject the moods run once through 1..5 and performance strictly increases with mood |

## Left out

- Timing: the 1500 ms reply delay, the one-second interval and the animation timers are explicit steps (`CompleteReply`, `Tick`). Real time, interleaving with rendering, and interval cleanup are not modelled.
- Notices: toasts and notifications (titles, descriptions, the focus-settings `enableNotifications` flag) are not modelled. Save and share model only their refusal titles.
- Storage: `localStorage` is an explicit map in the key dialog and an optional `FocusSettings` value for the timer. `JSON.parse` and its failures, and numbers parsed from strings or `null`, are not modelled. `localStorage.getItem(...) || ''` is modelled as a missing key giving "".
- Focus.Mounted: the intermediate render with `timeLeft` 0, before the settings effect runs, is not modelled.
- Identifiers and dates: `Date.now()` message ids, timestamps, the dated download file name and `getFormattedDate` are not modelled. Nothing is claimed about id uniqueness.
- Side effects: the download and clipboard effects of save and share, scrolling to the newest message, and `console.log` are not modelled.
- Floating point: the progress percentage, `toFixed(1)` and the dashboard averages are not modelled. The face for a NaN score (JavaScript's comparisons send it to the grin) is not modelled, because scores are reals.
- Characters: `toLowerCase` and `trim` follow Unicode. The model lower-cases ASCII letters only and trims ASCII whitespace only.
- Clock width: `FormatTime` models negative seconds with JavaScript's truncating `%`. The clock's shape is proved only below 100 minutes, and the round trip only for non-negative seconds.
- Chat transcript: `TranscriptSplitsIntoEntries` assumes message contents without newlines. With a "\n\n" inside a message the transcript cannot be split back.
- Correlation.SeriesColor: a selector value naming an inherited object property (`subjectColors['constructor']`) would find a function rather than a colour in JavaScript. The model treats every non-key as missing. The buttons only offer "all" and the four keys.
- The OpenAI client, the authentication context, the settings page (which stores the key untrimmed), the chat-clear callback supplied by the parent, and the purely presentational components are not part of this model.
