# Portfolio site tools — a verified Dafny model

This project models the logic of a personal portfolio web site built with Next.js. The site's
pages and components share one pattern: each keeps some React state, and event handlers update
that state step by step. Here each stateful page or component becomes a Dafny `class` whose
fields are that state and whose methods are the handlers. The pure rules behind the handlers
are written as functions, and lemmas prove what those rules guarantee. The modelled parts are:

- **Chat action** (`Chat`): the server action `generateResponse` behind the "Ask me" assistant.
  It validates the message, applies a per-client sliding-window rate limiter (5 requests per
  60 s), checks for an API key, picks a persona prompt from the mode, strips the data-URL header
  from an image and builds the reply with the remaining quota. `getRemainingQuota` is modelled
  too. The server keeps a ghost log of every admission per key and the last clock reading.
  The methods' contracts state exactly how each call extends the log, so a caller can follow it
  call by call. The limiter's promise is proved over that log: no key is admitted more than 5
  times in any 60-second window, provided the clock never goes backwards.
- **Blog list** (`BlogList`): search over title and excerpt, pages of 6 posts, and the
  7-slot page strip with ellipses.
- **Terminal command list** (`CommandList`): case-insensitive search over title,
  description and optional tags, and the three-tag preview.
- **Pomodoro timer** (`Pomodoro`): modes and their durations, the custom duration, the
  one-second tick, completion and the focus/short-break/long-break rotation, the ten-entry
  session history, tasks, and the `mm:ss` clock face.
- **URL shortener** (`UrlShortener`): the six-character base-62 code, the custom-code
  sanitiser, the two form inputs, shortening with duplicate detection, deleting, and the
  click total.
- **Markdown editor** (`MarkdownEditor`): wrapping the selection in markup, a draft's
  title taken from its first line, typing into the editor, and saving, loading, creating and
  deleting drafts.
- **Scraping page** (`Scraping`): the search gate, how results and errors are shown, the
  de-duplicated ten-entry search history and the five-entry per-tab view.
- **Header** (`Header`): the page title taken from the path, the quick-jump search and its
  suggestion list, which closes when the box loses focus.
- **Ask-me page** (`AskMe`): sending a message, with opening and filing a new chat, and
  retrying a message. Loading a chat and the composer's handlers (image, voice transcript,
  starter prompts) are modelled too. Browser storage is a `BrowserStorage` object the page
  and the sidebar share.
- **Ask-me sidebar** (`AskMeSidebar`): loading the chat list newest-first, deleting a chat
  and sharing one as text.

Three helper modules support these. `Text` holds the string primitives the code relies on
(`trim`, `toLowerCase`, `includes`, `split`/`join`, decimal rendering, `padStart`). `Seqs`
holds filtering, taking and subsequences. `Wrappers` holds `Option`.

Inputs the code reads from its environment are parameters of the handlers:

- the clock (`Date.now()`): `now`;
- `Math.random()` draws: `picks`;
- the backend's reply or failure: `backend` or `response`;
- whether a URL parses: `urlIsValid`;
- the configured API key: `apiKeyConfigured`;
- the client address: `key`.

Details of `src/app/actions/chat.ts` that the model keeps exactly as written:

- The `'solution-architect'` default applies only when no mode is passed (chat.ts:30). A mode
  that the `switch` does not list takes its `default` branch, the generic assistant prompt
  (chat.ts:80-129).
- The 1500-character limit is checked on the message as received, before any trimming
  (chat.ts:36).
- The image payload is `split(',')[1] || image` (chat.ts:147-148): the text between the first
  and the second comma. It is not everything after the first comma.
- The request headers are read before the `try` block (chat.ts:41-42). The `catch` is meant
  for header failures, as its comment at chat.ts:65 says, but it never sees one. The model
  therefore has no fail-open path.

Behaviours of the code as written that the model makes explicit:

- `Pomodoro.CappedHistoryNeverLongBreak`: the long-break rule counts focus sessions in the
  capped ten-entry history. So once ten sessions of strict focus/break alternation are stored,
  every later focus session is followed by a short break.
- `AskMe.Send` (the `Stuck` case): an unparseable `chat_history` makes the first send of a new
  chat stop midway. The message shows, the page stays loading and nothing is sent.
- `AskMe.RetryAfterSend`: retrying an image-only message sends the text "[Mengirim Gambar]".
  The first send of that message carried an empty text.
- `AskMe.SavedMatchesShown`: after a network failure the error bubble is shown but not stored.

## Model

| member | source | states |
|---|---|---|
| Chat.Prune | src/app/actions/chat.ts:49 | the kept timestamps are no more than the stored ones and all lie inside the 60 s window |
| Chat.PruneKeepsExactlyFresh | src/app/actions/chat.ts:49 | a timestamp survives pruning exactly when it was stored and is younger than the window; order is kept |
| Chat.PruneTwice | src/app/actions/chat.ts:19-22 | pruning at an earlier time and then at a later one equals pruning at the later one, so reading the quota does not change what the limiter later admits |
| Chat.PruneAppendNow | src/app/actions/chat.ts:59-60 | recording a request at `now` keeps it as the newest fresh entry |
| Chat.RetryAfter | src/app/actions/chat.ts:52 | the wait is the ceiling of the remaining window in whole seconds |
| Chat.RetryAfterBounds | src/app/actions/chat.ts:51-53 | a rejected caller is told to wait between 1 and 60 seconds |
| Chat.Admission | src/app/actions/chat.ts:45-60 | rejects exactly when 5 fresh requests are stored, with the oldest one's wait; otherwise stores the fresh list plus `now`, at most 5 entries |
| Chat.SlidingWindowBound | src/app/actions/chat.ts:11-12 | in a log where any 6 consecutive admissions span at least 60 s, no 60 s window holds more than 5 |
| Chat.RetryAfterIsExact | src/app/actions/chat.ts:51-54 | waiting the announced seconds gets the caller admitted; for a sorted list, coming back one second earlier is still rejected |
| Chat.Validate | src/app/actions/chat.ts:32-38 | empty text without an image, or text over 1500 characters, is refused; anything else passes |
| Chat.PersonaFor | src/app/actions/chat.ts:80-130 | each of the three named modes selects its persona, and every other mode the generic assistant |
| Chat.ErrorText | src/app/actions/chat.ts:32-175 | each refusal has its fixed user-facing text; a rate-limit refusal carries the wait, written as an integer, between its fixed words |
| Chat.IntTextIdentifies | src/app/actions/chat.ts:54 | an integer in a template string is written differently from every other integer |
| Chat.WaitTextIdentifies | src/app/actions/chat.ts:54 | two rate-limit refusals with the same text announce the same wait |
| Chat.ImagePayload | src/app/actions/chat.ts:148 | the image data sent is empty exactly when the attached string is, because of the fallback to the whole string |
| Chat.BuildRequest | src/app/actions/chat.ts:143-160 | the backend gets the mode's persona and the message as given, and image data, never empty, exactly when an image was attached |
| Chat.ImagePayloadStripsHeader | src/app/actions/chat.ts:146-148 | a data URL `header,data` sends exactly `data`; a string without a comma is sent whole |
| Chat.ChatServer.constructor | src/app/actions/chat.ts:10-12 | the limiter starts with no stored requests, an empty admission log and the clock at 0 |
| Chat.ChatServer.WindowGuarantee | src/app/actions/chat.ts:45-60 | for every key and every window, at most 5 of the requests logged as admitted fall within 60 s |
| Chat.ChatServer.GetRemainingQuota | src/app/actions/chat.ts:14-28 | reports the number of fresh requests and the limit 5, and writes the pruned list back; the admission log keeps every entry and the clock becomes `now` |
| Chat.ChatServer.CheckRateLimit | src/app/actions/chat.ts:45-61 | applies `Admission` to the key's stored list; a rejection writes nothing and logs nothing; an admission appends `now` to the key's log; the clock becomes `now`, and the window guarantee is kept while the clock does not go back |
| Chat.ChatServer.GenerateResponse | src/app/actions/chat.ts:30-176 | validation, then the limiter, then the API key, then the backend, each failure with its own error; only an admitted request with a key reaches the backend; the reply carries the usage count; the admission log and clock change as in `CheckRateLimit`, and not at all when validation fails |
| BlogList.FilterPosts | src/components/BlogList.tsx:18-23 | every post shown matches the query |
| BlogList.FilterPostsExact | src/components/BlogList.tsx:18-23 | a post is shown exactly when it matches, in the original order |
| BlogList.EmptyQueryKeepsAll | src/components/BlogList.tsx:18-23 | an empty search shows every post |
| BlogList.TotalPages | src/components/BlogList.tsx:26 | the page count is the ceiling of posts over 6 |
| BlogList.CurrentPosts | src/components/BlogList.tsx:27-31 | a page never shows more than 6 posts |
| BlogList.CurrentPostsWindow | src/components/BlogList.tsx:27-31 | page p shows posts 6(p-1) up to 6p, cut at the end of the list |
| BlogList.PagesUpToPrefix | src/components/BlogList.tsx:26-31 | the first k pages together are the first 6k posts |
| BlogList.PagesCoverAll | src/components/BlogList.tsx:26-31 | all pages together show every matching post exactly once, in order |
| BlogList.Range | src/components/BlogList.tsx:47-48 | lists the pages 1..n |
| BlogList.PageStrip | src/components/BlogList.tsx:40-59 | up to 7 pages are all listed; beyond that the strip has 7 slots starting with page 1 and ending with the last page |
| BlogList.GetPageNumbers | src/components/BlogList.tsx:40-59 | the loop builds exactly the page strip |
| BlogList.StripNumbersIncrease | src/components/BlogList.tsx:40-59 | the strip's numbers are real pages in strictly increasing order |
| BlogList.StripShowsCurrent | src/components/BlogList.tsx:40-59 | the current page is always in the strip |
| BlogList.StripGapsAreEllipses | src/components/BlogList.tsx:40-59 | neighbouring numbers are consecutive, and an ellipsis stands only between numbers with a page hidden between them |
| BlogList.BlogListView.constructor | src/components/BlogList.tsx:12-14 | starts on page 1 with an empty search |
| BlogList.BlogListView.HandleSearchChange | src/components/BlogList.tsx:34-37 | sets the query and returns to page 1 |
| BlogList.BlogListView.Previous | src/components/BlogList.tsx:114 | moves one page back, never below 1 |
| BlogList.BlogListView.Next | src/components/BlogList.tsx:140 | moves one page on, never past the last page |
| BlogList.BlogListView.SelectPage | src/components/BlogList.tsx:128 | jumps to a page listed in the strip |
| BlogList.BlogListView.Visible | src/components/BlogList.tsx:27-31 | the visible posts are at most 6 and all match the query |
| CommandList.SomeTagMatches | src/components/CommandList.tsx:19 | true exactly when some tag contains the query, ignoring case |
| CommandList.FilterCommands | src/components/CommandList.tsx:15-21 | every listed command matches the query |
| CommandList.FilterCommandsExact | src/components/CommandList.tsx:15-21 | a command is listed exactly when its title, description or one of its tags contains the query, ignoring case; order is kept |
| CommandList.EmptyQueryKeepsAll | src/components/CommandList.tsx:15-21 | an empty search lists every command |
| CommandList.AbsentTagsNeverMatch | src/components/CommandList.tsx:19 | a command without tags is found only through its title or description |
| CommandList.TagPreview | src/components/CommandList.tsx:76 | shows the first three tags, or all when there are fewer, and nothing when a command has no tags |
| Pomodoro.Duration | src/app/pomodoro-timer/page.tsx:22-26 | focus lasts 25 minutes, a short break 5 and a long break 15 |
| Pomodoro.CustomTotalFields | src/app/pomodoro-timer/page.tsx:74 | with the fields in their input ranges, the custom total gives back hours, minutes and seconds, stays below a day, and is 0 only for 0:00:00 |
| Pomodoro.SwitchTime | src/app/pomodoro-timer/page.tsx:71-82 | a preset mode starts at its duration; custom mode at the custom total, or 60 s when that is 0 |
| Pomodoro.SessionDuration | src/app/pomodoro-timer/page.tsx:88-90 | the recorded duration is the time the mode starts with, except that a zero custom time is recorded as 0 where the clock starts at 60 s |
| Pomodoro.FinishedSession | src/app/pomodoro-timer/page.tsx:91-96 | the record of a finished session holds its mode, its duration and the time as id and completion time |
| Pomodoro.Clamp | src/app/pomodoro-timer/page.tsx:250-272 | a custom field is kept within 0 and its maximum, and unchanged when already inside |
| Pomodoro.FocusCount | src/app/pomodoro-timer/page.tsx:112 | counts the focus sessions in the history |
| Pomodoro.NextMode | src/app/pomodoro-timer/page.tsx:110-118 | after focus, a long break exactly when the focus count including this one is a multiple of 4, else a short break; after a break, focus; custom stays custom |
| Pomodoro.RecordSession | src/app/pomodoro-timer/page.tsx:97 | the new session goes first and at most 9 earlier ones are kept, newest first |
| Pomodoro.AlternatingFocusCount | src/app/pomodoro-timer/page.tsx:112 | an even-length alternating history is half focus sessions |
| Pomodoro.CappedHistoryNeverLongBreak | src/app/pomodoro-timer/page.tsx:97-113 | with 10 alternating sessions stored, the next focus is followed by a short break and the history stays in the same shape, so a long break never comes |
| Pomodoro.ToggleTasks | src/app/pomodoro-timer/page.tsx:143-149 | flips `completed` of the tasks with the id and changes nothing else |
| Pomodoro.ToggleTwice | src/app/pomodoro-timer/page.tsx:143-149 | toggling twice restores the list |
| Pomodoro.DeleteTasks | src/app/pomodoro-timer/page.tsx:151-155 | no task with the id remains |
| Pomodoro.DeleteTasksExact | src/app/pomodoro-timer/page.tsx:151-155 | exactly the tasks with other ids remain, in order; an unknown id changes nothing |
| Pomodoro.TwoDigits | src/app/pomodoro-timer/page.tsx:182 | renders a number in at least two digits, exactly two below 100 |
| Pomodoro.TwoDigitsValue | src/app/pomodoro-timer/page.tsx:182 | the padded digits read back as the number |
| Pomodoro.FormatTime | src/app/pomodoro-timer/page.tsx:179-183 | the clock face is `minutes:ss` with two-digit seconds |
| Pomodoro.FormatTimeRoundTrip | src/app/pomodoro-timer/page.tsx:179-183 | the clock face determines the number of seconds: reading it back gives the time |
| Pomodoro.PomodoroTimer.constructor | src/app/pomodoro-timer/page.tsx:29-39 | starts in focus mode at 25:00, paused, with a 0:10:00 custom time and no tasks or sessions; storage holds what it was given |
| Pomodoro.PomodoroTimer.LoadSaved | src/app/pomodoro-timer/page.tsx:44-49 | each stored list that is present replaces the tasks or the sessions; nothing else changes |
| Pomodoro.PomodoroTimer.SwitchMode | src/app/pomodoro-timer/page.tsx:71-82 | changes the mode, pauses, sets its start time and shows the custom inputs only for custom mode |
| Pomodoro.PomodoroTimer.HandleTimerComplete | src/app/pomodoro-timer/page.tsx:84-119 | pauses, records the finished session, writes the new session list to storage and moves to the next mode with its full duration |
| Pomodoro.PomodoroTimer.Tick | src/app/pomodoro-timer/page.tsx:51-69 | counts one second down; at the last second completes the session and stores the new session list |
| Pomodoro.PomodoroTimer.StartPause | src/app/pomodoro-timer/page.tsx:332 | toggles running and nothing else |
| Pomodoro.PomodoroTimer.Reset | src/app/pomodoro-timer/page.tsx:338-344 | pauses and restores the current mode's full duration; the rest is unchanged |
| Pomodoro.PomodoroTimer.SetCustomHours | src/app/pomodoro-timer/page.tsx:250 | stores the hours clamped to 0..23; every other field is unchanged |
| Pomodoro.PomodoroTimer.SetCustomMinutes | src/app/pomodoro-timer/page.tsx:261 | stores the minutes clamped to 0..59; every other field is unchanged |
| Pomodoro.PomodoroTimer.SetCustomSeconds | src/app/pomodoro-timer/page.tsx:272 | stores the seconds clamped to 0..59; every other field is unchanged |
| Pomodoro.PomodoroTimer.HandleSetCustomTime | src/app/pomodoro-timer/page.tsx:121-127 | a positive custom total becomes the time left and hides the inputs; a zero total changes nothing |
| Pomodoro.PomodoroTimer.SetNewTaskTitle | src/app/pomodoro-timer/page.tsx:366 | stores the typed title; every other field is unchanged |
| Pomodoro.PomodoroTimer.HandleAddTask | src/app/pomodoro-timer/page.tsx:129-141 | a blank title adds nothing and writes nothing; otherwise a new open task is appended, the task list stored and the box cleared |
| Pomodoro.PomodoroTimer.HandleToggleTask | src/app/pomodoro-timer/page.tsx:143-149 | applies `ToggleTasks` and stores the new task list |
| Pomodoro.PomodoroTimer.HandleDeleteTask | src/app/pomodoro-timer/page.tsx:151-155 | applies `DeleteTasks` and stores the new task list |
| UrlShortener.CharRange | src/app/url-shortener/page.tsx:21 | the run of n consecutive characters from a given one |
| UrlShortener.AlphabetIsBase62 | src/app/url-shortener/page.tsx:21 | the alphabet has 62 characters, exactly the letters and digits |
| UrlShortener.AlphabetChars | src/app/url-shortener/page.tsx:21 | every alphabet position holds a letter or digit |
| UrlShortener.CodeFor | src/app/url-shortener/page.tsx:20-27 | six draws give a six-character base-62 code |
| UrlShortener.GenerateShortCode | src/app/url-shortener/page.tsx:20-27 | the loop builds the code of the six draws |
| UrlShortener.EveryCodeCanBeDrawn | src/app/url-shortener/page.tsx:20-27 | every six-character base-62 code is produced by some draws |
| UrlShortener.SanitizeCode | src/app/url-shortener/page.tsx:190-192 | a custom code is at most 30 characters, all letters, digits, `-` or `_` |
| UrlShortener.SanitizeCodeExact | src/app/url-shortener/page.tsx:190-192 | keeps exactly the allowed characters of the first 30 typed, in order, and sanitising twice changes nothing |
| UrlShortener.PrependKeepsUnique | src/app/url-shortener/page.tsx:80-94 | adding an entry whose code is free keeps the codes distinct |
| UrlShortener.DeleteUrls | src/app/url-shortener/page.tsx:109-117 | no entry with the id remains |
| UrlShortener.DeleteUrlsExact | src/app/url-shortener/page.tsx:109-117 | exactly the entries with other ids remain, in order |
| UrlShortener.DeleteKeepsUnique | src/app/url-shortener/page.tsx:109-117 | deleting keeps the codes distinct |
| UrlShortener.DeleteSplitsClicks | src/app/url-shortener/page.tsx:135 | the click total before a delete is the total after plus the clicks of the deleted entries |
| UrlShortener.TotalClicks | src/app/url-shortener/page.tsx:135 | with no negative counts the total is non-negative and at least each link's count |
| UrlShortener.TotalClicksAppend | src/app/url-shortener/page.tsx:135 | the total of two lists together is the sum of their totals, in either order |
| UrlShortener.ChosenCode | src/app/url-shortener/page.tsx:77 | a non-blank trimmed custom code wins, else the generated code |
| UrlShortener.Shorten | src/app/url-shortener/page.tsx:62-101 | a blank URL, an invalid URL and a taken code are refused with their messages, in that order; otherwise the new entry has the chosen code and zero clicks |
| UrlShortener.CustomCodeWins | src/app/url-shortener/page.tsx:77 | with a custom code the random draw does not matter |
| UrlShortener.ShortenKeepsInvariants | src/app/url-shortener/page.tsx:80-94 | a successful shorten keeps codes distinct and the click total unchanged |
| UrlShortener.ShortenStep | src/app/url-shortener/page.tsx:62-91 | the code is drawn only without a custom code, and the outcome equals `Shorten` with the drawn code, whichever branch ran |
| UrlShortener.UrlShortenerPage.constructor | src/app/url-shortener/page.tsx:40-51 | starts from the stored list, which storage keeps, with empty inputs, no error and no QR code |
| UrlShortener.UrlShortenerPage.SetCustomCode | src/app/url-shortener/page.tsx:190 | stores the sanitised code; every other field is unchanged |
| UrlShortener.UrlShortenerPage.SetOriginalUrl | src/app/url-shortener/page.tsx:171 | stores the typed URL as is; every other field and storage are unchanged |
| UrlShortener.UrlShortenerPage.HandleShorten | src/app/url-shortener/page.tsx:62-101 | shows the refusal and writes nothing, or prepends the entry, stores the new list and clears both inputs; distinct codes are kept |
| UrlShortener.UrlShortenerPage.HandleDelete | src/app/url-shortener/page.tsx:109-117 | removes the entry, stores the new list and closes its QR view when it was shown; distinct codes are kept |
| UrlShortener.UrlShortenerPage.HandleShowQR | src/app/url-shortener/page.tsx:119-124 | shows the QR code of the chosen entry; the form, the list and the error are unchanged |
| MarkdownEditor.Splice | src/app/markdown-editor/page.tsx:61-76 | wrapping grows the text by exactly the two markers |
| MarkdownEditor.SpliceParts | src/app/markdown-editor/page.tsx:61-76 | the text before the selection is kept, then the opening marker, then the selection itself |
| MarkdownEditor.SpliceUnwraps | src/app/markdown-editor/page.tsx:61-76 | removing the two markers gives back the original text |
| MarkdownEditor.DropHashes | src/app/markdown-editor/page.tsx:79 | removes exactly the leading `#` characters |
| MarkdownEditor.StripHeading | src/app/markdown-editor/page.tsx:79 | a line without a leading `#` is kept; a heading loses its hashes and the spaces after them |
| MarkdownEditor.DraftTitle | src/app/markdown-editor/page.tsx:79 | a title is never empty: the first line cut to 50 characters, or "Untitled" |
| MarkdownEditor.HeadingBecomesTitle | src/app/markdown-editor/page.tsx:79 | a document starting with `#` marks, any white space and a text is titled by that text cut to 50, or "Untitled" when the heading has no text |
| MarkdownEditor.FirstLineTitle | src/app/markdown-editor/page.tsx:79 | only the first line decides the title: what follows the first newline never changes it |
| MarkdownEditor.PlainLineTitle | src/app/markdown-editor/page.tsx:79 | a non-empty first line that does not start with `#` is the title, cut to 50 characters |
| MarkdownEditor.FirstLine | src/app/markdown-editor/page.tsx:79 | splitting on newlines yields the first line first |
| MarkdownEditor.HeadingLine | src/app/markdown-editor/page.tsx:79 | `replace(/^#+\s*/, '')` on a heading line leaves exactly the text after the marks and the white space |
| MarkdownEditor.OnlyLine | src/app/markdown-editor/page.tsx:79 | a line without a newline is its own first line |
| MarkdownEditor.TrimSpaces | src/app/markdown-editor/page.tsx:79 | the `\s*` of the heading pattern removes exactly the white space before the text |
| MarkdownEditor.DropHashesOf | src/app/markdown-editor/page.tsx:79 | hashes followed by a non-hash are removed whole |
| MarkdownEditor.ReplaceDraft | src/app/markdown-editor/page.tsx:82-90 | the drafts with the id are replaced and all others kept in place |
| MarkdownEditor.DraftId | src/app/markdown-editor/page.tsx:94 | a new draft's id is `draft-` and the time in decimal digits, which read back as the time, so drafts first saved at different times get different ids |
| MarkdownEditor.ReplaceKeepsOthers | src/app/markdown-editor/page.tsx:103-105 | saving keeps every id and every other draft; an unknown id changes nothing |
| MarkdownEditor.DeleteDrafts | src/app/markdown-editor/page.tsx:120-127 | no draft with the id remains |
| MarkdownEditor.DeleteDraftsExact | src/app/markdown-editor/page.tsx:120-127 | exactly the drafts with other ids remain, in order |
| MarkdownEditor.MarkdownEditorPage.constructor | src/app/markdown-editor/page.tsx:46-59 | starts on the welcome document with the stored drafts and no current draft |
| MarkdownEditor.MarkdownEditorPage.InsertMarkdown | src/app/markdown-editor/page.tsx:61-76 | wraps the selection and reselects the same text inside the markers |
| MarkdownEditor.MarkdownEditorPage.SetMarkdown | src/app/markdown-editor/page.tsx:350 | the typed text replaces the document; drafts, the current draft and storage are unchanged |
| MarkdownEditor.MarkdownEditorPage.HandleSaveDraft | src/app/markdown-editor/page.tsx:78-108 | updates the current draft in place, or prepends a new draft and makes it current; storage follows |
| MarkdownEditor.MarkdownEditorPage.HandleLoadDraft | src/app/markdown-editor/page.tsx:110-113 | opens the draft's content and makes it current |
| MarkdownEditor.MarkdownEditorPage.HandleNewDraft | src/app/markdown-editor/page.tsx:115-118 | back to the welcome document with no current draft |
| MarkdownEditor.MarkdownEditorPage.HandleDeleteDraft | src/app/markdown-editor/page.tsx:120-127 | removes the draft and resets the editor only when it was the current one |
| Scraping.SaveToHistory | src/app/scraping/page.tsx:34-41 | the new search goes first, followed by the first min(9, n) of the n earlier entries of other searches, in their order |
| Scraping.FilterKeepsNoRepeats | src/app/scraping/page.tsx:37 | filtering a history without repeated searches keeps it without repeats |
| Scraping.SaveKeepsNoRepeats | src/app/scraping/page.tsx:34-41 | a search appears at most once in the history |
| Scraping.SaveKeepsOrder | src/app/scraping/page.tsx:37 | older entries keep their relative order |
| Scraping.CurrentHistory | src/app/scraping/page.tsx:121 | the tab's view is the first min(5, n) of the n entries of that tab, in history order |
| Scraping.CurrentHistoryExact | src/app/scraping/page.tsx:121 | the view is in history order, and with at most 5 entries of the tab it shows them all |
| Scraping.ShownResult | src/app/scraping/page.tsx:81-82 | a result is shown exactly when the scrape succeeded, and it is the scraped data |
| Scraping.SearchRuns | src/app/scraping/page.tsx:44 | a search on a feed tab always runs; an empty query runs only there; a query starting with a non-space always runs |
| Scraping.SearchRunsIffTrim | src/app/scraping/page.tsx:44 | a search runs exactly when the trimmed query is non-empty or the tab is a feed |
| Scraping.SearchStep | src/app/scraping/page.tsx:46-90 | once a search runs, the panel shows `ShownResult` and `ShownError` of the outcome and the history becomes `HistoryAfter` |
| Scraping.ShownError | src/app/scraping/page.tsx:83-87 | no error on success; the scraper's message, or the generic one when it is empty; the fetch error when the call throws |
| Scraping.HistoryAfter | src/app/scraping/page.tsx:52-79 | searches on the feed tabs, or ones whose call throws, are not recorded; all others are |
| Scraping.HistoryAfterKeepsNoRepeats | src/app/scraping/page.tsx:43-91 | a search never creates a repeated history entry |
| Scraping.ScrapingPage.constructor | src/app/scraping/page.tsx:15-32 | starts on the Wikipedia tab with an empty query and the stored history |
| Scraping.ScrapingPage.HandleSearch | src/app/scraping/page.tsx:43-91 | a blank query on a search tab does nothing; otherwise shows the result or error, updates the history and stops loading |
| Scraping.ScrapingPage.SwitchTab | src/app/scraping/page.tsx:143-148 | changes the tab and clears result, error and query |
| Scraping.ScrapingPage.SetQuery | src/app/scraping/page.tsx:191 | stores the typed query; every other field is unchanged |
| Header.Capitalize | src/components/Header.tsx:21 | upper-cases the first character and keeps the rest |
| Header.GetPageTitle | src/components/Header.tsx:18-22 | the title is never empty, and the root path is "Home" |
| Header.TitleOfFirstSegment | src/components/Header.tsx:18-22 | a path is titled by its capitalised first segment, or "Home" when that segment is empty |
| Header.FindIndex | src/components/Header.tsx:35 | finds the first page containing the query, and none exactly when no page does |
| Header.FoundNoLaterThan | src/components/Header.tsx:35 | a page containing the query is found at or before its position |
| Header.Route | src/components/Header.tsx:37 | "home" goes to `/`, every other page to `/page` |
| Header.MatchedPage | src/components/Header.tsx:34-35 | a page is matched exactly when some page contains the lower-cased query; the match is such a page, the first one |
| Header.Suggestions | src/components/Header.tsx:43-54 | an empty box suggests nothing; every suggestion contains the lower-cased input |
| Header.FindIsFirstOfFilter | src/components/Header.tsx:35-49 | the page found is the first page of the filtered list |
| Header.JumpIsFirstSuggestion | src/components/Header.tsx:26-54 | pressing Enter goes exactly where the first suggestion goes, and nowhere when there is none |
| Header.SuggestionsExact | src/components/Header.tsx:48-49 | a page is suggested exactly when it contains the lower-cased input, in page order |
| Header.EmptyQueryGoesToProjects | src/components/Header.tsx:32-37 | an empty search jumps to the projects page |
| Header.PagesAreLowerCase | src/components/Header.tsx:32 | the page names are already lower case |
| Header.SuggestionClickNavigates | src/components/Header.tsx:121 | clicking a suggestion always navigates, to a page containing its name |
| Header.HeaderState.constructor | src/components/Header.tsx:10-15 | starts with an empty box, no suggestions and no navigation |
| Header.HeaderState.NavigateToPage | src/components/Header.tsx:31-41 | a match navigates to its route and clears the box and suggestions; no match changes nothing |
| Header.HeaderState.HandleSearch | src/components/Header.tsx:26-29 | searches for what is typed in the box |
| Header.HeaderState.HandleInputChange | src/components/Header.tsx:43-54 | stores the input and its suggestions without navigating |
| Header.HeaderState.HandleBlurTimeout | src/components/Header.tsx:110 | the callback scheduled on blur closes the suggestion list and leaves the box and the navigation alone |
| AskMe.BrowserStorage.constructor | src/app/ask-me/page.tsx:220-226 | storage holds the chat list and the saved conversations |
| AskMe.UserMessage | src/app/ask-me/page.tsx:195-206 | the user's bubble holds the trimmed text, or the image placeholder, and the image exactly when one was attached |
| AskMe.CanSend | src/app/ask-me/page.tsx:193 | a send goes ahead exactly when no reply is pending and the trimmed input is non-empty or an image is attached |
| AskMe.ChatTitle | src/app/ask-me/page.tsx:217 | a chat title is never empty: the message, cut to 30 characters plus "..." when longer, or "Gambar" for an empty message |
| AskMe.ReplyMessage | src/app/ask-me/page.tsx:232-250 | the reply bubble is a model message without an image and never empty, marked as an error exactly when no reply came |
| AskMe.ReplyText | src/app/ask-me/page.tsx:232-250 | the bubble carries the network-error notice, the error prefix before the action's error text, or the reply with its fallback for an empty one |
| AskMe.UsageAfter | src/app/ask-me/page.tsx:244-246 | the usage is updated only by a successful reply |
| AskMe.RetryTarget | src/app/ask-me/page.tsx:129-142 | a retry resends the clicked user message, or the user message just before a clicked reply, and otherwise nothing |
| AskMe.RetryKeepsPrefix | src/app/ask-me/page.tsx:149-176 | a retry keeps the conversation up to the resent message and ends with its new reply |
| AskMe.FiledHistory | src/app/ask-me/page.tsx:211-222 | only a new chat is filed, at the head of the list with its title and time |
| AskMe.SavedAfter | src/app/ask-me/page.tsx:224-241 | what is stored is the conversation with the reply, or without it after a network failure |
| AskMe.Send | src/app/ask-me/page.tsx:192-254 | a blocked send changes nothing; otherwise it clears the input, opens or keeps the chat, files a new chat, sends the trimmed message, and shows and stores the reply |
| AskMe.Resend | src/app/ask-me/page.tsx:165 | a retry sends the stored bubble's text and image in the current mode |
| AskMe.SavedMatchesShown | src/app/ask-me/page.tsx:224-251 | after a send, what is stored for the chat is what is shown, except a network error bubble |
| AskMe.RetryAfterSend | src/app/ask-me/page.tsx:129-165 | retrying the reply of a send resends the same request, except that an image-only message is resent with the placeholder text |
| AskMe.AskMePage.constructor | src/app/ask-me/page.tsx:26-38 | starts empty in solution-architect mode with usage 0 of 5 |
| AskMe.AskMePage.SelectMode | src/app/ask-me/page.tsx:26 | changes only the mode |
| AskMe.AskMePage.SetInput | src/app/ask-me/page.tsx:28 | changes only the input |
| AskMe.AskMePage.SelectImage | src/app/ask-me/page.tsx:70-79 | the picked image's data URL becomes the attachment; nothing else changes |
| AskMe.AskMePage.RemoveImage | src/app/ask-me/page.tsx:545 | drops the attachment; nothing else changes |
| AskMe.AskMePage.AppendTranscript | src/app/ask-me/page.tsx:106-109 | a voice transcript is appended to the composer, after a space when it already holds text |
| AskMe.AskMePage.TogglePrompts | src/app/ask-me/page.tsx:594 | opens or closes the starter prompts; nothing else changes |
| AskMe.AskMePage.PickPrompt | src/app/ask-me/page.tsx:525-528 | a starter prompt replaces the composer text and the prompts close |
| AskMe.AskMePage.LoadChat | src/app/ask-me/page.tsx:53-67 | no id starts a new chat; a saved chat is opened; an unknown id changes nothing |
| AskMe.AskMePage.HandleSend | src/app/ask-me/page.tsx:192-254 | the page and the storage become exactly what `Send` describes |
| AskMe.AskMePage.HandleRetry | src/app/ask-me/page.tsx:124-180 | with no target nothing happens; otherwise the conversation is cut to the target, its new reply appended, and the target resent |
| AskMeSidebar.Insert | src/components/ask-me/AskMeSidebar.tsx:47 | inserting into a newest-first list gives one more item, keeps it newest-first, and the new head is the inserted item or the old head |
| AskMeSidebar.InsertPermutes | src/components/ask-me/AskMeSidebar.tsx:47 | inserting adds exactly the new item and loses none of the others |
| AskMeSidebar.SortNewestFirst | src/components/ask-me/AskMeSidebar.tsx:47 | the sorted list is newest-first and a permutation of the saved one |
| AskMeSidebar.SortStable | src/components/ask-me/AskMeSidebar.tsx:47 | the sort is stable: chats of the same date keep their stored order, as with JavaScript's stable `sort` |
| AskMeSidebar.InsertStable | src/components/ask-me/AskMeSidebar.tsx:47 | an inserted chat stays ahead of the chats of its own date |
| AskMeSidebar.SortKeepsSorted | src/components/ask-me/AskMeSidebar.tsx:47 | an already newest-first list is left as it is |
| AskMeSidebar.DeleteById | src/components/ask-me/AskMeSidebar.tsx:56 | no chat with the id remains |
| AskMeSidebar.DeleteExact | src/components/ask-me/AskMeSidebar.tsx:56 | exactly the chats with other ids remain, in order |
| AskMeSidebar.DeleteKeepsNewestFirst | src/components/ask-me/AskMeSidebar.tsx:54-58 | deleting keeps the list newest-first |
| AskMeSidebar.Line | src/components/ask-me/AskMeSidebar.tsx:72 | a shared line is the speaker in bold, a colon and the text |
| AskMeSidebar.Lines | src/components/ask-me/AskMeSidebar.tsx:72 | one line per message, in order |
| AskMeSidebar.ShareAppend | src/components/ask-me/AskMeSidebar.tsx:72 | a further message adds a blank line and its own line to the shared text |
| AskMeSidebar.ShareText | src/components/ask-me/AskMeSidebar.tsx:72 | the shared text is empty for no messages, and otherwise starts with the first message's line and ends with the last one's |
| AskMeSidebar.Sidebar.constructor | src/components/ask-me/AskMeSidebar.tsx:38 | starts with an empty list |
| AskMeSidebar.Sidebar.Reload | src/components/ask-me/AskMeSidebar.tsx:40-52 | a readable saved list is shown newest-first; otherwise the list is kept |
| AskMeSidebar.Sidebar.HandleDeleteHistory | src/components/ask-me/AskMeSidebar.tsx:54-63 | removes the chat from the list, storage and saved conversations, and starts a new chat when it was open |
| AskMeSidebar.Sidebar.HandleShareChat | src/components/ask-me/AskMeSidebar.tsx:67-78 | a saved chat is copied as its share text; an unknown one copies nothing |
| Text.TrimStart | src/app/ask-me/page.tsx:195 | removes exactly the leading white space |
| Text.TrimEnd | src/app/ask-me/page.tsx:195 | removes exactly the trailing white space |
| Text.Trim | src/app/ask-me/page.tsx:195 | the result starts and ends with a non-space |
| Text.TrimIsInfix | src/app/ask-me/page.tsx:195 | the trimmed text is the original with only white space removed at both ends |
| Text.BlankIffTrimsToEmpty | src/app/ask-me/page.tsx:193 | a text is all white space exactly when trimming it leaves nothing |
| Text.TrimIdempotent | src/app/ask-me/page.tsx:195 | trimming twice equals trimming once |
| Text.Lower | src/components/Header.tsx:33 | lower-cases each character and keeps the length |
| Text.LowerIdempotent | src/components/Header.tsx:33 | lower-casing twice equals lower-casing once |
| Text.ContainsIffOccurs | src/components/Header.tsx:35 | `includes` holds exactly when the needle occurs at some position |
| Text.Split | src/components/Header.tsx:20 | splitting yields at least one piece and no piece holds the separator |
| Text.JoinSplit | src/components/Header.tsx:20 | joining the pieces of a split gives back the text |
| Text.SplitJoin | src/components/Header.tsx:20 | splitting joined separator-free pieces gives back the pieces |
| Text.NatToString | src/app/ask-me/page.tsx:213 | a number is rendered in decimal digits without a leading zero |
| Text.DecimalRoundTrip | src/app/ask-me/page.tsx:213 | the rendered digits read back as the number |
| Text.PadStart | src/app/pomodoro-timer/page.tsx:182 | pads on the left to the width with the fill character, keeping the text at the end |
| Text.LeadingZerosValue | src/app/pomodoro-timer/page.tsx:182 | leading zeros do not change a number's value |

## Left out

- Browser storage is modelled page by page. JSON encoding is not modelled. The one parse
  failure the code handles differently, an unreadable chat list, is the `Unreadable` case;
  other stored values are taken as well formed.
  - Ask-me page and sidebar: the shared `BrowserStorage` object.
  - Markdown editor: the field `stored`. Each save and delete sets it to the new draft list.
  - Pomodoro timer: the fields `storedTasks` and `storedSessions`. Each task change and each
    finished session writes the new list.
  - URL shortener: the field `stored`. Each shortening and deletion writes the new list. An
    absent key reads as the empty list, as `getShortenedURLs` returns.
  - Scraper page: `history` stands for the stored history. The constructor takes what storage
    held, and every write (scraping/page.tsx:40) stores exactly the new `history`, so the
    two never differ.
- The generative backend is not modelled. Its reply or failure is an input of
  `GenerateResponse` and of the ask-me handlers. The persona prompts appear by name, not by
  wording.
- Reading the client address from the `x-forwarded-for` header is left out. The address is
  the parameter `key`.
- Chat.ChatServer.GenerateResponse: the fail-open branch of the limiter is not modelled. The
  only code inside that `try` that could throw is the header read, which runs outside it.
- Clock, randomness and URL parsing are inputs: `Date.now()` is `now`, `Math.random()` is
  `picks`, and `isValidUrl`'s result is `urlIsValid`.
- AskMe.Send: the two `Date.now()` calls for the chat id and for the history entry's date are
  one reading, `now`. The same holds for the pairs of `Date.now()` calls that give a new
  record's id and its time in `Pomodoro.PomodoroTimer.Tick` for a finished session
  (pomodoro-timer/page.tsx:92, 95), `UrlShortener.UrlShortenerPage.HandleShorten`
  (url-shortener/page.tsx:87, 90) and `MarkdownEditor.MarkdownEditorPage.HandleSaveDraft`
  (markdown-editor/page.tsx:94, 97).
- Pomodoro.PomodoroTimer.Tick: at the last second the source completes the session from
  inside the `setTimeLeft` updater, which itself returns 0 (pomodoro-timer/page.tsx:54-58).
  Which of that 0 and the next mode's duration set by `switchMode` ends on the clock depends
  on the order React applies the queued updates. The model takes the next mode's duration,
  the order in which the updates were queued; for custom mode, where no mode switch follows,
  the clock stays at 0.
- Header.HeaderState.HandleBlurTimeout: the 200 ms `setTimeout` delay between leaving the
  search box and the suggestion list closing is not modelled. The method is the scheduled
  callback; a suggestion click in the meantime is `NavigateToPage`.
- Handlers run atomically. React's batched and asynchronous state updates, stale closures and
  overlapping `await`s are left out. The one interleaving the model keeps is the page staying
  in its loading state when the send handler throws.
- Text.Lower: maps ASCII letters only. `toLowerCase` also maps other Unicode letters.
- Header.Capitalize: upper-cases ASCII letters only, for the same reason.
- Text.Trim: strings are sequences of characters. UTF-16 code units and surrogate pairs are not
  modelled, so lengths (the 1500, 30 and 50 limits) count characters.
- Number inputs in the custom-time fields that parse to `NaN`, or to a fraction such as
  `Number("1.5")`, are left out. The fields hold integers in the model.
- The progress ring's floating-point percentage is left out.
- The pomodoro's browser notification and sound on completion are left out.
- QR code images are left out. `HandleShowQR` takes the generated image data as a parameter.
- The clipboard is left out. The copied text is the handlers' result, and the timers that reset
  "copied" markers after two seconds are not modelled.
- The markdown editor's textarea lookup, focus and export handlers (download as file, copy
  HTML) are left out. The selection is passed to `InsertMarkdown`.
- The ask-me page's file reading, the speech-recognition session and its listening flag,
  the copy button, the permission dialog and the sidebar's open/closed state are left out.
  What upload and voice input change in the modelled state is `SelectImage` and
  `AppendTranscript`.
- The scraper server actions are left out. Their outcome is the `outcome` parameter of
  `HandleSearch`. The item limit and location inputs only travel to those actions.
- The visit counter of short links (`/s/[code]`) is not part of this model. Clicks enter only
  as stored numbers.
