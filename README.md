# Netflix scraper core, modelled in Dafny

This project models the core of the Netflix scraper prototype:

- **Discovery.** The scraper walks the rows of the Netflix catalog. In each
  row it counts the provider ids of the cards that are entirely displayed,
  pass after pass. A row is left once every id in it has been seen at least
  twice and some id exactly twice.
- **Extraction.** The scraper then opens the detail view of every
  discovered id and turns it into a movie or series record. Valid records go
  into the shared media bag.
- **Support code.** The model also covers the code the scraper relies on:
  - the restartable background task (`CancellableTask`);
  - the fault-isolating wrappers around browser calls, at driver level
    (`DriverActions`) and at element level (`WebElementExtension`);
  - log entries and their text form (`LogEntry`);
  - the log (`Log`). It queues entries once started, drains them into the
    day's file and onto the console, and colours console output by the markup
    `Red{…}`.

Browser reads, cancellation checks, clocks and file availability are
**inputs** of the model:

- A `DetailPage` holds what one title's detail view shows.
- A `RowPass` holds which cards one pass over a row sees.
- A `Probe` holds one reading of the page height.
- `cancelled: nat -> bool` gives what each cancellation check sees.
- A timestamp is a string.
- `fileOpens` says whether the day's log file opens.
- A `DirectoryCheck` holds what the log directory's writability check
  found: writable, a null or empty path, or the text of the exception it
  caught and logged.

Where the source changes state, the model does too:

- `NetflixScraper`, `CancellableTask` and `Log` are classes whose methods
  update their fields.
- Each method is proved against a function of the old state and the inputs:
  - `Discovery.FetchRow`, `Discovery.FetchAll` and `Extraction.ScrapeAll`;
  - `Logging.Printed`, `Logging.FileLines` and `Logging.ColorAfterAll`.
- The properties of the scraper are then proved about those functions.

The code is followed wherever it and the stated design of the scraper part
ways:

- **Discovery does not always terminate, and not every id was seen twice.**
  A row in which no card with an id is ever entirely displayed never
  converges. The do-while loop then runs until cancellation
  (`Discovery.EmptyRowNeverConverges`). A row left through cancellation may
  contribute ids seen only once. Only a row that converges guarantees two
  sightings (`Discovery.ConvergedRowSawEachTwice`).
- **`Terminate` then `Start` does not fail outright.**
  - If the task is still Created, `Start` schedules a worker that faults with
    a null dereference, because `Terminate` dropped the action
    (`Lifecycle.TerminateBeforeStartFaults`).
  - On a Terminated task, `Start` only writes a log entry.
- **Extraction attempts every id only when every detail view yields a
  record** (`Extraction.AllYieldEmpties`). A missing detail view
  (`Extraction.MissingDetailViewFaults`) or an unparsable duration ends the
  pass with an exception.
- **Extraction does not visit the ids in order.** After a removal the index
  still moves on by one, so every step skips one title. The wrap-around picks
  it up later (`Extraction.SecondAttemptSkipsOne`).
- **The routing chain never reaches the driver's generic handler** (see
  Findings).

## Model

| member | source | states |
|---|---|---|
| LogEntries.SeverityNamed | Utilities/Utilities/Logger/LogEntry.cs:15-22 | a name is read as a severity only if it is that severity's name |
| LogEntries.SeverityNameRoundTrip | Utilities/Utilities/Logger/LogEntry.cs:15-22 | every severity's name, as the text form prints it, reads back as that severity |
| LogEntries.Plain | Utilities/Utilities/Logger/LogEntry.cs:24-31 | the plain constructor stores caption, severity, log-only flag, message and timestamp, and is not an exception |
| LogEntries.OfException | Utilities/Utilities/Logger/LogEntry.cs:33-42 | the exception constructor gives the same entry as the plain one, marked as an exception and carrying the exception's text |
| LogEntries.ToString | Utilities/Utilities/Logger/LogEntry.cs:44-66 | the text form starts with "[timestamp] " |
| LogEntries.ExceptionEndsWithItsText | Utilities/Utilities/Logger/LogEntry.cs:62-63 | an exception entry's text ends with a new line holding the exception's text |
| LogEntries.LineBreaks | Utilities/Utilities/Logger/LogEntry.cs:44-66 | the text form has the line feeds of timestamp and caption, one more plus the message's own for a non-empty message, and one more plus the exception text's own for an exception |
| LogEntries.ReadToString | Utilities/Utilities/Logger/LogEntry.cs:44-66 | the text form of a readable entry can be parsed back into its timestamp, its severity (exactly when shown), the exception flag, the caption, the message and the exception text: the form loses nothing |
| Logging.ColorNamed | Utilities/Utilities/Logger/Log.cs:150 | `Enum.TryParse<ConsoleColor>` on a name, with or without case; what it finds and that it finds every colour are the lemmas `FindColorSound`, `FindColorFinds`, `NamesItsColor` and `NamesNoColor` |
| Logging.DefaultColorsDiffer | Utilities/Utilities/Logger/Log.cs:128-143 | different severities get different default console colours |
| Logging.FindColorSound | Utilities/Utilities/Logger/Log.cs:150 | a colour found for a name is the colour that name names, with or without case |
| Logging.FindColorFinds | Utilities/Utilities/Logger/Log.cs:150 | the name of a listed colour is always found |
| Logging.NamesItsColor | Utilities/Utilities/Logger/Log.cs:150 | every `ConsoleColor` name parses as a colour |
| Logging.NamesNoColor | Utilities/Utilities/Logger/Log.cs:150 | a text with a brace, shorter than three characters, or not starting with a capital parses as no colour when case matters |
| Logging.TokenLengthOfToken | Utilities/Utilities/Logger/Log.cs:23-25 | "Name{" at the front of a text is one whole match of the colour pattern |
| Logging.Strip | Utilities/Utilities/Logger/Log.cs:108-111 | `Regex.Replace` of the colour pattern, matched with case, never lengthens the text; which parts it removes is stated by the `Strip…` lemmas below |
| Logging.StripRemovesClosing | Utilities/Utilities/Logger/Log.cs:111 | no closing brace survives the removal of the colour pattern |
| Logging.StripPlainText | Utilities/Utilities/Logger/Log.cs:111 | text without braces is left unchanged |
| Logging.StripToken | Utilities/Utilities/Logger/Log.cs:111 | a colour token at the front is removed whole |
| Logging.StripIsNotIdempotent | Utilities/Utilities/Logger/Log.cs:111 | removal does not rescan: "Re}d{" becomes "Red{", which a second removal would empty |
| Logging.LowerCaseTokenKept | Utilities/Utilities/Logger/Log.cs:111 | "red{" is kept in the plain form, where the pattern is matched with case, yet is a whole match for the ignore-case split of the console form (line 148) |
| Logging.Split | Utilities/Utilities/Logger/Log.cs:148 | `Regex.Split` by the colour pattern, ignoring case and keeping the matches; that it loses nothing and alternates text and tokens is `SplitJoins` |
| Logging.SplitFromJoins | Utilities/Utilities/Logger/Log.cs:148 | splitting by any matcher loses nothing: the pieces joined back give the pending text followed by the input |
| Logging.SplitFromAlternates | Utilities/Utilities/Logger/Log.cs:148 | for a matcher whose match also matches on its own, the split has an odd number of pieces and every second piece is a whole match |
| Logging.SplitJoins | Utilities/Utilities/Logger/Log.cs:148 | the split of the console form joins back to the text, and every second piece is a whole colour token |
| Logging.CreateString | Utilities/Utilities/Logger/Log.cs:97-112 | the text of an entry, started or not, coloured or plain; its forms are stated by `StartedForms` and `NotStartedForm` |
| Logging.StartedForms | Utilities/Utilities/Logger/Log.cs:97-112 | once started, the console form reads back as the entry with its severity hidden; the file form of a brace-free entry reads back with the severity shown |
| Logging.NotStartedForm | Utilities/Utilities/Logger/Log.cs:100-106 | before start, the text is the entry's full form followed by " *Severity* [NO LOG]", or by " [NO LOG]" when the severity is None; the severity then appears twice |
| Logging.Paint | Utilities/Utilities/Logger/Log.cs:147-159 | the colour state machine of `Print` over the pieces; its behaviour is stated by `PaintWithoutSwitch` and `PaintSwitchedRun`, and `Log.PaintSegments` is proved equal to it |
| Logging.PaintWithoutSwitch | Utilities/Utilities/Logger/Log.cs:147-159 | until a colour is switched to, every piece, a closing brace included, is written in the current colour |
| Logging.PaintSwitchedRun | Utilities/Utilities/Logger/Log.cs:147-159 | text after a colour token is written in that colour; a closing brace then returns to the default colour |
| Logging.LogOnlyNotPrinted | Utilities/Utilities/Logger/Log.cs:117-118 | printing a queue writes what printing only its non-log-only entries writes |
| Logging.Log.constructor | Utilities/Utilities/Logger/Log.cs:12-18 | not started, no console, no colour pattern yet (the static string is null), empty queue, file and console, grey foreground |
| Logging.Log.Print | Utilities/Utilities/Logger/Log.cs:115-163 | it raises ArgumentNullException exactly for an entry that is not log-only while the colour pattern is not built (`Regex.Replace` at line 111, `Regex.Split` at line 148), printing nothing and leaving the severity's colour set on the console branch; otherwise the console gains exactly `Printed(e)`: nothing for a log-only entry, one debug line of the plain form without a console, otherwise the painted pieces and an end of line; the foreground becomes `ColorAfter`; nothing else changes |
| Logging.Log.PrintColored | Utilities/Utilities/Logger/Log.cs:124-161 | the console branch: the severity's colour is set, then without a pattern the split raises; with one the pieces are painted from that colour, then the end of line |
| Logging.Log.PaintSegments | Utilities/Utilities/Logger/Log.cs:147-159 | the loop over the pieces writes exactly what `Paint` writes and leaves its final colour |
| Logging.Log.Write | Utilities/Utilities/Logger/Log.cs:89-95 | once started the entry is queued and nothing is printed; before that it is printed at once and the queue is unchanged, and it raises exactly when `Print` would, before any `Start` |
| Logging.Log.Start | Utilities/Utilities/Logger/Log.cs:20-47 | the colour pattern is built and the console flag saved before the directory check; with a writable directory the log is started and the queue holds exactly the "logging enabled" entry, then the purge task's "Task '<owner>' created" and "Task '<owner>' started" entries (its status setter writes them, CancellableTask.cs:71, 90, 140), with the console untouched; otherwise the log stays as it was started or not, and the check's own Medium exception entry "An issue occured while assessing R&W permission in <dir>" (IOSupport.cs:45-48), when the check threw, then the "logging disabled" entry are queued on a log already started, or printed at once in that order on one that is not; the file never changes |
| Logging.Log.StartQueue | Utilities/Utilities/Logger/Log.cs:31-43 | the writable branch: the log is started, and the queue is exactly the "logging enabled" entry followed by the purge task's "created" and "started" entries; console, foreground and file are untouched |
| Logging.Log.ReportDisabled | Utilities/Utilities/Logger/Log.cs:29-45 | the not-writable branch: the check's Medium exception entry, when the check threw (IOSupport.cs:45-48), then "logging disabled", each queued on a started log or printed at once, in that order, on one that is not; the started flag and the file are unchanged |
| Logging.Log.PurgeQueue | Utilities/Utilities/Logger/Log.cs:60-77 | run only by the worker `Start` creates after building the pattern (lines 35-43); when the file opens, the queue is emptied oldest first: the file gains each entry's plain form and the console what printing them in order writes; otherwise the queue and file are unchanged, the error is printed as a Medium exception entry, and the foreground is the colour that printing leaves |
| Logging.Log.DequeueAndWrite | Utilities/Utilities/Logger/Log.cs:66-71 | one turn: the oldest entry leaves the queue, its plain form is appended to the file and it is printed |
| Logging.WriteBeforeStartThrows | Utilities/Utilities/Logger/Log.cs:89-122 | a fresh log written to before any `Start` raises ArgumentNullException and prints nothing |
| Logging.WriteAfterStart | Utilities/Utilities/Logger/Log.cs:20-47 | after `Start` a write never raises: with a writable directory it is queued behind the "logging enabled" entry and the purge task's "created" and "started" entries; otherwise it is printed at once after the check's error entry (when the check threw) and the "logging disabled" entry |
| Lifecycle.CancellableTask.IsCancelled | Utilities/Utilities/CancellableTask.cs:42-50 | cancelled when there is no token source, otherwise exactly when cancellation was requested |
| Lifecycle.CancellableTask.constructor | Utilities/Utilities/CancellableTask.cs:66-72 | a fresh token source and task, status Created, one status event, and the lifecycle invariant |
| Lifecycle.CancellableTask.Initialize | Utilities/Utilities/CancellableTask.cs:103-128 | a fresh uncancelled token source and task unless the task is still Created with its task; nothing else changes |
| Lifecycle.CancellableTask.Start | Utilities/Utilities/CancellableTask.cs:130-149 | from Created, Faulted or Stopped the task becomes Started, with a scheduled worker and an uncancelled token; from Started or Terminated only a log line, and the state is unchanged |
| Lifecycle.CancellableTask.Stop | Utilities/Utilities/CancellableTask.cs:168-174 | cancellation is requested exactly when the task is Started or Faulted with a token source; the status never changes |
| Lifecycle.CancellableTask.Terminate | Utilities/Utilities/CancellableTask.cs:176-186 | unless Terminated: termination is marked, cancellation is requested as `Stop` would, and the action is dropped; the status is left to the worker |
| Lifecycle.CancellableTask.WorkerInvoke | Utilities/Utilities/CancellableTask.cs:110-114 | the worker runs the action, or, with the action dropped, faults with a null dereference |
| Lifecycle.CancellableTask.WorkerReturned | Utilities/Utilities/CancellableTask.cs:114-118 | a returned action leaves the task Terminated if termination was requested, else Stopped |
| Lifecycle.CancellableTask.WorkerThrew | Utilities/Utilities/CancellableTask.cs:120-124 | a thrown action leaves the task Faulted with the exception stored and raised, in that order |
| Lifecycle.CancellableTask.Fault | Utilities/Utilities/CancellableTask.cs:59-63 | the catch branch: Faulted first, then the exception stored and `ExceptionRaised` |
| Lifecycle.CancellableTask.Wait | Utilities/Utilities/CancellableTask.cs:162-166 | it blocks exactly when there is a task and it is no longer Created |
| Lifecycle.CancellableTask.Restart | Utilities/Utilities/CancellableTask.cs:151-160 | it logs first and gives the whole new state and event log: Created, it hangs with nothing else changed; Stopped or Faulted, it becomes Started with a scheduled worker and an uncancelled token; Terminated, it only adds the "cannot be restarted" line; Started, the cancelled worker runs to its end (`RunToEnd`), its events follow, and then `Start` either restarts it with a fresh token or, when it ended Terminated, only logs |
| Lifecycle.CancellableTask.WaitForWorker | Utilities/Utilities/CancellableTask.cs:110-124 | the `Task.Wait()` of `Restart` (line 156) on a cancelled Started task: the worker runs to its end, leaving exactly the state and events of `RunToEnd` |
| Lifecycle.CancellableTask.RunToEnd | Utilities/Utilities/CancellableTask.cs:110-124 | a cancelled worker ends idle with a cancelled token; it ends Terminated exactly when the action ran and returned after termination was requested, Faulted exactly when the dropped action was invoked or the action threw, with the exception stored and raised after the status change, and otherwise Stopped; no other field changes |
| Lifecycle.TerminateBeforeStartFaults | Utilities/Utilities/CancellableTask.cs:177-186 | terminating before the first start makes the scheduled worker fault with a null dereference |
| Lifecycle.TerminateWhileRunning | Utilities/Utilities/CancellableTask.cs:115-116 | terminating a running task cancels it, it ends Terminated, and a later `Start` only reports it cannot restart |
| Lifecycle.StopThenStartAgain | Utilities/Utilities/CancellableTask.cs:117-118 | a stopped run ends Stopped and starts again with an uncancelled token |
| DriverActions.IsEmptyEventHandler | Utilities/Utilities/Driver/Driver.cs:98-103 | a missing handler raises a null dereference; otherwise the result is whether the handler is empty |
| DriverActions.Route | Utilities/Utilities/Driver/DriverActions.cs:24-37 | as written: logged exactly when both handlers are missing, the call-site handler invoked exactly when it is present and not empty, a null dereference exactly when only the generic handler is present, and the generic handler never invoked |
| DriverActions.RouteIntended | Utilities/Utilities/Driver/DriverActions.cs:33-37 | corrected: the generic handler is invoked exactly when the call-site handler is missing or empty and the generic one is present and not empty; nothing raises |
| DriverActions.GenericHandlerUnreachable | Utilities/Utilities/Driver/DriverActions.cs:33 | no call-site handler and a non-empty generic one: the code as written raises, the corrected routing invokes the generic handler |
| DriverActions.RoutesAgreeWithoutGeneric | Utilities/Utilities/Driver/DriverActions.cs:26-37 | without a generic handler, which is how the scraper's driver runs, the two routings agree |
| DriverActions.SafeCapsule | Utilities/Utilities/Driver/DriverActions.cs:11-40 | a returned call gives its value (nothing for an action) and sleeps; an unknown delegate logs Critical; a WebDriverException gives null, skips the sleep and is routed; any other exception escapes unchanged |
| DriverActions.Safely | Utilities/Utilities/Driver/DriverActions.cs:58-61 | the capsule's result: the returned value, and a non-null result only from a returned call |
| DriverActions.SafelyString | Utilities/Utilities/Driver/DriverActions.cs:63-66 | succeeds exactly when the call returned a string, which it gives back; an intercepted fault raises a null dereference |
| DriverActions.SafelyAction | Utilities/Utilities/Driver/DriverActions.cs:68-71 | no result, and the cooldown runs exactly when the action returned |
| DriverActions.TryFindElement | Utilities/Utilities/Driver/DriverActions.cs:42-48 | found exactly when the output is not null; a found output was returned by the call |
| DriverActions.TryFindElements | Utilities/Utilities/Driver/DriverActions.cs:50-56 | found exactly when the output is not null and not empty |
| DriverActions.HandledFaultIsNotFound | Utilities/Utilities/Driver/DriverActions.cs:28-31 | a fault handled by a non-empty call-site handler makes a lookup report "not found" instead of failing |
| DriverActions.ScrollCharacterised | Utilities/Utilities/Driver/DriverActions.cs:110-122 | it scrolls by each height read, in order, each different from the previous one and none after a cancellation; it stops at cancellation or at the first height equal to the previous one |
| DriverActions.ScrollToBottom | Utilities/Utilities/Driver/DriverActions.cs:110-122 | the loop issues exactly the scrolls of `Scroll` from a previous height of 0, and ends as it does |
| ElementActions.SafeCapsule | Utilities/Utilities/Driver/WebElementExtension.cs:10-36 | a returned call gives its value; an unknown delegate logs Critical; a WebDriverException goes to the handler when there is one (result null) and escapes otherwise; any other exception escapes |
| ElementActions.Safely | Utilities/Utilities/Driver/WebElementExtension.cs:54-62 | the capsule's result; it throws exactly for an unhandled fault |
| ElementActions.SafelyString | Utilities/Utilities/Driver/WebElementExtension.cs:64-67 | succeeds exactly when a string was returned; a handled fault still raises a null dereference, an unhandled one escapes |
| ElementActions.SafelyAction | Utilities/Utilities/Driver/WebElementExtension.cs:69-72 | no result, and the handler is invoked exactly when the action raised and was not rethrown |
| ElementActions.TryFindElements | Utilities/Utilities/Driver/WebElementExtension.cs:38-44 | found exactly when the output is not null and not empty; it throws exactly for an unhandled fault |
| ElementActions.TryFindElement | Utilities/Utilities/Driver/WebElementExtension.cs:46-52 | found exactly when the output is not null; it throws exactly for an unhandled fault |
| ElementActions.SafelyClickAndWait | Utilities/Utilities/Driver/WebElementExtension.cs:74-80 | the driver sleeps exactly when the click returned, and a faulted click skips the sleep |
| ElementActions.InsideWindowIsContainment | Utilities/Utilities/Driver/WebElementExtension.cs:87-89 | the test holds exactly when the element is displayed and its whole rectangle lies right of and below the page origin, within the scrolled window's bottom-right corner |
| ElementActions.ScrolledAboveStillPasses | Utilities/Utilities/Driver/WebElementExtension.cs:87-89 | an element scrolled out above the window still passes |
| ElementActions.IsEntirelyDisplayed | Utilities/Utilities/Driver/WebElementExtension.cs:82-93 | the test's result when the geometry is read; false for a handled fault; an unhandled fault escapes |
| Duration.RunLength | MediaSkraper/Scraper/NetflixScraper.cs:244 | the length of the run of digits at the front: all digits, followed by a non-digit or the end |
| Duration.DigitRuns | MediaSkraper/Scraper/NetflixScraper.cs:244 | every match of `[0-9]+` is a non-empty run of digits |
| Duration.ParseDuration | MediaSkraper/Scraper/NetflixScraper.cs:242-251 | a result in minutes is never negative, and the only exception is NotImplementedException |
| Duration.DecimalRoundTrip | MediaSkraper/Scraper/NetflixScraper.cs:246 | parsing a number's decimal form gives the number back |
| Duration.HoursAndMinutes | MediaSkraper/Scraper/NetflixScraper.cs:245-246 | two numbers separated by non-digits read as hours and minutes: 60 × hours + minutes |
| Duration.MinutesOnly | MediaSkraper/Scraper/NetflixScraper.cs:247-248 | one number reads as minutes |
| Duration.NoNumberThrows | MediaSkraper/Scraper/NetflixScraper.cs:249-250 | no number raises NotImplementedException |
| Duration.ThreeNumbersThrow | MediaSkraper/Scraper/NetflixScraper.cs:249-250 | three numbers raise NotImplementedException |
| MediaScrape.MediaKind | MediaSkraper/Scraper/NetflixScraper.cs:199-202 | a series exactly when the text holds "season" or "saison", holding that text; otherwise a movie of the parsed minutes, or the parse's exception |
| MediaScrape.FilterTags | MediaSkraper/Scraper/NetflixScraper.cs:219-223 | a tag is listed exactly when some link text is non-empty, holds no "plus" and reads as it with its commas removed |
| MediaScrape.TagsOf | MediaSkraper/Scraper/NetflixScraper.cs:214-223 | no listed tag holds a comma |
| MediaScrape.TagsOfMembers | MediaSkraper/Scraper/NetflixScraper.cs:214-223 | a tag is listed exactly when some block with that `data-uia` keeps it |
| MediaScrape.Scrape | MediaSkraper/Scraper/NetflixScraper.cs:191-226 | null without a modal or with an empty duration; a modal read fault escapes; a missing box art `alt` or `src` attribute raises a null dereference exactly when the kind was chosen (WebElementExtension `Safely` calls `ToString()` on the null); otherwise the record carries the id, the watch url, Netflix, the modal's texts, the kind of its lower-cased duration, and the person and genre tags; only WebDriver, NotImplemented and NullReference exceptions escape |
| MediaScrape.IsMediaValid | MediaSkraper/Scraper/NetflixScraper.cs:228-240 | a record is valid exactly when it is not null and its name, provider id, description and url are non-empty; `ScrapedValidity` and `Extraction.RunScrapeFillsBag` state what that means for a scraped record and for the bag |
| MediaScrape.ScrapedValidity | MediaSkraper/Scraper/NetflixScraper.cs:228-231 | for a non-empty id, a scraped record is valid exactly when it exists and the page gave a name and a synopsis |
| MediaScrape.SeasonTextGivesSeries | MediaSkraper/Scraper/NetflixScraper.cs:199-208 | a duration with a season marker always gives a series record holding the lower-cased text; the scrape then fails exactly when a box art attribute is missing, and only with a null dereference |
| Extraction.ScrapeAll | MediaSkraper/Scraper/NetflixScraper.cs:166-184 | the extraction pass from the discovered ids: `ElementAt(0)` on an empty set raises, otherwise the round-robin loop from index 0 with an empty bag count; its properties are the `RunScrape…` lemmas and `AllYieldEmpties` |
| Extraction.RunScrape | MediaSkraper/Scraper/NetflixScraper.cs:170-182 | one turn of the do-while and the rest of the loop: a thrown scrape or a null record faults, a valid record is added and counted, the id is removed, the index moves on and wraps to 0; stated by `RunScrapeEmptied`, `RunScrapeConserves`, `RunScrapeFillsBag`, `RunScrapeBagFromVisited` and `RunScrapeBagFromPending` |
| Extraction.Remove | MediaSkraper/Scraper/NetflixScraper.cs:178 | `HashSet.Remove`: the id is gone, every other id stays, and the set shrinks exactly when the id was in it |
| Extraction.RemoveAt | MediaSkraper/Scraper/NetflixScraper.cs:178-180 | removing the id at position i shifts the later ids down by one |
| Extraction.ScrapedKeepsIds | MediaSkraper/Scraper/NetflixScraper.cs:205 | a scraped record carries the id it was scraped for |
| Extraction.RunScrapeEmptied | MediaSkraper/Scraper/NetflixScraper.cs:181 | the loop reports an emptied set exactly when nothing is left pending |
| Extraction.RunScrapeConserves | MediaSkraper/Scraper/NetflixScraper.cs:170-182 | however the loop ends, every id is either still pending or attempted, exactly once, and the pending ids stay duplicate-free |
| Extraction.RunScrapeFillsBag | MediaSkraper/Scraper/NetflixScraper.cs:173-177 | the bag only grows, only by valid records, and `success` counts exactly the records added |
| Extraction.RunScrapeBagFromVisited | MediaSkraper/Scraper/NetflixScraper.cs:172-177 | every record added belongs to an id the loop attempted |
| Extraction.RunScrapeBagFromPending | MediaSkraper/Scraper/NetflixScraper.cs:170-182 | every record added belongs to an id that was pending |
| Extraction.AllYieldEmpties | MediaSkraper/Scraper/NetflixScraper.cs:170-182 | with no cancellation and every detail view yielding a record, every id is attempted exactly once and the set is emptied |
| Extraction.AttemptedNext | MediaSkraper/Scraper/NetflixScraper.cs:172 | a title that yields a record is the next one attempted |
| Extraction.SecondAttemptSkipsOne | MediaSkraper/Scraper/NetflixScraper.cs:178-180 | after the first title, the next one attempted is the third of the set |
| Extraction.MissingDetailViewFaults | MediaSkraper/Scraper/NetflixScraper.cs:178 | a title without a detail view gives a null record, reading its id raises, and nothing else changes |
| Discovery.See | MediaSkraper/Scraper/NetflixScraper.cs:132-143 | one sighting of a non-empty id: count 1 on the first sighting in the row, one more after; stated by `SeeExtends` |
| Discovery.RunRow | MediaSkraper/Scraper/NetflixScraper.cs:119-159 | the do-while of `FetchRow` from a given state: a pass, the convergence test, the arrow click and the cancellation check; stated by `RunRowExtends`, `ConvergedEnd` and `EmptyRowNeverConverges` |
| Discovery.FetchRow | MediaSkraper/Scraper/NetflixScraper.cs:114-160 | a row read from fresh counts with no arrow found yet; stated by `FetchRowAppendsFirstSightings` and `ConvergedRowSawEachTwice` |
| Discovery.RunRows | MediaSkraper/Scraper/NetflixScraper.cs:95-106 | the row loop of `FetchAll`: a cancellation before a row returns, a faulted row ends discovery (as does one whose given passes run out), any other row hands its set to the next; stated by `RunRowsKeepsIds` and `CancelBeforeRowKeepsEarlierRows` |
| Discovery.FetchAll | MediaSkraper/Scraper/NetflixScraper.cs:91-106 | discovery from an empty set over the rows found; stated by `RunRowsKeepsIds` |
| Discovery.ScanPass | MediaSkraper/Scraper/NetflixScraper.cs:122-147 | a pass stops early only on cancellation or a failed id read |
| Discovery.ScanPassCounts | MediaSkraper/Scraper/NetflixScraper.cs:132-145 | after a pass, an id's count is its count before plus the times the pass read it; empty ids are never counted |
| Discovery.SeeExtends | MediaSkraper/Scraper/NetflixScraper.cs:134-143 | one sighting keeps the scan well formed; an id is added to the set only on its first count in the row, and only if new |
| Discovery.ScanPassExtends | MediaSkraper/Scraper/NetflixScraper.cs:122-147 | a pass never forgets ids or lowers counts, and the set grows, at its end, by exactly the ids first counted |
| Discovery.RunRowExtends | MediaSkraper/Scraper/NetflixScraper.cs:119-159 | the same over a whole row, and the arrow clicks never decrease |
| Discovery.FetchRowAppendsFirstSightings | MediaSkraper/Scraper/NetflixScraper.cs:138-143 | a row only appends to the set, without duplicates or empty ids, and appends exactly the ids it counted that were not discovered before |
| Discovery.ConvergedEnd | MediaSkraper/Scraper/NetflixScraper.cs:150-151 | a row left normally meets the convergence test |
| Discovery.ConvergedRowSawEachTwice | MediaSkraper/Scraper/NetflixScraper.cs:150-151 | a row left normally has ids, the least count is 2, and every id it discovered was seen at least twice |
| Discovery.NothingReadLeavesScan | MediaSkraper/Scraper/NetflixScraper.cs:133 | a pass in which no card has an id changes nothing |
| Discovery.EmptyRowNeverConverges | MediaSkraper/Scraper/NetflixScraper.cs:150-159 | a row where no card with an id is ever displayed never converges and changes nothing; without handles no arrow is clicked |
| Discovery.RunRowsKeepsIds | MediaSkraper/Scraper/NetflixScraper.cs:91-106 | across rows the discovered ids only grow, hold no duplicate and no empty id |
| Discovery.CancelBeforeRowKeepsEarlierRows | MediaSkraper/Scraper/NetflixScraper.cs:97-100 | cancellation seen before a row returns what the earlier rows discovered, without error |
| Scraper.NetflixScraper.constructor | MediaSkraper/Scraper/NetflixScraper.cs:35-37 | the bag is the one given and nothing is discovered yet |
| Scraper.NetflixScraper.FetchRow | MediaSkraper/Scraper/NetflixScraper.cs:114-160 | the row loop's end, discovered set and arrow clicks are those of `Discovery.FetchRow`; the bag is untouched |
| Scraper.NetflixScraper.ScanCards | MediaSkraper/Scraper/NetflixScraper.cs:122-147 | the loop over one pass's cards leaves the counts, the set and the stop reason of `Discovery.ScanPass` |
| Scraper.NetflixScraper.FetchAll | MediaSkraper/Scraper/NetflixScraper.cs:91-106 | the set starts empty and ends as `Discovery.FetchAll` says, with its end; the bag is untouched |
| Scraper.NetflixScraper.ScrapeAll | MediaSkraper/Scraper/NetflixScraper.cs:166-184 | the end, bag, success count, pending set and attempted ids are those of `Extraction.ScrapeAll` |
| Scraper.NetflixScraper.Work | MediaSkraper/Scraper/NetflixScraper.cs:55-59 | nothing changes when cancelled before discovery; otherwise discovery runs as `Discovery.FetchAll`, and extraction follows, as `Extraction.ScrapeAll` on the discovered ids, exactly when no row faulted or ran out of passes, the check after discovery saw no cancellation and some id was found |
| Scraper.BagGrowsByValidDiscoveredRecords | MediaSkraper/Scraper/NetflixScraper.cs:166-184 | end to end, the bag only grows, by valid records of discovered ids, and the success counter equals the number added |

## Left out

Threads, I/O and outside code:
- Threads and locks. The worker, the log's purge task and the console lock
  are not modelled as concurrency. The worker's steps (`WorkerInvoke`,
  `WorkerReturned`, `WorkerThrew`) are methods called in the order the
  runtime would run them.
- `ConcurrentQueue` and `ConcurrentBag` are sequences. The media bag keeps
  insertion order, though the source bag is unordered.
- Selenium and the browser. Every read and click is an input: its value, or
  the exception it raises.
- Browser actions with no effect on the modelled state are not modelled:
  `NavigateSafely`, `ScrollToElement`, `ScrollInPage`, `ScrollToTop`,
  `CheckLogin`, `SkipProfileSelection`, `Driver.Sleep` and `DisposeOrKill`.
- Clocks, process names and file paths are string parameters.
  `Console.ReadLine` is not modelled.
- `Log.Stop` and the purge task's loop with its sleep are not modelled.
  Neither are `WaitTermination`, `SleepOrExit`, `TaskOwner` (stack
  inspection; `Log.Start` takes the owner's name as a parameter) or the `StatusChanged` subscribers. These are timing and
  reflection. Status changes and log lines appear as entries of the task's
  `events`.
- The progress entries the scraper writes to the log are not modelled. This
  includes the SUCCEEDED and FAILED lines of `IsMediaValid`. Only their
  effect on the scraper's own state is modelled, and they have none.
- `ScraperTask_ExceptionRaised` is outside the core. It logs and disposes of
  the driver.

Faults during discovery:
- Only a failed id read is a discovery fault. A WebDriverException raised
  while listing a row's cards, measuring a card (`IsEntirelyDisplayed`
  rethrows without a handler), looking up the scroll handles or clicking the
  arrow would also escape `FetchRow`. A pass's input records only the cards
  found entirely displayed and whether the handles are found.
- `Discovery.FetchRow`: the do-while loop is run over a finite list of
  passes. Running out of passes is reported as `OutOfPasses`, which the
  source would keep looping through.

Deliberate simplifications:
- `Scraper.NetflixScraper.Work`: each cancellation check is an independent
  input. Nothing forces a token that was seen cancelled to stay cancelled.
- `DriverActions.SafeCapsule`: it routes an intercepted fault with the
  corrected `DriverActions.RouteIntended`. The routing as written, with its
  null dereference, is `DriverActions.Route` (see Findings). The scraper
  never sets the driver's generic handler, and there the two agree
  (`DriverActions.RoutesAgreeWithoutGeneric`).
- `Duration.ParseDuration`: it does not model `int.Parse` overflow, nor
  32-bit wrap-around of `hours * 60 + minutes`. Numbers are unbounded.
- `MediaScrape.Scrape`: `ToLowerInvariant` is modelled as ASCII
  lower-casing.
- `Logging.ColorNamed`: `Enum.TryParse` also accepts numeric values,
  comma-separated lists and surrounding blanks. Only colour names are
  modelled.
- `Logging.Log.Start`: the source appends the colour pattern again on every
  call, so a second `Start` would change the pattern. The model uses the
  pattern built by the first call.
- `Logging.Log.Start`: the purge task's worker is not run inside `Start`.
  The source starts it (`task.Start()`, Log.cs:43) before the status setter
  queues "started", so it may already be draining the queue. The model gives
  the queue as it is when no purge has run yet.
- `Logging.Log.Print`: the branch without a console is modelled as a DEBUG
  build runs it. `Debug.WriteLine` is compiled out of a Release build, and
  its `CreateString` argument with it. There `Print` without a console
  writes nothing and never raises.
- `Logging.WriteBeforeStartThrows`: holds for a DEBUG build only, for the
  reason above. In a Release build the write prints nothing and raises
  nothing.
- `Logging.Log.PurgeQueue`: only a failure to open the file is modelled. A
  write that fails partway, after some entries were dequeued, is not. The
  purge is modelled only on a log whose colour pattern is built, since only
  the worker that `Start` creates runs it.
- `LogEntries.ToString`: the exception's text is given as a string. A null
  exception object, whose `ToString` would raise, is not modelled.

## Findings

| source | as written | input that shows it | evidently intended | confidence | as-written member | corrected member |
|---|---|---|---|---|---|---|
| Utilities/Utilities/Driver/DriverActions.cs:33 | the third test calls `IsEmptyEventHandler` on the call-site handler, not on the driver's generic `ExceptionRaised` | a WebDriverException with no call-site handler and a generic handler set: `IsEmptyEventHandler(null)` dereferences null inside the catch block and a NullReferenceException escapes; with an empty call-site handler the fault is swallowed; the generic handler is never invoked | `ExceptionRaised != null && !IsEmptyEventHandler(ExceptionRaised)` | not executed; high (the branch is dead as written) | DriverActions.Route, DriverActions.GenericHandlerUnreachable | DriverActions.RouteIntended |
