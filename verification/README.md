# Verified models of the web server library

A Dafny model of a small C web server library and of the process service built on it, with proofs of what
its parts promise. Three areas are covered, each in the form its code has.

**Threads.** `ThreadPool` is a transition system with one step for each lock, unlock, wait, wake-up, shared
read, shared write and compare-and-swap of `worker_thread`, `job_dequeue`, `job_enqueue`,
`threadpool_add_job`, `threadpool_destroy` and the buffer claim of `handle_http_request`. Any number of adds
run beside the workers; signals wake any sleeper, and sleepers may wake spuriously. `ThreadPoolInvariants`
holds the inductive invariant, `ThreadPoolTheorems` what follows for every run, and `ThreadPoolWalks` what one
thread achieves when the others stand still. `Slots` is the first-fit claiming scan by itself, for any number of
claimants. `JobQueue` is the linked queue as a class of linked nodes. `Processes` is the process table with concurrent build, stop and output requests, one step for each
exchange, check, kill or read, assertion, wait and store; `ProcessProofs` says what keeps it in order and
`ProcessRuns` what requests do to running builds.

**Parsers and printers.** For JSON, headers, queries and requests there is a specification on strings
(`JsonSpec`, `HeaderSpec`, `Query`, `RequestSpec`), the theorems about it (`JsonProofs`, `HeaderProofs`,
`Query`, `RequestProofs`), and methods with the loops, buffers and tables of the code, each proved to
compute the specification (`Json`, `Headers`, `Query`, `Request`). Every round trip is an
if-and-only-if: it names exactly the values that survive being printed and parsed. `Handler` puts the read
buffer, request parsing and route lookup together.

**Tables and vectors.** `Tables` is the doubling array; `Routes`, `HeaderTable` and `JsonTable` use it.
`Arguments` is the counting and in-place cutting of option strings over `Splitting`.

A C string is a `CString`, a string without NUL. Where the code would leave its string (it uses a NULL from
`find_non_space`, walks past the terminator, or copies a negative number of characters) the
specification has a separate outcome, `Undefined`, so that no such input is excluded. `HeaderLines` says
for which header lines that is so, `JsonSpacing` what white-space between JSON tokens does, `JsonEscapes` how each
character is printed and read, and `JsonTexts` which texts are not accepted.

What the proofs show that the code does not say:

- A scan for a free slot succeeds in every interleaving exactly when there are at least as many slots as claimants.
- A printed JSON string is read back exactly when it does not end in a backslash, because the scan takes a quote
  behind any backslash for an inner one; and no text decodes to a string that does.
- A number whose text is empty survives printing and parsing; true, false, null and nested values come back as
  numbers, so only numbers and strings survive.
- The size computed by `json_object_stringify` is exact if and only if the object has a member.
- A quoted header key is recovered unless it contains a quote that white-space and a colon follow.
- A request is recovered from its text only if it has a header; the body may be anything.
- A lookup in the route table is ambiguous exactly when two stored paths of a method are q and q//.
- `find_header` finds a key only in the spelling in which it was first inserted, although insertion ignores case.
- White-space in front of a header line, however little, loses its value.
- A header line without a value, or with a lone quote for one, sends the parser out of its line.
- The read buffer is reused and never terminated, so a request's body is exact if and only if the buffer held a NUL
  behind it; otherwise the tail of an earlier, longer request follows.
- The process table stays consistent exactly as long as no entry is used without a process id, and none is freed
  that a build has claimed after the freeing request had waited; then two unreaped builds come to share an
  index. Using an index from one request at a time, and only after its build has returned, prevents both.

Where the comments in the code say something else, the model follows the code. `is_non_space` is true for
white-space (`src/utility.h:27-39`). A parsed request with nothing behind the empty line has an empty body, not
NULL (`src/http.h:490`). A query piece without '=' has a key and no value, not neither (`src/http.c:406-424`).
`parse_json` accepts text that ends behind the opening brace or a comma (`src/json.c:216`).

## Model

| member | source | states |
|---|---|---|
| Slots.OwnedAlways | src/runner.c:107-120 | in every interleaving of any number of claimants a slot is marked exactly when someone holds it, no two hold the same one, and marked slots number claims minus releases |
| Slots.CrowdingAlways | src/runner.c:107-120 | with no more claimants than slots, for every k at most slots - k claimants scan or hold at k or beyond |
| Slots.CrowdingMeansFound | src/runner.c:116-120 | under that count nobody's scan has come up empty |
| Slots.ScansSucceedExactlyWhen | src/runner.c:107-120 | every scan of every interleaving finds a slot if and only if there are at least as many slots as claimants |
| Slots.ClaimFirstFree | src/runner.c:107-114 | the loop by itself marks the first free slot and no other, or finds none |
| Slots.WalkClaimsFirstFree | src/runner.c:107-114 | the machine's steps of one undisturbed claimant do what the loop does |
| Slots.WalkGivesBack | src/runner.c:107-222 | undisturbed, a claimant gives the slot back and everything is as it was, but for one claim and one release; without a slot it ends idle |
| ThreadPoolInvariants.StepInv | src/threadpool.c:13-77 | every step of every thread keeps the whole invariant: lock ownership, list shape at each half-finished write, where each job is, stop flag, slots |
| ThreadPoolInvariants.BehaviorInv | src/threadpool.c:80-146 | every state of every run satisfies it |
| ThreadPoolTheorems.HandlersAlwaysGetABuffer | src/runner.c:107-120 | in every run of the pool no handler is left without a buffer and no two handlers hold the same one |
| ThreadPoolTheorems.DequeueNeverWaits | src/threadpool.c:30-62 | a thread in job_dequeue finds the queue non-empty though it read front without the queue lock, so it never sleeps there holding the pool lock |
| ThreadPoolTheorems.NoWaitCycle | src/threadpool.c:30-77 | no cycle of threads waiting for each other's locks is reachable |
| ThreadPoolTheorems.QueueIsFifo | src/threadpool.c:13-48 | jobs enqueued, in order, are the jobs taken, in order, followed by the linked list; whenever the queue lock is free, job_count nodes from front lead to rear and NULL |
| ThreadPoolTheorems.RunAtMostOnce | src/threadpool.c:62-69 | no job runs twice or runs and is discarded; a taken job not yet run or discarded is in the hands of exactly one thread |
| ThreadPoolTheorems.NoJobTakenAfterStop | src/threadpool.c:55-62 | once stop is set it stays set, and only the final drain takes jobs |
| ThreadPoolTheorems.NobodySleepsAfterBroadcast | src/threadpool.c:123-131 | after the broadcast no worker is or becomes asleep on either condition |
| ThreadPoolTheorems.ShutdownAccountsForEveryJob | src/threadpool.c:123-138 | when destroy returns, with no add beside it, all workers have exited, the queue is empty and every job was either run once or discarded once |
| ThreadPoolTheorems.ShutdownStepFalls | src/threadpool.c:123-138 | after the broadcast every step of an orderly shutdown decreases a rank |
| ThreadPoolTheorems.ShutdownCanStep | src/threadpool.c:123-138 | until destroy has returned some thread can move |
| ThreadPoolTheorems.ShutdownCompletes | src/threadpool.c:123-138 | so shutdown takes boundedly many steps under every scheduler and cannot get stuck before destroy returns |
| ThreadPoolWalks.WorkerTakesNextJob | src/threadpool.c:51-77 | at any moment of any run with free locks, no stop and a job in the queue: a worker at the top of its loop, or woken, that moves by itself takes exactly the first job, runs it, gives its buffer back and is at the top again, and it can move so far |
| ThreadPoolWalks.WorkerRunsNextJob | src/threadpool.c:51-77 | what the memory is after it: job unlinked, taken and run once, count and flag written, a buffer claimed and released, locks free |
| ThreadPoolWalks.WorkerWithoutJob | src/threadpool.c:54-61 | a worker that finds no job sleeps, one that finds the pool stopping leaves, and both leave the memory as it was |
| ThreadPoolWalks.AddLinks | src/threadpool.c:102-116 | an undisturbed add links its job in as the last one, or sleeps when the pool looks full |
| ThreadPoolWalks.AddWakesSleeper | src/threadpool.c:102-116 | eleven steps of an undisturbed add: the job is last in the list, nothing else in memory changed, and one sleeper was woken if there was any |
| ThreadPoolWalks.AddedJobIsRun | src/threadpool.c:51-116 | a job added to an idle pool wakes a sleeping worker, which takes and runs exactly this job |
| ThreadPoolWalks.FinishedWorkerWakesSleeper | src/threadpool.c:71-74 | a worker that has run its job clears the flag, wakes one sleeper if there is any, and is at the top of its loop |
| ThreadPoolWalks.LooksFullExactlyWhen | src/threadpool.c:109 | only a pool of one thread ever looks full, while its flag is set, and one of none while it is not |
| ThreadPoolWalks.BroadcastWakesAll | src/threadpool.c:126 | after the broadcast nobody at all sleeps on the condition |
| JobQueue.Queue.Enqueue | src/threadpool.c:13-28 | appends the node to the linked list, keeping front, rear, every next pointer and job_count |
| JobQueue.Queue.Dequeue | src/threadpool.c:30-48 | unlinks the first node and leaves the rest of the list, rear cleared when it was the last; null, with nothing changed, exactly where the code would wait |
| JobQueue.Queue.Drain | src/threadpool.c:135-138 | frees every node of the list once, in order, and leaves the queue empty |
| CStrings.FindNonSpace | src/utility.c:6-12 | the first character that is not white-space, NULL exactly when there is none |
| CStrings.WhiteSpaceIs | src/utility.h:37-39 | white-space is exactly the characters 9 to 13 and the blank |
| JsonProofs.TokenMeaning | src/json.c:43-130 | a read token ends one past the first quote behind the opening one that no backslash precedes, its text is at most stat - 2 long and never ends in a backslash |
| JsonProofs.UnescapeEscape | src/json.c:65-122 | decoding undoes escaping, whatever follows |
| JsonProofs.StringRoundTrip | src/json.c:43-130 | a printed string is read back if and only if it does not end in a backslash |
| JsonEscapes.PrintedCharacters | src/json.c:338-351 | the printed text of each of the eight escaped characters, and that every other character is printed as it is |
| JsonEscapes.EscapeAppend | src/json.c:398-436 | a text is printed piece by piece |
| JsonEscapes.PrintedIsSafe | src/json.c:398-436 | a printed string holds no backspace, tab, line feed, form feed or carriage return, and a slash or quote only behind a backslash |
| JsonEscapes.ReadEscapes | src/json.c:66-83 | what each of the eight two-character texts stands for, in front of anything |
| JsonEscapes.BadEscapes | src/json.c:112-116 | any other character behind a backslash is an error |
| JsonEscapes.FourDigitEscapes | src/json.c:84-111 | four hexadecimal digits behind a backslash and u give a blank; any other character among the four, or fewer, is an error |
| JsonEscapes.HexDigits | src/json.c:11-29 | the hexadecimal digits are 0-9, a-f and A-F |
| JsonEscapes.ReadAsItIs | src/json.c:120-121 | every character but a backslash stands for itself |
| JsonProofs.ParsedIsReadable | src/json.c:132-203 | every parsed element is readable: no key or string ends in a backslash; other values are numbers without separator, outer white-space or leading quote |
| JsonProofs.ElementReadsBack | src/json.c:132-203 | a readable member in front of a comma or brace is read back, and the parser stands behind it |
| JsonProofs.ObjectRoundTrip | src/json.c:205-277 | parsing the text of an object gives exactly its member sequence if and only if every member is readable |
| JsonProofs.NormalForm | src/json.c:205-277 | whatever text was accepted, printing its members and parsing again gives the same members, order, duplicates and types |
| JsonSpacing.WhiteSpaceIsFree | src/json.c:142-269 | with any white-space between the tokens, and any text behind the closing brace, an object, the empty one included, parses to its members if and only if they are readable and no number without text has white-space around it |
| JsonTexts.PrintedText | src/json.c:391-494 | the printed object is the members in braces with one comma and nothing else between them, each its key in quotes, a colon, and its value, in quotes only for strings |
| JsonTexts.OtherKindsBecomeNumbers | src/json.c:168-183 | truth values, null and nested values come back with their text as numbers: what is read is the object so retyped, if and only if that is readable |
| JsonTexts.LeadingMembers | src/json.c:215-270 | behind readable members and their commas the parser is where it was in front of them |
| JsonTexts.MemberExpected | src/json.c:216-234 | where a member is expected, the end of the text or a brace ends the object; white-space and then the end, anything but a quote, and a string that does not end are rejected |
| JsonTexts.ColonExpected | src/json.c:154-159 | a key without a colon behind it is rejected |
| JsonTexts.ValueExpected | src/json.c:161-188 | a colon with only white-space behind it sends the parser out of the text; a value string that does not end is rejected |
| JsonTexts.SeparatorExpected | src/json.c:257-267 | anything but a comma or brace behind a string value is rejected, and the end of the text sends the parser out of it |
| JsonTexts.NoMemberAtAll | src/json.c:143-146 | the member parser leaves a text of white-space only |
| JsonTexts.OneBadMemberSpoilsAll | src/json.c:205-277 | a bad member anywhere behind readable ones, or a missing opening brace, spoils the whole text; one that ends behind the opening brace or a comma is accepted |
| Json.ReadEscape | src/json.c:66-117 | an accepted escape ends before the closing quote, the four digits included |
| Json.DecodeInto | src/json.c:61-124 | every store fits the buffer and leaves room for the terminator; the buffer holds the decoded text |
| Json.ParseStringToken | src/json.c:43-130 | terminates on every text and computes the token specification |
| Json.ParseJsonElement | src/json.c:132-203 | computes the member specification, with the offset behind the member |
| Json.ParseJsonObject | src/json.c:205-277 | computes the object specification; the table, grown by doubling, holds the members |
| Json.CountObject | src/json.c:332-385 | the count pass computes the printed length if and only if there is a member; for none it is one short |
| Json.FillEscaped | src/json.c:398-436 | writes the escaped text behind what was written before, inside the buffer |
| Json.JsonObjectStringify | src/json.c:328-498 | with a member, the fill pass writes exactly the counted bytes and the terminator, and they are the printed object; without one the terminator falls behind the buffer, for which null stands |
| JsonTable.FirstInsertionWins | src/json.c:279-326 | after any insertions a lookup finds the member given first under a key; keys are distinct |
| JsonTable.AllAcceptedExactlyWhen | src/json.c:279-284 | no insertion is refused if and only if the keys are distinct |
| JsonTable.LookupSurvivesPrinting | src/json.c:279-498 | building, printing and parsing an object keeps the answer of every lookup |
| JsonTable.InsertJsonElement | src/json.c:279-318 | refuses exactly the keys that are present, otherwise appends |
| JsonTable.FindJsonElement | src/json.c:320-326 | the first member with the key |
| HeaderProofs.HeaderRoundTrip | src/http.c:157-297 | a printed header line is read back if and only if key and value are non-empty, free of line breaks, outer white-space and a leading quote, and the key of colons |
| HeaderProofs.HeadersRoundTrip | src/http.c:299-346 | a printed header list is read back, in order and with duplicates, if and only if each header is such |
| HeaderProofs.QuotedValueRoundTrip | src/http.c:255-285 | a value written in quotes, inner quotes, colons and outer blanks included, is recovered if and only if it has no line break |
| HeaderProofs.QuotedKeyRoundTrip | src/http.c:195-225 | a key written in quotes, then white-space and a colon, is recovered if and only if it holds no quote that white-space and a colon follow |
| HeaderProofs.NoKeyRejected | src/http.c:178-214 | a line without a colon, or with an opening quote and no colon behind a closing one, is rejected together with its list |
| HeaderLines.LineMeans | src/http.c:157-297 | what any line of a plain key, a colon and any value gives: undefined, rejected for an unclosed quote, or the value without outer white-space and quotes |
| HeaderLines.LineDefinedExactlyWhen | src/http.c:231-285 | the parser stays in such a line if and only if the value is not all white-space and not a lone quote among white-space |
| HeaderLines.QuotedLineMeans | src/http.c:195-285 | any value behind a key in quotes means what it means behind a plain key, unless the key is taken to end early |
| HeaderLines.IndentedRoundTrip | src/http.c:168-234 | white-space in front of a printed clean header shifts the search for the value into the key: the line is read back if and only if there is none |
| HeaderLines.BlankLineIsUndefined | src/http.c:168-171 | a line of white-space only is no empty line: the parser leaves it in every case |
| HeaderLines.EmptyKeyIsUndefined | src/http.c:185-188 | a line that starts with its colon is trimmed back beyond its start |
| HeaderLines.LoneOpeningQuoteIsUndefined | src/http.c:199-214 | a line that holds only an opening quote sends the scan behind its end, and off a text without a colon |
| HeaderLines.EndsOfLists | src/http.c:310-319 | a text without a line end is no list unless empty; an empty line ends the list |
| HeaderLines.LinesMean | src/http.c:299-346 | a list of such lines gives their meanings up to the first line that is not good |
| HeaderLines.ListUndefinedExactlyWhen | src/http.c:299-346 | a list is undefined if and only if its first line that is not good is |
| Headers.FindPlainKeyEnd | src/http.c:178-181 | stops at the first colon, at the end of the line, or not inside the text |
| Headers.FindQuotedKeyEnd | src/http.c:199-214 | stops at the first colon whose last character before it, white-space aside, is a quote |
| Headers.ParseHttpHeader | src/http.c:157-297 | computes the header line specification |
| Headers.ParseHttpHeaders | src/http.c:299-346 | computes the header list specification through any number of doublings |
| Headers.HttpHeadersStringify | src/http.c:348-390 | NULL for no headers; else a buffer exactly one byte larger than the printed headers, holding them |
| Query.StrTok | src/http.c:404-405 | strtok_r yields the non-empty pieces between separators, one by one |
| Query.ParseHttpQueryParameter | src/http.c:392-429 | key and value are the first two non-empty fields between '=' |
| Query.PairIsFirstTwoFields | src/http.c:404-424 | a piece gives its first two fields, however many '=' stand around them and whatever comes behind the next '=' |
| Query.OneFieldIsNoPair | src/http.c:448-452 | a piece with less than two fields gives nothing |
| Query.InsertQueryParameter | src/http.c:433-469 | appends exactly when there is room for one of ten and the piece has two fields |
| Query.ParseQueryParameters | src/http.c:473-498 | one pair for each non-empty piece, in order, if there are at most ten and each has two fields; otherwise nothing |
| Query.PiecesMean | src/http.c:473-498 | of any pieces joined by ampersands the empty ones are skipped; more than ten others, or one without two fields, and nothing is read; otherwise one pair for each, in order |
| Query.OnlyExpressible | src/http.c:392-498 | parsed keys and values are non-empty and free of both separators, and at most ten |
| Query.QueryRoundTrip | src/http.c:473-498 | printing parameters and parsing them is the identity if and only if they are at most ten and such |
| RequestProofs.MethodRoundTrip | src/http.c:617-633 | a method is recovered from its text, and a known one only from that |
| RequestProofs.VersionRoundTrip | src/http.c:635-649 | the same for versions |
| RequestProofs.KnownTexts | src/http.c:617-649 | the texts of the five methods and four versions |
| RequestProofs.NoBlankInLines | src/http.c:775-780 | in header lines of any values and any body the empty line found first is the one behind the lines |
| RequestProofs.NoBlankInHeaders | src/http.c:775-780 | the same for printed clean headers |
| RequestProofs.ParsedLineIsSendable | src/http.c:725-769 | every parsed request line has a path and parameters free of blanks and line breaks, no '?' behind the path's first character, and at most ten parameters; an empty path with parameters apart |
| RequestProofs.RequestRoundTrip | src/http.c:715-822 | a request text is parsed to exactly its method, path, query, version, headers and body if and only if the request line is sendable and there are headers and all are clean; the body is arbitrary |
| RequestProofs.NoHeadersRejected | src/http.c:774-780 | without header lines a request is turned away if and only if its body does not bring the empty line |
| RequestProofs.NoRequestExactlyWhen | src/http.c:725-780 | a text is no request if and only if it has no line break, or fewer than two blanks in its first line, or no empty line behind that line's own break |
| RequestProofs.EmptyPathTakesQueryFromVersion | src/http.c:756-766 | two blanks in a row are an empty path, and a query is then taken from behind a question mark in the version |
| RequestProofs.RequestOfLines | src/http.c:715-822 | a sendable request line with header lines of any values gives what the lines mean, and is undefined if and only if the first line that is not good has no value or a lone quote for one |
| Request.CutTarget | src/http.c:756-766 | cuts path and query at the question mark in the buffer |
| Request.ParseHttpRequest | src/http.c:715-822 | computes the request specification by writing NULs into a copy of the text |
| Routes.UrlPathCmp | src/utility.h:57-73 | zero if and only if the paths are equal or differ by one '/' at the end; otherwise the order at the first difference, for signed and for unsigned characters |
| Routes.InsertAllIsDistinct | src/http.c:26-64 | after any insertions paths start with '/' and no two routes of a method have the same path |
| Routes.AllAcceptedExactlyWhen | src/http.c:32-35 | nothing is turned away if and only if the routes are distinct in that sense |
| Routes.TableOnlyGrows | src/http.c:26-64 | insertions only ever add behind the routes that are there |
| Routes.FirstRouteKeepsPath | src/http.c:26-64 | after any insertions every given path that starts with '/' is served, by the first route given for it |
| Routes.UnambiguousExactlyWhen | src/http.c:18-64 | after any insertions every request matches at most one route if and only if no two paths of a method differ by "//" at the end |
| Routes.NoDoubleSlashNeeded | src/http.c:18-64 | insertions of paths not ending in "//" always leave such a table |
| Routes.OrderDoesNotMatter | src/http.c:18-24 | the same routes in another order dispatch every request alike |
| Routes.FindRoute | src/http.c:18-24 | the first matching route |
| Routes.InsertRoute | src/http.c:26-64 | refuses exactly paths not starting with '/' and routes that match a stored one, leaving the table as it was; otherwise appends |
| Routes.InitRoutes | src/http.c:66-80 | the empty table, with room for eight |
| Routes.Register | src/http.c:26-80 | any sequence of insertions into the initial table leaves the table of that history |
| Handler.Read | src/runner.c:124 | the bytes read replace the start of the buffer and leave the rest as it was |
| Handler.HandleHttpRequest | src/runner.c:122-177 | answers 500 for nothing read or what does not parse, 204 for OPTIONS, otherwise calls the first matching route or falls back to the static files; undefined when the buffer holds no NUL |
| Handler.OptionsAnswered204 | src/runner.c:153-156 | a sendable request for the options gets 204 whatever the routes |
| Handler.Only204ForOptions | src/runner.c:153-156 | and no other request does |
| Handler.Answers500ExactlyWhen | src/runner.c:137-151 | 500 is answered if and only if nothing was read or the text in the buffer is no request |
| Handler.TextAfterRead | src/runner.c:124-146 | the parsed text is what was read, then what the buffer held behind it up to a NUL |
| Handler.SecondRequestSeesFirst | src/runner.c:107-146 | behind the shorter of two texts in a buffer stands the tail of the earlier one |
| Handler.RequestReachesItsRoute | src/runner.c:122-177 | a sendable request is handed to the one inserted route for its method and path, or to the static files if and only if there is none, with exactly its line and headers, and its body followed by what the buffer held behind the bytes read |
| Handler.BodyIsExactExactlyWhen | src/runner.c:122-146 | the route gets exactly the parts sent if and only if the buffer held a NUL behind the bytes read |
| Handler.ReuseAddsTail | src/runner.c:107-146 | after a longer request in the same buffer the route gets the tail of that one behind the body |
| HeaderTable.TableIsAMap | src/http.c:82-130 | after any insertions the keys are the first spellings in order of first insertion, pairwise different ignoring case, each with the value given last |
| HeaderTable.SpellingsCover | src/http.c:82-130 | a key is present, ignoring case, exactly when it was inserted |
| HeaderTable.LookupNeedsFirstSpelling | src/http.c:10-16 | a lookup finds the last value of a key if and only if it spells the key as the first insertion did |
| HeaderTable.EqualIgnoringCase | src/http.c:85 | equality of keys, ASCII letter case aside |
| HeaderTable.LastValueIs | src/http.c:84-95 | the value a key has in the table is that of the last insertion under any spelling of it |
| HeaderTable.SpellingsOnlyGrow | src/http.c:82-118 | a later insertion neither removes nor moves a key that was there |
| HeaderTable.SameKeyMeans | src/http.c:85 | keys are the same if and only if their characters are, up to the case of ASCII letters |
| HeaderTable.InsertHeader | src/http.c:82-130 | updates the value of the one header with the key in place, or appends, never beyond the capacity |
| HeaderTable.FindHeader | src/http.c:10-16 | the first header with exactly this key |
| Tables.Table.Push | src/http.c:37-44 | appends within the capacity, which doubles when full; the contents survive the move |
| Splitting.SplitIsInverseOfJoin | gdbc/src/service.c:124-154 | the pieces of a text are the only separator-free strings that join to it |
| Arguments.CountArguments | gdbc/src/service.c:124-133 | the counting pass counts the arguments of the option string |
| Arguments.CutArguments | gdbc/src/service.c:145-153 | the cutting pass sets exactly the counted entries, and each denotes its argument after all cuts |
| Arguments.CompileArgs | gdbc/src/service.c:124-154 | the fixed arguments, the entries the flag leaves unset, the pieces of the option string, each denoting its string after all cuts, and the terminator, in bounds; no entry is unset if and only if the flag is 0 or 1 |
| Arguments.CommandLineArgs | gdbc/src/service.c:212-239 | the same for the built program, with or without the debugger |
| Arguments.NoHoleExactlyWhen | gdbc/src/service.c:136-154 | no entry before the terminator is unset if and only if the flag is 0 or 1; then the entries are all the arguments in order |
| Arguments.PiecesJoin | gdbc/src/service.c:145-153 | the user's arguments are the only blank-free strings that single blanks join to the option string |
| Arguments.NoPieces | gdbc/src/service.c:125 | NULL and the empty string give no argument |
| ProcessProofs.StepIsProperExactlyWhen | gdbc/src/service.c:74-120 | a step keeps the table tidy if and only if it uses no entry without a process id and frees no entry of a build whose process nobody has waited for |
| ProcessProofs.TidyExactlyWhen | gdbc/src/service.c:74-120 | in every interleaving, for as long as and only as long as all steps are such: unreaped builds have different indices, all running; other running entries are about to be freed by the request that waited; unreaped builds number claims minus reaps |
| ProcessProofs.AcceptedExactlyWhen | gdbc/src/service.c:40-47 | check_pidx accepts the indices of unreaped builds and else only one about to be freed; when none is, running entries number claims minus reaps |
| ProcessProofs.CarefulIsProper | gdbc/src/service.c:304-314 | if an index is used by one request at a time, and only after its build has returned, every step is proper, the table tidy, no assertion fails, and every wait is for a process nobody has waited for |
| ProcessRuns.CleanUpHasCause | gdbc/src/service.c:304-348 | a request that cleans an entry up has, since it checked the index, killed the process or seen the end of its output |
| ProcessRuns.BuildStays | gdbc/src/service.c:304-363 | in every run of proper steps a build in its entry stays unreaped, its index accepted, until a kill of it succeeds or its output ends |
| ProcessRuns.ReturnedBuildStays | gdbc/src/service.c:268-363 | so does every build that has returned, when an index is used by one request at a time |
| ProcessRuns.UseWithoutEnd | gdbc/src/service.c:335-363 | reading output that has not ended, and a failed kill, change nothing |
| ProcessRuns.RefusedChangesNothing | gdbc/src/service.c:40-47 | nor does a refused index |
| ProcessRuns.CleanUpFreesEntry | gdbc/src/service.c:74-94 | an undisturbed clean-up waits for exactly the entry's process and frees exactly that entry |
| ProcessRuns.AssertionFailsExactlyWhen | gdbc/src/service.c:75 | the server is aborted exactly when the entry to clean up is not running |
| ProcessRuns.BuildTakesFirstFree | gdbc/src/service.c:110-172 | an undisturbed build takes the first free entry, which then runs and names its process |
| ProcessProofs.StaleStoreLeadsToSharing | gdbc/src/service.c:78-92 | after a store that frees the entry of a build claimed since the wait, the next build shares that entry |
| ProcessProofs.ImproperStoreIsReachable | gdbc/src/service.c:304-314 | three requests reach such a store by proper steps alone |
| ProcessProofs.SharingHappens | gdbc/src/service.c:74-120 | a run of three requests ends with two builds, whose processes nobody has waited for, in one entry |
| ProcessProofs.NoBuildTurnedAway | gdbc/src/service.c:110-120 | while at most 4096 builds run or try, no build runs out of entries to try, though entries are freed and retaken behind it |
| ProcessProofs.ScanAloneClaims | gdbc/src/service.c:110-115 | the machine's steps of one undisturbed build claim the first free entry |
| ProcessProofs.StopProcess | gdbc/src/service.c:304-314 | frees the entry exactly when the index is accepted and kill succeeds, and changes nothing else |

## Left out

- Sockets, file reads, pipes, fork, exec, signals, waitpid and the partial-write loop; events of the environment are free choices of the machines.
- Prompt pick-up of queued jobs: the add signals without holding the pool lock, so a signal can be lost between a worker's check and its wait. What is proved beside safety and the end of shutdown is that a worker, or an add, reaches its end when the others stand still.
- Back-pressure: `active_threads` is an atomic bool, which `++` sets and `--` toggles. The model does that, and nothing is claimed of how many threads run.
- Adds that run beside or after `threadpool_destroy`, which frees the pool under them: `ShutdownAccountsForEveryJob` and `ShutdownCompletes` are about runs without them.
- Read failures in `handle_http_request`, which free a shared buffer; a request that arrives in several pieces, or is longer than the buffer, is the bytes of the first read.
- Handler.HandleHttpRequest: ends where the route's function or the static file lookup is called; the answer 500 for a function that returns NULL is not modelled.
- ThreadPoolTheorems.ShutdownCompletes: every job function is taken to return, a handler being its boundedly many slot steps; one that never returns would keep shutdown waiting.
- Reads behind the terminator when a four-digit escape is cut short; they count as characters that are no digits.
- Failing malloc, leaks, double frees, the destruct functions, debug logging, status texts and the printing of responses.
- Overflow of int offsets and sizes; lengths are unbounded.
- Tables store their entries by value; that a pointer from a lookup sees later changes is not captured.
- The path clean-up for entry 0 and entries left running after a failed pipe or fork, in `build_and_run`.
- Streams and paths of a process entry: a second request that cleans up the same entry closes and frees them again; only the flag, the process id and the wait are modelled. Until its streams are open an entry counts as without a process id, and process ids are not reused.
- `src/collections.c` and `gdbc/src/main.c`: nothing that the other tables and parsers do not show.
- Arguments.CompileArgs: the flag is not negative; for a negative one the code overwrites its fixed arguments.
- Arguments.CommandLineArgs: the same.
- HeaderTable.InsertHeader: folds ASCII letters only; other locales are not modelled.
- Query.StrTok: the library function is modelled as the standard describes it, without its NUL writes.
