# soc-ai: a verified model of its timing, throttling and accounting core

soc-ai triages security alerts. Around its agents stands a set of small algorithms and state machines
that decide what an analyst sees, how often on-call is paged, how much a client may send, and what a
run is said to have cost. This project models those parts in Dafny and proves what they promise:

- **Waves** (`Waves`, `WaveLaws`, `WaveTransforms`): timed points are grouped into waves by a sort and
  one sweep. The waves are the connected components of the "at most a gap apart" graph. They ignore the
  input order exactly when the gap is at least zero, refine as the gap shrinks, and survive regrouping.
- **Event timeline** (`GapWords`, `Timeline`, `WaveHeadings`, `SectionLayout`, `PromptSection`): the printer
  on top of the waves. Every document id with a time is shown on exactly one row, in the waves or behind
  them by the focus, and every heading and gap line is true of the rows around it.
- **Dedup ring** (`DedupRing`): the bounded LRU of webhook keys against the plain history of touches.
- **Rate limiter** (`RateLimiter`): the per-address buckets against an exact count of requests,
  including what happens when the table is emptied.
- **Body cap** (`BodyCap`): the streaming size limit and the replay of a buffered body.
- **Lead queue** (`LeadQueue`, `SkipThrottle`): the refilled page query, the paged search over it, and
  the hourly throttle of the line about a skipped lead.
- **Certificate alarm** (`TlsExpiry`): one webhook per certificate and expiry band, over checks and restarts
  with any certificates.
- **Gateway retries** (`GatewayRetry`): one attempt counter for errors and statuses, responses closed
  before the next call, and a bound on the time slept.
- **Metrics** (`Meters`, `Exposition`, `MetricsPage`): two counters over one event stream agree, and a
  parser for the Prometheus text format 0.0.4 recovers the whole state from the printed page.

Conventions. Instants and gaps are whole microseconds, the resolution of the program's times; delays
are reals. What the program awaits or reads from outside (messages of a stream, rows of a table,
answers of the gateway, random draws, the clock, files) is a parameter. Code that updates objects or
runs loops is modelled by classes and loops whose contracts tie them to functions; the lemmas are about
those functions, over every run.

Four promises of the documentation do not hold as written. For each the model has a run that breaks it,
and says exactly when it is kept.

- The certificate alarm is said to fire once per band. A check hands a pair of certificate and band on
  exactly when it is the first since the start to find it, the switch is on, and the pair is not the last
  one noted (`TlsExpiry.FiresExactly`). So every pair found is handed on exactly once in a run if and only
  if some start first finds it with the switch on, and no later start finds it with its write failed or
  written over (`EveryBandOnce`). Over classes of runs this holds if and only if the file can be written,
  no run goes back to a certificate after another one fired, and the switch stays on
  (`PromiseHoldsExactly`; the runs `LostWriteRepeats`, `ReturnRepeats` and `LateSwitchIsSilent`).
- The dedup ring is said to send a key once an hour. It does in a history exactly when no two neighbouring
  touches of a key have 512 distinct keys between them (`DedupRing.NoneTwiceExactly`; the run
  `PushedOutIsRepeated`). Under that condition a restart lets at most one duplicate through.
- The limiter is said to give an address a fixed budget per minute. An address gets the sum of one budget
  for every stretch between two clears of the table (`RateLimiter.PassedByStretch`), and no more than its
  limit exactly when it asks for no more or no clear falls between two of its requests
  (`BudgetKeptExactly`; the run `ClearRefillsBudget`). At most 8192 addresses never cause a clear.
- The skip of a lead is said to be logged once an hour per lead. A run breaks this exactly when a lead it
  logged drops out of a wake and is skipped again within the hour (`SkipThrottle.RepeatsExactly`), which
  happens to a lead behind the page where a wake stops reading (`LoggedTwiceInTwoMinutes`).

## Model

| member | source | states |
|---|---|---|
| Waves.Point.EffectiveEnd | soc_ai/event_time.py:111 | the effective end is the later of start and end, and the start without an end |
| Text.StrLeExactly | soc_ai/event_time.py:110 | strings are ordered as in Python: a prefix, or less at the first differing character |
| Waves.SortInOrder | soc_ai/event_time.py:110 | the points are swept in order of start and then of key, keys in dictionary order |
| Waves.SortIsStable | soc_ai/event_time.py:110 | points with equal sort keys keep their input order |
| Waves.GroupWaves | soc_ai/event_time.py:98-124 | the waves are the sweep of the points in order of start and key, whatever the gap |
| Waves.SweepSorted | soc_ai/event_time.py:105-123 | the loop with its four running variables computes the sweep |
| WaveLaws.SweepSummarisesGroups | soc_ai/event_time.py:112-123 | every wave is the first start, largest end, count sum and key list of one run of sorted points |
| WaveLaws.WavesAreApart | soc_ai/event_time.py:115 | with a gap of at least zero, any two waves are more than the gap apart |
| WaveLaws.GroupBounds | soc_ai/event_time.py:113-121 | a wave starts at its smallest start and ends at its largest effective end |
| WaveLaws.WaveOfPoint | soc_ai/event_time.py:98-124 | with a gap of at least zero, every point lies inside exactly one wave, the one of its group |
| WaveLaws.WavesAreComponents | soc_ai/event_time.py:98-124 | with a gap of at least zero, two points share a wave exactly when a chain of links of at most the gap joins them |
| WaveTransforms.WavesConserve | soc_ai/event_time.py:98-124 | waves are numbered from 1, lose no count and no key, list keys in sorted order, and stand more than the gap apart |
| WaveTransforms.KeysInOrder | soc_ai/event_time.py:110-123 | the keys of all waves in turn are those of the points in order of start and key |
| WaveTransforms.WaveContents | soc_ai/event_time.py:116-123 | a wave states the minimum, maximum, count sum and keys of exactly the points inside it |
| WaveTransforms.TiesCommute | soc_ai/event_time.py:112-121 | points that tie on (start, key) may be swept in either order |
| WaveTransforms.OrderIndependentExactly | soc_ai/event_time.py:98-124 | the result ignores the input order for all inputs if and only if the gap is at least zero |
| WaveTransforms.LargerGapCoarsens | soc_ai/event_time.py:98-124 | every wave for a smaller gap lies inside one wave for a larger gap, and the number of waves does not grow |
| WaveTransforms.RegroupIsIdentity | soc_ai/event_time.py:98-124 | waves grouped again as points, in any order, give the same starts, ends and counts |
| GapWords.WordsReadBack | soc_ai/event_time.py:127-140 | the words give back a value within one unit below the span: a second, a minute or an hour by its size |
| GapWords.SameWordsExactly | soc_ai/event_time.py:127-140 | two spans have the same words if and only if they round down to the same value |
| GapWords.WordsSpelled | soc_ai/event_time.py:127-140 | the spelling of seconds, minutes, hours and days, by example |
| Timeline.DurationEnd | soc_ai/event_time.py:258-267 | an end is known exactly for a positive duration that stays within the calendar, and then lies that duration after the start |
| Timeline.TimedRows | soc_ai/event_time.py:307-325 | the loop yields the rows of first documents with a time, and counts the others |
| Timeline.RowsAndUntimed | soc_ai/event_time.py:307-325 | rows and untimed documents together are the distinct ids, and no two rows share an id |
| Timeline.RowForId | soc_ai/event_time.py:312-324 | a row is there exactly when the first document with its id has a time, and shows its id, its time, its fields, and its end by the duration |
| Timeline.FirstsCounted | soc_ai/event_time.py:307-325 | there are as many rows as first documents with a time, and as many untimed as without |
| Timeline.WaveLines | soc_ai/event_time.py:328-352 | per wave: the gap line, the heading with count and sources, then the rows |
| PromptSection.RowsByTimeAreRows | soc_ai/event_time.py:417 | sorting by (time, id) loses and invents no row |
| PromptSection.RowsByTimeSorted | soc_ai/event_time.py:417 | rows come in order of time, then id |
| PromptSection.WaveLinesShow | soc_ai/event_time.py:328-352 | the wave lines show exactly the given rows in time order, under headings that state their true row counts |
| WaveHeadings.SourcesListed | soc_ai/event_time.py:337-341 | the sources of a heading are the non-empty sources of its rows, each once, in the order they first appear |
| WaveHeadings.WaveLinesFit | soc_ai/event_time.py:328-352 | every heading prints the earliest start, the latest end and the sources of the rows below it, which follow each other within 30 minutes; a gap line stands before every heading but that of wave 1, names the next wave and the one before, and words the more than 30 minutes between them |
| WaveHeadings.GapReadsLong | soc_ai/event_time.py:334-336 | every gap line reads back to at least 1800 seconds |
| PromptSection.SectionShows | soc_ai/event_time.py:404-427 | the section shows the focus rows, then the other rows, each in time order |
| PromptSection.SectionLaidOut | soc_ai/event_time.py:381-427 | told from the lines and the ids: with focus ids a row stands under a wave heading before the title of the other documents exactly when its id is wanted, and behind the title otherwise; without, all stand under headings; both parts in order of time and id; the introduction, the note about the lead and the notes at the end fit the rows shown |
| PromptSection.EventTimeline | soc_ai/event_time.py:355-427 | nothing below two first documents with a time; else their rows, each once, laid out by focus, with true headings and gap lines, and rows plus untimed documents equal the distinct ids |
| PromptSection.EachTimedIdOnce | soc_ai/event_time.py:307-427 | no id has two row lines, and an id has one exactly when its first document has a time |
| DedupRing.DedupKeyIsInjective | soc_ai/notify.py:126-146 | the joined key tells apart kind, entity and hour, whatever colons the entity holds |
| DedupRing.EntityKeyExactly | soc_ai/notify.py:126-134 | the entity is the trimmed permalink, or the trimmed title where there is none |
| DedupRing.Ring.ShouldSend | soc_ai/notify.py:137-154 | the key is kind, entity and hour; a call returns False exactly when its key was touched before and fewer than 512 distinct keys came since; the ring is the 512 most recent keys |
| DedupRing.NoneTwiceExactly | soc_ai/notify.py:137-154 | no key is sent twice in a history exactly when no two neighbouring touches of a key have as many distinct keys between them as the ring has places |
| DedupRing.OneDuplicatePerRestart | soc_ai/notify.py:137-143 | under that condition a key is sent once in every process life that touches it, so a restart lets at most one duplicate through |
| DedupRing.PushedOutIsRepeated | soc_ai/notify.py:151-153 | a history of events of one hour in which an event is sent twice, for a ring of any size |
| DedupRing.RecencyPosition | soc_ai/notify.py:103-154 | the LRU stack property: behind a key stand exactly the distinct keys touched since |
| DedupRing.RecencyOrder | soc_ai/notify.py:149 | of two keys in the ring the one touched last stands later |
| DedupRing.RingHolds | soc_ai/notify.py:147-153 | a ring of any capacity holds a key exactly when fewer than that many other keys came since |
| DedupRing.RingNext | soc_ai/notify.py:147-154 | moving a held key to the end, or adding a key and dropping the oldest, keeps the most recent keys |
| RateLimiter.Limiter.Admit | soc_ai/main.py:2771-2811 | the exempt paths, the emptying above 8192 buckets, the opening and the counting of a bucket, and the answer; a refused address has used its budget; the table stays bounded |
| RateLimiter.TableIsBounded | soc_ai/main.py:2791-2793 | at most 8193 buckets on every run |
| RateLimiter.FirstRequestsPass | soc_ai/main.py:2794-2796 | none of the first `limit` requests of an address in a window is refused, on any run |
| RateLimiter.PassesExactly | soc_ai/main.py:2789-2796 | in time order a request passes exactly when it is among the first `limit` of its address and window since the table was last emptied |
| RateLimiter.PassedInWindow | soc_ai/main.py:2771-2811 | of n requests in a window at least min(n, limit) pass, at most one more budget per clear, exactly min(n, limit) without a clear |
| RateLimiter.ClearsExactly | soc_ai/main.py:2789-2793 | in time order, told from the requests alone: the table is emptied exactly by a request whose address is new to its window when more than 8192 addresses came since the last time |
| RateLimiter.PassedByStretch | soc_ai/main.py:2771-2811 | the exact total: the sum of min(requests, limit) over the stretches between clears |
| RateLimiter.BudgetKeptExactly | soc_ai/main.py:2771-2811 | exactly min(n, limit) pass if and only if n is at most the limit or no clear falls between two of the requests |
| RateLimiter.FewAddressesKeepBudget | soc_ai/main.py:2791-2793 | with at most 8192 addresses in all, every budget is kept |
| RateLimiter.ClearRefillsBudget | soc_ai/main.py:2791-2793 | runs that reach 8193 buckets, and that let limit + 1 requests through in one window |
| BodyCap.Buffer | soc_ai/main.py:2385-2400 | the loop decides as the stream says, joins the chunks, and never holds more than the limit |
| BodyCap.OutcomeExactly | soc_ai/main.py:2387-2410 | the application is called exactly when the body completes within the limit, 413 exactly when it exceeds it, nothing exactly when the client goes away first |
| BodyCap.OneDecision | soc_ai/main.py:2387-2399 | at most one message decides a stream |
| BodyCap.Handle | soc_ai/main.py:2336-2410 | by route and header: when 413 is answered, when nothing is read, when the stream is counted and against which limit, and that the application reads the client's body unchanged |
| BodyCap.Replay.Receive | soc_ai/main.py:2401-2408 | the buffered body is delivered once, then the stream goes on, with nothing lost or repeated |
| LeadQueue.LeadsAwaitingAHunt | soc_ai/hunting/lead_hunt.py:186-272 | told from the table: up to `limit` leads behind the cursor with fewer than two failed hunts, oldest first, none left out but behind a full page |
| LeadQueue.AfterTwice | soc_ai/hunting/lead_hunt.py:219-226 | paging on from the last row read continues directly behind it |
| LeadQueue.KeepAfter | soc_ai/hunting/lead_hunt.py:219-268 | the retry rule and the cursor may be applied in either order |
| LeadQueue.LeadsTheLoopMayHunt | soc_ai/main.py:1440-1467 | the two lists split a prefix of the queue in order; too few only at its end or after 20 pages; no page more than needed; the skipped leads a wake logs |
| SkipThrottle.Say | soc_ai/main.py:1470-1488 | the loop returns the kept times and the leads it logged, each once |
| SkipThrottle.MapIsLastLog | soc_ai/main.py:1478-1488 | the map has a lead skipped by the last wake with the time of its last log, and silence since |
| SkipThrottle.DomainIsLastWake | soc_ai/main.py:1478 | the map holds exactly the leads of the last wake |
| SkipThrottle.LogsExactly | soc_ai/main.py:1479-1487 | a wake logs a skipped lead exactly when it was not logged within the hour in the same unbroken run of skips |
| SkipThrottle.HourApart | soc_ai/main.py:1481 | two log lines of one unbroken run of skips are at least one hour apart |
| SkipThrottle.RepeatsExactly | soc_ai/main.py:1470-1488 | a lead is logged twice within an hour exactly when a wake between does not skip it and a later one does |
| SkipThrottle.LoggedTwiceInTwoMinutes | soc_ai/main.py:1457-1488 | a run of three wakes over the lead queue that logs a lead behind the first page twice in two minutes |
| TlsExpiry.DaysLeft | soc_ai/tls_status.py:84-90 | whole days rounded down, and -1 exactly when expired |
| TlsExpiry.ExpiryBand | soc_ai/tls_status.py:73-81 | the band is 0 once expired, else the smallest threshold at or above the days left |
| TlsExpiry.BandExactly | soc_ai/tls_status.py:73-90 | the band at a time: 0 after the end, else the least of 30, 14 and 7 within whose days the end lies |
| TlsExpiry.BandsMoveOn | soc_ai/tls_status.py:73-90 | as time passes the band only moves on: none, 30, 14, 7, expired |
| TlsExpiry.TlsAlarm.Check | soc_ai/main.py:1092-1141 | one check, told from the old state and the times: when the alarm goes, its band, days, subject, start and disk flag, the pair handed to `fire_safe`, and the file |
| TlsExpiry.TlsAlarm.Restart | soc_ai/main.py:1060-1098 | a restart loses the alarm, keeps the file, and serves the certificate it then loads |
| TlsExpiry.OncePerBand | soc_ai/main.py:1092-1141 | when the file can be written and no earlier certificate returns, at most one event per certificate and band and four per certificate |
| TlsExpiry.FoundExactly | soc_ai/main.py:1092-1119 | what a check of a run finds, told from the run: the band of the certificate of the last start, also once it has expired |
| TlsExpiry.FiresExactly | soc_ai/main.py:1092-1141 | told from the checks and restarts alone: a pair is handed to `fire_safe` exactly when a start first finds it with the switch on and it is not the last pair noted |
| TlsExpiry.HeardExactly | soc_ai/main.py:1118-1141 | at least once: a pair the file does not hold is handed on exactly when some start first finds it with the switch on |
| TlsExpiry.EveryBandOnce | soc_ai/main.py:1092-1141 | run by run, with any writes, certificates and switching, for a pair the file does not hold at the beginning: it is handed on exactly once when found, and never otherwise, if and only if it is heard when found and never forgotten; calls of `fire_safe` are counted, whose delivery may fail |
| TlsExpiry.NotAgainExactly | soc_ai/main.py:1060-1141 | a pair the file holds at the beginning is handed on again exactly when it is written over and a start then first finds it with the switch on |
| TlsExpiry.OnceInOneStart | soc_ai/main.py:1117-1129 | whatever the writes, the switch and the certificates do, one process hands a pair on at most once |
| TlsExpiry.OncePerStart | soc_ai/main.py:1081-1141 | so in all a pair is handed on at most as often as the process started |
| TlsExpiry.PromiseHoldsExactly | soc_ai/main.py:1060-1141 | of all runs of a class from a process start, every pair found is handed on exactly once if and only if the state file can be written, no run goes back to a certificate after another fired, and the switch stays on |
| TlsExpiry.NeverTwiceExactly | soc_ai/main.py:1060-1141 | of all runs of a class no pair is handed on twice if and only if the state file can be written and no run goes back to a certificate after another fired |
| TlsExpiry.LateSwitchIsSilent | soc_ai/notify.py:513-527 | a run with every write succeeding in which a band found with the switch off is not handed on once it is on |
| TlsExpiry.OnceExactly | soc_ai/main.py:1060-1141 | run by run, with writes that fail at some checks: a pair is handed on twice exactly when a later start finds it with its write failed or written over |
| TlsExpiry.OnceWithoutReturn | soc_ai/main.py:1092-1141 | with every write succeeding and no return to an earlier certificate, every pair is handed on at most once |
| TlsExpiry.LostWriteRepeats | soc_ai/main.py:1081-1089 | a run with a file that cannot be written that repeats a webhook after a restart |
| TlsExpiry.ReturnRepeats | soc_ai/main.py:1060-1098 | a run with every write succeeding that serves A, then B, then A, and repeats the webhook of A |
| GatewayRetry.ParseRetryAfter | soc_ai/agent/_gateway_retry.py:186-195 | a number is clamped to 0 to 30 seconds, also for infinities and not-a-number; values in range are kept |
| GatewayRetry.DoubledIsPower | soc_ai/agent/_gateway_retry.py:115 | the doubling delay is base * 2^attempt |
| GatewayRetry.Backoff | soc_ai/agent/_gateway_retry.py:113-116 | full jitter stays between zero and the ceiling |
| GatewayRetry.LastAttempt | soc_ai/agent/_gateway_retry.py:144-183 | the attempt that ends the request: the first that is not transient, or the last allowed |
| GatewayRetry.RetryingTransport.HandleRequest | soc_ai/agent/_gateway_retry.py:144-183 | told from the outcomes and draws: the request ends with the first attempt that may not be retried or the last allowed; every one before is called, closed, and directly followed by its wait; the headers named last are recorded |
| GatewayRetry.DelayExactly | soc_ai/agent/_gateway_retry.py:113-195 | the wait is the Retry-After clamped to 0 to 30 seconds when the response has one, else the draw times the lesser of the cap and base * 2^i |
| GatewayRetry.ClosedBeforeNextCall | soc_ai/agent/_gateway_retry.py:165-169 | every discarded response is closed exactly once before the next call, the returned one never |
| GatewayRetry.CeilingSumClosed | soc_ai/agent/_gateway_retry.py:113-116 | the closed form of the sum of backoff ceilings |
| GatewayRetry.CapIndexExists | soc_ai/agent/_gateway_retry.py:113-116 | every policy and number of retries has the index at which the doubling meets the cap |
| GatewayRetry.SleepBound | soc_ai/agent/_gateway_retry.py:113-183 | without Retry-After the sleeps add up to at most base * (2^k - 1) + (n - k) * cap |
| GatewayRetry.SleepsBounded | soc_ai/agent/_gateway_retry.py:168-195 | with Retry-After the sleeps of n retries add up to at most n times the larger of the cap and 30 s |
| GatewayRetry.DelaysBounded | soc_ai/agent/_gateway_retry.py:168-195 | every single delay lies between zero and the larger of the cap and 30 s |
| GatewayRetry.LastNamedWins | soc_ai/agent/_gateway_retry.py:80-95 | the recorded backend is the one named last, even when the final attempt raised |
| Meters.Metrics.RecordEvent | soc_ai/metrics.py:63-82 | told from the payload: the counter of the kind, the entry of the tool and the entries of the phase go up by exactly what the event states, and nothing else moves |
| Meters.RunMeter.Observe | soc_ai/run_meter.py:143-157 | told from the payload: requests and tokens go up by exactly the numbers stated, calls by one, the last class stands; the counters stay the tally of every event seen |
| Meters.RequestsAreSums | soc_ai/run_meter.py:146-147 | the model requests of a run are the sum of those its usage events state |
| Meters.RunMeter.Finish | soc_ai/run_meter.py:159-164 | the meter's own object holds the tally of all events seen, the wall time and the reads of the attached meter; finishing again changes these two readings only |
| Meters.CountersCountEvents | soc_ai/metrics.py:63-82 | every counter is the number of events of its kind, every tool entry the calls of that tool, and every token entry the sum of its field over the usage events of its phase |
| Meters.FoldsAgree | soc_ai/run_meter.py:143-157 | on every stream tool calls equal the metrics' tool counts without the output tool plus the dispatches, and token totals agree over all phases |
| Meters.ObserveAppend | soc_ai/run_meter.py:143-157 | observing two streams in turn adds the counters and keeps the last non-empty class |
| Exposition.EscIsPerCharacter | soc_ai/metrics.py:105-107 | the three replacements in turn are one escape per character |
| Exposition.EscReadsBack | soc_ai/metrics.py:105-107 | escaping is injective, inverted by reading, ends at the first bare quote and leaves no raw newline |
| Exposition.SampleReadsBack | soc_ai/metrics.py:164-174 | reading one printed sample line gives back its name, labels and value |
| MetricsPage.SortKeys | soc_ai/metrics.py:166-171 | all keys of a map, each once, in order |
| MetricsPage.Render | soc_ai/metrics.py:110-177 | the page of the current state, with both maps in dictionary order |
| MetricsPage.PageTypes | soc_ai/metrics.py:110-172 | the ten metrics the page declares, in order, with their types |
| MetricsPage.PageReadsBack | soc_ai/metrics.py:110-177 | parsing a page gives back its samples, in order |
| MetricsPage.PageRecoversState | soc_ai/metrics.py:110-177 | a reader who knows the metrics and labels by name recovers build, version, uptime, every counter and every entry of both maps |

## Left out

- Waves.GroupWaves: gaps are whole microseconds, so the rounding of a time difference to a float of seconds is not modelled; the count of a point may be any integer.
- GapWords.WordsReadBack: spans are reals; not-a-number and infinities, on which the program raises, are not modelled.
- Timeline.DurationEnd: the rounding of a float duration to microseconds is not modelled.
- Timeline.WaveLines: a line is the facts it prints; its wording, the labels of documents and the neutralising of untrusted text are not modelled.
- PromptSection.EventTimeline: documents come with their fields already read (id, time, duration, source); parsing them out of text is not modelled.
- DedupRing.Ring.ShouldSend: the hour text is a parameter, so the clock and its format are not modelled.
- RateLimiter.Limiter.Admit: the resolving of a client address behind proxies is not modelled; buckets are values in a map rather than lists shared with it.
- BodyCap.Handle: Python's limit on the digits of a number, and requests that are still waiting when the server stops, are not modelled.
- LeadQueue.LeadsAwaitingAHunt: the table is a fixed sequence of the open leads during one wake; the conditions of the query other than the retry rule are taken as applied.
- TlsExpiry.TlsAlarm.Check: a check runs to its end; a process killed between the webhook and the write of the file behaves like a failed write. Only the handing on of an event is modelled: the master switch, the hourly dedup and a post that fails lie behind it, and the file is written whatever they do. A file that can be written but not read back is not modelled.
- GatewayRetry.ParseRetryAfter: the header arrives as the number Python reads, or as none; the grammar of float text and HTTP dates is not modelled.
- GatewayRetry.RetryingTransport.HandleRequest: closing and calling are recorded as actions of a trace instead of effects on response objects; waiting is not modelled, only its length.
- MetricsPage.Render: the wording of the help lines is a parameter without newlines.
- Meters.RunMeter.Observe: payload values are well typed; the tolerance for other types is not modelled.
- Certificate inspection (X.509), web frameworks, database and search queries, the sleep loops around the modelled steps, secret scrubbing, configuration and the command line are not part of this model.
