# EpoxyDuino: models and proofs

EpoxyDuino runs Arduino sketches on a host. Most of it stands in for hardware; a few files hold real
algorithms and state machines. This project models those in Dafny and proves what they compute.
`dafny verify dfyconfig.toml` checks everything.

| file | what it models |
|---|---|
| `StreamSearch.dfy`, `ByteStream.dfy` | the one-pass multi-pattern search behind `Stream::find` and `findUntil` |
| `Rewriting.dfy`, `RewriteLimits.dfy`, `WString.dfy` | class `String` over its buffer, above all `replace` in its three regimes |
| `Injector.dfy` | the event injector that owns the simulated clock |
| `TimeForward.dfy` | the time that waits hand to it, one access at a time |
| `Script.dfy` | the script commands that bear on time, and the bit stream that reschedules itself |
| `Timeline.dfy`, `Lines.dfy` | a whole script in the injector: why waits under it end, and when each line is raised |
| `Wait.dfy` | waiting in simulated time with polled interrupts and service callbacks |
| `Base64.dfy` | base64 through a 32-bit shift register |
| `Watchdog.dfy` | the loop watchdog: two threads over shared atomics |
| `Numbers.dfy`, `ParseInt.dfy` | numbers to text and back |
| `IpAddress.dfy` | IPv4 addresses to text and back |
| `Mdns.dfy` | an asynchronous mDNS search: results, resolvers, notifier |
| `Eeprom.dfy` | the write-back EEPROM over a data file |
| `WiFi.dfy` | the event queue of the mock WiFi and the calls that fill it |
| `Common.dfy` | small shared facts |

An object that the program updates is a class here, with the program's own fields and loops; each
method is proved equal to a function on values, and the properties of whole runs are proved about
these functions. Threads are modelled as interleavings: of passes, insertions and waits for the
injector, of single loads, stores and exchanges for the watchdog and for the time the injector is given.

Assumptions. A stream is a finite sequence of bytes, after which reads time out. Strings hold no NUL,
and the strings passed to a method are other objects. Allocation may fail at any call. Simulated time
moves only through the injector. Random and foreign behaviour (what an event asks for, what a callback
does, what the network answers, whether a file call works) is a parameter, and the statements hold for
all of it.

What the proofs bring to light:

- `replace` with a longer replacement is the leftmost rewrite for all texts if and only if the text
  looked for has no border and none of its proper suffixes starts the replacement; "aaa" with "aa" to
  "aab" is not. It outgrows the size of the leftmost rewrite, for which the buffer is made, and so can write
  past the end, if and only if such a suffix exists.
- Where `char` is signed, a search target is found by its bytes if and only if all are below 128.
- A script line `at` for a time in the past asks the injector for a time before the clock; all other
  commands keep to it. Scripts of all kinds let a wait end, but one event that always reschedules itself
  at the clock stalls `delay_us` for ever.
- `time_forward_us` is cleared by a plain store: of two waits at once one can be lost. With one waiting
  thread all time is accounted for.
- Bit streams of a period are never out of sync, in whatever run, if and only if it is at least 10 us.
- base64 padding leaves bits in the decoder's register: two encodings put together decode to the two
  texts if and only if the second is empty, the first needs no padding, or the bytes left are 0 as far
  as they reach the second.
- The watchdog spares every loop that feeds in time if and only if the clock is read before the time of
  the last feed, an order the language leaves open, and the loop feeds also while disarmed.
- `parseInt` overflows on the way for numbers within 48 of the largest long. Once at a number it returns
  if and only if `ignore` is not -1 or something that is no digit follows in the stream.
- `print(n, 1)` prints the text of n if and only if n is not negative; otherwise it prints the unsigned
  number of the same bits. A base prints all numbers whole if and only if it is at most 208: the digit
  208 is a NUL.
- EEPROM `begin()` with another size drops what has not been committed, and `commit()` from a smaller
  EEPROM cuts the file.
- WiFi due times are kept in 32 bits and compared in 64: past 2^32 ms delays are ignored.
- `enableSTA()` and `enableAP()` switch the other half of the mode off if and only if it is on and their own
  half already is as asked for.
- A WiFi handler registered later hears orderly events, whatever follows, if and only if neither station
  nor access point is started at that moment.
- A complete mDNS search becomes incomplete again, also after its notifier was called, if and only if a
  resolver is started before the timeout is over.

## Model

| member | source | states |
|---|---|---|
| StreamSearch.FindMulti | cores/epoxy/Stream.cpp:257-320 | for any input and any targets: the number returned is that of the first target completed by the shortest prefix of the input that completes any, lowest number first; exactly that prefix has been consumed; -1 only if no target occurs at all, and then everything has been consumed |
| StreamSearch.FeedAll | cores/epoxy/Stream.cpp:270-316 | one character keeps every target at the length of its longest match of all that was read, unless a target is complete, which is then the lowest-numbered complete one |
| StreamSearch.Accept | cores/epoxy/Stream.cpp:271-315 | the match-or-walk-back loop computes the transition that NextIsExact proves exact |
| StreamSearch.PrefixRepeatsAt | cores/epoxy/Stream.cpp:299-309 | the inner comparison decides whether a prefix of the target occurs again, shifted, inside it |
| StreamSearch.LongestIsMaximal | cores/epoxy/Stream.cpp:279-282 | the length kept per target is a proper match of the end of the input, and no longer proper prefix matches |
| StreamSearch.BorderOfPrefix | cores/epoxy/Stream.cpp:299-309 | comparing the target with itself is the same as comparing it with the input read |
| StreamSearch.WalkIsLongest | cores/epoxy/Stream.cpp:286-315 | walking back from a mismatch lands on the longest match of the longer input, for every self-overlapping target |
| StreamSearch.NextIsExact | cores/epoxy/Stream.cpp:271-315 | a target is reported complete if and only if the input now ends with it; otherwise the new index is again the longest proper match |
| StreamSearch.FirstHitIsUnique | cores/epoxy/Stream.cpp:257-320 | there is at most one right answer to a search, and it excludes "not found" |
| StreamSearch.EmptyTargetHits | cores/epoxy/Stream.cpp:258-263 | an empty target is the right answer before anything is read |
| StreamSearch.FirstHitIsReached | cores/epoxy/Stream.cpp:112-124 | target number 0 wins just when it is completed no later than the terminator |
| StreamSearch.FindUntil | cores/epoxy/Stream.cpp:94-124 | true if and only if the target is completed, and no later than the terminator if there is one |
| StreamSearch.HighByteNeverMatches | cores/epoxy/Stream.cpp:266-272 | where char is signed, a target with a byte of 128 or more matches nowhere in any input |
| StreamSearch.FoundByItsBytesIff | cores/epoxy/Stream.cpp:266-272 | where char is signed, a target is found by its bytes in every input if and only if all of them are below 128 |
| StreamSearch.FindBytes | cores/epoxy/Stream.cpp:257-320 | a search for targets given as bytes: the answer for the characters stored, and that for the bytes themselves when all are below 128 |
| ByteStream.Stream.TimedRead | cores/epoxy/Stream.cpp:32-41 | delivers the bytes in order, then -1 without moving |
| ByteStream.Stream.TimedPeek | cores/epoxy/Stream.cpp:44-53 | the byte that the next read will deliver, without consuming it |
| ParseInt.PeekNextDigit | cores/epoxy/Stream.cpp:57-83 | skips exactly what the lookahead mode allows and stops at the first digit or sign, or gives up |
| ParseInt.SkipFromIsLeast | cores/epoxy/Stream.cpp:57-83 | SKIP_ALL stops at the first digit or minus sign or at the end, SKIP_NONE at once, and SKIP_WHITESPACE at the first byte that is not 9, 10, 13 or 32 |
| ParseInt.SkipsTo | cores/epoxy/Stream.cpp:57-83 | a number is found if and only if what stands before it is what the mode skips |
| ParseInt.ParseLong | cores/epoxy/Stream.cpp:131-157 | value, sign, stream position, and whether the accumulation leaves the range of long on the way; excluded are just the streams on which the loop never ends: an ignore of -1, a digit or sign where the lookahead stops, and nothing but digits behind it |
| ParseInt.LoopEndsIff | cores/epoxy/Stream.cpp:142-152 | from a first digit or sign on, some number of rounds ends the loop if and only if ignore is not -1 or a byte that is no digit follows; and then the result is the one that ParseLong delivers |
| ParseInt.ReadNumber | cores/epoxy/Stream.cpp:142-152 | the loop from the first digit or sign on leaves sign, value and stream where that result says |
| ParseInt.ScanDigits | cores/epoxy/Stream.cpp:142-152 | a run of digits is taken whole and no further, and overflows just when its value is within 48 of the largest long |
| ParseInt.ScanIgnoring | cores/epoxy/Stream.cpp:142-152 | digits with `ignore` characters anywhere among them are taken whole, and evaluate and overflow as the digits alone |
| ParseInt.ParseReadsBackPrinted | cores/epoxy/Stream.cpp:126-157 | parsing what print or ltoa wrote in base 10, behind anything that the lookahead skips, gives the number back and leaves the rest of the stream, for all longs; without overflow if and only if the magnitude is at most LONG_MAX - 48 |
| Rewriting.FindFromIsLeast | cores/epoxy/WString.cpp:659 | what the libc search promises: the least occurrence from a position on |
| Rewriting.LastOccurrenceIsGreatest | cores/epoxy/WString.cpp:610-621 | the greatest occurrence start not above a position, overlapping ones included |
| Rewriting.ReplaceRound | cores/epoxy/WString.cpp:656-674 | one round of the search loop of the leftmost rewrite: copy up to the next occurrence, replace it, go on behind it |
| Rewriting.LastOccurrenceInStage | cores/epoxy/WString.cpp:683-691 | while the end of the text has been rewritten, the last occurrence before it is still the one of the original text |
| Rewriting.GrowMeetsReplaceAll | cores/epoxy/WString.cpp:675-692 | right-to-left rewriting gives the leftmost rewrite when find has no border and no proper suffix of it starts the replacement |
| RewriteLimits.StraddleBreaksGrow | cores/epoxy/WString.cpp:683-691 | a suffix of find that starts the replacement makes the growing branch rewrite its own output and outgrow the buffer made for it |
| RewriteLimits.BorderBreaksGrow | cores/epoxy/WString.cpp:683-691 | a border of find makes it give another text than the leftmost rewrite |
| RewriteLimits.GrowIsReplaceAllIff | cores/epoxy/WString.cpp:675-692 | the growing branch is right for all texts if and only if find has no border and no suffix that starts the replacement |
| RewriteLimits.LeftmostIsLongest | cores/epoxy/WString.cpp:676-680 | the leftmost rewrite is a longest one: an occurrence set apart from the text before it adds its whole growth |
| RewriteLimits.GrowFromHeadFits | cores/epoxy/WString.cpp:683-691 | without a suffix of find that starts the replacement, right-to-left rewriting never outgrows the leftmost rewrite |
| RewriteLimits.GrowFitsIff | cores/epoxy/WString.cpp:676-691 | the growing branch fits the buffer made for it, for all texts, if and only if no proper suffix of find starts the replacement; a border of find alone does no harm |
| WString.RewriteRound | cores/epoxy/WString.cpp:659-673 | each round of the in-place rewrite keeps the write cursor behind the read cursor, the unread text untouched, and output plus rest of the rewrite equal to the whole leftmost rewrite |
| WString.RewriteEnds | cores/epoxy/WString.cpp:674 | when no occurrence is left, copying the rest with its NUL completes the leftmost rewrite |
| WString.String.ChangeBuffer | cores/epoxy/WString.cpp:162-171 | fails and changes nothing, or the old contents are at the front of a buffer of the size asked for |
| WString.String.Reserve | cores/epoxy/WString.cpp:152-160 | never changes the text; succeeds without allocating when there is room |
| WString.String.Copy | cores/epoxy/WString.cpp:177-187 | the text given, or an invalid string for want of memory |
| WString.String.Concat | cores/epoxy/WString.cpp:271-281 | appends, or leaves the text alone for a null argument or want of memory; certain to succeed when there is room |
| WString.String.LastIndexOfChar | cores/epoxy/WString.cpp:594-603 | the last position of the character not above fromIndex; the buffer is as it was, byte for byte |
| WString.String.LastIndexOf | cores/epoxy/WString.cpp:610-621 | the greatest occurrence start not above fromIndex, overlapping occurrences included, or -1 |
| WString.String.CutOut | cores/epoxy/WString.cpp:633-636 | reads exactly the part between two positions and undoes the cut |
| WString.String.Substring | cores/epoxy/WString.cpp:623-638 | the part between two positions in either order, clipped to the text; this string is byte for byte as it was |
| WString.String.Remove | cores/epoxy/WString.cpp:702-710 | the text without the characters named, as many of them as there are |
| WString.WithoutAt | cores/epoxy/WString.cpp:702-710 | what is left, character by character |
| WString.String.Trim | cores/epoxy/WString.cpp:728-738 | the text is what is left between white space at both ends, and begins and ends with none |
| WString.SpaceIs | cores/epoxy/WString.cpp:732-734 | white space is tab, line feed, vertical tab, form feed, carriage return and space |
| WString.String.ReplaceEqual | cores/epoxy/WString.cpp:658-662 | equal lengths: the leftmost non-overlapping rewrite, in place |
| WString.String.ReplaceShrinking | cores/epoxy/WString.cpp:663-674 | shorter replacement: the leftmost non-overlapping rewrite, with exact length and terminator |
| WString.String.SizeNeeded | cores/epoxy/WString.cpp:676-681 | the length of the leftmost rewrite; unchanged length means no occurrence |
| WString.String.ExpandAt | cores/epoxy/WString.cpp:685-689 | one occurrence is exchanged for the longer replacement and everything behind it moved up |
| WString.String.ReplaceGrowing | cores/epoxy/WString.cpp:675-692 | the right-to-left rewrite; out of memory only when the buffer is too small and nothing is lost then; overrun only when a suffix of find starts the replacement and that rewrite is longer than the buffer |
| WString.String.Replace | cores/epoxy/WString.cpp:652-693 | the leftmost rewrite for replacements that are not longer, and for longer ones whenever find has no border and no suffix that starts the replacement; never an overrun unless such a suffix exists |
| Injector.EventInjector.Add | cores/epoxy/epoxy_test/Injection/Injection.cpp:80-84 | the event comes behind all events with a key not above its own |
| Injector.EventInjector.EraseNulls | cores/epoxy/epoxy_test/Injection/Injection.cpp:109-110 | just the leading null entries are gone |
| Injector.EventInjector.RaiseEach | cores/epoxy/epoxy_test/Injection/Injection.cpp:118-142 | all entries of the first group are raised once, in order, and what they ask for is collected in key order |
| Injector.ChainedFirst | cores/epoxy/epoxy_test/Injection/Injection.cpp:127-138 | of what one event asks for, the chained event goes first at equal times |
| Injector.EventInjector.RaiseFirstGroup | cores/epoxy/epoxy_test/Injection/Injection.cpp:115-147 | the group is raised as a whole before anything it asks for is inserted |
| Injector.EventInjector.MoveClock | cores/epoxy/epoxy_test/Injection/Injection.cpp:150-177 | the clock moves by 10 us or what is left, and not at all while something is due |
| Injector.EventInjector.Pass | cores/epoxy/epoxy_test/Injection/Injection.cpp:106-183 | one pass of the loop is the atomic step about which everything below is proved |
| Injector.EventInjector.Shut | cores/epoxy/epoxy_test/Injection/Injection.cpp:40-48 | stopping drops the events and hands the time not yet spent to the clock |
| Injector.EventInjector.DelayUs | cores/epoxy/epoxy_test/Injection/Injection.cpp:187-196 | a wait ends after n passes, each made of what the events, which may change with every raise, then do; the clock has moved by exactly what was asked for and what was outstanding; it ends if the events can be weighed so that what each asks for at once weighs less than it does, weights going down as events are raised; the order and lateness invariant holds afterwards if the raises were punctual |
| Injector.IterateKeepsInv | cores/epoxy/epoxy_test/Injection/Injection.cpp:106-183 | a pass keeps: nothing pending is more than 9 us late, everything raised was on time, order of keys and of insertion |
| Injector.SpinKeepsInv | cores/epoxy/epoxy_test/Injection/Injection.cpp:104-196 | the passes of a wait keep the invariant as long as what is raised in them is punctual |
| Injector.RunKeepsInv | cores/epoxy/epoxy_test/Injection/Injection.cpp:80-183 | so does every interleaving of insertions, waits, passes and stops whose keys are not before the clock |
| Injector.EveryRunIsOrderlyAndOnTime | cores/epoxy/epoxy_test/Injection/Injection.cpp:101-183 | in every such run each entry is raised at most once, never early, at most 9 us late, in key order with ties in insertion order, and the recorded jitter is at most 9 |
| Injector.RaisedByDeadline | cores/epoxy/epoxy_test/Injection/Injection.cpp:101-183 | no event is lost: once the clock is 10 us past its key an inserted event has been raised within 9 us of it |
| Injector.JitterIsGreatest | cores/epoxy/epoxy_test/Injection/Injection.cpp:118-126 | over every run the jitter recorded is the greatest lateness of all that was raised, or 0 |
| Injector.TimeIsConserved | cores/epoxy/epoxy_test/Injection/Injection.cpp:149-196 | over runs of atomic passes, clock plus time to pass grows by exactly what is asked for, and the clock never goes back |
| Injector.RaisingBalance | cores/epoxy/epoxy_test/Injection/Injection.cpp:109-148 | the weight of the events due goes down by what is raised and up by what that asks for at once, to the last unit |
| Injector.PassMakesProgress | cores/epoxy/epoxy_test/Injection/Injection.cpp:104-177 | every pass with time to pass spends some of it or has an event to raise |
| Injector.LighterPassDecreases | cores/epoxy/epoxy_test/Injection/Injection.cpp:104-192 | if what each event asks for at once weighs less than the event, (time to pass, weight of the events due) decreases lexicographically in every pass, also when weights go down on the way |
| Injector.StrictPassDecreases | cores/epoxy/epoxy_test/Injection/Injection.cpp:187-192 | in particular (time to pass, number of events due) decreases if raises ask only for times after the clock |
| Injector.ReschedulingAtTheClockStalls | cores/epoxy/epoxy_test/Injection/Injection.cpp:187-192 | a single event that reschedules itself at the clock stalls the wait through any number of passes, whatever else is raised |
| Script.ScriptEvent.Raise | cores/epoxy/epoxy_test/Script/ScriptEvent.cpp:21-47 | a raise does the action, drops what is used of the line, and chains the next line behind the wait or sync |
| Script.ScriptEvent.Act | cores/epoxy/epoxy_test/Script/ScriptEvent.cpp:49-89 | what each command asks for: a time to be raised again, a delay for the next line, or an event of its own |
| Script.CommandIsPunctualIff | cores/epoxy/epoxy_test/Script/ScriptEvent.cpp:49-89 | a script event meets what the injector needs if and only if it is not an `at` for a time in the past |
| Script.CommandIsLighterIff | cores/epoxy/epoxy_test/Script/ScriptEvent.cpp:21-89 | a line asks at once for less than itself, however lines are weighed, if and only if it is not an `at` for a time not after the clock |
| Timeline.RaiseIsLighter | cores/epoxy/epoxy_test/Script/ScriptEvent.cpp:21-89 | every event of a script, at whatever time and with whatever is left of its line, asks at once for less than itself: a raise uses up some of the line or of the patience of what it built, and reads one line |
| Timeline.ScriptPassIsLighter | cores/epoxy/epoxy_test/Script/ScriptEvent.cpp:21-89 | so does every group of events raised in a pass, each in the state the ones before it leave |
| Timeline.WaitUnderScript | cores/epoxy/epoxy_test/Injection/Injection.cpp:187-196 | a wait under any script, at any point of it, ends and takes exactly its time, `at` lines for past times, forks and bit streams out of sync included, if other events ask for themselves at once a bounded number of times; and the invariant is kept if no line is an `at` or the passes were punctual |
| Timeline.NextKeyInLimits | cores/epoxy/epoxy_test/Script/ScriptEvent.cpp:30-47 | a line raised within its limits makes the next one due within its own |
| Timeline.PassKeepsOnTime | cores/epoxy/epoxy_test/Injection/Injection.cpp:104-177 | a pass in which other events do as they like keeps the script within its limits; a line due at once is raised before the clock moves |
| Timeline.ScriptKeepsItsTimes | cores/epoxy/epoxy_test/Script/ScriptEvent.cpp:21-89 | in every run line k of a script of waits, syncs and pin settings is raised between the summed waits, taken forward by syncs, and that plus 9 us for each wait, and has been raised once that is past |
| Timeline.LimitsWithoutSync | cores/epoxy/epoxy_test/Script/ScriptEvent.cpp:72-76 | without syncs these limits are the sum of the waits and 9 us more for each of them |
| Timeline.SyncResetsDrift | cores/epoxy/epoxy_test/Script/ScriptEvent.cpp:77-80 | a sync reached before its time makes up for all lateness before it |
| Lines.LineIsRaisedInTime | cores/epoxy/epoxy_test/Script/ScriptEvent.cpp:21-89 | over every run of a whole script, whatever other events do: raise j of a line acts on what j raises leave of it; if that is an `at` for a time still ahead, the next raise comes within 9 us of that time and has come once the clock is 10 us past it; if the time is not ahead it comes before the clock moves on; after anything else there is none |
| Lines.AtActsInTime | cores/epoxy/epoxy_test/Script/ScriptEvent.cpp:59-64 | in every run, what stands behind an `at` first raised before its time t is acted on between t and t + 9, and has been once the clock is t + 10 |
| Lines.GroupAsks | cores/epoxy/epoxy_test/Injection/Injection.cpp:118-142 | a group of events raised in a pass asks for a line just as often as it holds it, and once more when one of them reads it |
| Lines.PassKeepsInStep | cores/epoxy/epoxy_test/Injection/Injection.cpp:104-177 | times, pending entry and what is left of each line stay in step through a pass in which other events ask for any times, past ones included |
| TimeForward.NoTimeIsInvented | cores/epoxy/epoxy_test/Injection/Injection.cpp:150-196 | access by access, however many threads wait, the clock never gets ahead of what was asked for |
| TimeForward.OneThreadIsExact | cores/epoxy/epoxy_test/Injection/Injection.cpp:150-196 | access by access, the waits of one thread lose nothing |
| TimeForward.SecondWaitIsLost | cores/epoxy/epoxy_test/Injection/Injection.cpp:169-191 | a wait begun between the addition to the clock and the store of zero is lost |
| TimeForward.AccountedIff | cores/epoxy/epoxy_test/Injection/Injection.cpp:150-196 | all time asked for is accounted for in every interleaving of single accesses if and only if at most one thread waits |
| Script.BitStream.constructor | cores/epoxy/epoxy_test/Script/Commands/BitStream.cpp:56-62 | the first tick is the time of construction |
| Script.BitStream.GetChar | cores/epoxy/epoxy_test/Script/ScriptParser.cpp:42-51 | takes the first character, or delivers 0 at the end |
| Script.BitStream.Act | cores/epoxy/epoxy_test/Script/Commands/BitStream.cpp:15-54 | what is driven, when the next raise is, and when it counts as out of sync, for every line |
| Script.BitStream.Raise | cores/epoxy/epoxy_test/Script/ScriptEvent.cpp:21-47 | the action and then what every script event does to its line, errors counted |
| Script.RaiseDrivesBit | cores/epoxy/epoxy_test/Script/Commands/BitStream.cpp:15-54 | at most 9 us late and with a period of at least 10 us, a raise drives the first bit and asks for exactly the next tick, for every payload with separators |
| Script.RaiseRejects | cores/epoxy/epoxy_test/Script/Commands/BitStream.cpp:22-43 | a character that is no bit ends the stream and is an error, and so is what is left of the line behind it |
| Script.TidyIs | cores/epoxy/epoxy_test/Script/ScriptEvent.cpp:26-29 | a comment at the end of a line goes, and nothing else |
| Script.InSyncIff | cores/epoxy/epoxy_test/Script/Commands/BitStream.cpp:40-53 | one raise up to 9 us late never counts as out of sync if and only if the period is at least 10 us |
| Script.AlwaysInSyncIff | cores/epoxy/epoxy_test/Script/Commands/BitStream.cpp:15-62 | over all streams of a period, all payloads and all runs: none is ever out of sync if and only if the period is at least 10 us; for each smaller one a run of at most six steps counts one |
| Script.MineAfterPass | cores/epoxy/epoxy_test/Injection/Injection.cpp:118-147 | a pass leaves exactly one entry of the stream pending, at the time it asked for, or none |
| Script.PassKeepsInPlay | cores/epoxy/epoxy_test/Script/Commands/BitStream.cpp:15-54 | timetable, line and pending tick stay in step through a pass in which other events do as they like |
| Script.StreamKeepsTimetable | cores/epoxy/epoxy_test/Script/Commands/BitStream.cpp:15-62 | in every run bit i is on the pin between start + i * period and 9 us later, has been driven once that is past, and the stream never counts itself out of sync |
| Wait.Device.WaitMicros | cores/epoxy/Arduino.cpp:96-108 | the slice loop: a top-level wait with its service passes, or bare time when called from within one |
| Wait.Device.Pump | cores/epoxy/Arduino.cpp:60-66 | one service pass, and nothing at all from within a service pass |
| Wait.Device.CheckInterrupts | cores/epoxy/Arduino.cpp:376-444 | every handler has its turn, in order |
| Wait.Device.CheckHandler | cores/epoxy/Arduino.cpp:379-443 | runs the handler just when its mode asks for the change since its last look, and remembers the level seen before it ran |
| Wait.Device.ServiceYieldCallbacks | cores/epoxy/Arduino.cpp:46-52 | every registered callback runs, in order |
| Wait.WaitIsExact | cores/epoxy/Arduino.cpp:96-108 | a wait moves the clock by exactly what was asked for plus what the code inside it asked for, with ceil(us / 1000) + 1 service passes however much that code waits |
| Wait.PassLooksOnce | cores/epoxy/Arduino.cpp:376-444 | each pass gives each enabled handler exactly one look at its pin |
| Wait.NoEdgeIsMissed | cores/epoxy/Arduino.cpp:96-108 | over a whole wait the looks of a handler are chained, one per pass: no change between passes goes unseen, none is seen twice |
| Wait.EdgeOfCallbackIsSeen | cores/epoxy/Arduino.cpp:54-66 | an edge left by user code in any pass but the last is looked at in the next, before the wait returns, if until that look the surroundings keep the pin and no handler that runs sets it |
| Wait.WaitRunsAtEdges | cores/epoxy/Arduino.cpp:386-430 | over a whole wait a RISING handler is run just at the looks where its pin went from low to high, FALLING where it went from high to low, CHANGE at both, ONLOW and ONHIGH where it is low or high, starting from the level remembered before the wait |
| Wait.RunsAreEdges | cores/epoxy/Arduino.cpp:386-430 | RISING runs as often as the level rises, FALLING as often as it falls, and CHANGE as often as both together |
| Wait.EdgesBalance | cores/epoxy/Arduino.cpp:386-430 | rises and falls balance up to the first and the last level seen |
| Wait.TurnTakesEffect | cores/epoxy/Arduino.cpp:379-443 | a turn does to pins and time what the code of the handler does, if its mode asks for these levels, and nothing otherwise |
| Wait.CallbacksTakeEffect | cores/epoxy/Arduino.cpp:46-52 | a pass does to pins and time what all registered callbacks do, each once, one after the other |
| Base64.EncodeBytes | cores/epoxy/base64.hpp:18-40 | what the loop has written lacks only the last characters and padding of an incomplete group, which the register and the offset determine; the register stays below 2^24 |
| Base64.CharIsTabled | cores/epoxy/base64.hpp:12-14 | digit d is written as character d of the table |
| Base64.DigitIsTabled | cores/epoxy/base64.hpp:61 | a character stands for a digit just when the table has it at that place |
| Base64.ToBase64 | cores/epoxy/base64.hpp:18-50 | the shift register produces the grouping and padding of RFC 4648 section 4; character i is the one that the table has for its 6 bits, taken by division from the bytes |
| Base64.EncodedCharacter | cores/epoxy/base64.hpp:18-50 | so is every character of that definition, padding just where no bits of the text are left |
| Base64.FromBase64 | cores/epoxy/base64.hpp:52-79 | the decoding loop computes the fold that the lemmas below speak about; a text that spells whole groups of digits of the table gives the bytes that they make |
| Base64.DecodedBytes | cores/epoxy/base64.hpp:58-75 | that fold gives, for every text of whole groups, three bytes for each four digits, by division |
| Base64.EncodedLength | cores/epoxy/base64.hpp:18-50 | the length is 4 * ceil(n / 3) |
| Base64.GroupParts | cores/epoxy/base64.hpp:25-38 | the four 6-bit digits and the three bytes of a 24-bit group determine each other |
| Base64.RejectsForeignCharactersIff | cores/epoxy/base64.hpp:58-75 | a text is rejected if and only if it holds a character outside the alphabet and the padding |
| Base64.DecodeEncoding | cores/epoxy/base64.hpp:18-79 | an encoding in front of any text decodes to its bytes and leaves exactly its last group in the register |
| Base64.RoundTrip | cores/epoxy/base64.hpp:18-79 | decoding undoes encoding for every byte string |
| Base64.ConcatenationDecodesIff | cores/epoxy/base64.hpp:58-76 | for all texts x and y, their encodings put together decode to x and y if and only if y is empty, x needs no padding, or the bytes of the last group of x that stay in the register are 0, as far as they reach y |
| Watchdog.LoopWatchdog.MonitorAccess | cores/epoxy/esp32_wdt.cpp:83-96 | each single access of the monitor, in either order of the two operands, and when the handler runs |
| Watchdog.LoopWatchdog.BeginFeed | cores/epoxy/esp32_wdt.cpp:120 | a feed reads the clock |
| Watchdog.LoopWatchdog.BeginEnable | cores/epoxy/esp32_wdt.cpp:114 | so does an enable |
| Watchdog.LoopWatchdog.DisableLoopWDT | cores/epoxy/esp32_wdt.cpp:118 | a disable is one store |
| Watchdog.LoopWatchdog.Store | cores/epoxy/esp32_wdt.cpp:113-120 | each single store of a feed or an enable |
| Watchdog.FiresOncePerEnable | cores/epoxy/esp32_wdt.cpp:83-116 | in every interleaving of single accesses, expiries plus an arming still pending never exceed the enables |
| Watchdog.FedLoopIsNotExpired | cores/epoxy/esp32_wdt.cpp:83-120 | a loop that feeds at least every g ms from the first enable on is never expired while the timeout is 0 or at least g, if the monitor reads the clock before the time of the last feed |
| Watchdog.FeedTimeFirstExpiresFedLoop | cores/epoxy/esp32_wdt.cpp:88 | if the two operands are read the other way round a loop that is never late can be expired |
| Watchdog.DisarmedLoopMayBeExpired | cores/epoxy/esp32_wdt.cpp:88-91 | so can a loop that is never late while armed, when it is disabled and enabled again between two accesses of the monitor |
| Watchdog.NeverExpiresFedLoopIff | cores/epoxy/esp32_wdt.cpp:83-120 | the watchdog never expires a loop that feeds in time if and only if it reads the clock first and the loop feeds from the first enable on, not only while armed |
| Watchdog.FrozenLoopIsExpired | cores/epoxy/esp32_wdt.cpp:83-96 | a loop frozen while armed is expired by the first poll begun after the timeout, exactly once, whichever operand is read first |
| Numbers.ToTextIsNumeral | cores/epoxy/avr_stdlib.cpp:120-142 | the text is made of digits of the base, has no leading zero and stands for the number |
| Numbers.DigitIsTabled | cores/epoxy/avr_stdlib.cpp:133 | the digits of all bases up to 36 are those of the table 0-9, A-Z |
| Numbers.NumeralIsUnique | cores/epoxy/avr_stdlib.cpp:120-142 | there is only one such text |
| Numbers.QuotientFits | cores/epoxy/avr_stdlib.cpp:11-14 | dividing takes at least one binary place off, which is why 64 digits are always enough |
| Numbers.DivideOut | cores/epoxy/avr_stdlib.cpp:125-134 | the digits stand at the end of the scratch buffer, and never before its beginning |
| Numbers.FillBackwards | cores/epoxy/avr_stdlib.cpp:83-113 | the digits and their NUL, 0 included |
| Numbers.WriteDigits | cores/epoxy/avr_stdlib.cpp:49 | the text and its NUL are written at the place asked for and nothing else in the destination changes |
| Numbers.Ultoa | cores/epoxy/avr_stdlib.cpp:120-142 | the destination begins with the text of the number in the base (10 for a base out of range) and is otherwise untouched |
| Numbers.Utoa | cores/epoxy/avr_stdlib.cpp:56-78 | the same for 32 bits |
| Numbers.SignedTextIs | cores/epoxy/avr_stdlib.cpp:83-142 | what a signed number is written as: in base 10, which stands for any base out of range, its magnitude behind a sign; in other bases the number or its two's complement |
| Numbers.Ltoa | cores/epoxy/avr_stdlib.cpp:83-115 | with a sign in base 10, down to the least number, and in two's complement in other bases |
| Numbers.Itoa | cores/epoxy/avr_stdlib.cpp:19-51 | the same for 32 bits |
| Numbers.FillForPrint | cores/epoxy/Print.cpp:240-253 | the digits of any number in any base that fits a byte, within the 65-place buffer |
| Numbers.PrintNumber | cores/epoxy/Print.cpp:238-256 | prints the text up to its first NUL, in any base that fits a byte; the whole text up to base 208 |
| Numbers.TextIsWholeIff | cores/epoxy/Print.cpp:238-256 | a base prints every number whole if and only if it is at most 208; in every larger base 208 loses all its digits |
| Numbers.NoNulInText | cores/epoxy/Print.cpp:252 | no digit below 208 becomes a NUL |
| Numbers.PrintLong | cores/epoxy/Print.cpp:91-105 | the text that ltoa makes in the bases it knows; base 0 writes one byte; other bases print the unsigned number, which for bases that are 0 or 1 as a byte is what base 10 prints if and only if the number is not negative |
| Numbers.UnsignedTextIff | cores/epoxy/Print.cpp:91-105 | the decimal text of a long printed as if it were unsigned is its signed text if and only if it is not negative |
| Numbers.AccumulateIsValue | cores/epoxy/Stream.cpp:147-148 | evaluating digits from the left gives the value of the text |
| IpAddress.IPAddress.FromString | cores/epoxy/IPAddress.cpp:49-87 | result and stored bytes, also when it fails half way |
| IpAddress.IPAddress.ToString | cores/epoxy/IPAddress.cpp:118-132 | the four bytes in decimal with dots between them |
| IpAddress.IPAddress.PrintTo | cores/epoxy/IPAddress.cpp:106-116 | the same text |
| IpAddress.ScanAcceptsIff | cores/epoxy/IPAddress.cpp:54-86 | from inside a run, the rest is accepted just when it completes four runs of at most 255; stopping at the first digit that goes above 255 loses nothing |
| IpAddress.AcceptsExactlyAddresses | cores/epoxy/IPAddress.cpp:49-87 | accepts exactly digits and three dots whose four runs are each worth at most 255, an empty run counting as 0, and stores these four values |
| IpAddress.FailureStores | cores/epoxy/IPAddress.cpp:54-84 | when the text is refused, just the runs in front that are complete, digits and at most 255 have been stored |
| IpAddress.PrintedAddress | cores/epoxy/IPAddress.cpp:118-132 | the text of an address is such a text: its four runs are the decimal texts of the bytes, without leading zeros |
| IpAddress.RoundTrip | cores/epoxy/IPAddress.cpp:49-132 | parsing the text of an address gives the address back |
| Mdns.AsyncSearch.AddResult | libraries/EpoxymDNS/ESPmDNS.cpp:63-85 | merges into the entry with the same key, or appends while there is room |
| Mdns.AsyncSearch.MergeTxt | libraries/EpoxymDNS/ESPmDNS.cpp:72-76 | all records of both, those already there winning |
| Mdns.AsyncSearch.OnResolve | libraries/EpoxymDNS/ESPmDNS.cpp:310-321 | an answer adds its result and takes one resolver off, never below zero |
| Mdns.AsyncSearch.OnBrowse | libraries/EpoxymDNS/ESPmDNS.cpp:347-375 | what each browser event changes |
| Mdns.AsyncSearch.IsSearchComplete | libraries/EpoxymDNS/ESPmDNS.cpp:1005-1029 | the three ways for a search to be complete, the timeout in 32-bit arithmetic |
| Mdns.AsyncSearch.LookAt | libraries/EpoxymDNS/ESPmDNS.cpp:1039-1050 | marks the search and calls the notifier just when it is complete and was not marked |
| Mdns.AddedIsSummary | libraries/EpoxymDNS/ESPmDNS.cpp:63-85 | one more arrival turns the report of all arrivals so far into the report that counts it |
| Mdns.RunReportsSummary | libraries/EpoxymDNS/ESPmDNS.cpp:63-85 | over every run a search holds the first max_results distinct keys (all when 0), each with the first usable address and the union of its TXT records |
| Mdns.KeysInOrderOfArrival | libraries/EpoxymDNS/ESPmDNS.cpp:63-85 | the keys reported are in order of first arrival |
| Mdns.FirstAddressIsFirst | libraries/EpoxymDNS/ESPmDNS.cpp:68-71 | the address reported is the first one that is not 0.0.0.0, and 0.0.0.0 only if there is none |
| Mdns.FirstTxtIsFirst | libraries/EpoxymDNS/ESPmDNS.cpp:72-76 | a TXT record is reported if and only if it arrived, with the value that arrived first |
| Mdns.OutstandingIsWaiting | libraries/EpoxymDNS/ESPmDNS.cpp:310-363 | the counter is the number of resolvers started that have not answered |
| Mdns.NotifiedExactlyOnce | libraries/EpoxymDNS/ESPmDNS.cpp:1031-1051 | the notifier runs at the first look that finds the search complete, once, and not at all if none does |
| Mdns.CompleteIff | libraries/EpoxymDNS/ESPmDNS.cpp:1005-1029 | told from the events of any run: a search is complete if and only if every resolver has answered and the browser is done or as many services as asked for were found, or its timeout is over, 32-bit wrap included |
| Mdns.LookNotifies | libraries/EpoxymDNS/ESPmDNS.cpp:1031-1051 | a look at a search in one of these states leaves the notifier called, once |
| Mdns.NaturalEndHeardAll | libraries/EpoxymDNS/ESPmDNS.cpp:1010-1020 | a search that is complete without a timeout has heard from all its resolvers |
| Mdns.CompletionLapsesIff | libraries/EpoxymDNS/ESPmDNS.cpp:1005-1029 | a complete search becomes incomplete again if and only if a resolver is started and the timeout is not over |
| Mdns.LapsesAfterNotice | libraries/EpoxymDNS/ESPmDNS.cpp:1005-1051 | the run in which a search is complete, its notifier is called, and a further resolver makes it incomplete again |
| Mdns.TimeoutSurvivesWrap | libraries/EpoxymDNS/ESPmDNS.cpp:1023-1026 | the timeout is met across a wrap of the 32-bit clock |
| Eeprom.UsedSizeIsEnough | libraries/EpoxyEepromEsp/src/EpoxyEepromEsp.cpp:32-44 | the size used on each core: clamped to 4096 and rounded up by less than 4, refused above 65535, or as asked for |
| Eeprom.EpoxyEeprom.Open | libraries/EpoxyEepromEsp/src/EpoxyEepromEsp.cpp:32-75 | when it succeeds and what buffer, size and flag are then; nothing changes when it fails or the size is the same |
| Eeprom.EpoxyEeprom.Commit | libraries/EpoxyEepromEsp/src/EpoxyEepromEsp.cpp:77-88 | nothing is written when there is nothing to write; otherwise the file is replaced, and the flag is cleared only if all of it was written and closed |
| Eeprom.EpoxyEeprom.WriteByte | libraries/EpoxyEepromEsp/src/EpoxyEepromEsp.h:62-68 | stores the byte and marks the buffer only when it differs |
| Eeprom.EpoxyEeprom.PutBytes | libraries/EpoxyEepromEsp/src/EpoxyEepromEsp.h:114-121 | stores the bytes and marks the buffer only when they differ |
| Eeprom.EpoxyEeprom.Read | libraries/EpoxyEepromEsp/src/EpoxyEepromEsp.h:58-60 | the byte of the buffer at the address |
| Eeprom.EpoxyEeprom.Get | libraries/EpoxyEepromEsp/src/EpoxyEepromEsp.h:102-105 | the bytes that reading one by one would deliver |
| Eeprom.EpoxyEeprom.Close | libraries/EpoxyEepromEsp/src/EpoxyEepromEsp.h:128-135 | nothing is left of the buffer; the file is not touched |
| Eeprom.EpoxyEeprom.EndUse | libraries/EpoxyEepromEsp/src/EpoxyEepromEsp.h:74-85 | commits and closes, also when it could not save, and says whether it could |
| Eeprom.CleanBufferShowsFile | libraries/EpoxyEepromEsp/src/EpoxyEepromEsp.h:62-135 | over every run, failing file calls included, a clean buffer is the file padded with 0xFF |
| Eeprom.WritingTheSameIsFree | libraries/EpoxyEepromEsp/src/EpoxyEepromEsp.h:62-121 | writing changes nothing, not even the dirty flag, if and only if the bytes are there already |
| Eeprom.SkippedCommitIsUnobservable | libraries/EpoxyEepromEsp/src/EpoxyEepromEsp.cpp:78 | skipping a clean commit shows nowhere below the size, and elsewhere if and only if the file goes on with something behind the size |
| Eeprom.ViewAfter | libraries/EpoxyEepromEsp/src/EpoxyEepromEsp.cpp:32-88 | what each operation does to what each address reads |
| Eeprom.ResizeIsHarmlessIff | libraries/EpoxyEepromEsp/src/EpoxyEepromEsp.cpp:44-74 | begin() with another size shows nowhere, whatever the contents, if and only if the EEPROM is not dirty |
| Eeprom.RemembersLastWritten | libraries/EpoxyEepromEsp/src/EpoxyEepromEsp.h:58-135 | through any number of end() and begin() of any size an address reads what was last written to it, if saving works, no begin() drops uncommitted bytes and nothing is saved from an EEPROM too small to hold it |
| WiFi.WiFiClass.QueueEvent | libraries/EpoxyMockWiFi/WiFi.cpp:90-100 | the event is appended with its due time in 32 bits, or dropped when there is no handler |
| WiFi.WiFiClass.ServicePendingEvents | libraries/EpoxyMockWiFi/WiFi.cpp:102-114 | the oldest event is handed out if it is due, and nothing else |
| WiFi.WiFiClass.ServiceAsyncScan | libraries/EpoxyMockWiFi/WiFi.cpp:116-131 | a finished scan queues its event once |
| WiFi.WiFiClass.YieldService | libraries/EpoxyMockWiFi/WiFi.cpp:133-139 | a service pass finishes a scan and then hands out at most one event |
| WiFi.WiFiClass.JoinNetwork | libraries/EpoxyMockWiFi/WiFi.cpp:322-451 | status, address and events of an attempt to join |
| WiFi.WiFiClass.TryNetwork | libraries/EpoxyMockWiFi/WiFi.cpp:343-409 | the outcome per network; a static address survives every outcome |
| WiFi.WiFiClass.Leave | libraries/EpoxyMockWiFi/WiFi.cpp:479-505 | disconnect |
| WiFi.WiFiClass.StartSoftAp | libraries/EpoxyMockWiFi/WiFi.cpp:636-654 | softAP |
| WiFi.WiFiClass.StopSoftAp | libraries/EpoxyMockWiFi/WiFi.cpp:698-731 | softAPdisconnect |
| WiFi.WiFiClass.ChangeMode | libraries/EpoxyMockWiFi/WiFi.cpp:737-770 | mode |
| WiFi.WiFiClass.ResetMock | libraries/EpoxyMockWiFi/WiFi.cpp:1010-1039 | mockReset leaves the started flags, the handlers and the queue alone |
| WiFi.RunIsFifo | libraries/EpoxyMockWiFi/WiFi.cpp:90-114 | over every run, what was handed out and what waits are together what was queued, in order, nothing before the due time kept for it |
| WiFi.NoEventIsLost | libraries/EpoxyMockWiFi/WiFi.cpp:90-114 | events handed out followed by events waiting are the events queued |
| WiFi.DueIff | libraries/EpoxyMockWiFi/WiFi.cpp:95-110 | the delay is respected if and only if the due time fits 32 bits; otherwise the event is due at once |
| WiFi.NeverEarly | libraries/EpoxyMockWiFi/WiFi.cpp:90-114 | no event is handed out before its time while the clock is below 2^32 ms |
| WiFi.EarlyAfterWrap | libraries/EpoxyMockWiFi/WiFi.cpp:98-108 | a run beyond that in which a connection is announced 2 ms early |
| WiFi.PassesDrainQueue | libraries/EpoxyMockWiFi/WiFi.cpp:102-114 | nothing gets stuck: as many passes as there are due events hand all of them out, in order |
| WiFi.CallTells | libraries/EpoxyMockWiFi/WiFi.cpp:322-770 | every call keeps the started flags in agreement with the events queued, and their order permitted |
| WiFi.HandlerHearsOrderly | libraries/EpoxyMockWiFi/WiFi.cpp:322-770 | over every run with a handler from the start, mockReset() included, what it hears is orderly: stops, connections and disconnections only while started, an address only right behind its connection |
| WiFi.Alternates | libraries/EpoxyMockWiFi/WiFi.cpp:333-337 | in an orderly sequence starts and stops of the station alternate beginning with a start, and so do those of the access point |
| WiFi.SafeToRegisterIff | libraries/EpoxyMockWiFi/WiFi.cpp:90-100 | for all calls before and after: a first handler hears only orderly events, whatever is called later, if and only if neither the station nor the access point is started when it is registered |
| WiFi.LateHandlerMissesStart | libraries/EpoxyMockWiFi/WiFi.cpp:90-93 | the shortest run of that kind: a handler registered after mode(WIFI_STA) first hears a stop |
| WiFi.NetworkIs | libraries/EpoxyMockWiFi/WiFi.cpp:322-451 | over every run: the status is what the name of the network last tried says, the flappy one by turns, unless the station was left since; an address set by config() is kept until mockReset(); otherwise the address is the one the host gave at the last begin(), or none |
| WiFi.BeginQueues | libraries/EpoxyMockWiFi/WiFi.cpp:333-451 | what begin() tells a handler after any calls: the start at once if the station was not started, then a connection after 2 ms and an address after 4, or a disconnection after 2 |
| WiFi.LeavingQueues | libraries/EpoxyMockWiFi/WiFi.cpp:479-731 | what disconnect(), softAP() and softAPdisconnect() tell a handler, at once and in which order |
| WiFi.ModeQueues | libraries/EpoxyMockWiFi/WiFi.cpp:737-770 | what mode() tells it: station first, then access point |
| WiFi.ScanIsAnnouncedIff | libraries/EpoxyMockWiFi/WiFi.cpp:813-850 | a scan begun is announced by a service if and only if that comes no earlier than its time, of at least 1 ms, and then it is over |
| WiFi.EnableKeepsOtherIff | libraries/EpoxyMockWiFi/WiFi.cpp:781-801 | enableSTA() and enableAP() switch their own half of the mode, and leave the other half alone if and only if it is off or their own was not already as asked for |
| WiFi.CallsSetMode | libraries/EpoxyMockWiFi/WiFi.cpp:636-770 | what begin(), softAP(), softAPdisconnect(), disconnect() and mode() make of each half of the mode; leaving the access point keeps the station only when both were on |

## Left out

- WString.String.ReplaceGrowing: says nothing about the string after an overrun, where the program writes outside its buffer.
- WString.String.Reserve: lengths are unbounded; a length of 2^32 and more, where `unsigned int` wraps, is not modelled.
- WString.String.ReplaceShrinking: copies between overlapping parts of the buffer by `memcpy` and `strcpy`, which the language leaves undefined, are taken as correct overlapping copies; so too in `remove` and `trim`.
- Numbers.PrintLong: negating the least long is taken to wrap, as it does on the hosts meant.
- Base64.ToBase64: the counter is unbounded; more than 2^31 - 1 bytes, where `int` overflows, are not modelled.
- ParseInt.ParseLong: after an overflow the value is the mathematical one, not what the machine makes of it.
- Numbers.PrintNumber: `char` is taken to be signed; where it is not, digits from 128 on have other characters.
- Injector.EventInjector.DelayUs: its spin is modelled as the passes made while it waits; without an injector the clock simply moves.
- Injector.TimeIsConserved: passes are atomic in it; single accesses are the subject of TimeForward.
- Injector.EveryRunIsOrderlyAndOnTime: holds for runs whose keys are not before the clock; `do_reset`, which nothing sets, is not modelled.
- Timeline.ScriptKeepsItsTimes: for scripts without `at`, which goes on with the next line at once and again when its time has come, and without lines that hand over to an event of their own; how the raises of an `at` line follow each other is the subject of Lines.
- Timeline.WaitUnderScript: events outside the script chain nothing for the time they are raised at.
- Script.StreamKeepsTimetable: for a stream whose event is inserted at the time it was built; with a delay its first tick is still the time of construction.
- Lines.LineIsRaisedInTime: what a `pin` command does to the pin is not modelled, only when it is acted on; built events and events from elsewhere do not chain lines.
- Script.BitStream.Raise: parsing of durations, pin numbers and other script commands, and the throttling of the out-of-sync message, are not modelled.
- Wait.WaitIsExact: simulated time only; handlers and callbacks are not attached or detached during the wait, and the wake-up modes, which behave as ONLOW and ONHIGH, are not listed apart.
- Watchdog.FrozenLoopIsExpired: counts polls, not the 20 ms between them; ending the process is not modelled.
- IpAddress.IPAddress.ToString: memory is taken to suffice.
- Mdns.AsyncSearch.LookAt: a notifier that deletes its own search is not modelled.
- Mdns.NotifiedExactlyOnce: speaks of one search; the table of searches and the Avahi calls are not modelled.
- Eeprom.RemembersLastWritten: writes through `operator[]`, which bypass the dirty flag, are not modelled.
- WiFi.WiFiClass.JoinNetwork: names, passphrases, gateways, DNS and the contents of events are left out, and one call reads the clock once.
- WiFi.HandlerHearsOrderly: scan results themselves are not modelled, only the event of a finished scan.
- Clocks in microseconds and milliseconds are unbounded; the wrap of `unsigned long` after 2^64 is not modelled.
- `String::move` when it keeps the destination's buffer, and appending a string to itself: the string does not keep its invariant there.
- Floating point in `Print`, `Stream` and `String`; case conversion and the other one-loop members of `String`: easy members.
- Real time: the wall-clock branch of the wait, stream timeouts, `usleep`.
- Terminal, files, sockets, Avahi, process termination and the stubs of other hardware: foreign calls.
