# Verified models of the game server's core

These Dafny files model the parts of the repository that carry the most state and branching, and prove what they
promise. `dafny verify dfyconfig.toml` checks all of it.

**URL parser** (`Url*.dfy`). `url.js` is a character-by-character machine of nineteen states over a cursor, a buffer
and eleven fields, with two places where the cursor goes back, inheritance from a base, a printer, and setters that
re-enter the machine in the middle. `UrlMachine` gives the machine as functions, state by state, with exceptions as
outcomes: `?` after a scheme without hierarchy raises one (an undeclared variable in strict mode, line 148), and so
does `file:` without a base where the code reads the base. `UrlObject` is the object itself, with the loop and the
case code updating fields in place, proved against those functions. About the functions are proved: an invariant
over every sequence of calls, a bound on the number of rounds, where the rewind of an authority lands, that exactly
the canonical objects survive printing and parsing, that construction makes canonical objects, exactly which texts
raise an exception (`UrlOutcome`), exactly when each setter can write a component back and exactly which arguments
keep a canonical object canonical (`UrlKeeps`), what each setter leaves alone, what escaping spells, with a decoder
of its own (`UrlEscape`), what is stored of any text in each part and by the whole construction (`UrlExact`,
`UrlWeb`), and that reference resolution is that of RFC 3986, whose algorithms `UrlRfc3986` writes out on strings.
The code and the standards differ in places; the model follows the code, so a second `@` adds `%40` after the text
before it and not in the place of the first, and a file URL that goes on with no slash takes over host, port and
path of a base of another scheme. That is the one case in which an accepted text may not survive printing;
`UrlBorrow` says exactly when it does.

**Alarm service** (`Alarm*.dfy`). `DefaultAlarmManager` keeps a priority queue, a map of live alarms, one timer and
a persistent store, deletes lazily, and creates and cancels in two phases. `AlarmModel` is a transition system whose
steps are what a thread does between taking and releasing the locks, one round of the draining loop, or one call on
the backend; time, timers firing, and a crash are steps too, and so is a crash in the middle of a round, between the
hand-over of an alarm to the executor and the update of the backend. `AlarmAgenda`, `AlarmRecovery` and
`AlarmTiming` prove the agreement of queue, map and store, the finality of cancellation, recovery after a crash,
that no wake-up is lost, and the bound of 100 ms on lateness, over every run. `AlarmOnce` says how often an alarm is
fired: at most once for each deadline, and once more for each crash in the middle of its firing; `AlarmDelivery`
shows that an alarm that is not cancelled is fired to the end however often the process crashes. `AlarmPeriod` gives
the deadlines for which it is fired, and `AlarmTimers` which timers are pending. `AlarmManager` describes the
draining loop on a sorted queue and shows that its rounds are steps of the transition system; `AlarmService` holds
the classes, proved against it. Assumed: the clock does not go back, backend and executor do not throw inside a run
(the alarm would have left queue and map, and line 213 would set no timer, against what `NoLostWakeup`,
`LiveAlarmFires` and `SurvivesCrashes` say), repeat intervals are not negative, callbacks run on another thread,
persistent alarms are created after the service has started, and `StartReads` begins the period from which lateness
is counted. That at most one timer is pending is not claimed: line 195 drops a reference without cancelling the
timer.

**Small document tree** (`SmallDom.dfy`). The nodes of `dom.js` are objects with parent, sibling and child links. A
snapshot of all links of a set of nodes is a value; on it are stated what well-formed links are (they spell out one
child list per node, a ghost field) and what each operation does. The methods change the links in place and are
proved to have those effects, so every sequence of calls in which no node is put under itself or a node below it
keeps the links well formed. `insertBefore` does not: line 104 assigns a field to itself, and the model says exactly
when that matters. A deep clone is described by the tree a node looks like; the code copies the text of texts only,
so a clone of an element that was given text content differs, and the model says exactly when source and clone look
alike.

**Manifest reader** (`Manifest.dfy`), **place tokens** (`Places.dfy`), **mana symbols** (`Mana.dfy`). The manifest
reader shares an array with its recursive call; its result is described by the keys of a JavaScript object, which
lists index-like names first. `KeysAreFirstOccurrences` says exactly when that is the deduplication in order. Place
tokens and mana symbols are printers with parsers; for both the round trip is proved, for place tokens with the
exact condition (the library splitter trims entries and drops empty ones), and for both it is said exactly which
strings are read, and as what. Parameters are ordered pairs, as the map keeps them.

**Test harness** (`Harness*.dfy`). Test and Tests are a phase machine with a counter. A step of a test is split into
its beginning and its end, so that what a test function does meanwhile, such as calling done or registering tests,
is a sequence of further calls. Assumed: the result callbacks neither call back nor throw; after a throw at lines
1445-1450 the harness would take itself to be inside its callbacks for good, against what `ReportedOnce` and
`StepOrderly` say. That every test registered before completion is reported exactly once turns out to fail for a
test that throws a value whose message or stack cannot be read or turned into text, `null` and `undefined` being the
simple cases: recording the value throws again, the test stays failed and open, and completion passes over it. The
model describes thrown values by what reading their properties gives, and shows that this is the only way.
`HarnessVerdict` gives the verdict on every test, the status of the harness, its phase, and when it completes, by
the calls that were made.

`Text`, `Splitters` and `Wrappers` hold what several modules share.

## Model

| member | source | states |
|---|---|---|
| UrlRoundTrip.ParsePrintParse | src/com/morgan/server/polymer/resources/URL/url.js:456-483 | for every ASCII text that the constructor accepts, without a base or with a canonical one, constructing from the printed object, against any base, gives the same object in every field if and only if the text does not borrow from a base of another scheme, or the base lends what can be printed |
| UrlBorrow.ConstructCanonical | src/com/morgan/server/polymer/resources/URL/url.js:456-467 | under the same condition on text and base, and only then, the object that construction completes is canonical |
| UrlBorrow.BorrowedCanonical | src/com/morgan/server/polymer/resources/URL/url.js:181-223 | a text "file:" that goes on with neither a slash nor a lone drive letter takes host and port from a base of another scheme, and the base's path or its directory with the text's segments; the object is canonical if and only if there is no port, the host is no drive, and the path is there and does not begin with a drive spelled with a bar |
| UrlBorrow.KeepsOff | src/com/morgan/server/polymer/resources/URL/url.js:191-243 | a file URL that goes on with a slash or a lone drive letter reads the same against every base |
| UrlBorrow.PathRun | src/com/morgan/server/polymer/resources/URL/url.js:385-418 | on any text the path state pushes the segments that the text spells, escaped, up to the query, the fragment or the end |
| UrlEscape.EscapeExact | src/com/morgan/server/polymer/resources/URL/url.js:50-80 | every ASCII character outside the printable ones but " # < > ? and the backquote is escaped as '%' and two upper-case hexadecimal digits of its code, and a character inside stays as it is; in a query the same with '?' inside |
| UrlEscape.DecodeSpelled | src/com/morgan/server/polymer/resources/URL/url.js:50-80 | decoding a text that is escaped so gives what the text itself decodes to, and the text where it has no '%', tabs and line ends left out |
| UrlEscape.SpellsUnique | src/com/morgan/server/polymer/resources/URL/url.js:50-80 | only one string spells a text so |
| UrlExact.SegmentsDecode | src/com/morgan/server/polymer/resources/URL/url.js:385-418 | each segment that the path state pushes decodes to what the segment of the text does, and to that segment where it has no '%', tabs and line ends left out |
| UrlExact.PathFrom | src/com/morgan/server/polymer/resources/URL/url.js:385-434 | on any ASCII text the path state pushes segments that spell those of the text and goes on to a query and a fragment that spell what follows; under the override of the pathname setter the whole text is a path |
| UrlExact.QueryFrom | src/com/morgan/server/polymer/resources/URL/url.js:420-434 | on any ASCII text the query state appends what spells the text up to the '#', and the fragment is what follows without tabs and line ends; under the override the whole text is a query |
| UrlExact.SearchExact | src/com/morgan/server/polymer/resources/URL/url.js:541-548 | on any ASCII text the search setter leaves a mark and what spells the text without its own mark, and changes nothing else |
| UrlExact.PathnameExact | src/com/morgan/server/polymer/resources/URL/url.js:530-535 | on any ASCII text the pathname setter pushes segments that spell those of the text, without one slash in front, on an empty path |
| UrlExact.DataFrom | src/com/morgan/server/polymer/resources/URL/url.js:146-159 | on any ASCII text with no '?' before the fragment the scheme data spells the text up to the '#' |
| UrlExact.UserExact | src/com/morgan/server/polymer/resources/URL/url.js:279-292 | user information: the name spells the text before the first ':', the password what follows it, and there is none without ':' |
| UrlExact.PushExact | src/com/morgan/server/polymer/resources/URL/url.js:390-407 | which spellings are dot segments, and what each kind of segment does to the path |
| UrlExact.ClassesExact | src/com/morgan/server/polymer/resources/URL/url.js:82-84 | the classes of characters, by their codes |
| UrlExact.DriveExact | src/com/morgan/server/polymer/resources/URL/url.js:191-201 | what a lone drive letter is, in a text and as a host |
| UrlWeb.ConstructWeb | src/com/morgan/server/polymer/resources/URL/url.js:456-467 | construction on any ASCII text with a hierarchical scheme other than file: every slash after the scheme is skipped; user information, host, port, path, query and fragment are those that the text spells; no host, or anything but digits in a port, makes the object invalid |
| UrlWeb.ConstructFile | src/com/morgan/server/polymer/resources/URL/url.js:456-467 | construction on any ASCII file URL that needs no base: after two slashes a host, or a drive that begins the path; else the path; then query and fragment |
| UrlWeb.ConstructOpaque | src/com/morgan/server/polymer/resources/URL/url.js:456-467 | construction on any ASCII text with a scheme without hierarchy and no '?' in its data: scheme, data and fragment |
| UrlWeb.PortsExact | src/com/morgan/server/polymer/resources/URL/url.js:20-39 | the hierarchical schemes and the ports they need not name |
| UrlWeb.TrimExact | src/com/morgan/server/polymer/resources/URL/url.js:463 | blanks, tabs, line ends and form feeds are taken off both ends, and nothing else |
| UrlWeb.HostEndsExact | src/com/morgan/server/polymer/resources/URL/url.js:323-352 | the host is what stands before the first delimiter or colon outside brackets, tabs and line ends left out |
| UrlWeb.OpenBracketExact | src/com/morgan/server/polymer/resources/URL/url.js:345-350 | a bracket is open where some '[' has no ']' after it |
| UrlRoundTrip.BareFile | src/com/morgan/server/polymer/resources/URL/url.js:181-190 | the text "file:" alone on a canonical base of another scheme comes back from print exactly when that base has no port, a host that is no drive, and a path that is there and does not begin with a drive spelled with a bar |
| UrlRoundTrip.ForeignBase | src/com/morgan/server/polymer/resources/URL/url.js:181-190 | the base that prints as http://h:81/ is one that construction makes, and the text "file:" on it makes an object that does not come back from print |
| UrlRoundTrip.ParseHref | src/com/morgan/server/polymer/resources/URL/url.js:470-483 | printing any canonical object and parsing it again gives it back in every field: scheme, scheme data, user information, host, port, path, query, fragment |
| UrlRoundTrip.CanonicalExact | src/com/morgan/server/polymer/resources/URL/url.js:456-483 | a valid object survives printing and parsing if and only if it is canonical |
| UrlInvariant.EveryRunSound | src/com/morgan/server/polymer/resources/URL/url.js:440-561 | after a construction and any sequence of setter calls: no path segment is a dot segment in any spelling or holds a separator or blank, query and fragment are empty or start with their mark, and an invalid object is cleared |
| UrlInvariant.ConstructSound | src/com/morgan/server/polymer/resources/URL/url.js:456-467 | whatever the outcome of a construction, an exception included, the object obeys the invariant |
| UrlInvariant.ApplySound | src/com/morgan/server/polymer/resources/URL/url.js:484-561 | every setter keeps the invariant, on every argument and also when it ends in an exception |
| UrlInvariant.CallsSound | src/com/morgan/server/polymer/resources/URL/url.js:484-561 | any sequence of setter calls keeps the invariant |
| UrlInvariant.RunKeeps | src/com/morgan/server/polymer/resources/URL/url.js:95-437 | the parsing loop keeps the invariant from any state, with or without an override |
| UrlInvariant.StepKeeps | src/com/morgan/server/polymer/resources/URL/url.js:97-434 | each case of the switch keeps the invariant, given what the state's buffer may hold |
| UrlInvariant.StepReady | src/com/morgan/server/polymer/resources/URL/url.js:97-434 | each case leaves a buffer that fits the state it goes to |
| UrlMachine.StepProgress | src/com/morgan/server/polymer/resources/URL/url.js:95-437 | every round that goes on lowers the pair of state rank and remaining input, also where the cursor is set back |
| UrlCursor.ParseRounds | src/com/morgan/server/polymer/resources/URL/url.js:95-437 | no parse takes more than 19 * (n + 2) rounds on n characters, and the cursor stays within the input at the start of each |
| UrlCursor.TraceRounds | src/com/morgan/server/polymer/resources/URL/url.js:95-437 | in a trace of the loop each round costs at least one unit of a budget that is linear in the input, and the cursor stays between 0 and n + 1 |
| UrlAuthority.AuthorityToHost | src/com/morgan/server/polymer/resources/URL/url.js:272-302 | reading an authority ends in the host state exactly after its last '@', or at its start, with everything before read as user information; a repeated '@' counts as "%40" |
| UrlAuthority.HostStart | src/com/morgan/server/polymer/resources/URL/url.js:273-298 | the place to which the cursor goes back: no '@' follows it, and it is the start or stands after one |
| UrlSetters.SetterFrame | src/com/morgan/server/polymer/resources/URL/url.js:489-561 | no setter other than href raises an exception, and each changes only its own field (host also the port), unless the object becomes invalid |
| UrlSetters.PathnameWriteBack | src/com/morgan/server/polymer/resources/URL/url.js:526-535 | assigning pathname its own value changes nothing if and only if the path is not empty and, on a file URL, does not start with a drive letter and a bar |
| UrlSetters.HostWriteBack | src/com/morgan/server/polymer/resources/URL/url.js:498-506 | assigning host its own value changes nothing if and only if the host is not empty, its colons are bracketed, and no bracket is open in front of a port |
| UrlSetters.PortWriteBack | src/com/morgan/server/polymer/resources/URL/url.js:517-524 | assigning port its own value changes nothing |
| UrlSetters.SearchWriteBack | src/com/morgan/server/polymer/resources/URL/url.js:537-548 | assigning search its own value changes nothing if and only if there is a query, if only its mark |
| UrlSetters.HashWriteBack | src/com/morgan/server/polymer/resources/URL/url.js:550-561 | assigning hash its own value changes nothing if and only if there is a fragment, if only its mark |
| UrlSetters.CanonicalWriteBack | src/com/morgan/server/polymer/resources/URL/url.js:498-535 | on every canonical hierarchical object that is no file URL, pathname, host and port can be written back |
| UrlSetters.HostnameWriteBack | src/com/morgan/server/polymer/resources/URL/url.js:508-516 | assigning hostname its own value changes nothing if and only if the host is not empty and its colons are bracketed |
| UrlSetters.ProtocolWriteBack | src/com/morgan/server/polymer/resources/URL/url.js:489-496 | on every printable object, assigning protocol its own value changes nothing |
| UrlSetters.HrefWriteBack | src/com/morgan/server/polymer/resources/URL/url.js:484-487 | assigning a valid object's href its own value changes nothing if and only if the object is printable, that is canonical but for a final blank in the fragment, which this setter does not trim |
| UrlSetters.DriveLost | src/com/morgan/server/polymer/resources/URL/url.js:492-535 | the path of one segment, the letter c and a bar, on http://h, and then the protocol file, make a file URL whose path changes when it is written back |
| UrlOutcome.ConstructRaises | src/com/morgan/server/polymer/resources/URL/url.js:112-223 | on every ASCII text and any base, construction raises an exception if and only if the trimmed text is a file URL that goes on with neither slash nor lone drive letter while there is no base, or has a scheme without hierarchy and a '?' before any '#' |
| UrlOutcome.HrefRaises | src/com/morgan/server/polymer/resources/URL/url.js:484-487 | assigning href raises an exception on exactly the same texts, untrimmed and as without a base |
| UrlKeeps.KeepsExact | src/com/morgan/server/polymer/resources/URL/url.js:489-561 | which arguments of each setter other than href leave a canonical object canonical, as a condition on argument and object before the call: all for pathname and search, for hash those that end in no blank, for protocol a scheme of the same kind (and, to or from file, user information, host, port and path that the new scheme can print), for host and hostname a host that is there, is no drive on a file URL, and elsewhere has no '@' and no bracket open before a port, for port what reads as none, or any number on a URL that is no file URL and whose host has no bracket open |
| UrlKeeps.SetterSurvives | src/com/morgan/server/polymer/resources/URL/url.js:470-561 | construct, set, print, parse: after a setter on a canonical object the printed text gives the object back if and only if the argument was such a one |
| UrlKeeps.CallsKeep | src/com/morgan/server/polymer/resources/URL/url.js:470-561 | after any sequence of such calls the object is canonical and survives printing |
| UrlKeeps.ProtocolExact | src/com/morgan/server/polymer/resources/URL/url.js:492-496 | on any text the protocol setter takes over the scheme up to the first colon, or changes nothing when there is none |
| UrlKeeps.HostExact | src/com/morgan/server/polymer/resources/URL/url.js:323-374 | on any text the host setter takes over the characters up to the first delimiter or bare colon, tabs and line ends left out, and then the leading digits after a colon as port; an empty host invalidates |
| UrlKeeps.HostnameExact | src/com/morgan/server/polymer/resources/URL/url.js:323-352 | on any text the hostname setter takes over the same host and no port |
| UrlKeeps.PortExact | src/com/morgan/server/polymer/resources/URL/url.js:353-374 | on any text the port setter takes over the leading digits as a number without leading zeros, unless there are none or they name the scheme's own port |
| UrlKeeps.HashExact | src/com/morgan/server/polymer/resources/URL/url.js:550-561 | on any text the hash setter stores it after one mark, tabs and line ends left out |
| UrlKeeps.SpaceLost | src/com/morgan/server/polymer/resources/URL/url.js:470-561 | the fragment "a " assigned to http://h/ is lost by printing and constructing, and kept by assigning href its own value |
| UrlSetters.HostLost | src/com/morgan/server/polymer/resources/URL/url.js:492-506 | the text file:///x and the protocol http make a valid hierarchical object that is no file URL and that assigning its own host invalidates |
| UrlSetters.HostInvalidates | src/com/morgan/server/polymer/resources/URL/url.js:323-352 | assigning host or hostname invalidates the object if and only if no host character comes before the first delimiter or colon |
| UrlRfc3986.ResolvesByRfc | src/com/morgan/server/polymer/resources/URL/url.js:161-243 | a plain reference without scheme and authority, on a canonical base that is no file URL, resolves to the path, query and fragment that section 5.2.2 of RFC 3986 gives, with the base's scheme, host and port, and without user information |
| UrlRfc3986.AuthorityByRfc | src/com/morgan/server/polymer/resources/URL/url.js:186-199 | the target's authority is the base's, as section 5.2.2 of RFC 3986 wants, if and only if the base has no user information |
| UrlRfc3986.UserLost | src/com/morgan/server/polymer/resources/URL/url.js:186-219 | the base that prints as http://u@h/ is one that construction makes, and the reference x resolved on it loses the user information |
| UrlRfc3986.DotsAreSegments | src/com/morgan/server/polymer/resources/URL/url.js:385-418 | the parser's work on path segments is remove_dot_segments, section 5.2.4 of RFC 3986, on the path as text |
| UrlRfc3986.MergeSegments | src/com/morgan/server/polymer/resources/URL/url.js:208-219 | popping the base's last segment is the merge of section 5.2.3 of RFC 3986 |
| UrlScan.PathScan | src/com/morgan/server/polymer/resources/URL/url.js:385-418 | the rounds over a whole path push its segments one by one, and stop at the query, the fragment or the end |
| UrlScan.QueryScan | src/com/morgan/server/polymer/resources/URL/url.js:420-427 | the rounds over a plain query collect it unchanged up to the fragment or the end |
| UrlObject.JUrl.constructor | src/com/morgan/server/polymer/resources/URL/url.js:456-461 | a new object is cleared and keeps the text it was given |
| UrlObject.JUrl.Make | src/com/morgan/server/polymer/resources/URL/url.js:456-467 | construction on the heap has the outcome and the fields of the model's construction |
| UrlObject.JUrl.Parse | src/com/morgan/server/polymer/resources/URL/url.js:83-438 | the loop over cursor, buffer and state, updating the fields in place, has the outcome and the fields of the model's parse |
| UrlObject.JUrl.Round | src/com/morgan/server/polymer/resources/URL/url.js:96-436 | one pass through the switch is one step of the model |
| UrlObject.JUrl.ReadUserInfo | src/com/morgan/server/polymer/resources/URL/url.js:279-292 | the inner loop over the buffer: blanks dropped, the first ':' starts the password, the rest escaped |
| UrlObject.JUrl.EndSegment | src/com/morgan/server/polymer/resources/URL/url.js:390-407 | the end of a path segment pushes, pops or skips as the model's PushSegment says |
| UrlObject.JUrl.Set | src/com/morgan/server/polymer/resources/URL/url.js:484-561 | every setter, on every object, does what the model's Apply says |
| UrlObject.JUrl.GetHref | src/com/morgan/server/polymer/resources/URL/url.js:470-483 | the getter prints the fields as the model does, and the original text of an invalid object |
| UrlObject.JUrl.Clear | src/com/morgan/server/polymer/resources/URL/url.js:440-452 | every component is reset |
| UrlObject.JUrl.Invalidate | src/com/morgan/server/polymer/resources/URL/url.js:39-42 | every component is reset and the object marked |
| UrlObject.JUrl.SchemeStartCase | src/com/morgan/server/polymer/resources/URL/url.js:98-110 | the case 'scheme start': fields, buffer, cursor and next state are those of the model's step |
| UrlObject.JUrl.SchemeCase | src/com/morgan/server/polymer/resources/URL/url.js:112-144 | the case 'scheme', with its way back to the start of the input: fields, buffer, cursor and next state are those of the model's step |
| UrlObject.JUrl.SchemeDataCase | src/com/morgan/server/polymer/resources/URL/url.js:146-159 | the case 'scheme data'; '?' raises the exception of the undeclared variable: fields, buffer, cursor and next state are those of the model's step |
| UrlObject.JUrl.NoSchemeCase | src/com/morgan/server/polymer/resources/URL/url.js:161-169 | the case 'no scheme': fields, buffer, cursor and next state are those of the model's step |
| UrlObject.JUrl.RelativeCase | src/com/morgan/server/polymer/resources/URL/url.js:181-223 | the case 'relative', with the exceptions of a missing base: fields, buffer, cursor and next state are those of the model's step |
| UrlObject.JUrl.RelativeSlashCase | src/com/morgan/server/polymer/resources/URL/url.js:225-243 | the case 'relative slash': fields, buffer, cursor and next state are those of the model's step |
| UrlObject.JUrl.AuthorityCase | src/com/morgan/server/polymer/resources/URL/url.js:272-302 | the case 'authority': fields, buffer, cursor and next state are those of the model's step |
| UrlObject.JUrl.FileHostCase | src/com/morgan/server/polymer/resources/URL/url.js:304-321 | the case 'file host': fields, buffer, cursor and next state are those of the model's step |
| UrlObject.JUrl.HostCase | src/com/morgan/server/polymer/resources/URL/url.js:323-351 | the cases 'host' and 'hostname': fields, buffer, cursor and next state are those of the model's step |
| UrlObject.JUrl.PortCase | src/com/morgan/server/polymer/resources/URL/url.js:353-374 | the case 'port': fields, buffer, cursor and next state are those of the model's step |
| UrlObject.JUrl.RelativePathCase | src/com/morgan/server/polymer/resources/URL/url.js:385-418 | the case 'relative path': fields, buffer, cursor and next state are those of the model's step |
| UrlObject.JUrl.QueryCase | src/com/morgan/server/polymer/resources/URL/url.js:420-427 | the case 'query': fields, buffer, cursor and next state are those of the model's step |
| UrlObject.JUrl.FragmentCase | src/com/morgan/server/polymer/resources/URL/url.js:429-433 | the case 'fragment': fields, buffer, cursor and next state are those of the model's step |
| UrlObject.JUrl.SlashCase | src/com/morgan/server/polymer/resources/URL/url.js:171-383 | the cases that only look for slashes take the model's steps and leave the object alone |
| AlarmAgenda.RunSound | src/com/morgan/server/alarm/DefaultAlarmManager.java:77-214 | in every reachable state of every interleaving, queue, live map, backend and calls in flight agree |
| AlarmAgenda.StepKeeps | src/com/morgan/server/alarm/DefaultAlarmManager.java:77-345 | each step of each call, at the granularity of the locks, keeps that agreement; so does a crash, also one between the hand-over of an alarm and the update of the backend |
| AlarmAgenda.QueueAgrees | src/com/morgan/server/alarm/DefaultAlarmManager.java:77-144 | each live alarm has exactly one queued occurrence, with the stored deadline if it is persistent; what else is queued is cancelled or being cancelled |
| AlarmAgenda.StepSparesCancelled | src/com/morgan/server/alarm/DefaultAlarmManager.java:192-214 | no step fires an alarm whose cancellation has returned |
| AlarmAgenda.CancelIsFinal | src/com/morgan/server/alarm/DefaultAlarmManager.java:138-144 | once cancel has returned, no later run hands the alarm to the executor, whatever calls, runs, crashes and restarts come between |
| AlarmRecovery.QuiescentAgenda | src/com/morgan/server/alarm/DefaultAlarmManager.java:103-113 | with no call or run in flight the live persistent alarms are the stored ones whose class loads, with the same deadline and interval |
| AlarmRecovery.RestartRecovers | src/com/morgan/server/alarm/DefaultAlarmManager.java:146-170 | wiping the memory at any such point and starting, in any order of loading, rebuilds exactly the live persistent alarms whose class loads, with their queued deadlines, and leaves the backend alone |
| AlarmTiming.NoLostWakeup | src/com/morgan/server/alarm/DefaultAlarmManager.java:115-130 | whenever something is queued a timer is pending, or a run or start is on its way that will set one |
| AlarmTiming.FiresInTime | src/com/morgan/server/alarm/DefaultAlarmManager.java:192-213 | with timely timers a firing for deadline d happens at some f with d < f <= max(d, t) + 100, t being the last creation or start |
| AlarmTiming.LiveAlarmFires | src/com/morgan/server/alarm/DefaultAlarmManager.java:115-213 | a live alarm that is neither cancelled nor lost in a crash does fire, within that bound, once the clock passes it |
| AlarmTiming.RunInTime | src/com/morgan/server/alarm/DefaultAlarmManager.java:115-213 | in a timely run the clock never passes the bound of a queued occurrence, and a timer stands that keeps it so |
| AlarmTiming.ClockRuns | src/com/morgan/server/alarm/DefaultAlarmManager.java:115-213 | the timing assumption never blocks: the clock can advance or the service has a step of its own |
| AlarmOnce.FiresOnce | src/com/morgan/server/alarm/DefaultAlarmManager.java:192-214 | over any run an alarm that has fired fires again only if it repeats or, where the process crashed between its hand-over at line 293 and the update of the backend, only if it is persistent |
| AlarmOnce.SameDeadlineExact | src/com/morgan/server/alarm/DefaultAlarmManager.java:192-214 | over any run the deadlines for which an alarm is fired never fall, and two firings are for the same one if and only if each firing from the first until before the second fell into such a crash |
| AlarmOnce.DeadlinesExact | src/com/morgan/server/alarm/DefaultAlarmManager.java:192-214 | the same about any two steps of a run that fire the alarm |
| AlarmOnce.TransientRises | src/com/morgan/server/alarm/DefaultAlarmManager.java:328-337 | no transient alarm is fired twice for the same deadline, whatever crashes there are |
| AlarmDelivery.SurvivesCrashes | src/com/morgan/server/alarm/DefaultAlarmManager.java:146-214 | a persistent alarm whose class loads and that is not cancelled is fired for its deadline by a round that ends, whatever crashes and restarts come between, by the time that the service is up and the clock past the bound |
| AlarmDelivery.StepCarries | src/com/morgan/server/alarm/DefaultAlarmManager.java:146-303 | no step but its cancellation or a finished round takes such an alarm away: it is live with its deadline, or stored and waiting for the start to load it |
| AlarmDelivery.CrashFiresAgain | src/com/morgan/server/alarm/DefaultAlarmManager.java:291-303 | a crash between hand-over and update leaves the alarm stored with its deadline, and unless it is cancelled it is fired again for the same one, by the time that the service is up and the clock past the bound |
| AlarmDelivery.FiresTwice | src/com/morgan/server/alarm/DefaultAlarmManager.java:291-303 | for every deadline and every persistent alarm whose class loads, repeating or not, there is a timely run in which it is fired twice for that deadline |
| AlarmOnce.StaysOver | src/com/morgan/server/alarm/DefaultAlarmManager.java:138-144 | over any run an alarm that is neither live nor stored stays so and is not fired |
| AlarmTimers.StepTimers | src/com/morgan/server/alarm/DefaultAlarmManager.java:115-213 | scheduling takes exactly the timer referred to away, leaves the others with their times, and adds at most the one that it then refers to; no other step adds one |
| AlarmTimers.SupersededGone | src/com/morgan/server/alarm/DefaultAlarmManager.java:115-130 | a timer that scheduling stops referring to is pending no longer, then or later |
| AlarmTimers.PendingAccounted | src/com/morgan/server/alarm/DefaultAlarmManager.java:115-213 | over any run a pending timer is the one referred to, or one that a run let go at line 195 |
| AlarmPeriod.FirstFiring | src/com/morgan/server/alarm/DefaultAlarmManager.java:77-113 | until a round that fires it has ended, an alarm is fired only for the deadline that it was created with, and with the interval, callback and data that it was created with, crashes and restarts included |
| AlarmPeriod.NextFiring | src/com/morgan/server/alarm/DefaultAlarmManager.java:291-303 | after a round that fired it an alarm is fired next for exactly its interval after that moment, later than that, and as it was created |
| AlarmManager.RoundFalls | src/com/morgan/server/alarm/DefaultAlarmManager.java:197-209 | each round of the draining loop lowers the number of due occurrences by exactly one, so the loop ends |
| AlarmManager.DrainExact | src/com/morgan/server/alarm/DefaultAlarmManager.java:192-211 | the whole loop fires the due occurrences of live alarms, each once, leaves the queue in order and nothing due in it |
| AlarmManager.DrainFires | src/com/morgan/server/alarm/DefaultAlarmManager.java:192-211 | the occurrences fired are exactly the queued, live and due ones, in the order of deadlines, none twice |
| AlarmManager.RoundRefines | src/com/morgan/server/alarm/DefaultAlarmManager.java:198-208 | a round on the sorted queue is the draining step of the transition system on memory and backend |
| AlarmManager.InsertSorted | src/com/morgan/server/alarm/DefaultAlarmManager.java:203-205 | adding an occurrence keeps the queue in the order of deadlines |
| AlarmService.DefaultAlarmManager.constructor | src/com/morgan/server/alarm/DefaultAlarmManager.java:64-75 | a new manager has an empty queue, no live alarm and no timer |
| AlarmService.DefaultAlarmManager.ScheduleNextAlarmCycle | src/com/morgan/server/alarm/DefaultAlarmManager.java:115-130 | cancels the timer referred to, leaves all others alone, and sets one for the later of 100 ms from now and the deadline of the head of the queue; reads the clock only then |
| AlarmService.DefaultAlarmManager.ScheduleNewAlarm | src/com/morgan/server/alarm/DefaultAlarmManager.java:77-91 | a new alarm is queued, made live, and the next timer set for the head |
| AlarmService.DefaultAlarmManager.CreateTransientAlarm | src/com/morgan/server/alarm/DefaultAlarmManager.java:93-101 | the alarm gets a name of its own and is scheduled; nothing is fired |
| AlarmService.DefaultAlarmManager.CreatePersistentAlarm | src/com/morgan/server/alarm/DefaultAlarmManager.java:103-113 | the alarm is stored under a new key, then queued and made live under it, and the next timer set for the head |
| AlarmService.DefaultAlarmManager.CancelAlarm | src/com/morgan/server/alarm/DefaultAlarmManager.java:138-144 | the alarm stops being live; the queue is left alone |
| AlarmService.DefaultAlarmManager.Cancel | src/com/morgan/server/alarm/DefaultAlarmManager.java:284-287 | the alarm stops being live and, if persistent, stored |
| AlarmService.DefaultAlarmManager.FireAlarm | src/com/morgan/server/alarm/DefaultAlarmManager.java:291-303 | the occurrence goes to the executor; a repeating alarm gets a deadline from a fresh clock reading, also in the backend; another one is removed there |
| AlarmService.DefaultAlarmManager.DrainHead | src/com/morgan/server/alarm/DefaultAlarmManager.java:198-208 | one pass of the loop body is the round of the model |
| AlarmService.DefaultAlarmManager.DrainQueue | src/com/morgan/server/alarm/DefaultAlarmManager.java:193-211 | the locked part of a run fires each live due occurrence once, in order, ends, and leaves nothing due |
| AlarmService.DefaultAlarmManager.Run | src/com/morgan/server/alarm/DefaultAlarmManager.java:192-214 | a run drains against one reading of the clock and sets the next timer from what is left; the timer then referred to is set exactly if something is queued |
| AlarmService.DefaultAlarmManager.DoStart | src/com/morgan/server/alarm/DefaultAlarmManager.java:146-170 | beside the transient alarms that there may be, memory then holds exactly the stored alarms whose class loads, as stored, and the next timer is set for the head |
| AlarmService.FakeAlarmBackend.ReadAllAlarms | src/com/morgan/server/backend/fake/FakeAlarmBackend.java:33-37 | every stored alarm is listed exactly once |
| AlarmService.FakeAlarmBackend.PersistNewAlarm | src/com/morgan/server/backend/fake/FakeAlarmBackend.java:39-54 | the alarm is stored under the next key, which is returned |
| AlarmService.FakeAlarmBackend.RemoveAlarm | src/com/morgan/server/backend/fake/FakeAlarmBackend.java:56-60 | only that alarm goes |
| AlarmService.FakeAlarmBackend.UpdateAlarm | src/com/morgan/server/backend/fake/FakeAlarmBackend.java:62-75 | only the deadline of that alarm changes, and only if it is stored |
| SmallDom.Node.AppendChild | src/com/morgan/server/polymer/resources/TemplateBinding/benchmark/dom.js:36-60 | the links stay well formed; a node leaves every child list and becomes the last child of this one, no other order or parent changes; a fragment ends empty and its children follow the old ones in order |
| SmallDom.Node.AppendNode | src/com/morgan/server/polymer/resources/TemplateBinding/benchmark/dom.js:45-59 | moving one node gives the links that the model's Moved describes, wherever the node was before |
| SmallDom.Node.Splice | src/com/morgan/server/polymer/resources/TemplateBinding/benchmark/dom.js:37-43 | the loop over a fragment ends, with its children moved one at a time in order and nothing else changed |
| SmallDom.Node.RemoveChild | src/com/morgan/server/polymer/resources/TemplateBinding/benchmark/dom.js:62-85 | fails exactly when the node is no child; else the child list loses exactly it, in all four cases of the pointer surgery, and the links stay well formed |
| SmallDom.Node.Unhook | src/com/morgan/server/polymer/resources/TemplateBinding/benchmark/dom.js:66-82 | the pointer part of a removal: the neighbours point past the node, the ends move if it was at one, and the node points nowhere |
| SmallDom.Node.Hook | src/com/morgan/server/polymer/resources/TemplateBinding/benchmark/dom.js:49-57 | the pointer part of an append, on an empty and on a non-empty list |
| SmallDom.Node.ClearInner | src/com/morgan/server/polymer/resources/TemplateBinding/benchmark/dom.js:129-133 | assigning innerHTML frees every child and changes nothing else; the loop ends |
| SmallDom.Node.ChildNodes | src/com/morgan/server/polymer/resources/TemplateBinding/benchmark/dom.js:122-127 | walking the sibling links yields exactly the child list |
| SmallDom.Node.LinkBefore | src/com/morgan/server/polymer/resources/TemplateBinding/benchmark/dom.js:98-109 | the pointer writes of an insertion in front of a child, the back link as the code leaves it |
| SmallDom.Node.InsertBefore | src/com/morgan/server/polymer/resources/TemplateBinding/benchmark/dom.js:86-110 | a node that is no fragment leaves its place and goes in front of the given child, or to the end when that is none of this node's; which links result is given exactly, the lost back link included |
| SmallDom.InsertBeforeExact | src/com/morgan/server/polymer/resources/TemplateBinding/benchmark/dom.js:98-109 | insertBefore leaves links that can be read as child lists if and only if it inserts before the first child; in the middle line 104 loses the back link |
| SmallDom.InsertedFirst | src/com/morgan/server/polymer/resources/TemplateBinding/benchmark/dom.js:98-109 | inserting before the first child makes the node the first, keeps the links well formed, and changes no other list or parent |
| SmallDom.InsertInMiddle | src/com/morgan/server/polymer/resources/TemplateBinding/benchmark/dom.js:86-109 | two texts appended to a node and a third inserted between them: built with the operations themselves, the links are no longer well formed |
| SmallDom.RemovedSound | src/com/morgan/server/polymer/resources/TemplateBinding/benchmark/dom.js:62-85 | taking any child out of well-formed links leaves well-formed links |
| SmallDom.AppendedSound | src/com/morgan/server/polymer/resources/TemplateBinding/benchmark/dom.js:49-57 | appending a free node to one that is not below it leaves well-formed links, and no node above itself |
| SmallDom.MovedKids | src/com/morgan/server/polymer/resources/TemplateBinding/benchmark/dom.js:45-57 | a move takes the node out of every child list, adds it at one end, and changes nobody else's parent or order |
| SmallDom.FreedKids | src/com/morgan/server/polymer/resources/TemplateBinding/benchmark/dom.js:45-47 | removing a node from its parent takes it, and nothing else, out of all child lists |
| SmallDom.OnePlace | src/com/morgan/server/polymer/resources/TemplateBinding/benchmark/dom.js:36-60 | no node occurs twice in the child lists of a well-formed document: children of different parents are disjoint |
| SmallDom.AncestorsClosed | src/com/morgan/server/polymer/resources/TemplateBinding/benchmark/dom.js:36-60 | the nodes above a node form a set that holds the parents of its members, which appending keeps |
| SmallDom.Node.CloneNode | src/com/morgan/server/polymer/resources/TemplateBinding/benchmark/dom.js:111-120 | a clone lives in a fresh forest of its own, has no parent, looks like the source as far as cloning copies, and fails exactly when some element on the way has no constructor or it is a document; the source is not modified |
| SmallDom.Node.CloneChildren | src/com/morgan/server/polymer/resources/TemplateBinding/benchmark/dom.js:113-118 | the loop over the children, with the recursive calls, ends and attaches the clones in order |
| SmallDom.Node.CloneOnto | src/com/morgan/server/polymer/resources/TemplateBinding/benchmark/dom.js:113-116 | one pass of that loop clones a child and attaches the clone behind the earlier ones |
| SmallDom.Node.Adopt | src/com/morgan/server/polymer/resources/TemplateBinding/benchmark/dom.js:115-116 | appending the root of one fresh forest in another joins them |
| SmallDom.Node.CloneSelf | src/com/morgan/server/polymer/resources/TemplateBinding/benchmark/dom.js:225-266 | a fresh node without links: texts keep their data, elements their tag and attribute log, nothing else is kept; a document has no constructor for it |
| SmallDom.CreateElement | src/com/morgan/server/polymer/resources/TemplateBinding/benchmark/dom.js:175-206 | an element with the upper-cased tag, or none when the tag is not in the list |
| SmallDom.TagsExact | src/com/morgan/server/polymer/resources/TemplateBinding/benchmark/dom.js:179-206 | the tags that elements can be made for, in any case, and what upper case is |
| SmallDom.CloneExact | src/com/morgan/server/polymer/resources/TemplateBinding/benchmark/dom.js:111-120 | a deep clone looks exactly like its source if and only if no element or fragment carries text content, and tags are upper case |
| SmallDom.ShallowExact | src/com/morgan/server/polymer/resources/TemplateBinding/benchmark/dom.js:111-120 | a shallow clone looks like its source without the children if and only if the source by itself holds only what its kind is cloned with |
| SmallDom.TextContentLost | src/com/morgan/server/polymer/resources/TemplateBinding/benchmark/dom.js:29-31 | a P element that was given the text content x has a clone without it |
| SmallDom.CopiedPlain | src/com/morgan/server/polymer/resources/TemplateBinding/benchmark/dom.js:111-120 | a clone meets that condition, so cloning it again changes nothing |
| SmallDom.ShapeExists | src/com/morgan/server/polymer/resources/TemplateBinding/benchmark/dom.js:111-120 | every node of a well-formed document looks like some finite tree, so the recursion ends |
| SmallDom.ShapeUnique | src/com/morgan/server/polymer/resources/TemplateBinding/benchmark/dom.js:111-120 | and like only one |
| SmallDom.Node.SetAttribute | src/com/morgan/server/polymer/resources/TemplateBinding/benchmark/dom.js:267-269 | the meaning of the log changes at that name only |
| SmallDom.Node.GetAttribute | src/com/morgan/server/polymer/resources/TemplateBinding/benchmark/dom.js:270-277 | scanning the log from its end finds what the last assignment gave the name, or nothing |
| SmallDom.Node.HasAttribute | src/com/morgan/server/polymer/resources/TemplateBinding/benchmark/dom.js:278-286 | true exactly for the names that were assigned |
| Manifest.ReadManifest | src/com/morgan/server/polymer/resources/webcomponentsjs/gulpfile.js:100-119 | for every acyclic manifest the result is the keys of the accumulator followed by the depth-first flattening, although the recursive call pushes into the caller's array; that array grows by a part of the flattening only; fails exactly when some manifest is missing |
| Manifest.BuildList | src/com/morgan/server/polymer/resources/webcomponentsjs/gulpfile.js:38-42 | without an accumulator the list is the keys of the depth-first flattening |
| Manifest.ManifestExact | src/com/morgan/server/polymer/resources/webcomponentsjs/gulpfile.js:106 | the lines read as manifests are exactly those that end in .json |
| Manifest.LineExact | src/com/morgan/server/polymer/resources/webcomponentsjs/gulpfile.js:104-111 | a line that ends in .json contributes the modules of the file that it resolves to, another one its own path |
| Manifest.ExampleList | src/com/morgan/server/polymer/resources/webcomponentsjs/gulpfile.js:100-119 | a manifest that includes another one, and the list that the build task takes from it |
| Manifest.NamesInOrder | src/com/morgan/server/polymer/resources/webcomponentsjs/gulpfile.js:113-117 | the keys that are no indices come in the order of their first occurrences |
| Manifest.KeysOrdered | src/com/morgan/server/polymer/resources/webcomponentsjs/gulpfile.js:113-117 | the keys that are indices come first and ascend |
| Manifest.IndexExact | src/com/morgan/server/polymer/resources/webcomponentsjs/gulpfile.js:113-117 | an index is a number below 4294967295 written without leading zeros |
| Manifest.Absorbs | src/com/morgan/server/polymer/resources/webcomponentsjs/gulpfile.js:106-108 | what the call pushed into the shared array and the concatenation of its result leave the same keys as the flattening alone |
| Manifest.KeysOfKeys | src/com/morgan/server/polymer/resources/webcomponentsjs/gulpfile.js:113-117 | passing an inner list through an object first does not change the keys it adds |
| Manifest.PutCommutes | src/com/morgan/server/polymer/resources/webcomponentsjs/gulpfile.js:113-117 | an index-like name lands in the same place whether it is assigned before or after another |
| Manifest.KeysAreFirstOccurrences | src/com/morgan/server/polymer/resources/webcomponentsjs/gulpfile.js:113-117 | the keys are the first occurrences in order if and only if index-like names come first and ascend there |
| Manifest.IndexFirst | src/com/morgan/server/polymer/resources/webcomponentsjs/gulpfile.js:113-117 | a manifest that lists b and then 1 flattens to these two and has the keys 1, b |
| Manifest.ReadLine | src/com/morgan/server/polymer/resources/webcomponentsjs/gulpfile.js:104-112 | one line: a module is pushed into the array in use, an included manifest is read on top of it and concatenated |
| Manifest.KeysContents | src/com/morgan/server/polymer/resources/webcomponentsjs/gulpfile.js:113-117 | the keys are the strings of the list, each once |
| Manifest.UniqueKeys | src/com/morgan/server/polymer/resources/webcomponentsjs/gulpfile.js:113-118 | the loop over the array and Object.keys give the keys of its strings |
| Places.TokenRoundTrip | src/com/morgan/shared/nav/AbstractApplicationPlaceRepresentation.java:81-137 | parsing a generated token gives the same parts and parameters, in order, if and only if no part is empty, no key starts and no value ends with a blank, and parameters follow a path |
| Places.ParseGenerated | src/com/morgan/shared/nav/AbstractApplicationPlaceRepresentation.java:81-137 | what parsing makes of any generated token: empty parts dropped, keys and values trimmed, refusal when trimming makes keys collide or there is no path |
| Places.GenerateUrlTokenFor | src/com/morgan/shared/nav/AbstractApplicationPlaceRepresentation.java:115-137 | a token exactly when no part holds '/', '(' or ')' and no key or value holds '=' or ',' |
| Places.ParseExact | src/com/morgan/shared/nav/AbstractApplicationPlaceRepresentation.java:81-113 | a token is accepted if and only if it is '!' and a path without '(', alone, or, where the path is not empty, followed by a body in parentheses whose trimmed nonempty entries hold exactly one '=' each, with distinct keys; and what parts and parameters it then gives |
| Places.EntriesExact | src/com/morgan/shared/nav/AbstractApplicationPlaceRepresentation.java:54-59 | entries are accepted exactly if each holds one '=' and no key repeats, and give their keys and values in order |
| Places.RepresentableExact | src/com/morgan/shared/nav/AbstractApplicationPlaceRepresentation.java:121-126 | what the generator refuses: slashes and parentheses in parts, equals signs and commas in parameters |
| Splitters.TrimExact | src/com/morgan/shared/nav/AbstractApplicationPlaceRepresentation.java:54-59 | the splitters trim blanks, tabs, line ends and feeds at both ends of a piece, and nothing else |
| Places.ExampleToken | src/com/morgan/shared/nav/AbstractApplicationPlaceRepresentation.java:115-137 | the token of a place with two parts and two parameters |
| Places.ParseEntriesBack | src/com/morgan/shared/nav/AbstractApplicationPlaceRepresentation.java:54-59 | joined key=value entries split back into the same pairs, and are refused exactly when a key repeats |
| Places.OneReader | src/com/morgan/client/nav/PlaceRepresentationHelper.java:32-42 | with distinct tokens, a place that some representation reads is the place that is found |
| Places.OrderIrrelevant | src/com/morgan/client/nav/PlaceRepresentationHelper.java:32-42 | with distinct tokens the answer is the same for every order in which the set is walked |
| Places.HistoryRoundTrip | src/com/morgan/shared/nav/AbstractTokenBasedApplicationPlaceRepresentation.java:33-48 | a clean place written as a history token is found again by its own representation, whoever else is asked first |
| Mana.SymbolRoundTrip | src/com/morgan/server/backend/prod/mtgdb/ManaSymbolRepresentation.java:34-93 | every symbol that the constructor accepts comes back from its string, in whatever order its colors are written |
| Mana.ReadingExact | src/com/morgan/server/backend/prod/mtgdb/ManaSymbolRepresentation.java:34-71 | a string is read as a symbol if and only if it is the version 1, a mark p or s or none, color letters and a number or none, and says a symbol that the constructor does not refuse |
| Mana.RefusedExamples | src/com/morgan/server/mtg/ManaSymbol.java:39-57 | symbols that the constructor takes, and one for each of its refusals |
| Mana.ExampleSymbols | src/com/morgan/server/backend/prod/mtgdb/ManaSymbolRepresentation.java:73-93 | four symbols and their strings |
| Mana.ReadingConstructible | src/com/morgan/server/backend/prod/mtgdb/ManaSymbolRepresentation.java:34-71 | whatever is read is a symbol that the constructor accepts |
| Mana.DoBackward | src/com/morgan/server/backend/prod/mtgdb/ManaSymbolRepresentation.java:34-71 | the parser, with its builder and loop, reads what the model's Reading says and fails on everything else |
| Mana.DoForward | src/com/morgan/server/backend/prod/mtgdb/ManaSymbolRepresentation.java:73-93 | the string is written and the self-check of line 91 passes, for every constructible symbol |
| Mana.AddColors | src/com/morgan/server/backend/prod/mtgdb/ManaSymbolRepresentation.java:59-61 | the builder ends with exactly the colors of the letters, or the first unknown letter stops it |
| Mana.ListRoundTrip | src/com/morgan/server/backend/prod/mtgdb/ManaSymbolsRepresentation.java:30-44 | every list of constructible symbols, the empty one included, survives the database string in order |
| Mana.SymbolBuilder.SetCount | src/com/morgan/server/mtg/ManaSymbol.java:151-155 | a negative count is refused and changes nothing |
| Mana.SymbolBuilder.BuildSymbol | src/com/morgan/server/mtg/ManaSymbol.java:33-58 | refused for a count that is no int or negative, more than two colors, colors without a positive count, both marks, two colors with the phyrexian mark, or any color with the snow mark; else a symbol with exactly the collected fields |
| HarnessModel.StepOrderly | src/com/morgan/server/polymer/resources/URL/testharness.js:1112-1223 | every call keeps the books: phases only rise, the pending count is the number of tests not done until completion, each test is reported at most once and done tests exactly once, and the harness never stays open with everything done |
| HarnessModel.RunSound | src/com/morgan/server/polymer/resources/URL/testharness.js:1258-1499 | that holds in every state of every run |
| HarnessModel.RunRises | src/com/morgan/server/polymer/resources/URL/testharness.js:1258-1499 | over any run phases and registrations only grow, and after completion nothing more is reported |
| HarnessModel.FinishExact | src/com/morgan/server/polymer/resources/URL/testharness.js:1483-1499 | completing reports every registered test exactly once, but for a test that failed without being closed, which is not reported; a second completion does nothing |
| HarnessModel.StuckThrew | src/com/morgan/server/polymer/resources/URL/testharness.js:1135-1158 | a test fails without being closed only by throwing a value whose message or stack cannot be read or, beside a string message, turned into text |
| HarnessModel.ReportedOnce | src/com/morgan/server/polymer/resources/URL/testharness.js:1379-1499 | a test registered before completion that never throws such a value has been reported exactly once when the harness has completed |
| HarnessModel.StuckTestLost | src/com/morgan/server/polymer/resources/URL/testharness.js:1135-1158 | for every such value, null and an object with a string message and a stack without text among them, a run in which a test throws it, fails, and is never reported |
| HarnessModel.UnreadableExamples | src/com/morgan/server/polymer/resources/URL/testharness.js:1146-1153 | which thrown values can be recorded and which make that throw again, kind by kind |
| HarnessVerdict.TestVerdict | src/com/morgan/server/polymer/resources/URL/testharness.js:1117-1219 | over any run: a test is done if and only if something closed it; it has timed out if and only if its timer fired, failed if and only if that did not happen and a thrown value met it without a status, and passed if and only if it is done and neither happened |
| HarnessVerdict.VerdictStays | src/com/morgan/server/polymer/resources/URL/testharness.js:1117-1219 | once a test is done its status does not change |
| HarnessVerdict.StepVerdict | src/com/morgan/server/polymer/resources/URL/testharness.js:1117-1219 | what each call does to the status of each test, and which calls close it |
| HarnessVerdict.TimerExact | src/com/morgan/server/polymer/resources/URL/testharness.js:1117-1219 | over any run the timer of a test is pending if and only if one of its steps began while it had no status and it is not done |
| HarnessVerdict.StatusExact | src/com/morgan/server/polymer/resources/URL/testharness.js:1320-1560 | over any run the status of the harness is that of the last timeout, uncaught error or setup that failed before there were results, and without any it is good from completion on |
| HarnessVerdict.CompletesExact | src/com/morgan/server/polymer/resources/URL/testharness.js:1283-1500 | a step completes the harness if and only if it is a timeout or an uncaught error, or if after it the page has loaded, no wait is asked for and every test is done |
| HarnessVerdict.RunWaits | src/com/morgan/server/polymer/resources/URL/testharness.js:1283-1390 | the harness waits exactly if a setup before the first result asked for it and the end of the wait has not been called since |
| HarnessVerdict.PhaseExact | src/com/morgan/server/polymer/resources/URL/testharness.js:1320-1440 | until completion the phase is given by whether a test is done, one is registered, or setup was called |
| HarnessObjects.Tests.NotifyResult | src/com/morgan/server/polymer/resources/URL/testharness.js:1443-1481 | the callbacks get the test, and the harness completes if that was the last thing open |
| HarnessObjects.Tests.Complete | src/com/morgan/server/polymer/resources/URL/testharness.js:1483-1499 | the loop over the tests and the final callbacks give the model's completion, once |
| HarnessObjects.Tests.ReportResult | src/com/morgan/server/polymer/resources/URL/testharness.js:1432-1441 | ignored after completion; else one fewer is pending and the test is reported |
| HarnessObjects.Tests.Register | src/com/morgan/server/polymer/resources/URL/testharness.js:1070-1086 | a new test is appended, pending, and the phase is at least that of having tests |
| HarnessObjects.Tests.FinishTest | src/com/morgan/server/polymer/resources/URL/testharness.js:1211-1223 | done on the objects: no effect the second time, a test that has not failed passes, its timer is cleared, and it is reported |
| HarnessObjects.Tests.BeginTestStep | src/com/morgan/server/polymer/resources/URL/testharness.js:1112-1128 | a step runs only on a test without a status, and the first one starts its timer |
| HarnessObjects.Tests.EndTestStep | src/com/morgan/server/polymer/resources/URL/testharness.js:1135-1158 | a throw fails a test that has no status, and closes it unless recording the message and stack throws again, which leaves it failed and open |
| HarnessObjects.Tests.Record | src/com/morgan/server/polymer/resources/URL/testharness.js:1146-1155 | taking the message and appending the stack goes through exactly for the values that can be read |
| HarnessObjects.Tests.TimeoutTest | src/com/morgan/server/polymer/resources/URL/testharness.js:1203-1209 | a pending timer fails the test as timed out and closes it |
| HarnessObjects.Tests.OnLoad | src/com/morgan/server/polymer/resources/URL/testharness.js:1291-1299 | the load event completes the harness when nothing is pending |
| HarnessObjects.Tests.SetUp | src/com/morgan/server/polymer/resources/URL/testharness.js:1305-1352 | ignored once there are results; else the phase, the wish to wait and a failure are recorded |
| HarnessObjects.Tests.DoneWaiting | src/com/morgan/server/polymer/resources/URL/testharness.js:1371-1377 | the wish to wait ends, and with it perhaps the harness |
| HarnessObjects.Tests.TimeoutAll | src/com/morgan/server/polymer/resources/URL/testharness.js:1366-1369 | the harness completes as late |
| HarnessObjects.Tests.OnError | src/com/morgan/server/polymer/resources/URL/testharness.js:1551-1558 | an uncaught error completes the harness as failed |

## Left out

- URL: characters beyond ASCII and domain names; the theorems about text are about ASCII, and escaping works on one character.
- URL: ports of 2^53 and more, which the original computes in floating point; the model gives them an outcome of their own.
- URL: the origin getter, the static blob methods, the error list that nobody reads, and conformance to the WHATWG standard.
- URL: a base given as a string, which the constructor turns into an object first, and a second argument to the override that no setter passes.
- Alarms: exceptions from the backend or the executor inside a run, which are assumed not to happen.
- Alarms: what callbacks do, class loading beyond a predicate on the name, the database backend, and the service states of the library.
- Alarms: which of two occurrences with equal deadlines comes first; the transition system allows either, the class is first in, first out.
- AlarmService.DefaultAlarmManager.ScheduleNewAlarm: asks that the name is not queued yet, which AlarmAgenda.RunSound shows of every name the service gives out.
- SmallDom.Node.CloneNode: does not model the fresh content fragment of a template element, nor owner documents, because no link of the tree leads to them. A document is a node like others, which cannot be cloned.
- SmallDom.Node.InsertBefore: does not model the insertion of a fragment, because after its first child the links are in general no longer well formed, as SmallDom.InsertBeforeExact shows.
- SmallDom: events, dump, the string form, and importNode.
- Manifest: reading files and JSON, and the joining of paths, which are parameters of the model.
- Places: null parts, which the generator refuses, the places themselves, and the order of map entries as an equality of maps; entries are compared in order, which is stronger where they come back.
- Mana: the serialized form, hash codes, and digits beyond ASCII.
- Harness: the timeout of the whole harness as a timer, the flag that lets uncaught errors pass, window messaging, rendering and assertions.
- Harness: the messages themselves; a recorded message that cannot be turned into text makes the final callbacks fail at line 1505, after the tests have been reported.
- Harness: properties of a thrown value that read differently the second time.
- Harness: result callbacks that call back into the harness or throw.
- User interface, servlets, mail, templates, command line, feature configuration and game data.
