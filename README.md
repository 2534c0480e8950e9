# rbevent core, modelled in Dafny

rbevent is a Ruby binding for libevent. Three Ruby classes wrap one C record each:
- `Event` watches a file descriptor;
- `SignalEvent` watches a signal given by name;
- `TimerEvent` fires after a timeout.

This project models the two pieces of logic the binding implements itself in `ext/rbevent.c`.

**Signal names** (module `SignalNames`, file `signal_names.dfy`; facts about the concrete table in `siglist_facts.dfy`):
- `Siglist` is the table `siglist`, as compiled on Linux x86-64 with glibc. The entries whose `#ifdef` holds there are kept, in source order, with glibc's numbers. The `{NULL, 0}` sentinel is the end of the sequence.
- `Lookup` is the scan of `signm2signo`. `SignalNumber` is the same scan written as the C loop, and is proved equal to `Lookup`.
- `CStr` is the text C sees through `StringValuePtr`: everything up to the first NUL.
- `StripSig` removes one leading `"SIG"`. It is the `strncmp` test.
- `Resolve` puts these together and turns a result of 0 into the ArgumentError `UnsupportedName`.
- Every lemma that does not depend on the concrete table is stated over an arbitrary table (`ResolveIn`). The table's own properties are proved once, in `SiglistFacts`:
  - the names are distinct;
  - they are upper-case letters and digits without `"SIG"`;
  - `"EXIT"` is the only 0;
  - every number is in 1..31 otherwise.

**Event records** (module `EventRecords`, file `event_record.dfy`):
- `EventRecord` is `struct eventdata`, with mutable fields:
  - `fd` and `events`, for the descriptor and mask held in the libevent `struct event`;
  - `proc`, the block or nil;
  - `evtype`, the bits of the last firing.
- The Ruby class is the constant `kind`.
- Calls into libevent (`event_set`, `evtimer_set`, `event_add`, `event_del`) are appended to the ghost log `calls`. One assumption is made about them: `event_set` stores its descriptor and mask in `ev_fd`/`ev_events` (the binding never writes those fields itself), and no other libevent call changes them. Otherwise the calls are only logged. The `fileno`/`signal` read-back rests on that assumption.
- The block's invocations are logged in `invocations`, with the `evtype` each invocation could observe.
- The constructors are `Event.new`, the allocation half of `SignalEvent.new`, and `TimerEvent.new`.
- The methods are `add`, `delete`, `fileno`/`signal`, `evtype`, and the callback trampoline `Fire`.
- `NewSignalEvent` is the whole of `SignalEvent.new`: it resolves the name and either fails or builds the record.
- `FireAndReadBack` and `SignalFireAndReadBack` replay the rounds of `test/event_test.rb`.

Integers are the C types: `int32` for `int`, and `int16` for `short` (`evtype`, the mask parameter of `event_set`). `ToShort` is the `int` to `short` conversion the mask undergoes.

## Model

| member | source | states |
|---|---|---|
| SignalNames.LookupFirstMatch | ext/rbevent.c:155-164 | the scan returns the number of the first entry whose name equals the input exactly |
| SignalNames.LookupAbsent | ext/rbevent.c:159-163 | a name absent from the table scans to the sentinel and yields 0 |
| SignalNames.LookupFound | ext/rbevent.c:155-164 | a non-zero result is the number of the first entry carrying that exact name |
| SignalNames.SignalNumber | ext/rbevent.c:155-164 | the C loop over `siglist`, returning on the first match and 0 at the sentinel, computes `Lookup` on the table |
| SignalNames.CStrLongestPrefix | ext/rbevent.c:258 | the string C sees is the longest NUL-free prefix of the Ruby string |
| SignalNames.CStrPrefix | ext/rbevent.c:258 | a NUL-free prefix passes through unchanged |
| SignalNames.CStrStopsAtNul | ext/rbevent.c:258 | whatever follows the first NUL is invisible to the lookup |
| SignalNames.LookupNameWithPrefix | ext/rbevent.c:259 | with a leading "SIG", exactly those three characters are dropped before the scan |
| SignalNames.LookupNameWithoutPrefix | ext/rbevent.c:259 | without the prefix (case-sensitive "SIG"), the name is scanned for unchanged |
| SignalNames.PlainName | ext/rbevent.c:259-260 | a NUL-free name without the prefix is looked up exactly as given |
| SignalNames.ResolveFirstMatch | ext/rbevent.c:259-263 | the outcome is decided by the first entry named like the stripped input: its number, or ArgumentError when that number is 0 |
| SignalNames.ResolveAbsent | ext/rbevent.c:259-263 | a stripped name absent from the table raises ArgumentError naming the stripped name |
| SignalNames.ResolveSound | ext/rbevent.c:259-263 | success only with the non-zero number of the first matching entry; every failure reports the stripped name |
| SignalNames.SigPrefixOptional | ext/rbevent.c:259-263 | for n not itself beginning with "SIG", "SIG"+n and n give the same result, error included |
| SignalNames.DoubledPrefixRejected | ext/rbevent.c:259-263 | only one "SIG" is stripped, so "SIGSIG"+n is rejected when no table name starts with "SIG"; the ArgumentError text reads "unsupported name `SIGSIG" + n + "'" (n cut at its first NUL) |
| SignalNames.CaseSensitive | ext/rbevent.c:159-163 | when the table holds upper-case names, a stripped name holding any other character (lower case, say) is rejected |
| SignalNames.NulCutsName | ext/rbevent.c:258-263 | a NUL inside the name cuts it: only the part before it decides the result |
| SignalNames.ResolveEntry | ext/rbevent.c:16-153 | in a well-formed table, each name resolves to its entry's number with and without "SIG", and "EXIT" is rejected |
| SignalNames.ResolvedInRange | ext/rbevent.c:259-263 | in a well-formed table, a resolved number lies in 1..31 |
| SiglistFacts.SiglistNumbersInRange | ext/rbevent.c:16-153 | no table name begins with "SIG", and every number lies in 0..31 |
| SiglistFacts.SiglistZeroOnlyForExit | ext/rbevent.c:20 | "EXIT" is the only entry with number 0 |
| SiglistFacts.SiglistNameChars0To17 | ext/rbevent.c:20-68 | names of entries 0..16 consist of upper-case letters and digits |
| SiglistFacts.SiglistNameChars17To34 | ext/rbevent.c:71-129 | names of entries 17..33 consist of upper-case letters and digits |
| SiglistFacts.DistinctRows0To3 | ext/rbevent.c:16-153 | names of entries 0..2 occur nowhere later in the table |
| SiglistFacts.DistinctRows3To6 | ext/rbevent.c:16-153 | names of entries 3..5 occur nowhere later in the table |
| SiglistFacts.DistinctRows6To9 | ext/rbevent.c:16-153 | names of entries 6..8 occur nowhere later in the table |
| SiglistFacts.DistinctRows9To13 | ext/rbevent.c:16-153 | names of entries 9..12 occur nowhere later in the table |
| SiglistFacts.DistinctRows13To18 | ext/rbevent.c:16-153 | names of entries 13..17 occur nowhere later in the table |
| SiglistFacts.DistinctRows18To34 | ext/rbevent.c:16-153 | names of entries 18..33 occur nowhere later in the table |
| SiglistFacts.SiglistEntriesOk | ext/rbevent.c:16-153 | every entry is well formed on its own |
| SiglistFacts.SiglistWellFormed | ext/rbevent.c:16-153 | the table is well formed: distinct upper-case names without "SIG", 0 for "EXIT" alone, numbers in 0..31 |
| SiglistFacts.EveryTableNameResolves | ext/rbevent.c:16-153 | every table name except "EXIT" resolves to its own number, with or without "SIG"; "EXIT" and "SIGEXIT" raise |
| SiglistFacts.ResolvedSignalInRange | ext/rbevent.c:259-263 | for any input, a resolved signal number lies in 1..31 |
| SiglistFacts.SiglistCaseSensitive | ext/rbevent.c:259-263 | a name whose stripped form holds a lower-case letter (or anything outside A-Z, 0-9) raises, e.g. "sigusr1" |
| SiglistFacts.SiglistDoubledPrefixRejected | ext/rbevent.c:259-263 | "SIGSIG"+n raises, e.g. "SIGSIGUSR1", with the message "unsupported name `SIGSIG" + n + "'" (n cut at its first NUL) |
| SiglistFacts.KnownEntries | ext/rbevent.c:20-129 | "EXIT" is entry 0 with 0; "CHLD"/"CLD" are entries 20/21, both 17; "USR1" is entry 30 with 10; IOT/ABRT and IO/POLL share numbers |
| SiglistExamples.Usr1Resolves | test/event_test.rb:107 | the name `:USR1` used by the tests resolves to 10 |
| SiglistExamples.SigUsr1Resolves | ext/rbevent.c:259-263 | "SIGUSR1" resolves to 10, like "USR1" |
| SiglistExamples.LowerCaseRejected | ext/rbevent.c:259-263 | "sigusr1" raises, naming "sigusr1" |
| SiglistExamples.ExitRejected | ext/rbevent.c:20 | "EXIT" and "SIGEXIT" raise like unknown names, naming "EXIT" |
| SiglistExamples.ChildAlias | ext/rbevent.c:79-88 | "CLD" and "CHLD" both resolve to 17 |
| EventRecords.TimeoutOf | ext/rbevent.c:303-310 | nil becomes "no timeout"; n becomes an interval of exactly n seconds with 0 microseconds |
| EventRecords.ToShort | ext/rbevent.c:240 | the int mask becomes the short `event_set` takes: congruent modulo 2^16, unchanged within the short range |
| EventRecords.EventRecord.Io | ext/rbevent.c:221-243 | `Event.new` stores the block, passes the descriptor and mask to one `event_set`, and does not arm the event |
| EventRecords.EventRecord.Signal | ext/rbevent.c:266-277 | with a resolved non-zero number, the record holds the number as its descriptor, after one `event_set` |
| EventRecords.EventRecord.Timer | ext/rbevent.c:281-313 | `TimerEvent.new` calls `evtimer_set` and then `event_add` once, with the converted timeout, and no separate `add` |
| EventRecords.EventRecord.Add | ext/rbevent.c:315-337 | `add` appends one `event_add` with the converted timeout and changes nothing else |
| EventRecords.EventRecord.Delete | ext/rbevent.c:339-346 | `delete` appends one `event_del` and changes nothing else |
| EventRecords.EventRecord.Fileno | ext/rbevent.c:209-217 | `fileno`/`signal` return the record's descriptor field |
| EventRecords.EventRecord.EvType | ext/rbevent.c:199-207 | `evtype` returns the stored bits |
| EventRecords.EventRecord.Fire | ext/rbevent.c:171-183 | a firing stores the fired bits, then calls the block only if there is one, which then sees those bits |
| EventRecords.NewSignalEvent | ext/rbevent.c:246-277 | `SignalEvent.new` fails iff the name does not resolve, with the resolution error and no record; otherwise a fresh record holds the resolved number |
| EventRecords.FireAndReadBack | test/event_test.rb:51-72 | after construction, `add` and a firing, `fileno` returns the constructor's descriptor and `evtype` the fired bits |
| EventRecords.SignalFireAndReadBack | test/event_test.rb:98-111 | a signal record built from a name reads back the resolved number, always 1..31, and the fired bits; an unsupported name fails instead |

## Left out

- libevent: what `event_set`, `evtimer_set`, `event_add` and `event_del` do (arming state, one-shot versus `EV_PERSIST`, firing order). Its source is not part of this model. `event_set` is assumed to store its descriptor and mask in `ev_fd`/`ev_events`, and every other libevent call (`event_add`, `event_del`, dispatch) is assumed to leave them unchanged; otherwise the calls are only logged.
- `event_init`, `event_dispatch`, `event_abort`: thin wrappers over libevent calls. `event_dispatch` and `event_abort` return the `int` of `event_dispatch`/`event_loopbreak` unchanged; `event_init` is declared `void` in C, discards libevent's result and so returns no defined value to Ruby.
- Signal delivery, the dispatch loop and wall-clock timing. The timing assertions of the tests depend on real time.
- The `EV_*`/`EVLIST_*` constants and the class registration. Their values come from the libevent header, which is not part of this model.
- Ruby glue: argument scanning, `Data_Wrap_Struct`/`Data_Get_Struct` and garbage-collector freeing.
- EventRecords.EventRecord.Fire: assumes the object and its block are still alive when libevent fires. `fevent_alloc` registers no mark function (ext/rbevent.c:196), so the block kept in `proc` is never marked, and an armed object that only libevent references (such as `SignalEvent.new(:USR1, …).add` in test/event_test.rb:107) may be collected before it fires. The model has no garbage collector.
- `NUM2INT` conversion of the descriptor, mask and timeout: it raises TypeError for nil and non-numeric arguments and RangeError outside `int`; a Float in range is truncated toward zero (`add(0.5)` asks for 0 s). The model takes `int32` arguments only.
- Symbol versus string arguments to `SignalEvent.new`: both are taken as the name string. The model's `string` is the byte string `StringValuePtr` hands to C, read one byte per character; string encodings are not modelled. In an encoding that is not ASCII-compatible the bytes contain NULs, so `"USR1".encode("UTF-16BE")` reaches C as an empty name and is rejected.
- What a block does when it is called (it may `delete`, abort the loop, raise): only the call is logged.
- EventRecords.EventRecord.Timer: the descriptor and mask `evtimer_set` leaves in the record are not stated, because they are set by libevent and `TimerEvent` has no accessor that reads them.
- EventRecords.EventRecord.Io: nothing is promised about `evtype` before the first firing, because the C record is allocated uninitialised. The same holds for the other constructors.
- Other platforms: the table is fixed to Linux x86-64 with glibc.
  - SIGEMT, SIGLOST, SIGMSG, SIGDANGER, SIGMIGRATE, SIGPRE, SIGGRANT, SIGRETRACT, SIGSOUND and SIGINFO are absent there.
  - glibc defines SIGCLD as SIGCHLD, so "CLD" gets 17 through either branch of its `#ifdef`.
