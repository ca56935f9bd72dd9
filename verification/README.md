# M-plane client and server: a verified model

This project models the parts of the O-RAN M-plane software with the most state, branching and
arithmetic, and proves properties of them in Dafny 4.11. `dafny verify dfyconfig.toml` checks all of it.

- **Client sessions and notifications** (`ClientModel.dfy`, `ClientInvariant.dfy`, `ClientFrame.dfy`,
  `ClientRuns.dfy`, `ClientSafety.dfy`, `ClientCalls.dfy`, `ClientIds.dfy`, `ClientProgress.dfy`,
  `ClientTermination.dfy`, `ClientTables.dfy`): gRPC calls, libnetconf2 notification threads and `NetconfSession` destructors as a
  labelled transition system over program counters, two reader/writer locks, reference counts, promises
  and a heap of `nc_session` addresses that may be handed out again. One inductive invariant, kept by all
  31 actions, gives the safety properties of every run, what each call does for its caller, what session
  ids reach, and exactly when the client goes on. The two tables are also classes, with what was done to them as ghost state.
- **Persistent configuration** (`Strings.dfy`, `ConfigText.dfy`, `ConfigReading.dfy`,
  `ConfigNormalForm.dfy`, `ConfigLookup.dfy`, `FileConfig.dfy`): the INI reader and writer, lookup with
  fallback, defaults, modification and comparison as functions with their laws, what a file means line by
  line, and the `FileConfig` class whose loops are proved against them.
- **Call-home clients** (`Numbers.dfy`, `IpPortMgr.dfy`, `IpPortHistory.dfy`): the address list on top of the
  configuration, shown to be a map from addresses to ports through any operations, saves, failures and
  restarts, and what that map is from the list of operations alone.
- **Byte codec** (`Bits.dfy`, `ByteTransfer.dfy`): bit-level loops refine arithmetic; round trips, records, truncation.
- **Text rewriting** (`TextRewrite.dfy`, `Paths.dfy`): variable expansion and replacement loops refine a
  single pass over the original text; path cleaning, splitting and joining.
- **Progress and deletion** (`FileStatus.dfy`, `FileHistory.dfy`, `FileMgr.dfy`): percentages over whole
  runs with 32-bit arithmetic, each getter from the list of calls alone, and deletion by number, name and
  wildcard over an abstract directory.

## How the client is modelled

- One label is one atomic action of one thread. A section under an exclusive lock that touches only what
  the lock protects is one action, enabled while nobody holds the lock; a shared lock is held across actions.
- libnetconf2 appears through what the code relies on: a connection yields an address that is not live;
  `nc_recv_notif_dispatch` either starts the notification thread or fails, and the code does not look;
  `nc_session_ntf_thread_running` is true while that thread exists; the thread may end by itself while it
  is outside the handler; `nc_session_free` ends it once it is outside the handler and releases the address.
- The client gets stuck in one way only. When a supervision callback ends and its reference to the session
  is the last one, the destructor runs on the notification thread, which holds the shared callback lock and
  then waits for the exclusive one. `SelfDestructIff` says exactly when that begins, `SelfDestructWhenClosed`
  says it in terms a caller can check (the session's id is closed and nobody else holds it),
  `SelfDestructBlocksForEver` that nothing ends it, and `SelfDestructReaches` that a disconnect during a
  watchdog reset is enough. Otherwise some thread at work can always take a step (`NoDeadlock`), and all
  work comes to an end (`WorkEnds`, `ComesToRest`).

## Where the code and a plain reading differ

- The ids of a run are unique exactly if it adds at most 2^32 sessions (`UniqueIdsIff`). After that,
  `emplace` leaves an entry that is still there alone: the id then leads to the older session, nothing ever
  leads to the new one, and it is destroyed as soon as connect returns (`IdReachesIff`). `UsedIdReaches`
  gives a reachable state in which that is about to happen.
- `isEqual` compares how many sections there are but not which of them are empty. It tells a slash-free
  configuration from all others exactly when none of its sections is empty (`IsEqualTellsIff`).
- A section line needs more than three characters, so one-character section names do not survive a save
  (`RoundTripIff`, `ShortPathIsLost`). A line that trims to `[=]` reads as an entry and prints as a section
  line, so a text changes its meaning exactly when such a line is the last to write its key to some store
  (`NormalFormIff`, `BracketLineIsLost`).
- `IpPortMgr::save` sets the saved list before it writes, so `restore` after a failed save gives back the
  list that could not be written (`RestoreBringsBack`).
- `IpPortMgr::list` throws as soon as one port is 2^31 or more, although ports are unsigned (`ListsTheMap`).
- `Path::clean` is described as removing duplicated separators; it halves runs, so three in a row leave two
  (`CleanLeavesDouble`).
- `expandStr` leaves `${}` alone at the very end of a text but replaces it anywhere else, and keeps all text
  from a variable on that is not closed (`TemplateExpands`); `replaceStrs` does not end for an empty pattern (`ReplacingEndsIff`).
- `FileStatus`: one file more than declared lowers the total again, and from 42949673 files on, the total
  of a finished run is below 100 (`ExtraFileLowersTotal`, `FullTotalIff`).

## Numbers

- 32-bit counters wrap explicitly (session ids, file counts); a value read little-endian is taken as the
  bits say, also where the source shifts a byte into the sign bit of an `int` before converting it.
- Strings are sequences of characters without an encoding; `toUpper` and `toLower` stop at a NUL character,
  as the source's C-string loops do.

## Model

| member | source | states |
|---|---|---|
| ClientRuns.StepKeeps | mplane_client/src/client/NetconfSession.cpp:44-104 | each of the 31 actions keeps the invariant: who may be where, which lock and mutex holders exist, exact reference counts, promises per callback, live addresses, writers in scope |
| ClientRuns.Reachable | mplane_client/src/client/MpclientImpl.cpp:24-184 | every state of every run, in any interleaving, satisfies the invariant |
| ClientSafety.FulfilledMeansQuiet | mplane_client/src/client/NetconfSession.cpp:64-87 | once any done-promise of a session is fulfilled, no callback of that session is running, then or in any later state |
| ClientSafety.WriterInScope | mplane_client/src/client/MpclientImpl.cpp:90-102 | while a stream callback runs, the call that owns its writer is still inside its own frame, on the same session |
| ClientSafety.WriterNeverUsedAfterReturn | mplane_client/src/client/MpclientImpl.cpp:86-104 | after a call has returned, no thread ever invokes a callback that captured its writer |
| ClientSafety.NoUseAfterFree | mplane_client/src/client/MpclientImpl.cpp:73-164 | a thread that passes a handle to libnetconf2 holds the shared table lock with the entry present, or a strong reference, or is the destructor; the handle is not freed and belongs to that session |
| ClientSafety.RecycledAddressIsClean | mplane_client/src/client/NetconfSession.cpp:78-104 | a new session, also at a recycled address, starts without callbacks and without a notification thread |
| ClientSafety.CountIsExact | mplane_client/src/client/MpclientImpl.cpp:119-133 | the strong count is the number of table entries plus local references, and it is positive exactly until the destructor starts |
| ClientSafety.OneNotificationThread | mplane_client/src/client/NetconfSession.cpp:280-286 | two notification threads of one session are the same thread, and the starts exceed the exits by one |
| ClientSafety.StartsBounded | mplane_client/src/client/NetconfSession.cpp:280-286 | a session starts at most one thread more than have ended |
| ClientSafety.PromisePerCallback | mplane_client/src/client/NetconfSession.cpp:273-293 | with the mutex free and the destructor not started there are as many promises as callbacks |
| ClientSafety.NotificationDelivered | mplane_client/src/client/NetconfSession.cpp:64-73 | between entering and leaving the handler a notification reaches exactly the callbacks registered on entry, once each, in registration order |
| ClientCalls.RegisteredFrom | mplane_client/src/client/NetconfSession.cpp:273-293 | from its registration until the callbacks of its session are erased, the callback of a call is where it was put, at the number of its promise: for a stream call the one that writes to its own writer, there and nowhere else, for a supervision call the one of its own session |
| ClientCalls.StreamDelivered | mplane_client/src/client/MpclientImpl.cpp:86-104 | every notification that arrives for the session and whose handler enters in that time is written to the stream call's writer exactly once |
| ClientCalls.CallbackFrom | mplane_client/src/client/NetconfSession.cpp:44-57 | every callback of a session was registered by a call that found that session, in this order |
| ClientCalls.CalledWith | mplane_client/src/client/MpclientImpl.cpp:63-115 | a call works on what it was called with, from its start to its end |
| ClientCalls.CallFinds | mplane_client/src/client/MpclientImpl.cpp:63-115 | within 2^32 sessions, a call finds the session its id was issued for exactly when the id was issued and has not been closed, and otherwise returns without one |
| ClientCalls.SubscribesTo | mplane_client/src/client/MpclientImpl.cpp:90-121 | within 2^32 sessions, a subscription registers for the session its id was issued for |
| ClientCalls.DispatchStarts | mplane_client/src/client/NetconfSession.cpp:284-286 | a notification thread is started exactly when the session has none and the start succeeds |
| ClientCalls.DestructorInOrder | mplane_client/src/client/NetconfSession.cpp:78-104 | a handle is freed only after the same destructor has erased the callbacks, locked the promises, fulfilled all of them and sent the close, in this order |
| ClientCalls.FreeEnds | mplane_client/src/client/NetconfSession.cpp:101-102 | a free ends the session and its notification thread and gives its address back |
| ClientCalls.ReturnDestroysIff | mplane_client/src/client/MpclientImpl.cpp:63-70 | a call that gives its session back destroys it exactly when no entry and no other thread refers to it |
| ClientCalls.StreamEnds | mplane_client/src/client/MpclientImpl.cpp:100-101 | a waiting stream call can return only after the callbacks of its session are erased, and can once its promises are fulfilled |
| ClientIds.ReachableIds | mplane_client/src/client/MpclientImpl.cpp:166-184 | in every run, the counter, the table, the issued and the closed ids agree |
| ClientIds.IdReachesIff | mplane_client/src/client/MpclientImpl.cpp:166-184 | in every run of any length: the id handed out leads to its session exactly if it was free, and then until a removeSession of it; otherwise nothing ever leads to the session and connect destroys it when it returns |
| ClientIds.EntryGone | mplane_client/src/client/MpclientImpl.cpp:173-184 | an id that is not in the table leads nowhere until it is handed out again |
| ClientIds.IdsAreForLife | mplane_client/src/client/MpclientImpl.cpp:166-184 | within 2^32 sessions, an id maps to the session it was issued for until its one successful disconnect and to nothing afterwards |
| ClientIds.IssuedId | mplane_client/src/client/MpclientImpl.cpp:166-171 | each addSession hands out the number of those before it modulo 2^32, whatever happened in between |
| ClientIds.SameIdIff | mplane_client/src/client/MpclientImpl.cpp:168-169 | two sessions of a run are given the same id exactly when a multiple of 2^32 were added from the one to the other |
| ClientIds.UniqueIdsIff | mplane_client/src/client/MpclientImpl.cpp:166-171 | no id of a run is given twice exactly when the run adds at most 2^32 sessions |
| ClientIds.UsedIdReaches | mplane_client/src/client/MpclientImpl.cpp:166-171 | a reachable state in which the next addSession hands out an id that leads to another session |
| ClientIds.IssuedOnce | mplane_client/src/client/MpclientImpl.cpp:24-61 | no session is added twice |
| ClientProgress.SelfDestructIff | mplane_client/src/client/MpclientImpl.cpp:126-133 | in every run, a thread begins to destroy a session below the handler exactly when a supervision callback ends whose reference is the only one left |
| ClientProgress.SelfDestructWhenClosed | mplane_client/src/client/MpclientImpl.cpp:119-133 | within 2^32 sessions: exactly when the one id of that session is closed and no other thread holds it |
| ClientProgress.SelfDestructBlocksForEver | mplane_client/src/client/NetconfSession.cpp:59-66 | from then on, in every run, that thread never moves and can never move, and no callback is ever erased or added again |
| ClientProgress.SelfDestructReaches | mplane_client/src/client/MpclientImpl.cpp:126-133 | a reachable state in which that has happened, by a disconnect during a watchdog reset |
| ClientProgress.NoDeadlock | mplane_client/src/client/NetconfSession.cpp:59-104 | in every state of every run in which no thread does so, if some thread is at work then some thread at work can take a step |
| ClientTermination.WorkEnds | mplane_client/src/client/NetconfSession.cpp:59-104 | from a state that satisfies the invariant, no infinite sequence of actions goes on without a new connection, call or notification and without a thread destroying a session below the handler |
| ClientTermination.ComesToRest | mplane_client/src/client/NetconfSession.cpp:59-104 | from every state of every run, working on leads to a state in which every thread is at rest, or to one in which a thread destroys a session below the handler |
| ClientTables.CallbackTable.Add | mplane_client/src/client/NetconfSession.cpp:44-57 | the callback is the latest one registered under its address; the table still holds what its history comes to |
| ClientTables.CallbackTable.Remove | mplane_client/src/client/NetconfSession.cpp:59-62 | everything registered under that address is forgotten, and nothing else |
| ClientTables.CallbackTable.Handle | mplane_client/src/client/NetconfSession.cpp:64-73 | the loop invokes the callbacks registered since the address was last erased, all of them, once each, in order |
| ClientTables.SessionTable.AddSession | mplane_client/src/client/MpclientImpl.cpp:166-171 | the id counts the sessions before, modulo 2^32, and leads to the session if it was free, which within 2^32 sessions it is |
| ClientTables.SessionTable.RemoveSession | mplane_client/src/client/MpclientImpl.cpp:173-184 | within 2^32 sessions, an id can be removed exactly if it was issued and not removed before, and hands over the session it was issued for |
| ConfigText.EntryReadsBack | mplane_server/common/FileConfig/src/FileConfigBase.cpp:363-370 | a printed entry line is read as that entry |
| ConfigText.SectionReadsBack | mplane_server/common/FileConfig/src/FileConfigBase.cpp:345-361 | a printed section line is read as that section, for names of two or more characters other than GLOBAL in any case |
| ConfigText.BracketedReadsAsSection | mplane_server/common/FileConfig/src/FileConfigBase.cpp:347-349 | an entry whose key starts with a bracket and whose value ends with one is read as a section line |
| ConfigText.SplitText | mplane_server/common/FileConfig/src/FileConfigBase.cpp:332-334 | the lines of a text are the stretches between its newlines, the last one also if it is empty |
| ConfigReading.ReadsLastWriter | mplane_server/common/FileConfig/src/FileConfigBase.cpp:329-371 | for every text and every store read into: a key has the value of the last line that gives it one below a header of its store, where lines before any header and below `[GLOBAL]` in any case belong to the globals, and without such a line it keeps its value |
| ConfigReading.ReadsSections | mplane_server/common/FileConfig/src/FileConfigBase.cpp:345-361 | the sections are those that were there and those with a header |
| ConfigReading.SameEntries | mplane_server/common/FileConfig/inc/FileConfigBase.h:248-249 | sections and entries are all there is to a configuration |
| ConfigReading.CommentsSayNothing | mplane_server/common/FileConfig/src/FileConfigBase.cpp:336-343 | a line that is blank, a comment, or neither in brackets nor with a `=` can be left out anywhere, and the rest reads the same into any store |
| ConfigText.PrintThenParse | mplane_server/common/FileConfig/src/FileConfigBase.cpp:560-584 | reading what was written gives the configuration back, empty sections included |
| ConfigNormalForm.RoundTripIff | mplane_server/common/FileConfig/src/FileConfigBase.cpp:321-376 | that holds exactly for the printable configurations |
| ConfigNormalForm.ParseReadable | mplane_server/common/FileConfig/src/FileConfigBase.cpp:337-370 | whatever the text, keys and values come out trimmed, keys without equals sign and leading hash, names long enough and not GLOBAL |
| ConfigNormalForm.NormalFormIff | mplane_server/common/FileConfig/src/FileConfigBase.cpp:329-371 | reading, writing and reading again changes what a text means exactly when, in some store, the last line that writes the key of one opening bracket trims to `[=]` |
| ConfigNormalForm.NormalForm | mplane_server/common/FileConfig/src/FileConfigBase.cpp:569-579 | in particular for every text without a line that trims to `[=]` |
| ConfigNormalForm.BracketLineIsLost | mplane_server/common/FileConfig/src/FileConfigBase.cpp:347-370 | the text `[=]` does not come back |
| ConfigNormalForm.ParseOntoOverrides | mplane_server/common/FileConfig/src/FileConfigBase.cpp:329-371 | reading into a store that holds something overrides it, entry by entry, by what an empty store would have read |
| ConfigLookup.LookupRule | mplane_server/common/FileConfig/src/FileConfigBase.cpp:379-426 | for p1/.../pn: the first section in which the rest of the path is found, not past a missing section, and the globals last; both directions |
| ConfigLookup.SetEntry | mplane_server/common/FileConfig/src/FileConfigBase.cpp:507-530 | setting a name changes the one entry it stands for, and opens the section it names if that is missing |
| ConfigLookup.ModifyEntry | mplane_server/common/FileConfig/src/FileConfigBase.cpp:451-465 | a name that does not resolve is refused and nothing changes; otherwise the entry the name stands for holds the value, no other entry of any store changes and no section is opened, also where the name resolved in the globals |
| ConfigLookup.ModifyInEntry | mplane_server/common/FileConfig/src/FileConfigBase.cpp:468-478 | the same for the form with a section |
| ConfigLookup.ModifyKeepsNames | mplane_server/common/FileConfig/src/FileConfigBase.cpp:451-465 | after a successful change the name reads back and every name resolves that did before, to the same value or the one written |
| ConfigLookup.ModifyInKeepsNames | mplane_server/common/FileConfig/src/FileConfigBase.cpp:468-478 | the same for the form with a section |
| ConfigLookup.DefaultsSlots | mplane_server/common/FileConfig/src/FileConfigBase.cpp:436-448 | after the defaults are applied every slot holds its default and there is nothing else |
| ConfigLookup.DefaultsExactly | mplane_server/common/FileConfig/src/FileConfigBase.cpp:436-448 | the entries are those that the names of the defaults stand for, and the sections those that they name |
| ConfigLookup.ValuesAreSlots | mplane_server/common/FileConfig/src/FileConfigBase.cpp:167-182 | the flattened view of a slash-free configuration lists a pair exactly when that slot holds that value |
| ConfigLookup.IsEqualIff | mplane_server/common/FileConfig/src/FileConfigBase.cpp:124-134 | on slash-free configurations `isEqual` holds exactly when the globals, the sections that hold something and the number of sections agree |
| ConfigLookup.IsEqualTellsIff | mplane_server/common/FileConfig/src/FileConfigBase.cpp:124-134 | a slash-free configuration is equal to itself alone, among those, exactly when it has no empty section |
| ConfigLookup.IsEqualConfusesEmpty | mplane_server/common/FileConfig/src/FileConfigBase.cpp:124-134 | two slash-free configurations that compare equal and look a name up differently |
| ConfigLookup.IsEqualConfusesPaths | mplane_server/common/FileConfig/src/FileConfigBase.cpp:124-134 | with slashes, so do a global whose key is a path and a section entry |
| FileConfig.WriteStore | mplane_server/common/FileConfig/src/FileConfigBase.cpp:569-571 | the loop writes one line for each entry, in key order |
| FileConfig.WriteSections | mplane_server/common/FileConfig/src/FileConfigBase.cpp:573-579 | the loops write the sections in name order |
| FileConfig.PrintedText | mplane_server/common/FileConfig/src/FileConfigBase.cpp:569-579 | the text of a global entry and a section with an entry, character for character |
| FileConfig.FileConfig.constructor | mplane_server/common/FileConfig/src/FileConfigBase.cpp:436-448 | a new object holds its defaults and is valid exactly if there are any |
| FileConfig.FileConfig.CopyFrom | mplane_server/common/FileConfig/src/FileConfigBase.cpp:65-77 | assignment copies every field |
| FileConfig.FileConfig.SetPath | mplane_server/common/FileConfig/src/FileConfigBase.cpp:142-152 | the new path, no errors, the defaults again |
| FileConfig.FileConfig.ApplyDefaults | mplane_server/common/FileConfig/src/FileConfigBase.cpp:436-448 | the loop leaves exactly the defaults |
| FileConfig.FileConfig.ReadLine | mplane_server/common/FileConfig/src/FileConfigBase.cpp:333-370 | the body of the reading loop does what the line says, and moves the store pointer |
| FileConfig.FileConfig.Read | mplane_server/common/FileConfig/src/FileConfigBase.cpp:321-376 | the file overrides the contents; a file that cannot be opened is reported and changes nothing |
| FileConfig.FileConfig.Save | mplane_server/common/FileConfig/src/FileConfigBase.cpp:560-584 | the text written is the printed configuration; a file that cannot be opened is reported |
| FileConfig.FileConfig.SetValue | mplane_server/common/FileConfig/src/FileConfigBase.cpp:507-530 | a path sets an entry in a section, created if missing, another name a global |
| FileConfig.FileConfig.ModifyValue | mplane_server/common/FileConfig/src/FileConfigBase.cpp:451-465 | the object then holds what `ModifyEntry` says |
| FileConfig.FileConfig.ModifySectionValue | mplane_server/common/FileConfig/src/FileConfigBase.cpp:468-478 | the object then holds what `ModifyInEntry` says |
| FileConfig.FileConfig.SaveThenRead | mplane_server/common/FileConfig/src/FileConfigBase.cpp:560-584 | what one object saved another reads as the same contents, exactly when they are printable |
| Strings.TrimUnique | mplane_server/common/inc/stringfunc.hpp:253-297 | trimming returns the stretch between the blanks at both ends, whatever way it is computed |
| Strings.Upper | mplane_server/common/inc/stringfunc.hpp:84-102 | the loop upper-cases up to the first NUL |
| Strings.UpperAllAt | mplane_server/common/inc/stringfunc.hpp:92-99 | character by character |
| Strings.UpperIff | mplane_server/common/FileConfig/src/FileConfigBase.cpp:349-350 | folding a text gives a word in capitals exactly when it spells that word, up to a NUL, in some case |
| Strings.CaseIff | mplane_server/common/inc/stringfunc.hpp:59-102 | two characters have the same lower and the same upper case exactly when they are the same or the same Latin letter in two cases |
| Strings.LeqIff | mplane_server/common/FileMgr/src/FileMgr.cpp:243-243 | the order of strings: a prefix first, otherwise by the first difference |
| Strings.Lower | mplane_server/common/inc/stringfunc.hpp:59-77 | the loop lower-cases up to the first NUL |
| Strings.LowerAllAt | mplane_server/common/inc/stringfunc.hpp:67-74 | character by character |
| Numbers.StoiDecimal | mplane_server/common/Networking/src/IpPortMgr.cpp:82-90 | a printed port parses back to itself below 2^31 and throws from there on |
| Numbers.StoiNumeral | mplane_server/common/Networking/src/IpPortMgr.cpp:82-82 | any text of white space, a sign, a numeral and a rest: the value of the numeral in the base of its prefix, with its sign, or a throw exactly outside `int` |
| Numbers.StoiNothing | mplane_server/common/Networking/src/IpPortMgr.cpp:82-82 | without a digit behind white space and sign it throws |
| Numbers.HexByHand | mplane_server/common/Networking/src/IpPortMgr.cpp:82-82 | a port written as 0x50 is read in hexadecimal |
| Numbers.OctalByHand | mplane_server/common/Networking/src/IpPortMgr.cpp:82-82 | a port written as 010 is read in octal |
| Numbers.NegativeByHand | mplane_server/common/Networking/src/IpPortMgr.cpp:82-82 | a port written as -1 is listed as 2^32 - 1 |
| IpPortMgr.ListsTheMap | mplane_server/common/Networking/src/IpPortMgr.cpp:54-132 | after any operations on any addresses, failed saves and restarts, as long as the file can hold what is written to it, `list` gives every address of the abstract map once with its port, in order, and throws exactly when a port is 2^31 or more |
| IpPortMgr.SlashFreeListing | mplane_server/common/Networking/src/IpPortMgr.cpp:75-85 | without slashes that is the listing in address order |
| IpPortMgr.StorableIff | mplane_server/common/Networking/src/IpPortMgr.cpp:88-125 | the file can hold a map exactly when it can hold every address: a key, or a section name and a key |
| IpPortMgr.ApplyRefines | mplane_server/common/Networking/src/IpPortMgr.cpp:88-132 | each operation does to live, saved and stored configuration what it does to the three maps |
| IpPortHistory.LiveAt | mplane_server/common/Networking/src/IpPortMgr.cpp:88-115 | after any operations an address has the port it was last given since the list was last replaced, or the one it had then |
| IpPortHistory.ReplacedAt | mplane_server/common/Networking/src/IpPortMgr.cpp:94-132 | what the list is after it was replaced: the given pairs, later ones winning, nothing, the saved list, or what the file holds |
| IpPortHistory.SavedAt | mplane_server/common/Networking/src/IpPortMgr.cpp:118-132 | the saved list is what was live at the latest save, failed or not, or loaded at the latest start |
| IpPortHistory.StoredAt | mplane_server/common/Networking/src/IpPortMgr.cpp:118-125 | the file holds what was live at the latest save that succeeded |
| IpPortHistory.AtEnd | mplane_server/common/Networking/src/IpPortMgr.cpp:54-132 | those maps are the ones of `ListsTheMap`, and all are empty at first |
| IpPortMgr.RestoreBringsBack | mplane_server/common/Networking/src/IpPortMgr.cpp:118-132 | restoring gives back what was live at the latest save or start, whatever was edited since |
| IpPortMgr.RestartBringsBackIff | mplane_server/common/Networking/src/IpPortMgr.cpp:54-69 | a restart gives back what the latest successful save wrote, exactly when that was printable |
| IpPortMgr.ShortPathIsLost | mplane_server/common/Networking/src/IpPortMgr.cpp:88-91 | an address with a slash after one character does not survive |
| IpPortMgr.IpPortMgr.constructor | mplane_server/common/Networking/src/IpPortMgr.cpp:54-69 | both lists hold what the file holds, or nothing if it is missing or unreadable |
| IpPortMgr.IpPortMgr.List | mplane_server/common/Networking/src/IpPortMgr.cpp:75-85 | the loop parses every value, or throws |
| IpPortMgr.IpPortMgr.SetList | mplane_server/common/Networking/src/IpPortMgr.cpp:107-115 | the loop leaves the given entries, later ones winning |
| IpPortMgr.IpPortMgr.AddEntry | mplane_server/common/Networking/src/IpPortMgr.cpp:88-91 | the entry is set in the live list only |
| IpPortMgr.IpPortMgr.Save | mplane_server/common/Networking/src/IpPortMgr.cpp:118-125 | the saved list becomes the live one in any case; the file is its printed form, or the error is passed on |
| IpPortMgr.IpPortMgr.Restore | mplane_server/common/Networking/src/IpPortMgr.cpp:128-132 | the live list becomes the saved one |
| Bits.OrDisjoint | mplane_server/xcommon/inc/ByteTransfer.hpp:843-843 | or-ing values without a common bit adds them |
| ByteTransfer.AppendedReadsBack | mplane_server/xcommon/inc/ByteTransfer.hpp:304-404 | any list of fields, appended, reads back with one cursor that ends at the end, 24-bit ones modulo 2^24, and the prefix is kept |
| ByteTransfer.RecordRoundTrip | mplane_server/xcommon/inc/ByteTransfer.hpp:103-294 | any list of fields and strings, written in place anywhere, changes only the bytes there is room for, and every field reads back as far as it fits: all of them if all fit |
| ByteTransfer.BigTruncates | mplane_server/xcommon/inc/ByteTransfer.hpp:837-855 | with k of N bytes left, the low N bytes of a big-endian value come back with the low 8(N-k) bits cleared |
| Bits.ShiftClears | mplane_server/xcommon/inc/ByteTransfer.hpp:837-855 | shifting right and left clears exactly the low bits |
| ByteTransfer.LittleTruncates | mplane_server/xcommon/inc/ByteTransfer.hpp:879-897 | with k bytes left, a little-endian value comes back modulo 2^(8k) |
| ByteTransfer.TextRoundTripIff | mplane_server/xcommon/inc/ByteTransfer.hpp:40-81 | a string comes back exactly when it has no zero byte and fits, and then both cursors agree |
| ByteTransfer.Bytes.ReadVal | mplane_server/xcommon/inc/ByteTransfer.hpp:837-846 | the loop computes the value of the bytes there are, and the cursor advances by their number |
| ByteTransfer.Bytes.ReadValLE | mplane_server/xcommon/inc/ByteTransfer.hpp:879-888 | the same, least significant byte first |
| ByteTransfer.Bytes.WriteVal | mplane_server/xcommon/inc/ByteTransfer.hpp:848-855 | the loop writes the leading bytes there is room for and changes no other |
| ByteTransfer.Bytes.WriteValLE | mplane_server/xcommon/inc/ByteTransfer.hpp:890-897 | the same, least significant byte first |
| ByteTransfer.Bytes.ReadByte | mplane_server/xcommon/inc/ByteTransfer.hpp:274-280 | past the end a read gives zero and the cursor stays |
| ByteTransfer.Bytes.WriteByte | mplane_server/xcommon/inc/ByteTransfer.hpp:288-294 | past the end a write does nothing |
| ByteTransfer.Bytes.ReadString | mplane_server/xcommon/inc/ByteTransfer.hpp:40-48 | the loop reads up to a zero byte or the end |
| ByteTransfer.Bytes.WriteString | mplane_server/xcommon/inc/ByteTransfer.hpp:75-81 | the string and its terminator, as far as there is room |
| ByteTransfer.Bytes.AppendVal | mplane_server/xcommon/inc/ByteTransfer.hpp:314-404 | the bytes of the value are added at the end |
| ByteTransfer.Bytes.AppendValLE | mplane_server/xcommon/inc/ByteTransfer.hpp:327-391 | the same, least significant byte first |
| TextRewrite.ExpandStr | mplane_server/common/inc/stringfunc.hpp:669-716 | the loop ends and equals one pass from left to right that never looks at a substituted value |
| TextRewrite.PlainIsKept | mplane_server/common/inc/stringfunc.hpp:681-698 | text in which no variable opens is kept as it is |
| TextRewrite.TemplateExpands | mplane_server/common/inc/stringfunc.hpp:656-716 | every template of text in which no variable opens and of variables, with or without an unclosed variable at its end, expands piece by piece: a variable to its value or to nothing, but `${}` at the very end to itself, and what is not closed is kept |
| TextRewrite.EveryText | mplane_server/common/inc/stringfunc.hpp:669-716 | every text is such a template |
| TextRewrite.ReplaceStrs | mplane_server/common/inc/stringfunc.hpp:379-393 | the loop equals leftmost non-overlapping substitution on the original string, also when the replacement contains the pattern |
| TextRewrite.ReplacedStep | mplane_server/common/inc/stringfunc.hpp:387-391 | what substitution means: the text before the leftmost occurrence is kept, the occurrence becomes the replacement, and the same is done behind it |
| TextRewrite.NothingToReplace | mplane_server/common/inc/stringfunc.hpp:387-387 | without an occurrence the text is kept |
| TextRewrite.ReplacingEndsIff | mplane_server/common/inc/stringfunc.hpp:387-391 | the loop ends, within as many rounds as there are characters, exactly when the pattern is not empty |
| Paths.Clean | mplane_server/common/Path/src/Path.cpp:505-510 | each run of n separators becomes one of half the length, rounded up, and all else is kept |
| Paths.LongestHalved | mplane_server/common/Path/src/Path.cpp:505-510 | the longest run of separators is halved, rounding up |
| Paths.CleanLeavesDouble | mplane_server/common/Path/src/Path.cpp:505-510 | two separators in a row are left exactly when there were three |
| Paths.CleanFixedIff | mplane_server/common/Path/src/Path.cpp:505-510 | nothing changes exactly when no two separators were in a row |
| Paths.DirThenBase | mplane_server/common/Path/src/Path.cpp:285-317 | joining the two parts of a path gives the path |
| Paths.JoinThenSplit | mplane_server/common/Path/src/Path.cpp:285-317 | the last part of a joined path is what was joined exactly when that is no path, and the directory comes back with its separator |
| Paths.Join | mplane_server/common/Path/src/Path.cpp:305-317 | a separator is added unless there is one or there is no directory |
| FileStatus.AlwaysSound | mplane_server/common/FileStatus/src/FileStatus.cpp:120-261 | in every run from a new object, with or without overflow, there is at least one file, the current one is among them, and both percentages are at most 100 |
| FileStatus.StepSound | mplane_server/common/FileStatus/src/FileStatus.cpp:120-261 | every call keeps that |
| FileStatus.TotalNeverFalls | mplane_server/common/FileStatus/src/FileStatus.cpp:120-261 | while no more files start than declared and no file's progress falls, the total never falls, and it is 100 only when the last file is at 100 |
| FileStatus.RestartHonest | mplane_server/common/FileStatus/src/FileStatus.cpp:120-135 | a restart with up to 42949672 files begins such a run |
| FileStatus.ExtraFileLowersTotal | mplane_server/common/FileStatus/src/FileStatus.cpp:145-151 | one file more than declared lowers a full total exactly when that file is not at 100 |
| FileStatus.FullTotalIff | mplane_server/common/FileStatus/src/FileStatus.cpp:346-350 | ending the last file gives 100 exactly when the number of files does not overflow |
| FileStatus.SkippedTotal | mplane_server/common/FileStatus/src/FileStatus.cpp:212-231 | skipping k files counts them one by one: the total is that of so many files done |
| FileHistory.ProgressAt | mplane_server/common/FileStatus/src/FileStatus.cpp:120-261 | in every run from a new object, the progress of the file is what the latest call that counts for it says: zero after a start or a restart, the clipped percentage after `progress`, 100 after an end, a skip or a success, and zero if there is none |
| FileHistory.FileAt | mplane_server/common/FileStatus/src/FileStatus.cpp:144-151 | the file is the one started last, without a name if it was skipped or after a restart |
| FileHistory.OperationAt | mplane_server/common/FileStatus/src/FileStatus.cpp:120-141 | the operation is the latest one since the latest restart |
| FileHistory.ErrorAt | mplane_server/common/FileStatus/src/FileStatus.cpp:234-246 | the error is the latest one since the latest restart |
| FileHistory.DoneAt | mplane_server/common/FileStatus/src/FileStatus.cpp:234-261 | all is done exactly if there was a failure or a success since the latest restart |
| FileHistory.FilesAt | mplane_server/common/FileStatus/src/FileStatus.cpp:120-151 | the current file is the number of files started since the latest restart, or on top of the number of files at a success, modulo 2^32; the number of files is the declared one or the highest that was started |
| FileHistory.TotalAt | mplane_server/common/FileStatus/src/FileStatus.cpp:337-353 | the total is that of the latest call that updates it, in 32-bit arithmetic with the numbers at that call |
| FileHistory.AtEnd | mplane_server/common/FileStatus/src/FileStatus.cpp:120-261 | a run call by call is the run as a whole |
| FileStatus.FileStatus.UpdateProgress | mplane_server/common/FileStatus/src/FileStatus.cpp:337-353 | clipped progress, the total from it in 32-bit arithmetic, and whether to show it |
| FileStatus.FileStatus.Start | mplane_server/common/FileStatus/src/FileStatus.cpp:144-151 | the next file is current with nothing done, and the number of files is raised if needed |
| FileStatus.FileStatus.Skip | mplane_server/common/FileStatus/src/FileStatus.cpp:224-231 | the loop skips one file after the other |
| FileStatus.FileStatus.Success | mplane_server/common/FileStatus/src/FileStatus.cpp:249-261 | the current file is ended if needed and all is at 100 |
| FileMgr.FileMgr.ListFiles | mplane_server/common/FileMgr/src/FileMgr.cpp:235-258 | sorting the paths and filtering them gives the sorted names of the regular files |
| FileMgr.ListedIff | mplane_server/common/Path/src/Path.cpp:197-260 | a name is listed exactly when its path is a regular file and it is not empty, not the directory or its parent and has no separator; hidden files are listed |
| Strings.RankIff | mplane_server/common/FileMgr/src/FileMgr.cpp:461-470 | a name stands in the sorted listing at the number of names before it |
| FileMgr.ListingIsSorted | mplane_server/common/FileMgr/src/FileMgr.cpp:242-257 | the order of the paths is the order of the names |
| FileMgr.FileMgr.Del | mplane_server/common/FileMgr/src/FileMgr.cpp:347-365 | exactly that file is removed, or nothing is and the reason is added to the errors |
| FileMgr.FileMgr.DelIndex | mplane_server/common/FileMgr/src/FileMgr.cpp:337-344 | exactly the file with that many files before it in the order of names, or an error if there are not so many |
| FileMgr.FileMgr.IndexToFilename | mplane_server/common/FileMgr/src/FileMgr.cpp:461-470 | the one name with that many names before it, or an error if there are not so many |
| FileMgr.FileMgr.DelAll | mplane_server/common/FileMgr/src/FileMgr.cpp:269-278 | deleting the first file of a new listing again and again removes the files of the first listing in order |
| FileMgr.SortedRest | mplane_server/common/FileMgr/src/FileMgr.cpp:272-276 | what is left of a sorted listing is the sorted listing of what is left |
| FileMgr.ChosenAll | mplane_server/common/FileMgr/src/FileMgr.cpp:310-315 | choosing from the sorted listing gives exactly the matching files, in order |
| FileMgr.MatchesIff | mplane_server/common/FileMgr/src/FileMgr.cpp:301-315 | a file matches exactly when it starts with what is before the star, character by character, the two cases of a Latin letter counting as the same |
| FileMgr.FileMgr.DelFile | mplane_server/common/FileMgr/src/FileMgr.cpp:261-334 | a true result means that exactly all matching files, and at least one, were removed; a false one that some of the first of them were and nothing else; and which error is added |
| FileMgr.OnlyOthersLeft | mplane_server/common/FileMgr/src/FileMgr.cpp:261-334 | after success the directory lists exactly the files that do not match |

## Left out

- Fairness in the client: that a thread which can take a step is ever scheduled, and that a blocked lock is granted, is not modelled.
- Interleavings on classes: the client protocol is a transition system over values, so two threads never share a Dafny object; the two tables are also modelled in place.
- Sessions without a handle (a failed connection, `checkSession`) and exceptions in the client: they add no step that touches the shared tables.
- libnetconf2, gRPC, SSH authentication, XML serialisation and logging: only the promises listed above are used.
- Timing of reads and writes under the C++ memory model: lock sections are atomic actions.
- `FileConfigBase::clean`: it erases from maps while walking them.
- Number-valued getters and setters of the configuration (`doubleValue`, `intValue`): they add only a conversion.
- The unoptimised `toUpper` and `toLower` (mplane_server/common/inc/stringfunc.hpp:136-192): they differ from the modelled ones only on text with a NUL character.
- IpPortMgr.ListsTheMap: assumes that the file can hold what is written to it; RestartBringsBackIff with StorableIff says exactly what is lost otherwise, and ShortPathIsLost gives an address.
- TextRewrite.ReplaceStrs: requires a non-empty pattern, because the loop does not end otherwise.
- FileStatus: output strings and the output function, `copy`, and the state-file variants.
- FileMgr: one path string names one entry, so links, `.`, `..` and doubled separators that reach a file by a second path are not modelled; neither are downloads, transfers and free space.
- FileMgr.FileMgr.DelFile: the removed count and the split into helper methods are only for stating the result.
- ByteTransfer: `readString` with a length, the iterator and string variants of the same loops, and the dump functions.
- `DataVariantSettings::expandString`, Tokeniser, Service, Task, Crc, Crypt, Base64, Lzo, Sha1, SftpPath, the frequency, power and temperature types, and the hardware layer.
