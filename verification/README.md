# Models of the engines behind the performance demo

Dafny models of the seven components of this repository that carry their algorithms in C or C++: a
least-frequently-used cache, two tracers of Objective-C message sends, the crash-report fixer, the memory
introspection of the report writer, fishhook, the application-state accounting with the report store, and the
crash-monitor state machine with the thread cache. Nothing was executed; everything said below is proved for
all inputs, all runs or all interleavings of the model unless a concrete one is named.

`dafny verify dfyconfig.toml` checks the project.

## How it is laid out

| files | what they model |
|---|---|
| Basics | an optional value, the smaller of two numbers, character classes |
| LfuSpec, LfuRows, LfuCache | what an LFU cache is (a map with touch counts and stamps); the bucket list as a value; the class with buckets, nodes and iterators as references, proved to refine the first |
| CallForest, Growable | call forests, flat lists, pruning; the hand-written array stack |
| TPCallTrace, MTHCallTrace, ReturnAddresses | the two tracers' shadow stacks and record lists; the saved return addresses under interleaved threads |
| ReportVersion, ReportPaths, ReportFixer | version strings, path patterns, and the streaming rewriter as a tree transformation |
| MemoryIntrospection, MemoryPictures | the mutually recursive walkers over an arbitrary object graph; what a reader of the events finds |
| Fishhook, FishhookImages | what rebinding comes to; the nested loops over images, sections and slots |
| AppState, DurationTotals, Switching, Installation | durations, sessions and launches over lifecycle events and restarts; the durations from launch to launch; the monitor switched off and on; what an installation passes on |
| ReportNames, ReportSort, ReportStore | printing and scanning of file names; sorting by a comparator that can overflow; IDs, pruning, the directory |
| CachedData, CachedLookups, ThreadCache | the thread-list update statement by statement against concurrent readers and freezes; lookups between the statements; the same statements as methods |
| Monitors, CrashMonitors, ZombieCache | the monitor globals and crash handlers step by step, interrupted by further crashes; the same functions as methods; the zombie monitor's cache |

Components that work in place are classes whose methods are proved against functions on values; the theorems
are about those functions, over whole runs. A clock, the kernel's answers, a debugger's presence and a
`vm_protect` result are inputs. Doubles are reals; integers are unbounded except where the code's width
decides something (64-bit and 32-bit costs, the 32-bit low word of report IDs, 64-bit scanning).

## What the code does that one might not expect

- The fixer's path test compares only as many names as the leaf has: a leaf at the beginning of a pattern is
  rewritten too, and a leaf below a whole pattern makes `strncmp` read a NULL entry of the pattern. Both are
  characterised exactly (ReportPaths.MatchAnyMeans, ReportFixer.StreamIsTreeRewriting). In a recrash report over a
  recrash report only the outer two reports are rewritten (ReportFixer.RecrashTwiceStopsAtTwo).
- An image loaded after two or more hooks of a name makes the newest hook's saved pointer skip the other hooks
  (Fishhook.LateImageShortcutsTheChain).
- The tracer's clock starts over every 1000 seconds, and the other tracer cuts costs to 32 bits. Callers of
  recorded calls are sure to be recorded below those durations, and the bounds are exact.
- A launch is marked active before it is: a reading of the clock before the first didBecomeActive counts the time
  since the last stamp as active (AppState.LaunchDurationsExactly). Time that passes inside a reading, between its
  two looks at the clock, is lost (AppState.DurationsTrueExactly).
- Only the last notification before the installation is passed on, as if it came then: the time spent active before is
  lost, or what was not active counts as active (Installation.LossAtInstallation).
- Switching the monitor off and on counts as one more launch and forgets a crash that was already noted
  (Switching.OffAndOnForgets, Switching.CountsProcessesExactly).
- A second launch in the same second draws the same report IDs and writes over the reports of the first
  (ReportStore.SameFileExactly).
- A process killed after a return to the foreground loses that session from the count since the last crash, and the
  time counted after its last save (AppState.SessionsCounted, DurationTotals.DurationCountIsRight).
- Pruning counts every file whose name begins like a report, but deletes by printed name: other spellings
  survive (ReportStore.PruneCountExactly, ReportStore.StrangeNameSurvives). A buffer longer than the number of
  reports is sorted with its leftovers (ReportSort.LeftoversSortedIn), by a comparator that overflows
  (ReportSort.ComparesExactly). A negative limit deletes all reports and then reads past them
  (ReportStore.ReportStore.PruneReports).
- The thread cache publishes so that the count never exceeds an array, but its readers compare and read in
  separate steps: a shrinking update in between sends the read out of bounds unless the cache is settled
  (CachedData.ReaderSafeExactly). Between the swaps a lookup can pair a thread with another's name
  or queue, or miss a thread behind the smaller count that both updates named (CachedLookups.TruthfulExactly,
  CachedLookups.MixedReached, CachedLookups.LostReached). An unfreeze can get lost (CachedData.UnfreezeCanBeLost).
- After a crash in a crash handler, a handler that looked at the flag before may still draw a report ID
  (Monitors.NoDrawsExactly). If the first handler crashes before it begins a report, the recrash report has no
  file to go to (Monitors.RecrashNamedExactly). A non-terminating user exception is noted as a crash
  (Monitors.UserExceptionNotedAsCrash).
- The zombie cache forgets an object as soon as another in the same place is deallocated, and shows a stale name
  with a new exception whose name could not be read (ZombieCache.FoundExactly, ZombieCache.LastExceptionIs).

## Model

| member | source | states |
|---|---|---|
| LfuSpec.Victim | ThirdSDK/MTHawkeye/Utils/MTHawkeyeLFUCache.cpp:90-97 | a non-empty cache has one key that comes before all others in the order (touch count, last touch) |
| LfuSpec.VictimUnique | ThirdSDK/MTHawkeye/Utils/MTHawkeyeLFUCache.cpp:90-97 | there is only one such key |
| LfuSpec.ResidentHistory | ThirdSDK/MTHawkeye/Utils/MTHawkeyeLFUCache.cpp:26-115 | in every run, a resident key carries the number of its touches since the put that brought it in, the moment of its last touch, and the value of its last put |
| LfuSpec.GetIsFresh | ThirdSDK/MTHawkeye/Utils/MTHawkeyeLFUCache.cpp:70-80 | in every run, a get misses or returns the value of the last put of its key |
| LfuSpec.GetExactly | ThirdSDK/MTHawkeye/Utils/MTHawkeyeLFUCache.cpp:70-80 | in every run, a get of a key that came in by a put and has stayed since returns the value of its last put, and a get of any other key misses |
| LfuSpec.EnoughRoomGets | ThirdSDK/MTHawkeye/Utils/MTHawkeyeLFUCache.cpp:70-80 | with no more distinct keys than room, or with a negative capacity, a get returns what a plain map holds |
| LfuSpec.WithinCapacity | ThirdSDK/MTHawkeye/Utils/MTHawkeyeLFUCache.cpp:82-131 | in every run, with a capacity that is not negative, there are never more entries than the capacity |
| LfuSpec.PutEvictsExactlyTheLeast | ThirdSDK/MTHawkeye/Utils/MTHawkeyeLFUCache.cpp:82-109 | in every run, a put of a new key into a full cache leaves every entry but that of the least key of the eviction order, and the new one |
| LfuSpec.EvictedIsLeastTouched | ThirdSDK/MTHawkeye/Utils/MTHawkeyeLFUCache.cpp:82-109 | in terms of the history alone: a key dropped by a put of a new key was dropped at capacity, and each key that stays was touched more often since its insertion, or as often and later, and keeps its value |
| LfuSpec.EnoughRoomIsAPlainMap | ThirdSDK/MTHawkeye/Utils/MTHawkeyeLFUCache.cpp:70-131 | with no more distinct keys than room, or with a negative capacity, every run holds what a plain map holds |
| LfuRows.BumpInPlaceInv | ThirdSDK/MTHawkeye/Utils/MTHawkeyeLFUCache.cpp:33-35 | raising the count of a one-key bucket in place keeps the bucket invariant and is one more touch of the key |
| LfuRows.MoveToNextInv | ThirdSDK/MTHawkeye/Utils/MTHawkeyeLFUCache.cpp:43-53 | splicing into the next bucket, erasing an emptied one, keeps the bucket invariant and is one more touch |
| LfuRows.MoveToNewInv | ThirdSDK/MTHawkeye/Utils/MTHawkeyeLFUCache.cpp:36-66 | splicing into a new bucket, between two or at the end, keeps the bucket invariant and is one more touch |
| LfuRows.InsertFrontInv | ThirdSDK/MTHawkeye/Utils/MTHawkeyeLFUCache.cpp:99-109 | a new key in the bucket of count 1, made if need be, keeps the bucket invariant and is an insertion |
| LfuRows.UnlinkedInv | ThirdSDK/MTHawkeye/Utils/MTHawkeyeLFUCache.cpp:117-124 | unlinking a key, and leaving its bucket even when empty, keeps the bucket invariant of the other keys |
| LfuRows.SetValueInv | ThirdSDK/MTHawkeye/Utils/MTHawkeyeLFUCache.cpp:110-113 | a new value for a resident key keeps the bucket invariant |
| LfuRows.BackIsVictim | ThirdSDK/MTHawkeye/Utils/MTHawkeyeLFUCache.cpp:92-95 | the back of a front bucket that is not empty is the least key of the eviction order |
| LfuCache.MTHawkeyeLFUCache.constructor | ThirdSDK/MTHawkeye/Utils/MTHawkeyeLFUCache.cpp:15-19 | a new cache stands for the empty specification cache |
| LfuCache.MTHawkeyeLFUCache.Locate | ThirdSDK/MTHawkeye/Utils/MTHawkeyeLFUCache.cpp:26-28 | the two stored iterators of a mapped key name its bucket and its node in that bucket |
| LfuCache.MTHawkeyeLFUCache.BumpBucket | ThirdSDK/MTHawkeye/Utils/MTHawkeyeLFUCache.cpp:33-35 | the in-place bump is one more touch of the key |
| LfuCache.MTHawkeyeLFUCache.SpliceAndErase | ThirdSDK/MTHawkeye/Utils/MTHawkeyeLFUCache.cpp:45-52 | the two lists after the splice, and the erased bucket, are the rows of the specified move |
| LfuCache.MTHawkeyeLFUCache.SpliceToNext | ThirdSDK/MTHawkeye/Utils/MTHawkeyeLFUCache.cpp:43-53 | moving to the next bucket is one more touch of the key |
| LfuCache.MTHawkeyeLFUCache.EmplaceAndSplice | ThirdSDK/MTHawkeye/Utils/MTHawkeyeLFUCache.cpp:36-41 | the emplaced bucket and the spliced node are the rows of the specified move |
| LfuCache.MTHawkeyeLFUCache.SpliceToNew | ThirdSDK/MTHawkeye/Utils/MTHawkeyeLFUCache.cpp:36-66 | moving to a new bucket is one more touch of the key |
| LfuCache.MTHawkeyeLFUCache.RightMove | ThirdSDK/MTHawkeye/Utils/MTHawkeyeLFUCache.cpp:26-68 | whichever of the five branches is taken, the cache afterwards is the specification cache after one more touch |
| LfuCache.MTHawkeyeLFUCache.Get | ThirdSDK/MTHawkeye/Utils/MTHawkeyeLFUCache.cpp:70-80 | returns what the specification returns and leads to the specified cache |
| LfuCache.MTHawkeyeLFUCache.Put | ThirdSDK/MTHawkeye/Utils/MTHawkeyeLFUCache.cpp:82-115 | leads to the specified cache: nothing at capacity 0, an update and a touch, or an insertion after an eviction where full |
| LfuCache.MTHawkeyeLFUCache.Evict | ThirdSDK/MTHawkeye/Utils/MTHawkeyeLFUCache.cpp:90-97 | at capacity the guarded eviction always removes the least key, empty buckets notwithstanding |
| LfuCache.MTHawkeyeLFUCache.PushFront | ThirdSDK/MTHawkeye/Utils/MTHawkeyeLFUCache.cpp:100-104 | the front bucket is made when its count is not 1, and the node goes in front of it |
| LfuCache.MTHawkeyeLFUCache.InsertNew | ThirdSDK/MTHawkeye/Utils/MTHawkeyeLFUCache.cpp:99-109 | a new key enters with count 1, and both its iterators are good |
| LfuCache.MTHawkeyeLFUCache.RemoveKey | ThirdSDK/MTHawkeye/Utils/MTHawkeyeLFUCache.cpp:117-124 | removes the key and nothing else; an absent key changes nothing |
| LfuCache.MTHawkeyeLFUCache.DropAt | ThirdSDK/MTHawkeye/Utils/MTHawkeyeLFUCache.cpp:119-123 | erasing at the two iterators removes exactly that key and lowers the size by one |
| LfuCache.MTHawkeyeLFUCache.Clear | ThirdSDK/MTHawkeye/Utils/MTHawkeyeLFUCache.cpp:126-131 | leads to the empty specification cache |
| CallForest.FlatDetermines | ThirdSDK/TimeProfiler/Core/TPCallTrace.c:107-118 | a flat list of (depth, call) in post-order belongs to one call forest only |
| CallForest.FilterIsPrune | ThirdSDK/TimeProfiler/Core/TPCallTrace.c:95-119 | when no kept call has a dropped caller, the filtered list is the flat list of the pruned forest |
| CallForest.PassingUpKeepsCallers | ThirdSDK/TimeProfiler/Core/TPCallTrace.c:95-119 | a test that passes from a call to every call around it drops no caller of a kept call |
| Growable.GrowableStack.constructor | ThirdSDK/TimeProfiler/Core/TPCallTrace.c:185-190 | an empty stack with one step of room |
| Growable.GrowableStack.Push | ThirdSDK/TimeProfiler/Core/TPCallTrace.c:132-136 | appends; the index stays inside the allocated length, which grows by a step exactly when full |
| Growable.GrowableStack.Pop | ThirdSDK/TimeProfiler/Core/TPCallTrace.c:139-144 | takes the last element off |
| TPCallTrace.EnterThenLeave | ThirdSDK/TimeProfiler/Core/TPCallTrace.c:76-120 | a call with any records in between leaves the stack as it was and adds its own record if kept |
| TPCallTrace.RecordsAreFilteredPostOrder | ThirdSDK/TimeProfiler/Core/TPCallTrace.c:76-120 | for every call forest the tracer appends exactly the post-order of the calls that pass the depth and cost tests, each with its true depth, and restores its stack and ignore counter |
| TPCallTrace.RecordedExactly | ThirdSDK/TimeProfiler/Core/TPCallTrace.c:95-119 | a record is among those of a forest exactly if it tells class, selector, kind, depth and clock difference of a call that is not too deep and cost enough |
| TPCallTrace.CostIsTrueInOneWindow | ThirdSDK/TimeProfiler/Core/TPCallTrace.c:68-74 | the recorded cost is the true duration exactly when the 1000-second clock did not start over in between |
| TPCallTrace.CallerCostsMore | ThirdSDK/TimeProfiler/Core/TPCallTrace.c:95-107 | a call below 1000 seconds never looks cheaper than a call inside it, clock turns included |
| TPCallTrace.CallerCostsMoreExactly | ThirdSDK/TimeProfiler/Core/TPCallTrace.c:68-107 | a call dominates all calls inside it exactly when it is below 1000 seconds or shows the largest 64-bit cost |
| TPCallTrace.NeverLostExactly | ThirdSDK/TimeProfiler/Core/TPCallTrace.c:95-119 | no settings and no callees lose a caller exactly if it is below 1000 seconds or shows the largest 64-bit cost |
| TPCallTrace.CallersRecorded | ThirdSDK/TimeProfiler/Core/TPCallTrace.c:95-119 | with calls below 1000 seconds, the caller of a recorded call is recorded |
| TPCallTrace.RecordsArePruned | ThirdSDK/TimeProfiler/Core/TPCallTrace.c:76-120 | then the record list is the flat list of the pruned forest |
| TPCallTrace.RecordsDetermineCalls | ThirdSDK/TimeProfiler/Core/TPCallTrace.c:76-120 | then equal record lists mean equal forests of recorded calls |
| TPCallTrace.LongCallerLost | ThirdSDK/TimeProfiler/Core/TPCallTrace.c:68-107 | a concrete forest in which a 1000-second caller is lost and its short callee recorded |
| TPCallTrace.NestingIsLevelAboveLowest | ThirdSDK/TimeProfiler/Core/TPCallTrace.c:76-119 | over any sequence of enters and leaves, balanced or not, index + 1 + ignoreCallNum is the level above the lowest level so far, and calls are ignored only at the depth limit |
| TPCallTrace.Tracer.constructor | ThirdSDK/TimeProfiler/Core/TPCallTrace.c:61-66 | the initial globals |
| TPCallTrace.Tracer.StartTrace | ThirdSDK/TimeProfiler/Core/TPCallTrace.c:175-198 | makes the buffers that are missing and keeps the contents of the others |
| TPCallTrace.Tracer.StopTrace | ThirdSDK/TimeProfiler/Core/TPCallTrace.c:215-223 | disables, drops the stack and resets the ignore counter with it; records stay |
| TPCallTrace.Tracer.GetMainThreadCallRecord | ThirdSDK/TimeProfiler/Core/TPCallTrace.c:225-230 | hands the records over and forgets them |
| TPCallTrace.Tracer.PushCallRecord | ThirdSDK/TimeProfiler/Core/TPCallTrace.c:76-93 | is the specified push, with the growing array in place; needs only the stack |
| TPCallTrace.Tracer.PopCallRecord | ThirdSDK/TimeProfiler/Core/TPCallTrace.c:95-120 | is the specified pop: the ignore counter first, then the record if it cost enough; needs the record buffer only then |
| TPCallTrace.Tracer.Before | ThirdSDK/TimeProfiler/Core/TPCallTrace.c:146-150 | pushes exactly when enabled and on the main thread |
| TPCallTrace.Tracer.After | ThirdSDK/TimeProfiler/Core/TPCallTrace.c:155-159 | pops exactly when enabled and on the main thread |
| MTHCallTrace.RecordsAreFilteredPostOrder | ThirdSDK/MTHawkeye/TimeConsumingPlugins/ObjcCallTrace/Core/MTHCallTraceCore.c:82-186 | for every call forest the tracer appends exactly the filtered post-order with true depths, and restores its stack |
| MTHCallTrace.CostExactly | ThirdSDK/MTHawkeye/TimeConsumingPlugins/ObjcCallTrace/Core/MTHCallTraceCore.c:148-151 | the recorded cost is the true duration exactly below 2^32 microseconds, and always up to multiples of that |
| MTHCallTrace.ShortCallKept | ThirdSDK/MTHawkeye/TimeConsumingPlugins/ObjcCallTrace/Core/MTHCallTraceCore.c:151-152 | a shorter call is recorded exactly if recording all, or if it took longer than the threshold and is not too deep |
| MTHCallTrace.RecordedExactly | ThirdSDK/MTHawkeye/TimeConsumingPlugins/ObjcCallTrace/Core/MTHCallTraceCore.c:148-166 | and then a record is among those of a forest exactly if it tells class, selector, depth and true duration of such a call |
| MTHCallTrace.CallerCostsMoreExactly | ThirdSDK/MTHawkeye/TimeConsumingPlugins/ObjcCallTrace/Core/MTHCallTraceCore.c:148-152 | a 32-bit cost dominates all inner costs exactly when the call is below 2^32 microseconds or shows the largest cost |
| MTHCallTrace.NeverLostExactly | ThirdSDK/MTHawkeye/TimeConsumingPlugins/ObjcCallTrace/Core/MTHCallTraceCore.c:131-169 | no settings and no callees lose a caller exactly if it is below 2^32 microseconds or shows the largest cost |
| MTHCallTrace.CallersRecorded | ThirdSDK/MTHawkeye/TimeConsumingPlugins/ObjcCallTrace/Core/MTHCallTraceCore.c:148-167 | below 2^32 microseconds the caller of a recorded call is recorded |
| MTHCallTrace.RecordsArePruned | ThirdSDK/MTHawkeye/TimeConsumingPlugins/ObjcCallTrace/Core/MTHCallTraceCore.c:131-169 | then the record list is the flat list of the pruned forest |
| MTHCallTrace.RecordsDetermineCalls | ThirdSDK/MTHawkeye/TimeConsumingPlugins/ObjcCallTrace/Core/MTHCallTraceCore.c:131-169 | then equal record lists mean equal forests of recorded calls |
| MTHCallTrace.CallRecords.Add | ThirdSDK/MTHawkeye/TimeConsumingPlugins/ObjcCallTrace/Core/MTHCallTraceCore.c:153-166 | appends to the global record array, grown one record early, in bounds |
| MTHCallTrace.CallRecords.Clear | ThirdSDK/MTHawkeye/TimeConsumingPlugins/ObjcCallTrace/Core/MTHCallTraceCore.c:387-394 | no records are left |
| MTHCallTrace.Thread.constructor | ThirdSDK/MTHawkeye/TimeConsumingPlugins/ObjcCallTrace/Core/MTHCallTraceCore.c:62-73 | a new thread has an empty stack of 64 |
| MTHCallTrace.Thread.PushCallRecord | ThirdSDK/MTHawkeye/TimeConsumingPlugins/ObjcCallTrace/Core/MTHCallTraceCore.c:82-110 | appends the open call with its return address, as the interleaved stacks of addresses have it; the time only on a recording main thread |
| MTHCallTrace.Thread.PopCallRecord | ThirdSDK/MTHawkeye/TimeConsumingPlugins/ObjcCallTrace/Core/MTHCallTraceCore.c:131-186 | returns the address that the interleaved stacks have for the matching before-hook, and logs the call exactly as specified |
| ReturnAddresses.ThreadsAreApart | ThirdSDK/TimeProfiler/Core/TPCallTrace.c:122-144 | other threads and recording switches leave a thread's stack of return addresses alone |
| ReturnAddresses.SendsRestore | ThirdSDK/TimeProfiler/Core/TPCallTrace.c:122-144 | well nested sends leave their thread's stack as they found it |
| ReturnAddresses.AfterReturnsItsBefore | ThirdSDK/TimeProfiler/Core/TPCallTrace.c:146-162 | in every interleaving of threads, with recording toggled at any time, an after-hook returns the address its matching before-hook saved |
| ReturnAddresses.LRSlot.SetLRRegisterValue | ThirdSDK/TimeProfiler/Core/TPCallTrace.c:122-137 | pushes onto the thread's stack, made on first use |
| ReturnAddresses.LRSlot.GetLRRegisterValue | ThirdSDK/TimeProfiler/Core/TPCallTrace.c:139-144 | takes back the last pushed address |
| ReportVersion.ParsePrinted | ThirdSDK/KSCrash/Source/KSCrash/Recording/KSCrashReportFixer.c:243-253 | reading a printed version gives the version back |
| ReportVersion.AtoiExactly | ThirdSDK/KSCrash/Source/KSCrash/Recording/KSCrashReportFixer.c:243-253 | white space and a sign before a number are read as such |
| ReportVersion.AtoiOfOther | ThirdSDK/KSCrash/Source/KSCrash/Recording/KSCrashReportFixer.c:243-253 | a text that does not begin with a number is read as 0 |
| ReportVersion.ParseMarked | ThirdSDK/KSCrash/Source/KSCrash/Recording/KSCrashReportFixer.c:243-253 | what follows the third number, unless it is a digit, is not looked at |
| ReportVersion.EmptyPartsSkipped | ThirdSDK/KSCrash/Source/KSCrash/Recording/KSCrashReportFixer.c:243-253 | dots in front and doubled dots make no empty numbers |
| ReportVersion.ParseShort | ThirdSDK/KSCrash/Source/KSCrash/Recording/KSCrashReportFixer.c:243-253 | numbers that are missing are 0 |
| ReportVersion.MinVersionIsLexicographic | ThirdSDK/KSCrash/Source/KSCrash/Recording/KSCrashReportFixer.c:138-147 | the three tests are the lexicographic order on versions |
| ReportPaths.SameNameExactly | ThirdSDK/KSCrash/Source/KSCrash/Recording/KSCrashReportFixer.c:77-124 | names are the same exactly if they are equal or agree in their first 100 characters |
| ReportPaths.MatchFromMeans | ThirdSDK/KSCrash/Source/KSCrash/Recording/KSCrashReportFixer.c:105-124 | the name-by-name comparison matches exactly the beginnings of a pattern, and reads past its end exactly below a whole pattern |
| ReportPaths.MatchAnyMeans | ThirdSDK/KSCrash/Source/KSCrash/Recording/KSCrashReportFixer.c:126-136 | the same for a list of patterns, at all name lengths |
| ReportPaths.PatternsWellMade | ThirdSDK/KSCrash/Source/KSCrash/Recording/KSCrashReportFixer.c:44-65 | pattern names are below 100 characters and no pattern continues another |
| ReportFixer.DateExactly | ThirdSDK/KSCrash/Source/KSCrash/Recording/KSCrashReportFixer.c:138-197 | a timestamp is printed as seconds exactly if the version in force is lexicographically below 3.3.0, and as microseconds otherwise |
| ReportFixer.DemangledExactly | ThirdSDK/KSCrash/Source/KSCrash/Recording/KSCrashReportFixer.c:215-231 | a C++ name is demangled as such, any other as Swift, and what is neither stays |
| ReportFixer.NamePlaces | ThirdSDK/KSCrash/Source/KSCrash/Recording/KSCrashReportFixer.c:51-57 | symbol names of threads and names of C++ exceptions are demangled, in a report and in one embedded in a recrash report |
| ReportFixer.LeafRuns | ThirdSDK/KSCrash/Source/KSCrash/Recording/KSCrashReportFixer.c:164-255 | a leaf callback emits the rewritten leaf, or reads NULL, exactly as the places of the tree say |
| ReportFixer.NodeRuns | ThirdSDK/KSCrash/Source/KSCrash/Recording/KSCrashReportFixer.c:257-290 | a subtree's events come to the rewritten subtree's events, with the path and depth restored |
| ReportFixer.StreamIsTreeRewriting | ThirdSDK/KSCrash/Source/KSCrash/Recording/KSCrashReportFixer.c:77-290 | for every tree: the stream gets through exactly if the tree is nested at most 100 deep and has no leaf inside a container at a pattern, and then the output is the event stream of the rewritten tree |
| ReportFixer.LeavesRewritten | ThirdSDK/KSCrash/Source/KSCrash/Recording/KSCrashReportFixer.c:180-255 | each leaf is rewritten under the version of the nearest version leaf before it in document order |
| ReportFixer.LeavesFixed | ThirdSDK/KSCrash/Source/KSCrash/Recording/KSCrashReportFixer.c:180-255 | each leaf of every tree becomes what it should: a date printed by that version, a demangled name, or itself |
| ReportFixer.ShapeKept | ThirdSDK/KSCrash/Source/KSCrash/Recording/KSCrashReportFixer.c:257-290 | names, nesting, order and kinds of containers are unchanged |
| ReportFixer.InfoUsesOwnVersion | ThirdSDK/KSCrash/Source/KSCrash/Recording/KSCrashReport.c:1533-1552 | a report information object as written has its timestamp read by its own version |
| ReportFixer.InfoTimeExactly | ThirdSDK/KSCrash/Source/KSCrash/Recording/KSCrashReport.c:1533-1552 | for every version a.b.c of the report, as seconds exactly if a.b.c is below 3.3.0, and as microseconds otherwise |
| ReportFixer.RecrashUsesBothVersions | ThirdSDK/KSCrash/Source/KSCrash/Recording/KSCrashReport.c:1625-1637 | in a recrash report over a report that begins with its information object, each of the two timestamps is read by its own version, whatever else the reports hold |
| ReportFixer.RecrashTimesExactly | ThirdSDK/KSCrash/Source/KSCrash/Recording/KSCrashReport.c:1625-1637 | so for any two versions of the two reports, each of the two timestamps is printed as its own version asks |
| ReportFixer.RecrashTwiceStopsAtTwo | ThirdSDK/KSCrash/Source/KSCrash/Recording/KSCrashReport.c:1597-1637 | in a recrash report over a recrash report, however deep, the outer two timestamps are read by their own versions and everything deeper is left as it is |
| ReportFixer.WrittenVersionIsMicroseconds | ThirdSDK/KSCrash/Source/KSCrash/Recording/KSCrashReportFixer.c:190-197 | reports of the current version are read as microseconds |
| ReportFixer.CrashStringIsDemangled | ThirdSDK/KSCrash/Source/KSCrash/Recording/KSCrashReportFixer.c:51-57 | so a string that is the whole crash member is demangled |
| ReportFixer.FixupContext.constructor | ThirdSDK/KSCrash/Source/KSCrash/Recording/KSCrashReportFixer.c:337-344 | the context starts empty, with version 0.0.0 |
| ReportFixer.FixupContext.IncreaseDepth | ThirdSDK/KSCrash/Source/KSCrash/Recording/KSCrashReportFixer.c:77-93 | pushes the stored name, or refuses at depth 100 |
| ReportFixer.FixupContext.DecreaseDepth | ThirdSDK/KSCrash/Source/KSCrash/Recording/KSCrashReportFixer.c:95-103 | pops, or refuses at depth 0 |
| ReportFixer.FixupContext.MatchesPath | ThirdSDK/KSCrash/Source/KSCrash/Recording/KSCrashReportFixer.c:105-124 | the outcome of the specified comparison, NULL reads included |
| ReportFixer.FixupContext.MatchesAPath | ThirdSDK/KSCrash/Source/KSCrash/Recording/KSCrashReportFixer.c:126-136 | the outcome for the first pattern that decides |
| ReportFixer.FixupContext.OnIntegerElement | ThirdSDK/KSCrash/Source/KSCrash/Recording/KSCrashReportFixer.c:180-206 | is the specified step for an integer leaf |
| ReportFixer.FixupContext.SaveVersion | ThirdSDK/KSCrash/Source/KSCrash/Recording/KSCrashReportFixer.c:241-253 | the components are those of the parsed version |
| ReportFixer.FixupContext.OnStringElement | ThirdSDK/KSCrash/Source/KSCrash/Recording/KSCrashReportFixer.c:215-255 | is the specified step for a string leaf |
| ReportFixer.FixupContext.OnOtherElement | ThirdSDK/KSCrash/Source/KSCrash/Recording/KSCrashReportFixer.c:164-178 | other leaves go through unchanged |
| ReportFixer.FixupContext.OnBeginContainer | ThirdSDK/KSCrash/Source/KSCrash/Recording/KSCrashReportFixer.c:257-279 | is the specified step, refusing at depth 100 |
| ReportFixer.FixupContext.OnEndContainer | ThirdSDK/KSCrash/Source/KSCrash/Recording/KSCrashReportFixer.c:281-290 | is the specified step |
| ReportFixer.FixupCrashReport | ThirdSDK/KSCrash/Source/KSCrash/Recording/KSCrashReportFixer.c:312-359 | the fed callbacks come to the specified run: output, too deep, or a NULL read |
| MemoryIntrospection.MemoryBounded | ThirdSDK/KSCrash/Source/KSCrash/Recording/KSCrashReport.c:756-785 | from any limit a walk enters at most one location and limit + 8 more |
| MemoryIntrospection.AtMostLimitPlusNine | ThirdSDK/KSCrash/Source/KSCrash/Recording/KSCrashReport.c:756-785 | on every graph, cycles included, a walk from a limit L of at least 1 ends after at most L + 9 entries |
| MemoryIntrospection.BoundIsMet | ThirdSDK/KSCrash/Source/KSCrash/Recording/KSCrashReport.c:538-644 | for every limit from 2 on there is a graph that meets the bound |
| MemoryIntrospection.DefaultIsMet | ThirdSDK/KSCrash/Source/KSCrash/Recording/KSCrashReport.c:845-854 | so 24 locations with the default limit |
| MemoryIntrospection.MemoryBalanced | ThirdSDK/KSCrash/Source/KSCrash/Recording/KSCrashReport.c:756-785 | on every graph and from every limit each opened container is closed, and no other |
| MemoryPictures.WalkIsRead | ThirdSDK/KSCrash/Source/KSCrash/Recording/KSCrashReport.c:404-785 | from every memory, key, address and limit, what a reader finds in the written events is one container that pictures what is at the address: types, class, value and deallocated object exactly as they are there, and the first object, or the listed instance variables in order, exactly as far as the limit allows |
| MemoryPictures.MemoryPictured | ThirdSDK/KSCrash/Source/KSCrash/Recording/KSCrashReport.c:756-785 | the written events are the printed picture, and the limit left is what it leaves |
| MemoryPictures.IvarsArePictured | ThirdSDK/KSCrash/Source/KSCrash/Recording/KSCrashReport.c:573-640 | instance variables in order, each pointer followed with what the ones before it left of the limit |
| MemoryPictures.ReadPrinted | ThirdSDK/KSCrash/Source/KSCrash/Recording/KSCrashReport.c:762-784 | members of containers are read back as they were written |
| MemoryIntrospection.ReportWriter.WriteMemoryContents | ThirdSDK/KSCrash/Source/KSCrash/Recording/KSCrashReport.c:756-785 | writes the specified walk and leaves the specified limit |
| MemoryIntrospection.ReportWriter.WriteFallback | ThirdSDK/KSCrash/Source/KSCrash/Recording/KSCrashReport.c:769-781 | null pointer, string or unknown |
| MemoryIntrospection.ReportWriter.WriteObjCObject | ThirdSDK/KSCrash/Source/KSCrash/Recording/KSCrashReport.c:675-743 | writes the specified events and reports success exactly for known objects of unrestricted classes |
| MemoryIntrospection.ReportWriter.WriteContentsOf | ThirdSDK/KSCrash/Source/KSCrash/Recording/KSCrashReport.c:694-728 | the writers by class type |
| MemoryIntrospection.ReportWriter.WriteUnknownObjectContents | ThirdSDK/KSCrash/Source/KSCrash/Recording/KSCrashReport.c:538-644 | writes tagged payloads or up to ten ivars, charged to the limit before they are followed |
| MemoryIntrospection.ReportWriter.WriteIvarList | ThirdSDK/KSCrash/Source/KSCrash/Recording/KSCrashReport.c:573-640 | the ivar loop |
| MemoryIntrospection.ReportWriter.WriteMemoryContentsIfNotable | ThirdSDK/KSCrash/Source/KSCrash/Recording/KSCrashReport.c:845-854 | starts from the default limit and enters at most 24 locations |
| Fishhook.LatestIsFound | ThirdSDK/TimeProfiler/fishhook/fishhook.c:132-162 | the first match in the list of batches is the match of the latest call that has one |
| Fishhook.FirstInBatch | ThirdSDK/TimeProfiler/fishhook/fishhook.c:132-134 | of the rebindings of a name in a batch, the first counts |
| Fishhook.PassSavesLast | ThirdSDK/TimeProfiler/fishhook/fishhook.c:138-139 | a pass leaves in a cell what the last slot that saves to it held, whether memory could be made writable or not |
| Fishhook.PassLeaves | ThirdSDK/TimeProfiler/fishhook/fishhook.c:138-139 | and a cell that no slot saves to as it was |
| Fishhook.LatestReplacementEverywhere | ThirdSDK/TimeProfiler/fishhook/fishhook.c:248-264 | after any interleaving of rebind calls and image loads each eligible slot holds the replacement of the latest call that names it, and every other slot what it held when loaded |
| Fishhook.SlotsAreRebound | ThirdSDK/TimeProfiler/fishhook/fishhook.c:207-264 | the slots of all images are the loaded ones rebound by the current list, whenever they were loaded |
| Fishhook.SecondPassIsIdle | ThirdSDK/fishhook/fishhook.c:121-229 | where memory can be made writable a second pass changes no slot and no saved pointer |
| Fishhook.HooksFormAChain | ThirdSDK/TimeProfiler/fishhook/fishhook.c:135-161 | over fixed images with a common original, hooks of one name save the replacement below them, the first the original |
| Fishhook.ChainReachesOriginal | ThirdSDK/TimeProfiler/fishhook/fishhook.c:138-139 | from the top of the chain the k-th saved pointer is the original |
| Fishhook.LateImageShortcutsTheChain | ThirdSDK/TimeProfiler/fishhook/fishhook.c:229-264 | an image loaded afterwards leaves the chain intact exactly if there was one hook or it does not import the name |
| FishhookImages.Section.SlotIs | ThirdSDK/TimeProfiler/fishhook/fishhook.c:193-224 | the slots of a section are eligible exactly in lazy and non-lazy pointer sections of the two data segments of an image with tables |
| FishhookImages.FirstMatch | ThirdSDK/TimeProfiler/fishhook/fishhook.c:132-162 | the two inner loops find the first rebinding of the first batch that has the name |
| FishhookImages.PerformRebindingWithSection | ThirdSDK/TimeProfiler/fishhook/fishhook.c:114-165 | each slot of the section, and each saved pointer, is the specified one |
| FishhookImages.RebindSymbolsForImage | ThirdSDK/TimeProfiler/fishhook/fishhook.c:167-227 | only sections of the two kinds in the two data segments change; an image without tables does not |
| FishhookImages.Dyld.RebindImage | ThirdSDK/TimeProfiler/fishhook/fishhook.c:229-232 | rebinds one image with the global list |
| FishhookImages.Dyld.RebindAllImages | ThirdSDK/TimeProfiler/fishhook/fishhook.c:253-262 | rebinds all images in load order |
| FishhookImages.Dyld.RebindSymbols | ThirdSDK/TimeProfiler/fishhook/fishhook.c:248-264 | is the specified step of a rebind call |
| FishhookImages.Dyld.AddImage | ThirdSDK/TimeProfiler/fishhook/fishhook.c:229-232 | is the specified step of an image load |
| AppState.PhaseStep | ThirdSDK/KSCrash/Source/KSCrash/Recording/Monitors/KSCrashMonitor_AppState.c:324-434 | one event moves to the next phase and adds the time since the last reading to the duration of the phase it ends |
| AppState.TimeStep | ThirdSDK/KSCrash/Source/KSCrash/Recording/Monitors/KSCrashMonitor_AppState.c:324-434 | time in a phase and loss inside readings together grow by the gap before each event of the phase |
| AppState.DurationsAreExact | ThirdSDK/KSCrash/Source/KSCrash/Recording/Monitors/KSCrashMonitor_AppState.c:324-434 | over every UIKit-ordered run from a moment at which state and phase agree, with updates at any time, both durations grow by the time between the notifications spent in their phase, less the time that passed inside the readings in it |
| AppState.DurationsTrueExactly | ThirdSDK/KSCrash/Source/KSCrash/Recording/Monitors/KSCrashMonitor_AppState.c:324-434 | so each duration is the true one exactly if each reading in its phase looked at the same clock twice |
| AppState.DurationsFromLaunch | ThirdSDK/KSCrash/Source/KSCrash/Recording/Monitors/KSCrashMonitor_AppState.c:355-434 | from the launch on, the two durations with what readings before the first didBecomeActive put into the wrong one |
| AppState.LaunchDurationsExactly | ThirdSDK/KSCrash/Source/KSCrash/Recording/Monitors/KSCrashMonitor_AppState.c:355-434 | from the launch on, both durations are right, up to the time inside readings, exactly if each reading before the first didBecomeActive came at the time of the launch, of the last entry to the background, or of the last reading |
| AppState.LaunchDurationsTrueExactly | ThirdSDK/KSCrash/Source/KSCrash/Recording/Monitors/KSCrashMonitor_AppState.c:355-434 | and the true ones exactly then, where no time passes inside readings |
| AppState.BackgroundLaunchCountsAsActive | ThirdSDK/KSCrash/Source/KSCrash/Recording/Monitors/KSCrashMonitor_AppState.c:381-388 | a run for which that fails: from launch straight to the background, where a reading counts the time as active |
| AppState.SessionsCounted | ThirdSDK/KSCrash/Source/KSCrash/Recording/Monitors/KSCrashMonitor_AppState.c:355-434 | a launch counts as one session and each return to the foreground as one more; the file lacks exactly the returns since it was last saved |
| AppState.OlderPartConstant | ThirdSDK/KSCrash/Source/KSCrash/Recording/Monitors/KSCrashMonitor_AppState.c:324-456 | within a launch the differences between since-last-crash and since-launch never change |
| AppState.FileWithinLaunch | ThirdSDK/KSCrash/Source/KSCrash/Recording/Monitors/KSCrashMonitor_AppState.c:252-456 | all through a launch the file has the launch number, and whether a crash was noted yet |
| AppState.LaunchCountIsRight | ThirdSDK/KSCrash/Source/KSCrash/Recording/Monitors/KSCrashMonitor_AppState.c:196-456 | in every history of launches, however each ends, launchesSinceLastCrash counts the launches since the last noted crash |
| AppState.CountFromCrash | ThirdSDK/KSCrash/Source/KSCrash/Recording/Monitors/KSCrashMonitor_AppState.c:355-379 | that count, with the crashed launch named |
| AppState.SessionCountIsRight | ThirdSDK/KSCrash/Source/KSCrash/Recording/Monitors/KSCrashMonitor_AppState.c:196-456 | in every history of launches, sessionsSinceLastCrash counts the sessions of the launches since the last noted crash, less those that earlier launches ended without saving |
| DurationTotals.FileIsOfLastSave | ThirdSDK/KSCrash/Source/KSCrash/Recording/Monitors/KSCrashMonitor_AppState.c:252-322 | wherever a launch ends, its file tells of crash, launches, sessions and both durations as they were after its last save |
| DurationTotals.LaunchAdds | ThirdSDK/KSCrash/Source/KSCrash/Recording/Monitors/KSCrashMonitor_AppState.c:196-379 | a launch goes on from the durations in the file, or from zero after a crash or without a file, and adds what it counts |
| DurationTotals.LaunchLeaves | ThirdSDK/KSCrash/Source/KSCrash/Recording/Monitors/KSCrashMonitor_AppState.c:252-379 | it leaves in the file what it found and what it counted up to its last save |
| DurationTotals.DurationCountIsRight | ThirdSDK/KSCrash/Source/KSCrash/Recording/Monitors/KSCrashMonitor_AppState.c:196-456 | in every history of launches, however each ends, the active and the background time since the last crash are what the launches since the last noted crash counted, less what the earlier of them counted after their last save |
| DurationTotals.CountedIsTime | ThirdSDK/KSCrash/Source/KSCrash/Recording/Monitors/KSCrashMonitor_AppState.c:324-434 | and where the events of a launch come in the order of UIKit, what it counts are the times spent, with the deviations proved for one launch |
| AppState.Monitor.NotifyObjCLoad | ThirdSDK/KSCrash/Source/KSCrash/Recording/Monitors/KSCrashMonitor_AppState.c:381-388 | the state of a fresh process |
| AppState.Monitor.Initialize | ThirdSDK/KSCrash/Source/KSCrash/Recording/Monitors/KSCrashMonitor_AppState.c:349-353 | the persistent part is restored from the file, if there is one |
| AppState.Monitor.SaveState | ThirdSDK/KSCrash/Source/KSCrash/Recording/Monitors/KSCrashMonitor_AppState.c:252-322 | the file gets the persistent part, with this launch's crash as the last one's |
| AppState.Monitor.ResetState | ThirdSDK/KSCrash/Source/KSCrash/Recording/Monitors/KSCrashMonitor_AppState.c:355-379 | starts a launch if enabled |
| AppState.Monitor.SetEnabled | ThirdSDK/KSCrash/Source/KSCrash/Recording/Monitors/KSCrashMonitor_AppState.c:463-473 | starts a launch on every change from off to on, and only then |
| AppState.Monitor.UpdateAppState | ThirdSDK/KSCrash/Source/KSCrash/Recording/Monitors/KSCrashMonitor_AppState.c:324-343 | adds the time since the last transition to the right duration |
| AppState.Monitor.NotifyAppActive | ThirdSDK/KSCrash/Source/KSCrash/Recording/Monitors/KSCrashMonitor_AppState.c:390-409 | is the specified step if enabled |
| AppState.Monitor.NotifyAppInForeground | ThirdSDK/KSCrash/Source/KSCrash/Recording/Monitors/KSCrashMonitor_AppState.c:411-434 | is the specified step if enabled |
| AppState.Monitor.NotifyAppTerminate | ThirdSDK/KSCrash/Source/KSCrash/Recording/Monitors/KSCrashMonitor_AppState.c:436-444 | is the specified step if enabled |
| AppState.Monitor.NotifyAppCrash | ThirdSDK/KSCrash/Source/KSCrash/Recording/Monitors/KSCrashMonitor_AppState.c:446-456 | is the specified step if enabled |
| AppState.Monitor.AddContextualInfoToEvent | ThirdSDK/KSCrash/Source/KSCrash/Recording/Monitors/KSCrashMonitor_AppState.c:481-499 | hands out the totals after an update |
| Switching.KeepsCrashStep | ThirdSDK/KSCrash/Source/KSCrash/Recording/Monitors/KSCrashMonitor_AppState.c:363-372 | whether a process has a crash that was noted with the monitor on and followed by no switching on, move by move |
| Switching.WithinProcess | ThirdSDK/KSCrash/Source/KSCrash/Recording/Monitors/KSCrashMonitor_AppState.c:355-473 | all through a process, however the monitor is switched: the launches counted grow by one each time it comes on, or are 1 after a crashed launch; the crash that is noted is the one kept; and the file agrees from the first switching on |
| Switching.FileLeft | ThirdSDK/KSCrash/Source/KSCrash/Recording/Monitors/KSCrashMonitor_AppState.c:355-473 | what a process leaves: the file it found where the monitor never came on, else its count and whether it kept a crash |
| Switching.OffAndOnForgets | ThirdSDK/KSCrash/Source/KSCrash/Recording/Monitors/KSCrashMonitor_AppState.c:463-473 | after any process, switching off and on is one more launch and leaves no crash of the process in the file |
| Switching.LaunchIsProcess | ThirdSDK/KSCrash/Source/KSCrash/Recording/Monitors/KSCrashMonitor_AppState.c:355-473 | a launch of the simpler histories is a process in which the monitor comes on at once and stays on |
| Switching.CrashedExactly | ThirdSDK/KSCrash/Source/KSCrash/Recording/Monitors/KSCrashMonitor_AppState.c:368-378 | in every history of processes, the file tells of a crash exactly if the last process in which the monitor came on kept one |
| Switching.CountsEnablings | ThirdSDK/KSCrash/Source/KSCrash/Recording/Monitors/KSCrashMonitor_AppState.c:355-379 | while no process kept a crash, the launches in the file are the times the monitor came on |
| Switching.CountsFromCrash | ThirdSDK/KSCrash/Source/KSCrash/Recording/Monitors/KSCrashMonitor_AppState.c:355-379 | after a process that kept a crash, the next one in which the monitor comes on counts once, and from then on every time counts |
| Switching.CountsAllProcessesExactly | ThirdSDK/KSCrash/Source/KSCrash/Recording/Monitors/KSCrashMonitor_AppState.c:355-379 | while no crash was kept, that is the number of processes in which the monitor came on exactly if it came on twice in none |
| Switching.CountsProcessesExactly | ThirdSDK/KSCrash/Source/KSCrash/Recording/Monitors/KSCrashMonitor_AppState.c:355-379 | and after a crash exactly if it came on twice in none after the first of them |
| Installation.PassedAround | ThirdSDK/KSCrash/Source/KSCrash/Recording/KSCrashC.c:97-194 | an installation among notifications passes on the last one before it and all after it, to an application-state monitor that is on |
| Installation.SeenIsPassedOn | ThirdSDK/KSCrash/Source/KSCrash/Recording/KSCrashC.c:292-321 | so what the application state sees is the last notification at the time of the installation, and the later ones |
| Installation.TimeConcat | ThirdSDK/KSCrash/Source/KSCrash/Recording/Monitors/KSCrashMonitor_AppState.c:324-434 | the time in a phase adds up over the parts of a run, and so does the time inside readings |
| Installation.ReplayCounts | ThirdSDK/KSCrash/Source/KSCrash/Recording/KSCrashC.c:94-115 | what the replayed notification does: a resignation counts all the time since loading as active, a return to the foreground counts it as background and as a session |
| Installation.LossAtInstallation | ThirdSDK/KSCrash/Source/KSCrash/Recording/KSCrashC.c:97-194 | the two durations after an installation: the true ones less the time spent in the phase before it, with what the replayed notification and readings before the first didBecomeActive count |
| Installation.ActiveTimeExactly | ThirdSDK/KSCrash/Source/KSCrash/Recording/KSCrashC.c:97-194 | installed in an active application, the active time is right, up to readings, exactly if no time passed since the didBecomeActive and the application was not active before |
| ReportNames.NameRoundTrip | ThirdSDK/KSCrash/Source/KSCrash/Recording/KSCrashReportStore.c:69-83 | scanning the printed file name of any 64-bit ID gives the ID back, for every application name |
| ReportNames.NameIs | ThirdSDK/KSCrash/Source/KSCrash/Recording/KSCrashReportStore.c:69-73 | a file name is the name of the application, a fixed text, sixteen lower-case digits of the value of the ID, and the ending |
| ReportNames.NibbleExactly | ThirdSDK/KSCrash/Source/KSCrash/Recording/KSCrashReportStore.c:75-83 | the hexadecimal digits are read in either case, and no other characters |
| ReportNames.SpellingIsRead | ThirdSDK/KSCrash/Source/KSCrash/Recording/KSCrashReportStore.c:75-83 | any other spelling of a number is read all the same, cut to 64 bits, whatever follows it |
| ReportNames.SignedSpelling | ThirdSDK/KSCrash/Source/KSCrash/Recording/KSCrashReportStore.c:75-83 | white space, a sign and 0x are read, too |
| ReportNames.NamesDiffer | ThirdSDK/KSCrash/Source/KSCrash/Recording/KSCrashReportStore.c:69-73 | different IDs have different files |
| ReportNames.ScanSelf | ThirdSDK/KSCrash/Source/KSCrash/Recording/KSCrashReportStore.c:75-83 | the literal part of the scan format matches itself, white space included |
| ReportStore.BaseOrdersTimes | ThirdSDK/KSCrash/Source/KSCrash/Recording/KSCrashReportStore.c:156-166 | the mixed-radix base orders calendar times, leap seconds included, and tells them apart |
| ReportStore.BaseHasNoGaps | ThirdSDK/KSCrash/Source/KSCrash/Recording/KSCrashReportStore.c:156-166 | and leaves no gaps: each number is the base of a calendar time |
| ReportStore.DrawsCountUpExactly | ThirdSDK/KSCrash/Source/KSCrash/Recording/KSCrashReportStore.c:64-67 | the k-th ID is the first plus k exactly as long as the low word does not run over |
| ReportStore.DrawsCountUp | ThirdSDK/KSCrash/Source/KSCrash/Recording/KSCrashReportStore.c:167-170 | it does not for 2^23 draws |
| ReportStore.LaterLaunchHasLargerIDs | ThirdSDK/KSCrash/Source/KSCrash/Recording/KSCrashReportStore.c:156-171 | all IDs of an earlier-second launch are below all IDs of a later-second launch, 2^23 draws each |
| ReportStore.SameIDExactly | ThirdSDK/KSCrash/Source/KSCrash/Recording/KSCrashReportStore.c:64-171 | below 2^23 draws a launch, two draws give the same ID exactly if their launches began in the same second and both come equally late |
| ReportStore.SameFileExactly | ThirdSDK/KSCrash/Source/KSCrash/Recording/KSCrashReportStore.c:69-171 | so the reports of a second launch in the same second go to the files of the first, and no other launch writes to them |
| ReportSort.SortPermutes | ThirdSDK/KSCrash/Source/KSCrash/Recording/KSCrashReportStore.c:133 | the sort only permutes |
| ReportSort.SortSorted | ThirdSDK/KSCrash/Source/KSCrash/Recording/KSCrashReportStore.c:133 | the sort leaves the IDs in order |
| ReportSort.ComparesExactly | ThirdSDK/KSCrash/Source/KSCrash/Recording/KSCrashReportStore.c:50-62 | the comparator tells how two 64-bit numbers compare exactly if their difference fits 64 bits |
| ReportSort.SortByIsSort | ThirdSDK/KSCrash/Source/KSCrash/Recording/KSCrashReportStore.c:50-62 | sorting by the comparator is sorting, as long as no difference overflows |
| ReportSort.Qsort | ThirdSDK/KSCrash/Source/KSCrash/Recording/KSCrashReportStore.c:133 | a permutation of the first entries, and their sort where no difference overflows |
| ReportSort.LeftoversSortedIn | ThirdSDK/KSCrash/Source/KSCrash/Recording/KSCrashReportStore.c:111-133 | in a buffer larger than the number of reports, where no difference overflows, the IDs come first exactly if no leftover entry is smaller than an ID |
| ReportSort.OverflowHidesLeftover | ThirdSDK/KSCrash/Source/KSCrash/Recording/KSCrashReportStore.c:50-62 | a buffer in which a difference overflows, and a smaller leftover comes after an ID |
| ReportStore.PruneCountExactly | ThirdSDK/KSCrash/Source/KSCrash/Recording/KSCrashReportStore.c:141-154 | pruning leaves min(n, limit) reports exactly if each ID it deletes has its own file |
| ReportStore.PruneKeepsTheLargest | ThirdSDK/KSCrash/Source/KSCrash/Recording/KSCrashReportStore.c:141-154 | with reports named as the store names them, min(n, limit) are left, every one deleted has a smaller ID than every one left, and other files stay |
| ReportStore.OldestReportsGoFirst | ThirdSDK/KSCrash/Source/KSCrash/Recording/KSCrashReportStore.c:141-171 | reports of earlier seconds are deleted before reports of later ones |
| ReportStore.PrunedHas | ThirdSDK/KSCrash/Source/KSCrash/Recording/KSCrashReportStore.c:141-154 | a file is deleted exactly if it is a report with one of the smallest IDs |
| ReportStore.StrangeNameSurvives | ThirdSDK/KSCrash/Source/KSCrash/Recording/KSCrashReportStore.c:75-154 | a file that merely begins like a report is counted and never deleted |
| ReportStore.ReportStore.constructor | ThirdSDK/KSCrash/Source/KSCrash/Recording/KSCrashReportStore.c:176-185 | prunes, then starts the IDs of this launch |
| ReportStore.ReportStore.InitializeIDs | ThirdSDK/KSCrash/Source/KSCrash/Recording/KSCrashReportStore.c:156-171 | the two words are those of the first ID |
| ReportStore.ReportStore.GetNextUniqueID | ThirdSDK/KSCrash/Source/KSCrash/Recording/KSCrashReportStore.c:64-67 | the k-th draw of the launch |
| ReportStore.ReportStore.GetNextCrashReport | ThirdSDK/KSCrash/Source/KSCrash/Recording/KSCrashReportStore.c:187-195 | the k-th draw with its file name |
| ReportStore.ReportStore.GetReportCount | ThirdSDK/KSCrash/Source/KSCrash/Recording/KSCrashReportStore.c:85-109 | the number of report files, or none if the directory does not open |
| ReportStore.ReportStore.ListReportIDs | ThirdSDK/KSCrash/Source/KSCrash/Recording/KSCrashReportStore.c:123-131 | the first IDs of the listing, as many as fit |
| ReportStore.ReportStore.GetReportIDs | ThirdSDK/KSCrash/Source/KSCrash/Recording/KSCrashReportStore.c:111-139 | those IDs permuted together with the rest of the buffer, in order where no difference overflows |
| ReportStore.ReportStore.DeleteReportWithID | ThirdSDK/KSCrash/Source/KSCrash/Recording/KSCrashReportStore.c:266-271 | afterwards the directory has every file it had but the one of that name |
| ReportStore.ReportStore.DeleteFirst | ThirdSDK/KSCrash/Source/KSCrash/Recording/KSCrashReportStore.c:149-152 | the files of the first IDs are deleted, and the loop stays in the filled part of the buffer exactly if it is not asked for more |
| ReportStore.ReportStore.PruneReports | ThirdSDK/KSCrash/Source/KSCrash/Recording/KSCrashReportStore.c:141-154 | stays in its buffer exactly if the limit is not negative, and then leaves the specified directory; else it deletes every report first |
| CachedData.StepKeeps | ThirdSDK/KSCrash/Source/KSCrash/Recording/KSCrashCachedData.c:58-143 | every statement of an update, and every counter operation, keeps the invariant of the published arrays and names |
| CachedData.EveryStepInBounds | ThirdSDK/KSCrash/Source/KSCrash/Recording/KSCrashCachedData.c:58-143 | between any two statements, in every interleaving, each index below the published count is in all four arrays |
| CachedData.NamesFreedOnce | ThirdSDK/KSCrash/Source/KSCrash/Recording/KSCrashCachedData.c:113-136 | no name is freed twice or while published, and between updates every superseded name has been freed |
| CachedData.ReaderSafeExactly | ThirdSDK/KSCrash/Source/KSCrash/Recording/KSCrashCachedData.c:220-248 | a check of the count in one step and array reads in later ones are safe in every continuation without an unfreeze exactly if the cache is frozen and no update is under way that may find too few threads |
| CachedLookups.UnsettledReached | ThirdSDK/KSCrash/Source/KSCrash/Recording/KSCrashCachedData.c:58-195 | runs from the beginning to a published thread in a state where such reading can fail, with and without a freeze |
| CachedData.FrozenStaysFrozen | ThirdSDK/KSCrash/Source/KSCrash/Recording/KSCrashCachedData.c:151-204 | when no unfreeze is half done the counter is not negative, and no update starts while a freeze is in force |
| CachedData.NoFreezeLost | ThirdSDK/KSCrash/Source/KSCrash/Recording/KSCrashCachedData.c:188-204 | counter and due restores together are never below the freezes in force |
| CachedData.UnfreezeCountsExactly | ThirdSDK/KSCrash/Source/KSCrash/Recording/KSCrashCachedData.c:197-204 | an unfreeze takes one freeze away unless the counter is at most zero while a restore is due |
| CachedData.UnfreezeCanBeLost | ThirdSDK/KSCrash/Source/KSCrash/Recording/KSCrashCachedData.c:197-204 | a completed interleaving of two freezes and three unfreezes that leaves the cache frozen |
| CachedLookups.TruthfulExactly | ThirdSDK/KSCrash/Source/KSCrash/Recording/KSCrashCachedData.c:98-103 | before every statement, all lookups of names, or of queue names, give what one single update found exactly if each thread published has, where it comes first, an entry that it had in one of the two updates, and, where the count cuts that place off, had no entry in one of them |
| CachedLookups.WholeOutside | ThirdSDK/KSCrash/Source/KSCrash/Recording/KSCrashCachedData.c:98-103 | that holds outside the statements from the first swap to the new count |
| CachedLookups.LookupAt | ThirdSDK/KSCrash/Source/KSCrash/Recording/KSCrashCachedData.c:220-248 | a thread gets the entry beside the place where it comes first, or none where the count cuts that place off |
| CachedLookups.MixedReached | ThirdSDK/KSCrash/Source/KSCrash/Recording/KSCrashCachedData.c:58-103 | runs from the beginning to each of the statements at which a name or queue name lookup is of mixed updates |
| CachedLookups.LostReached | ThirdSDK/KSCrash/Source/KSCrash/Recording/KSCrashCachedData.c:98-103 | a run from the beginning to a lookup that finds no name, or queue name, for a thread for which both updates found one |
| CachedData.CanFinish | ThirdSDK/KSCrash/Source/KSCrash/Recording/KSCrashCachedData.c:81-143 | an update under way always can run to its end |
| ThreadCache.Cache.constructor | ThirdSDK/KSCrash/Source/KSCrash/Recording/KSCrashCachedData.c:47-56 | the initial globals are the initial state of the protocol |
| ThreadCache.Cache.Freeze | ThirdSDK/KSCrash/Source/KSCrash/Recording/KSCrashCachedData.c:188-195 | is one freeze step |
| ThreadCache.Cache.Unfreeze | ThirdSDK/KSCrash/Source/KSCrash/Recording/KSCrashCachedData.c:197-204 | run alone, takes one freeze away and never goes below zero |
| ThreadCache.Cache.FillLists | ThirdSDK/KSCrash/Source/KSCrash/Recording/KSCrashCachedData.c:81-96 | the new arrays hold the answers of the system, with fresh names |
| ThreadCache.Cache.FreeName | ThirdSDK/KSCrash/Source/KSCrash/Recording/KSCrashCachedData.c:115-122 | the next superseded name is freed, if there is one |
| ThreadCache.Cache.FreeNames | ThirdSDK/KSCrash/Source/KSCrash/Recording/KSCrashCachedData.c:113-124 | all names of a superseded array are freed |
| ThreadCache.Cache.PublishThreads | ThirdSDK/KSCrash/Source/KSCrash/Recording/KSCrashCachedData.c:98-100 | the smaller count, then two swaps, each a step of the protocol |
| ThreadCache.Cache.PublishNames | ThirdSDK/KSCrash/Source/KSCrash/Recording/KSCrashCachedData.c:101-103 | two swaps, then the new count, each a step of the protocol |
| ThreadCache.Cache.UpdateThreadList | ThirdSDK/KSCrash/Source/KSCrash/Recording/KSCrashCachedData.c:58-143 | every statement is a step of the protocol, and afterwards the published rows are those of the answers |
| ThreadCache.Cache.MonitorCachedData | ThirdSDK/KSCrash/Source/KSCrash/Recording/KSCrashCachedData.c:145-165 | nothing while frozen, else an update |
| ThreadCache.Cache.GetThreadName | ThirdSDK/KSCrash/Source/KSCrash/Recording/KSCrashCachedData.c:220-233 | is the lookup; between updates the name last found for the thread |
| ThreadCache.Cache.GetQueueName | ThirdSDK/KSCrash/Source/KSCrash/Recording/KSCrashCachedData.c:235-248 | is the lookup; between updates the queue name last found for the thread |
| Monitors.FlagsStick | ThirdSDK/KSCrash/Source/KSCrash/Recording/Monitors/KSCrashMonitor.c:215-229 | in every run the async-safety and the crash flag stay set |
| Monitors.ActiveAreEnabled | ThirdSDK/KSCrash/Source/KSCrash/Recording/Monitors/KSCrashMonitor.c:185-202 | in every run the active mask is the set of monitors that report being enabled |
| Monitors.MaskedExactly | ThirdSDK/KSCrash/Source/KSCrash/Recording/Monitors/KSCrashMonitor.c:162-181 | a monitor is let through exactly if it is asked for, and debugger and async-safety allow it |
| Monitors.SafeChange | ThirdSDK/KSCrash/Source/KSCrash/Recording/Monitors/KSCrashMonitor.c:162-203 | a change under async-safety leaves only Mach and signal monitors and a zombie monitor already on |
| Monitors.OnlyAsyncSafeFromThen | ThirdSDK/KSCrash/Source/KSCrash/Recording/Monitors/KSCrashMonitor_Zombie.c:209-225 | in every run after async-safety is set, the enabled monitors are unchanged or only those |
| Monitors.ChangesToAsked | ThirdSDK/KSCrash/Source/KSCrash/Recording/Monitors/KSCrashMonitor.c:162-203 | after the installation exactly the monitors asked for are switched on, as far as debugger and async-safety allow, and a zombie monitor already on stays |
| Monitors.InstallsAsked | ThirdSDK/KSCrash/Source/KSCrash/Recording/KSCrashC.c:156-207 | an installation switches on exactly the monitors last asked for before it, or the default ones, but for the unsafe ones in a debugger |
| Monitors.TrapsExactly | ThirdSDK/KSCrash/Source/KSCrash/Recording/Monitors/KSCrashMonitor_User.c:43-102 | which monitors catch exceptions, and what their handlers begin with: a snapshot only for NSException, no telling only for a user exception that does not end the program, async-safety only for Mach exceptions |
| Monitors.NoDrawsExactly | ThirdSDK/KSCrash/Source/KSCrash/Recording/KSCrashC.c:125-149 | after a crash in a handler no report ID is drawn in any continuation exactly if no handler is at work that looked at the crash flag before and has not drawn |
| Monitors.DrawsReached | ThirdSDK/KSCrash/Source/KSCrash/Recording/KSCrashC.c:125-149 | a run from the beginning to a state in which an ID can still be drawn after a crash in a handler |
| Monitors.RecrashNamedExactly | ThirdSDK/KSCrash/Source/KSCrash/Recording/KSCrashC.c:133-141 | every later recrash report has a file to go to exactly if some report was begun before |
| Monitors.NamelessFollows | ThirdSDK/KSCrash/Source/KSCrash/Recording/KSCrashC.c:133-136 | from every state without a begun report a run to a recrash report without a file |
| Monitors.RunsAlone | ThirdSDK/KSCrash/Source/KSCrash/Recording/Monitors/KSCrashMonitor.c:231-257 | what an uninterrupted handler does: one note, one ID, one report, and the monitors at the end |
| Monitors.SnapshotLeavesNoTrace | ThirdSDK/KSCrash/Source/KSCrash/Recording/Monitors/KSCrashMonitor.c:249-250 | a user-reported snapshot leaves a report and otherwise the state before |
| Monitors.UserExceptionNotedAsCrash | ThirdSDK/KSCrash/Source/KSCrash/Recording/KSCrashC.c:127-130 | a user exception that does not end the program is noted as a crash, and the monitors stay on |
| Monitors.FatalUninstalls | ThirdSDK/KSCrash/Source/KSCrash/Recording/Monitors/KSCrashMonitor.c:251-256 | a fatal exception is noted once and reported once, and all monitors but the zombie monitor are off after it |
| Monitors.NotificationsPassedOn | ThirdSDK/KSCrash/Source/KSCrash/Recording/KSCrashC.c:97-115 | the application state receives the last notification before the installation and all after it |
| ZombieCache.SamePlaceExactly | ThirdSDK/KSCrash/Source/KSCrash/Recording/Monitors/KSCrashMonitor_Zombie.c:63-68 | two objects share a place exactly if the 128-byte blocks they begin in are a multiple of 32768 blocks apart |
| ZombieCache.SamePlaceInSpan | ThirdSDK/KSCrash/Source/KSCrash/Recording/Monitors/KSCrashMonitor_Zombie.c:63-68 | so in a span of four megabytes exactly the objects that begin in one block do |
| ZombieCache.FoundExactly | ThirdSDK/KSCrash/Source/KSCrash/Recording/Monitors/KSCrashMonitor_Zombie.c:193-207 | after any history of deallocations, a lookup gives a class name exactly if it is that of a deallocation of the object after which none hashed to its place |
| ZombieCache.NeighboursHide | ThirdSDK/KSCrash/Source/KSCrash/Recording/Monitors/KSCrashMonitor_Zombie.c:63-68 | an object hides another one deallocated before it in the same 128 bytes |
| ZombieCache.LastExceptionIs | ThirdSDK/KSCrash/Source/KSCrash/Recording/Monitors/KSCrashMonitor_Zombie.c:107-131 | the last exception has the address of the newest one deallocated; a name or reason that could not be read is left from an older one |
| ZombieCache.ZombieMonitor.constructor | ThirdSDK/KSCrash/Source/KSCrash/Recording/Monitors/KSCrashMonitor_Zombie.c:50-61 | nothing is installed |
| ZombieCache.ZombieMonitor.SetEnabled | ThirdSDK/KSCrash/Source/KSCrash/Recording/Monitors/KSCrashMonitor_Zombie.c:209-225 | installs an empty cache once, if there is memory; cannot be switched off |
| ZombieCache.ZombieMonitor.HandleDealloc | ThirdSDK/KSCrash/Source/KSCrash/Recording/Monitors/KSCrashMonitor_Zombie.c:114-131 | the cache and the last exception are those of the history with one more deallocation |
| ZombieCache.ZombieMonitor.ClassName | ThirdSDK/KSCrash/Source/KSCrash/Recording/Monitors/KSCrashMonitor_Zombie.c:193-207 | what the history says of the object |
| CrashMonitors.RecrashesAlone | ThirdSDK/KSCrash/Source/KSCrash/Recording/KSCrashC.c:133-136 | a handler that sees the crash flag writes over the last report and draws no ID |
| CrashMonitors.CrashMonitors.constructor | ThirdSDK/KSCrash/Source/KSCrash/Recording/Monitors/KSCrashMonitor.c:106-114 | the initial globals |
| CrashMonitors.CrashMonitors.SetMonitorEnabled | ThirdSDK/KSCrash/Source/KSCrash/Recording/Monitors/KSCrashMonitor_Zombie.c:209-225 | the monitor's flag is as asked, but the zombie monitor stays on |
| CrashMonitors.CrashMonitors.MaskUnsafe | ThirdSDK/KSCrash/Source/KSCrash/Recording/Monitors/KSCrashMonitor.c:164-181 | the two masks |
| CrashMonitors.CrashMonitors.SetActiveMonitors | ThirdSDK/KSCrash/Source/KSCrash/Recording/Monitors/KSCrashMonitor.c:162-203 | the loop over the table comes to the specified sets |
| CrashMonitors.CrashMonitors.NotifyFatalExceptionCaptured | ThirdSDK/KSCrash/Source/KSCrash/Recording/Monitors/KSCrashMonitor.c:215-229 | the flags, and everything off after a crash in a handler |
| CrashMonitors.CrashMonitors.OnCrash | ThirdSDK/KSCrash/Source/KSCrash/Recording/KSCrashC.c:125-149 | a new report with a new ID, or the last one again |
| CrashMonitors.CrashMonitors.HandleException | ThirdSDK/KSCrash/Source/KSCrash/Recording/Monitors/KSCrashMonitor.c:231-257 | the six steps of a handler in the protocol |
| CrashMonitors.CrashMonitors.SetMonitoring | ThirdSDK/KSCrash/Source/KSCrash/Recording/KSCrashC.c:196-207 | remembered, and applied if installed |
| CrashMonitors.CrashMonitors.NotifyApp | ThirdSDK/KSCrash/Source/KSCrash/Recording/KSCrashC.c:292-321 | remembered, and passed on if installed |
| CrashMonitors.CrashMonitors.Install | ThirdSDK/KSCrash/Source/KSCrash/Recording/KSCrashC.c:156-194 | once: monitors on, and the last notification passed on; a second call changes nothing |

## Left out

- LFU cache: the scratch iterator `map_it` kept between calls, overflow of touch counts, and the order inside the hash map.
- LfuCache.MTHawkeyeLFUCache.Locate: finds the positions that the C++ code has in its two iterators; what it returns is used as the iterators are.
- Tracers: main-thread records are stated for calls during which recording and the limits stay as they are; only the return addresses are proved under toggling. `setMaxDepth` and `setCostMinTime` during a trace, thread exit, and the register-saving assembly are not modelled.
- TPCallTrace.Tracer.PushCallRecord: asks that the stack exists, which the C code dereferences before it looks; so does Before while enabled on the main thread.
- TPCallTrace.Tracer.PopCallRecord: asks for the record buffer where it records; a recorded call after the records were handed over makes the C code dereference NULL.
- MTHCallTrace.Thread.constructor: the first block of memory has 128 entries, of which the code counts 64; `self` and the event time of a record are not modelled.
- Report fixer: the JSON decoder and encoder (the model works on their events and trees), the output buffer of 1.5 times the input, and reports whose decoding fails. Demanglers and date printers are arbitrary functions.
- ReportVersion.ParsePrinted: `atoi` on numbers beyond 32 bits is not modelled.
- Memory introspection: how class, ivars and strings are read from memory (the object graph is given), the kinds of plain ivars, and the rest of the report writer.
- Fishhook: failing `malloc`, images that are unloaded, `rebind_symbols_image` (one image with a batch of its own), and the load commands, which are reduced to sections and a flag. `vm_protect` succeeds or fails per section.
- AppState: rounding of durations in the file, failing reads and writes. AppState's own histories have the monitor come on once a process; switching is the subject of Switching.
- Installation: no installation in which the application-state monitor is not asked for, and nothing of notifications that race with the installation.
- Report store: path lengths, application names with a percent sign or too long for the scan buffer, user reports (`kscrs_addUserReport` draws IDs from the same counter), reading reports, years before 1900 or after 36099.
- ReportStore.ReportStore.constructor: with a negative limit nothing is promised of the directory, since the pruning leaves its buffer.
- ReportSort.Qsort: where a difference overflows, only that the buffer is permuted; the order is then up to the sorting algorithm.
- ThreadCache: the four arrays are sequences in fields, not memory blocks, so a reader that keeps a pointer over the free is not covered; allocation failure and the port deallocation at the end are left out, as are the sleeps.
- ThreadCache.Cache.GetThreadName: is one uninterrupted call; interleaved reads are the subject of CachedData.ReaderSafeExactly.
- Monitors: how each monitor catches its exceptions and fills its context, the contents of reports, the watchdog, the console log, and platforms on which a monitor of the table is compiled out. A handler may be resumed at any time, also after a crash in it.
- ZombieCache: the swizzling of `dealloc`, the limits of 99 and 899 characters on an exception's name and reason, and deallocations that race for a place.
- Everything with only a header in this repository, the views, plugins and settings, KSCxaThrowSwapper, and the KSObjC, KSMemory, KSFileUtils and KSStackCursor internals.
