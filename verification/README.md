# A verified model of ananicy-rs

ananicy-rs is a daemon that matches running processes to rules and applies
scheduling settings to them. This project models its state machines, caches,
parsers and protocols in Dafny and proves what they guarantee over every input
and every run. `dafny verify dfyconfig.toml` checks all of it.

| module | component |
|---|---|
| `NameTable` | the process-wide name table under double-checked locking, as an interleaved state machine |
| `RuleDoc` | documents, three-state records, inheritance, the dump, and the RFC 7396 merge |
| `ConcurrentLoad` | reading documents while other threads intern names |
| `RuleLines` | rule files as lines, which definition wins and which rule answers |
| `RuleLookup`, `RuleStore` | the map-plus-vector rule store, its loader and its cached lookup |
| `SharedRules` | readers, reloads and the shared resolution cache, interleaved |
| `CpuSets` | CPU sets, the list parser and the range printers |
| `Affinity` | byte masks, the second list parser, and the retry protocol against an arbitrary kernel |
| `Topology`, `X3d` | the big/little/turbo classifier and the cache-die split |
| `Worker`, `WorkLoop` | applying one rule under arbitrary failures, and one process from its name to its calls |
| `Netlink` | FNV-1a identities and the bounded event filter |
| `CgroupResolver`, `ResolverCalls` | the caching cgroup resolver against pid reuse, and how its calls end |
| `CgroupFs`, `CgroupManager` | how paths are walked, and which files any run of cgroup operations can change |
| `Singleton` | the singleton guard by exclusive create |
| `Config` | the configuration file's parser and printer |
| `Common`, `Lru`, `Text` | shared vocabulary, the `lru` crate's map, and string operations |

## How to read the model

- Protocols shared by threads or processes are state machines: a step per
  system call or lock-protected region, and theorems over every schedule of
  enabled steps. Kernel, procfs and file-system answers are arbitrary values.
- Objects the daemon updates in place are classes whose methods are proved
  against functions of their old state; the lemmas are about those functions.
- Strings are sequences of Unicode scalar values; where the code counts bytes
  the model counts UTF-8 bytes. JSON keys are the eleven implemented ones or
  any other text. Objects are maps, which is the order-free content of
  serde's sorted maps. Integers are unbounded and every narrowing cast is
  written out, including `as i32`, `as u32` and the 32-bit rule index.
- The JSON reader and the regex engine are arbitrary functions.
- Floating-point arithmetic is exact real arithmetic.

## Where the code differs from its documentation

- The comment in `intern` says 65,533 names fit; the test `id > u16::MAX` admits
  65,534, which is what the model has.
- The documentation of `to_json` calls the dump the merged document. The dump
  prints `null` where a merge would drop the key, so the two are different
  documents; `RuleDoc.DumpReloadFixpoint` proves that they read the same.
- The documentation of `pick_capacity_source` says the least precise source is the
  fallback when none tells the CPUs apart. The code falls back to the last
  source the first CPU reports, and `Topology.PickCapacitySource` says so.
- `load_rule_from_string` does not clear the resolution cache, so the claim of
  `RuleStore.Rules.GetRule` is about a store whose cache was filled from it.
- `mask_from` sizes its buffer as `num_cpus / 8` and indexes out of it when a
  rule names a CPU in the remainder. `Affinity.MaskFrom` states exactly when, and
  `Affinity.AbortsExactlyOffTheByte` gives an input. A set passed
  by a caller that is wider than the machine can give an empty first mask
  (`Affinity.MaskCanBeEmpty`); no rule text denotes one, so a rule's masks are never
  empty (`Affinity.ApplyText`).
- `classify` compares paths as they are spelled, so a target such as `root/../b` counts
  as owned though it leads out of the root (`CgroupManager.OwnedTargetCanStray`). Names
  holding `..` are refused before a target is made of them, which is why the daemon's
  own runs stay inside (`CgroupManager.DaemonSparesTheParent`).
- The index of a new rule is cast to 32 bits, so a store of 2^32 rules would lose
  its bijection. `RuleLookup.DefineKeepsBijection` gives the exact condition.
- A forced removal of the singleton object checks and unlinks in separate steps.
  `Singleton.ForcedRemovalCanAdmitTwo` is a run that ends with two holders, and
  `Singleton.StepKeepsInv` says which removals are the harmful ones.
- `resolve_target_dir` takes one leading slash off a name and joins the rest, so a name
  with two leading slashes resolves from the root of the file system and not from the
  mount point (`CgroupManager.TwoSlashesLeaveTheMount`).

## Model

| member | source | states |
|---|---|---|
| `NameTable.TableConsistent` | crates/ananicy-core/src/rules.rs:145-204 | in every interleaving of any number of threads in `intern` and `get`, no name is stored twice, at most 65534 are, and while the values lock is free the index is the exact inverse of the values |
| `NameTable.IdsAreForever` | crates/ananicy-core/src/rules.rs:145-204 | an id once returned for a name resolves to that name in every later state, every later `intern` of the name returns the same id (also id 1, the answer of a full table), and no `get` of that id ever gives another name |
| `NameTable.GetsSeeWhatWasInterned` | crates/ananicy-core/src/rules.rs:145-204 | by positions in the log of any interleaving: a `get` that answers after some call was given the id answers with that call's name, so with nothing only for an id no call was given |
| `NameTable.GetAnswers` | crates/ananicy-core/src/rules.rs:196-204 | exactly what each `get` of a run answers: the name stored under the id by then, and nothing if and only if none is |
| `NameTable.StepKeepsInv` | crates/ananicy-core/src/rules.rs:145-195 | every lock-protected region keeps the table invariant: unique names, sound index, and completeness up to the one name a writer has pushed and not yet indexed |
| `NameTable.RunKeepsInv` | crates/ananicy-core/src/rules.rs:145-204 | the invariant over whole schedules; names and answers are only ever appended |
| `NameTable.SoloCallIsIntern` | crates/ananicy-core/src/rules.rs:145-195 | an undisturbed `intern` is exactly the one-step function the rule loader is modelled with: same new table, same id |
| `RuleDoc.RecordRight` | crates/ananicy-core/src/rules.rs:322-386 | whatever other threads intern in between: a record built from answers that are right in a table is well formed there and reads as its document, with exactly the names the table does not hold unusable |
| `RuleDoc.FromJsonView` | crates/ananicy-core/src/rules.rs:322-386 | the record built from any document reads as the document with exactly the names that found no room unusable, so as the document itself if and only if all were stored; room is guaranteed while the table is not full |
| `ConcurrentLoad.InterleavedRecordReads` | crates/ananicy-core/src/rules.rs:145-386 | in every interleaving of interning threads, a record built from the ids a thread was given reads, then and in every later state, exactly as if that thread had been alone with the table |
| `ConcurrentLoad.OneRecordPerDocument` | crates/ananicy-core/src/rules.rs:145-386 | two threads that read one document, however they interleave, build the same record |
| `RuleDoc.MergedKey` | crates/ananicy-core/src/rules.rs:388-426 | one key of an RFC 7396 merge (section 2): absent keeps the target, null removes, anything else replaces |
| `RuleDoc.InheritanceIsMergePatch` | crates/ananicy-core/src/rules.rs:388-426 | for all nine attributes, what the accessors of an inherited record report equals reading the merge patch of the rule document onto the type document, null and wrong-typed values included |
| `RuleDoc.InheritForms` | crates/ananicy-core/src/rules.rs:400-426 | inheriting on ids into the table is inheriting on the spelled-out values |
| `RuleDoc.ViewGrows` | crates/ananicy-core/src/rules.rs:145-204 | a table that has grown leaves the meaning of every record unchanged |
| `RuleDoc.ReloadIsIdentity` | crates/ananicy-core/src/rules.rs:441-479 | `from_json(to_json(rule))` is the same record, id for id, for every well-formed record, and adds nothing to the name table even when it is full |
| `RuleDoc.ReadDump` | crates/ananicy-core/src/rules.rs:441-479 | reading the dump as a document gives what the record reports |
| `RuleDoc.DumpReloadFixpoint` | crates/ananicy-core/src/rules.rs:322-479 | for any two documents: the inherited rule survives dump and reload unchanged, inheriting from the same type again changes nothing, and the dump reads as the RFC 7396 merge |
| `RuleLines.DumpRedefinesItsRule` | crates/ananicy-core/src/rules.rs:441-446 | a dump read back as a definition redefines exactly the rule it was dumped under and reports what that rule reported |
| `RuleDoc.NarrowingKeepsLowBits` | crates/ananicy-core/src/rules.rs:330-386 | a narrowed number is the one of its width with the same low 32 bits |
| `RuleDoc.NumbersAreRead` | crates/ananicy-core/src/rules.rs:330-386 | an integer is read if it has 64 bits, signed or unsigned as the key is, and is unusable otherwise |
| `RuleDoc.OthersAreUnusable` | crates/ananicy-core/src/rules.rs:330-336 | a key that is not there is absent, and one that holds no integer is unusable |
| `RuleLookup.FirstMatch` | crates/ananicy-core/src/rules.rs:1013-1019 | the first pattern in load order that matches, and that no earlier one does |
| `RuleLookup.FindBestMatch` | crates/ananicy-core/src/rules.rs:1005-1022 | the scan finds the exact name, else the rule of the first matching pattern, and the answer is stored |
| `RuleLookup.DefineKeepsBijection` | crates/ananicy-core/src/rules.rs:889-901 | storing a definition keeps names and records in bijection if and only if the name is known or fewer than 2^32 records exist (the index is cast to 32 bits); it sets the one record and no other |
| `RuleLookup.DefinedRules` | crates/ananicy-core/src/rules.rs:889-901 | what a definition keeps in any case, wrapped index or not: every index names a record and at most one record is added |
| `RuleLookup.DefineMaps` | crates/ananicy-core/src/rules.rs:889-901 | whatever is computed record by record is updated under exactly the one name |
| `RuleLines.LastDefinitionWins` | crates/ananicy-core/src/rules.rs:846-951 | after any sequence of lines, a name is stored if and only if some line defines it, and holds the document of the last line that does |
| `RuleLines.CommentReadsAsNothing` | crates/ananicy-core/src/rules.rs:847-850 | white space, the comment sign and then anything reads as nothing |
| `RuleLines.BracelessReadsAsNothing` | crates/ananicy-core/src/rules.rs:852-866 | so does a line in which no opening brace has a closing one after it |
| `RuleLines.LineReadsFromBraceToBrace` | crates/ananicy-core/src/rules.rs:852-868 | any other line reads as exactly the text from its first opening brace to its last closing one |
| `RuleLines.WantedByExtension` | crates/ananicy-core/src/rules.rs:716-726 | what decides is the text after the last dot; a name that begins with its only dot, and a file that cannot be read, is not loaded |
| `RuleLines.EachKindHasItsFlag` | crates/ananicy-core/src/rules.rs:718-723 | each kind of file is loaded exactly when its own flag is on, and no other kind is |
| `RuleLines.LastTypeWins` | crates/ananicy-core/src/rules.rs:914-926 | the same for types: the last line with that type and no name |
| `RuleLines.ResolvedIsMergePatch` | crates/ananicy-core/src/rules.rs:755-788 | a resolved rule reports the merge of its document onto its type's, or onto nothing |
| `RuleLines.LoadedRuleIsMerge` | crates/ananicy-core/src/rules.rs:682-951 | said of the lines alone: a loaded set reports under a name the RFC 7396 merge of its last document onto the last document of its type, or that document by itself when no line defines the type |
| `RuleLines.FirstPatternOwns` | crates/ananicy-core/src/rules.rs:903-911 | the first pattern that matches a name belongs to the first line whose pattern compiles and matches, and there is one exactly when there is such a line |
| `RuleLines.OwnerFound` | crates/ananicy-core/src/rules.rs:1005-1022 | said of the lines alone: a process name is answered by its exact name if any line defines it, else by the rule on the first line whose pattern matches, also when that definition has since been overridden |
| `RuleStore.BuildRecord` | crates/ananicy-core/src/rules.rs:878-901 | one definition: indices stay in range, and as long as they fit 32 bits they stay a bijection and the store shows the old documents with this one under its name, full table or not |
| `RuleStore.BuildBases` | crates/ananicy-core/src/rules.rs:755-774 | one record per type, each reading as its document, as far as the table holds its names, without its own `type` key |
| `RuleStore.InheritAll` | crates/ananicy-core/src/rules.rs:776-788 | every record, and only by its own type's base |
| `RuleStore.OneInherits` | crates/ananicy-core/src/rules.rs:776-788 | one record after inheritance reads as its resolved view |
| `RuleStore.InheritedStore` | crates/ananicy-core/src/rules.rs:755-788 | inheriting every record turns a store that shows the documents into one that shows them resolved, full table or not |
| `RuleStore.InheritRecords` | crates/ananicy-core/src/rules.rs:755-788 | resolves each type once and applies it to the records that name it, keeping the bijection |
| `RuleStore.Rules.constructor` | crates/ananicy-core/src/rules.rs:668-680 | an empty, valid store |
| `RuleStore.Rules.DefineProgram` | crates/ananicy-core/src/rules.rs:871-913 | the programs shown gain exactly this document while indices fit; the pattern list exactly its pattern if it compiles |
| `RuleStore.Rules.StoreDoc` | crates/ananicy-core/src/rules.rs:869-945 | name before type before cgroup; refines the last-definition-wins map of documents while indices fit, and keeps the store valid in any case |
| `RuleStore.Rules.LoadRuleFromNamed` | crates/ananicy-core/src/rules.rs:846-951 | one line, including comments, missing braces and unparsable text; accepted iff it defines something; the resolution cache is not touched |
| `RuleStore.Rules.PrecomputeInheritance` | crates/ananicy-core/src/rules.rs:755-794 | a store that holds documents comes to hold them resolved, with a full name table too, and the cache is emptied unless its lock is poisoned |
| `RuleStore.Rules.LoadFile` | crates/ananicy-core/src/rules.rs:796-812 | all lines of a file, in order; one record more per line at most |
| `RuleStore.Rules.LoadFiles` | crates/ananicy-core/src/rules.rs:718-726 | the wanted files in path order |
| `RuleStore.Rules.LoadDirectory` | crates/ananicy-core/src/rules.rs:682-729 | on an existing directory, whatever was loaded before: while indices fit the store holds exactly the resolved documents of the wanted files, as far as the name table holds their names, so a function of files and flags alone while the table has room; on a missing one nothing changes |
| `RuleStore.Rules.GetRule` | crates/ananicy-core/src/rules.rs:968-991 | the cached lookup equals the uncached one, also when the lock is or becomes poisoned, and keeps the cache right and within 5000 entries; a name of at most 256 bytes is remembered, a longer one never |
| `RuleStore.LookupAfterLoad` | crates/ananicy-core/src/rules.rs:682-1022 | end to end and said of the lines alone: after a load a process name is answered exactly when some rule owns it, under that rule's name; the answer reads as the owner resolved, as far as the name table holds its names, and while that has room reports the merge of the owner's last definition onto its type's |
| `SharedRules.LookupsMatchTheirSnapshot` | crates/ananicy-core/src/rules.rs:968-1022 | in every interleaving of readers, evictions and reloads each lookup answers exactly as the uncached lookup on the set its reader snapshotted; no cache exceeds 5000 keys or holds a key over 256 bytes |
| `SharedRules.AnswersReadOffTheSchedule` | crates/ananicy-core/src/rules.rs:1434-1468 | over every schedule each answer was given at a step of some lookup, and is the uncached lookup of its name on the rules of the last reload before that lookup's snapshot |
| `SharedRules.StepAnswers` | crates/ananicy-core/src/rules.rs:968-991 | only a lookup answers; its second half always does, and a first half that finds nothing cached leaves the second to be taken |
| `SharedRules.FilledIsRemembered` | crates/ananicy-core/src/rules.rs:968-991 | a looked-up name of at most 256 bytes is remembered by the set it was looked up in |
| `SharedRules.LoadedIsReady` | crates/ananicy-core/src/rules.rs:682-991 | what loading leaves and lookups keep is what may be installed |
| `SharedRules.ReloadCommutes` | crates/ananicy-core/src/rules.rs:1434-1468 | either step of a lookup on a snapshot does the same before a reload and after it |
| `SharedRules.ReloadDoesNotDisturb` | crates/ananicy-core/src/rules.rs:1434-1468 | a reload at any point after their snapshots leaves any number of lookups in flight, their answers and their cache entries exactly as they would have been |
| `SharedRules.StepKeepsInv` | crates/ananicy-core/src/rules.rs:1434-1468 | every step keeps all caches right and every installed set unchanged |
| `SharedRules.RunKeepsInv` | crates/ananicy-core/src/rules.rs:1434-1468 | the same over whole schedules |
| `CpuSets.CpuSet.constructor` | crates/ananicy-core/src/cpuset.rs:10-15 | an empty set of the given width |
| `CpuSets.CpuSet.SetCpu` | crates/ananicy-core/src/cpuset.rs:17-21 | adds the CPU if it is within the width |
| `CpuSets.CpuSet.ClearCpu` | crates/ananicy-core/src/cpuset.rs:23-27 | removes exactly the CPU |
| `CpuSets.CpuSet.Zero` | crates/ananicy-core/src/cpuset.rs:29-31 | empties the set |
| `CpuSets.CpuSet.IsEmpty` | crates/ananicy-core/src/cpuset.rs:41-43 | true exactly for the empty set |
| `CpuSets.CpuSet.SetRange` | crates/ananicy-core/src/cpuset.rs:88-90 | adds exactly the CPUs of the range |
| `CpuSets.CpuSet.Parse` | crates/ananicy-core/src/cpuset.rs:63-106 | refuses exactly the texts that denote nothing, and otherwise gives exactly the denoted set |
| `CpuSets.CpuSet.Display` | crates/ananicy-core/src/cpuset.rs:109-140 | prints the maximal runs of the set |
| `CpuSets.FormatCpuset` | crates/ananicy-platform/src/topology.rs:462-495 | prints the same text as `Display` for the same set; x3d.rs lines 213-246 hold the same function |
| `CpuSets.RunsUnique` | crates/ananicy-core/src/cpuset.rs:109-140 | a set has one list of maximal runs, so its text is determined |
| `CpuSets.ParseInvertsDisplay` | crates/ananicy-core/src/cpuset.rs:63-140 | parsing the printed form of any non-empty set within the bound gives back exactly that set |
| `CpuSets.AcceptedIsNonEmpty` | crates/ananicy-core/src/cpuset.rs:63-106 | every accepted text denotes a non-empty set within the bound |
| `CpuSets.SetTextInjective` | crates/ananicy-core/src/cpuset.rs:109-140 | two sets that print alike are the same set |
| `CpuSets.OneCpuText` | crates/ananicy-core/src/cpuset.rs:119-123 | one CPU prints as its number |
| `CpuSets.RunText` | crates/ananicy-core/src/cpuset.rs:119-123 | a run of more CPUs prints as its two ends |
| `CpuSets.TokenForms` | crates/ananicy-core/src/cpuset.rs:83-100 | a token is a number, or two numbers around its first dash |
| `Affinity.MaskFrom` | crates/ananicy-platform/src/abi/affinity.rs:24-38 | exactly the mask of the set's CPUs, or an abort if and only if a CPU lies in the tail that `num_cpus / 8` bytes cannot hold |
| `Affinity.MaskOfCpus` | crates/ananicy-platform/src/abi/affinity.rs:24-38 | the mask of a set holds exactly the CPUs of the set that fit |
| `Affinity.MaskUnique` | crates/ananicy-platform/src/abi/affinity.rs:24-38 | a mask is determined by its CPUs |
| `Affinity.MaskAndIsIntersection` | crates/ananicy-platform/src/abi/affinity.rs:274-275 | bitwise AND of masks is intersection of sets |
| `Affinity.AddRange` | crates/ananicy-platform/src/abi/affinity.rs:73-78 | one range of a kernel list: its CPUs below the bound, and whether there was one |
| `Affinity.MaskFromTokens` | crates/ananicy-platform/src/abi/affinity.rs:58-83 | a list of tokens: refused exactly when a token is no range or no CPU results, else exactly the CPUs named |
| `Affinity.MaskFromCpuList` | crates/ananicy-platform/src/abi/affinity.rs:58-83 | the loop computes the mask of the CPUs a kernel list names |
| `Affinity.BoundIsCut` | crates/ananicy-platform/src/abi/affinity.rs:73-78 | the bound of a list is cut to 32 bits, so a buffer of 2^29 bytes takes no CPU |
| `Affinity.ParsersAgree` | crates/ananicy-platform/src/abi/affinity.rs:58-83 | whatever `CpuSet::parse` accepts, the kernel-list parser turns into byte for byte the mask built from the parsed set |
| `Affinity.ApplyToTids` | crates/ananicy-platform/src/abi/affinity.rs:152-188 | one call per thread with the same mask, and the outcome as a function of the answers alone |
| `Affinity.PassMeaning` | crates/ananicy-platform/src/abi/affinity.rs:171-188 | a pass nobody accepted is settled by its first refusal other than ESRCH, and not found when all threads are gone |
| `Affinity.Classify` | crates/ananicy-platform/src/abi/affinity.rs:323-329 | ESRCH is not found, EACCES and EPERM are denied, anything else is reported as it is |
| `Affinity.CurrentAffinity` | crates/ananicy-platform/src/abi/affinity.rs:91-97 | the mask of the list the kernel gives for that thread |
| `Affinity.ReadMachine` | crates/ananicy-platform/src/abi/affinity.rs:214-221 | the possible CPUs if their list reads, else the online ones |
| `Affinity.RefusalOnMasks` | crates/ananicy-platform/src/abi/affinity.rs:274-314 | the byte-wise tests of the retry decide exactly the set-level reasons not to try again |
| `Affinity.NarrowAndRetry` | crates/ananicy-platform/src/abi/affinity.rs:268-321 | what was read, why there is no retry, or the retry with exactly requested AND allowed, and the verdict in every case |
| `Affinity.SetAffinity` | crates/ananicy-platform/src/abi/affinity.rs:115-135 | the whole request explained: passes, reads and verdict, for every kernel behaviour; masks are subsets of the rule's CPUs, non-empty for a set no wider than the machine; aborts exactly when the mask does |
| `Affinity.AffinityIsSafe` | crates/ananicy-platform/src/abi/affinity.rs:115-321 | the first pass asks for exactly the requested CPUs; a second needs a first that no thread accepted and whose first error other than ESRCH was EINVAL, and then asks for a non-empty strict subset within the first thread's allowed CPUs; with threads present `Ok` means exactly that one accepted |
| `Affinity.MasksAreTheRules` | crates/ananicy-platform/src/abi/affinity.rs:24-188 | every mask handed over names only CPUs of the rule; one of the first pass is non-empty if and only if the rule names a CPU within the bytes, so always when it names none past `num_cpus` and does not abort; one of the second always is |
| `Affinity.MaskCanBeEmpty` | crates/ananicy-platform/src/abi/affinity.rs:24-38 | a caller that passes a set wholly past the mask (CPU 2048 on 1024 CPUs, which no rule text denotes) hands over a mask of zeroes, and a kernel that accepts it makes it a success |
| `Affinity.AbortsExactlyOffTheByte` | crates/ananicy-platform/src/abi/affinity.rs:24-38 | CPU 1024 of 1025 aborts the mask; no set does if and only if the number of CPUs is a multiple of eight |
| `Affinity.ApplyText` | crates/ananicy-core/src/worker.rs:474-485 | from a rule's text to the kernel: a text that denotes nothing reaches no kernel, any other aborts if and only if it names a CPU past the bytes, and every mask handed over is a non-empty part of what the text denotes |
| `CgroupResolver.AnswersFromFirstIncarnation` | crates/ananicy-platform/src/cgroup/process.rs:98-137 | over every run with pids killed and recycled at any point: an answer a call read itself came from the incarnation whose start time that call read first, between its two reads of that start time; a cache hit was read from that incarnation and stored under its start time less than `ttl` ago; the cache stays within capacity |
| `ResolverCalls.CallsEnd` | crates/ananicy-platform/src/cgroup/process.rs:98-137 | over every run and read off its steps: a call ends with nothing exactly when a start time or the file could not be read or the second start time is not the first; one that is confirmed can only store, and hands back what it read from the file |
| `ResolverCalls.UndisturbedCallAnswers` | crates/ananicy-platform/src/cgroup/process.rs:98-137 | a call that misses the cache on an incarnation that lives through it hands back what it read and remembers it |
| `ResolverCalls.SecondCallHits` | crates/ananicy-platform/src/cgroup/process.rs:105-117 | a later call for a remembered incarnation within `ttl` hands back the remembered answer and reads no file |
| `CgroupResolver.LookupKeepsInv` | crates/ananicy-platform/src/cgroup/process.rs:105-117 | the cache read keeps the invariant |
| `CgroupResolver.StoreKeepsInv` | crates/ananicy-platform/src/cgroup/process.rs:128-137 | the cache write keeps the invariant, eviction included |
| `CgroupResolver.OtherKeepsInv` | crates/ananicy-platform/src/cgroup/process.rs:98-127 | so do the procfs reads and every step of the environment |
| `CgroupResolver.RunKeepsInv` | crates/ananicy-platform/src/cgroup/process.rs:98-137 | the invariant over whole schedules |
| `Worker.ApplyRule` | crates/ananicy-core/src/worker.rs:285-504 | the calls made are exactly the plan of the rule, configuration and platform facts, in order; the verdict is the summary of what happened |
| `Worker.SameCallsWhateverFails` | crates/ananicy-core/src/worker.rs:285-504 | two runs of one job attempt the same calls in the same order however differently those calls end |
| `Worker.VerdictMeaning` | crates/ananicy-core/src/worker.rs:494-503 | `Err(e)` iff nothing succeeded and `e` is the first recorded failure, `Partial(e)` iff something did too, `Applied` iff only successes count, `NoApplicable` iff the plan is empty |
| `Worker.FirstFailureIsFirst` | crates/ananicy-core/src/worker.rs:294-308 | the recorded failure is that of the earliest event that has one |
| `Worker.FailuresThatCount` | crates/ananicy-core/src/worker.rs:331-346 | every failure counts against the rule but that of the weight |
| `Worker.PlanExact` | crates/ananicy-core/src/worker.rs:302-492 | a call is planned if and only if the rule gives its attribute a value, the configuration has it on and nothing exempts the process |
| `Worker.PlanOrdered` | crates/ananicy-core/src/worker.rs:302-492 | attributes are taken in one fixed order, each at most once |
| `Worker.WeightFollowsPriority` | crates/ananicy-core/src/worker.rs:329-346 | the optional weight is only ever tried after the priority |
| `Worker.CallsAreWanted` | crates/ananicy-core/src/worker.rs:285-492 | every call of every run is one the job wants; on an affected platform with the workaround on, no call of a realtime process moves it |
| `WorkLoop.HandleProcess` | crates/ananicy-core/src/worker.rs:126-200 | one process of the work loop, through the cached lookup: none for pid 0 or without a rule, else exactly the planned calls of the rule that answers, all of this process; the platform is affected exactly on cgroup v2, so there the workaround keeps every realtime process where it is |
| `WorkLoop.FullerNameWins` | crates/ananicy-core/src/worker.rs:145-151 | a name known for sure stays; otherwise the platform's replaces it unless it has none |
| `WorkLoop.SettingsFollowTheLines` | crates/ananicy-core/src/worker.rs:173-175 | the settings a process name gets, said of the rule lines alone: none if and only if no rule owns the name, else the merge of the owner's last definition onto its type's |
| `WorkLoop.CallsFollowTheLines` | crates/ananicy-core/src/worker.rs:126-200 | so the calls made for a process are the plan of that merge, however the calls end |
| `Worker.WeightShrinks` | crates/ananicy-core/src/worker.rs:329-331 | the weight of a nice value is within 1 and 10000, 100 at zero, and never grows with nice |
| `Worker.WeightRatio` | crates/ananicy-core/src/worker.rs:330-330 | each step of nice is a factor of 1.25, from one hundred at zero, over exact arithmetic |
| `Worker.WeightIsRoundedDown` | crates/ananicy-core/src/worker.rs:330-331 | the weight is that number rounded down, within 1 and 10000 |
| `Worker.SomeWeights` | crates/ananicy-core/src/worker.rs:330-331 | the weights around zero: 156, 125, 100, 80, 64 |
| `Worker.ApplyNice` | crates/ananicy-core/src/worker.rs:303-346 | priority and optional weight, tracked |
| `Worker.ApplySched` | crates/ananicy-core/src/worker.rs:347-383 | latency nice and scheduler, tracked |
| `Worker.ApplyIo` | crates/ananicy-core/src/worker.rs:385-415 | I/O priority and OOM score, tracked |
| `Worker.ApplyCgroup` | crates/ananicy-core/src/worker.rs:417-443 | the cgroup move or its deliberate omission, tracked |
| `Worker.ApplyCpuset` | crates/ananicy-core/src/worker.rs:445-492 | alias lookup, empty alias, rejected text, affinity call, tracked |
| `Worker.UnwrapsWrapped` | crates/ananicy-core/src/worker.rs:153-171 | stripping undoes the NixOS wrapper naming for every name, whole or cut short at fifteen bytes |
| `Worker.OnlyWrappedNamesChange` | crates/ananicy-core/src/worker.rs:153-171 | a name that is not looked up as itself is a wrapped one, whole or cut at fifteen bytes |
| `Worker.PlainNamesStay` | crates/ananicy-core/src/worker.rs:158-158 | a name without a leading dot is looked up as itself |
| `Netlink.ComputeIdentity` | crates/ananicy-platform/src/netlink.rs:119-129 | the loop computes the length and the FNV-1a fold of the bytes |
| `Netlink.StepBijective` | crates/ananicy-platform/src/netlink.rs:119-129 | for each byte the step is a bijection on 64-bit states, with an explicit inverse |
| `Netlink.StepTellsBytesApart` | crates/ananicy-platform/src/netlink.rs:119-129 | for each state the step is injective in the byte |
| `Netlink.FoldInjective` | crates/ananicy-platform/src/netlink.rs:119-129 | a common suffix neither merges nor splits digests |
| `Netlink.NoSingleByteCollision` | crates/ananicy-platform/src/netlink.rs:119-129 | names that share prefix and suffix around one differing byte never collide |
| `Netlink.EqualLengthOneByteApart` | crates/ananicy-platform/src/netlink.rs:119-129 | the same for any two names of equal length that differ in exactly one byte |
| `Netlink.DigestOfOneLetter` | crates/ananicy-platform/src/netlink.rs:119-129 | the published 64-bit FNV-1a digest of the one-letter name `a` |
| `Netlink.ReportedNames.constructor` | crates/ananicy-platform/src/netlink.rs:168-178 | an empty memory of 8192 pids |
| `Netlink.ReportedNames.ShouldReport` | crates/ananicy-platform/src/netlink.rs:180-189 | whether the event is reported and what the memory becomes |
| `Netlink.MemoryIsLast` | crates/ananicy-platform/src/netlink.rs:168-190 | over every trace, whatever the memory holds for a pid is the identity of its last event |
| `Netlink.OrderIsRecent` | crates/ananicy-platform/src/netlink.rs:168-190 | over every trace, the memory is exactly the 8192 most recently heard-of pids, in order |
| `Netlink.SuppressionExact` | crates/ananicy-platform/src/netlink.rs:168-190 | over every trace, an event is suppressed if and only if the pid's previous event carried the same identity and fewer than 8192 other pids have been heard of since |
| `Netlink.SuppressedMeansRepeated` | crates/ananicy-platform/src/netlink.rs:168-190 | over every trace, an event is suppressed only if the pid's previous event carried the same identity |
| `Netlink.FiltersAgreeWithinCapacity` | crates/ananicy-platform/src/netlink.rs:168-190 | the bounded and the unbounded filter agree on every event while at most 8192 pids were seen before it |
| `CgroupManager.TargetIsClean` | crates/ananicy-platform/src/cgroup/manager.rs:176-206 | a name resolves to a target with no `..` component below a mount point and root that have none |
| `CgroupManager.NamesResolve` | crates/ananicy-platform/src/cgroup/manager.rs:176-206 | a name of components c1..cn is the delegated root (or, without one, the mount point) and then c1..cn; with a leading slash the mount point and then them; on v1 the mount point, `cpu` and then them |
| `CgroupManager.DotDotIsRefused` | crates/ananicy-platform/src/cgroup/manager.rs:176-184 | a name that holds `..` resolves to nothing |
| `CgroupManager.TwoSlashesLeaveTheMount` | crates/ananicy-platform/src/cgroup/manager.rs:186-204 | only one leading slash is taken off, so a name with two resolves from the root of the file system |
| `CgroupManager.ResolvedGoesIn` | crates/ananicy-platform/src/cgroup/manager.rs:176-206 | however the root is spelled, an owned target that came from a name goes on from the root without `..`, because names holding `..` are refused |
| `CgroupManager.ResolvedNeverStrays` | crates/ananicy-platform/src/cgroup/ownership.rs:33-50 | so a named target that counts as owned leads to a place at or below where the root is |
| `CgroupManager.EnableCpu` | crates/ananicy-platform/src/cgroup/manager.rs:234-268 | asks for exactly one write, to the parent's subtree control if it exists, which lies inside the root unless the target is the root |
| `CgroupManager.EnsureChild` | crates/ananicy-platform/src/cgroup/manager.rs:215-288 | asks for the controller and then the missing directory, only for an owned target; everything that appears, the kernel's own files included, is inside the root |
| `CgroupManager.WriteOwned` | crates/ananicy-platform/src/cgroup/ownership.rs:33-50 | exactly one write, at the place the target leads to, and none to a target that does not count as owned or a file that is not there; outside the root only the file of a target that strays can change |
| `CgroupManager.MovePid` | crates/ananicy-platform/src/cgroup/manager.rs:290-400 | asks for exactly one write, of the thread-group id, to the existing `cgroup.procs` of the place an owned target leads to, which is outside the root exactly when the target strays; success needs the start time unchanged |
| `CgroupManager.RelativeNamesAreMovedTo` | crates/ananicy-platform/src/cgroups.rs:120-136 | with a delegated root every relative name is owned, and adding a process to one that exists asks for exactly the write to its `cgroup.procs` below the root |
| `CgroupManager.SetCpuMax` | crates/ananicy-platform/src/cgroup/manager.rs:402-468 | asks for exactly one write, of the bandwidth, to the existing `cpu.max` of the place an owned target leads to; outside the root only if the target strays |
| `CgroupManager.BandwidthExact` | crates/ananicy-platform/src/cgroup/manager.rs:69-74 | the bandwidth is exact whenever the product fits 64 bits, and one hundred per cent is the whole machine |
| `CgroupManager.BandwidthIsCapped` | crates/ananicy-platform/src/cgroup/manager.rs:69-74 | a quota past one hundred per cent counts as one hundred, and the product never wraps |
| `CgroupManager.QuotaText` | crates/ananicy-platform/src/cgroup/manager.rs:424-441 | the text written to `cpu.max`: microseconds per hundred milliseconds, and the period |
| `CgroupManager.WeightTextIsClamped` | crates/ananicy-platform/src/cgroup/manager.rs:491-498 | the text written to `cpu.weight`: the weight within 1 and 10000 |
| `CgroupManager.SetCpuWeight` | crates/ananicy-platform/src/cgroup/manager.rs:470-515 | asks for exactly one write, of the clamped weight, to an existing `cpu.weight`, owned or not |
| `CgroupManager.PerformCreate` | crates/ananicy-platform/src/cgroups.rs:83-118 | a `.cgroups` rule asks for exactly the creation, if its target is missing, and then the settings on the file system that left; nothing outside the root but existing `cpu.weight` files changes |
| `CgroupManager.Perform` | crates/ananicy-platform/src/cgroups.rs:83-146 | any one operation, of the manager or the daemon, asks for exactly its writes and stays within the frame |
| `CgroupFs.FramedTransitive` | crates/ananicy-platform/src/cgroup/manager.rs:215-515 | frames compose |
| `CgroupFs.CreatedInside` | crates/ananicy-platform/src/cgroup/manager.rs:270-278 | creating a target that goes on from an existing root without `..` makes nothing outside the place of the root, the kernel's own files included |
| `CgroupManager.RunAll` | crates/ananicy-platform/src/cgroup/manager.rs:215-515 | after any sequence of manager and daemon operations on cgroup v2, on any names and any targets, nothing outside the place of the delegated root has changed but contents of files already there: `cpu.weight` files, the parent's subtree control if an operation ensured the root itself, and the file of a target that strays; with no root, only `cpu.weight` files |
| `CgroupManager.TameRunsStayInside` | crates/ananicy-platform/src/cgroup/manager.rs:215-515 | a run whose owned targets go on from the root without `..`, and that does not ensure the root, changes nothing outside it but `cpu.weight` files |
| `CgroupManager.WriteLandsWhereTheTargetLeads` | crates/ananicy-platform/src/cgroup/ownership.rs:33-50 | the exact condition: a write to a target that counts as owned lands inside the root if and only if the place the target leads to is at or below where the root is |
| `CgroupManager.OwnedTargetCanStray` | crates/ananicy-platform/src/cgroup/ownership.rs:33-50 | the failing input: for root `/sys/a` the target `/sys/a/../b` counts as owned, and moving a process there asks for a write to `/sys/b/cgroup.procs` |
| `CgroupManager.DaemonSparesTheParent` | crates/ananicy-platform/src/cgroups.rs:83-146 | a run made only of the daemon's operations, which name their cgroups, changes nothing outside the root but `cpu.weight` files |
| `CgroupManager.EnsuringTheRootAsksItsParent` | crates/ananicy-platform/src/cgroup/manager.rs:234-268 | ensuring an existing root asks for exactly one write, to a file outside the root |
| `CgroupManager.EmptyNameIsTheRoot` | crates/ananicy-platform/src/cgroup/manager.rs:176-206 | the empty name resolves to the root |
| `CgroupFs.OutsideIsUntouched` | crates/ananicy-platform/src/cgroup/manager.rs:215-515 | what the frame means for one place |
| `Topology.PickCapacitySource` | crates/ananicy-platform/src/topology.rs:212-249 | the most precise source that tells a CPU from the first, else the last one the first CPU reports, else the least precise |
| `Topology.ZeroIsNoReading` | crates/ananicy-platform/src/topology.rs:212-216 | a reported zero is no reading |
| `Topology.GroupByReading` | crates/ananicy-platform/src/topology.rs:337-341 | each CPU that reports is filed under its reading and nothing else is |
| `Topology.MeanReading` | crates/ananicy-platform/src/topology.rs:425-431 | the grouped loop computes the sum and count over the reporting CPUs |
| `Topology.SplitAt` | crates/ananicy-platform/src/topology.rs:433-442 | below the threshold and at or above it |
| `Topology.Classify` | crates/ananicy-platform/src/topology.rs:337-452 | heterogeneous machines get the tiers defined by the mean and the maximum, all others the homogeneous answer |
| `Topology.TiersAreSound` | crates/ananicy-platform/src/topology.rs:394-452 | big and little are non-empty, disjoint and cover exactly the reporting CPUs, every little reading is below every big one, and turbo is a non-empty part of big |
| `Topology.GenerateAliases` | crates/ananicy-platform/src/topology.rs:54-73 | each alias is the text of its tier; performance cores are turbo unless that is empty or everything |
| `Topology.PerformanceInsideBig` | crates/ananicy-platform/src/topology.rs:54-73 | on every machine `performance-cores` is inside `big-cores` and disjoint from `efficiency-cores` |
| `X3d.ReadDies` | crates/ananicy-platform/src/x3d.rs:98-141 | each CPU is filed under its die, and each die under the last cache size reported on it |
| `X3d.DieOrCluster` | crates/ananicy-platform/src/x3d.rs:109-123 | the die is the die file unless it is missing or -1, then the cluster file, then 0 |
| `X3d.LargestCache` | crates/ananicy-platform/src/x3d.rs:184-192 | the die with the largest cache, the lowest-numbered of equals |
| `X3d.DetectX3d` | crates/ananicy-platform/src/x3d.rs:153-204 | one die: both aliases are every CPU; more: the largest-cache die against all others, or nothing exactly when no size is known; and with every CPU listed once the two aliases read back as two non-empty disjoint parts of the machine |
| `X3d.TiersPartition` | crates/ananicy-platform/src/x3d.rs:194-204 | the two tiers are all CPUs, and share none if and only if no CPU is listed both on the die and off it |
| `Singleton.MutualExclusion` | src/ipc.rs:103-149 | in every interleaving of starting, exiting and crashing daemons without a forced removal at most one holds the guard, and then the object exists and is the one it created |
| `Singleton.NextStartSucceeds` | src/ipc.rs:19-23 | the first start after a clean exit gets the guard |
| `Singleton.StartsAreRefused` | src/ipc.rs:109-134 | while any object is under the name a start ends without the guard and leaves the object alone |
| `Singleton.StepKeepsInv` | src/ipc.rs:19-149 | a step keeps the ownership invariant if and only if it is not the forced unlink of an owned object |
| `Singleton.RunKeepsInv` | src/ipc.rs:19-149 | the invariant over every run in which no forced removal hits an owned object |
| `Singleton.ForcedRemovalCanAdmitTwo` | src/ipc.rs:78-101 | a ten-step run with a forced removal that ends with two holders |
| `Singleton.UnwrittenHolderCanBeJoined` | src/ipc.rs:140-147 | a holder whose pid could not be written passes for a leftover for as long as it runs, and a removal then admits a second |
| `Singleton.WrittenHolderIsRecognised` | src/ipc.rs:78-95 | a holder whose pid is in the object under the name is never taken for a leftover |
| `Config.ParseText` | crates/ananicy-core/src/config.rs:143-211 | the loop over the lines computes the parsed snapshot and its diagnostics |
| `Config.LineMeans` | crates/ananicy-core/src/config.rs:149-200 | what each key makes of any value, the refused ones and their diagnostics included |
| `Config.UnknownKeyIsSaid` | crates/ananicy-core/src/config.rs:201-204 | a line with an unknown key is reported and changes nothing |
| `Config.OtherLinesAreIgnored` | crates/ananicy-core/src/config.rs:143-149 | comments and lines without an equals sign are ignored |
| `Config.SpelledKeysAreFound` | crates/ananicy-core/src/config.rs:154-190 | every key as it is spelled in a file |
| `Config.LevelSpellings` | crates/ananicy-core/src/config.rs:20-30 | levels are read in any case, and `fatal` is `critical` |
| `Config.EmptyFileIsDefault` | crates/ananicy-core/src/config.rs:102-124 | an empty file leaves the defaults |
| `Config.KeyTextInjective` | crates/ananicy-core/src/config.rs:154-205 | no two keys are spelled alike |
| `Config.LevelBack` | crates/ananicy-core/src/config.rs:20-72 | parsing a printed level gives it back |
| `Config.PrintedLine` | crates/ananicy-core/src/config.rs:214-252 | a printed line sets exactly the field it was printed from, without a diagnostic |
| `Config.ReadBack` | crates/ananicy-core/src/config.rs:143-252 | a printable snapshot reads back as itself with `apply_ioclass` at its default |
| `Config.RoundTrip` | crates/ananicy-core/src/config.rs:143-252 | it does so if and only if the interval is positive and the mode is one trimmed line |
| `Config.ParsedIsPrintable` | crates/ananicy-core/src/config.rs:143-211 | whatever a file says, the parsed interval is positive and the mode one trimmed line |

## Left out

- RuleStore.Rules.LoadDirectory: past 2^32 records, where the 32-bit index wraps, only validity is stated (`RuleLookup.DefineKeepsBijection` gives the exact condition); the sorted paths and the directory walk are a given sequence of files.
- NameTable.IdsAreForever: poisoned locks abort the process in the code and have no step here.
- Worker.WeightShrinks: exact arithmetic, where the code rounds a 64-bit float before truncating.
- Topology.Classify: exact arithmetic for the mean and the 1.3 ratio.
- CgroupManager.RunAll: cgroup v2, on a file system without links in which the kernel may fill new directories; what a write makes the kernel do elsewhere, the v1 files and floating-point shares are not modelled. The mount point is spelled without `..`, as the kernel lists it; the root may be spelled with it.
- CgroupManager.MovePid: the start time guards the pid that was checked, not the thread-group id that is written.
- Singleton.MutualExclusion: says nothing of runs with a forced removal, where it is false.
- `usable_root` and the discovery of mounts and the delegated root: one-branch decisions over file-system reads.
- `LinuxCgroupResolver`, `online_cpus` and the `/proc/<tid>/status` line search: text extraction whose result is an arbitrary answer here.
- The counter, shutdown flag, thread list and log lines of `work_loop` around `WorkLoop.HandleProcess`.
- LLC and NUMA aliases and cache-size parsing in the topology detector: they would add only easy members.
- Applying priority, I/O class, OOM score and scheduler: system calls with error tables.
- The command line, service integration, disk scheduler report, logging, packaging and the eBPF program.
