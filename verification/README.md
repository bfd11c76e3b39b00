# Credential keyring: verified model

This project models the credential backends of the keyring library in Dafny and proves what they
promise. The largest part is the Linux filesystem backend, an atomic-replace protocol whose readers
take no lock and whose writers share striped locks. The rest is the mount check in front of it, the
WSL2 bridge, backend selection with its error tree, the Secret Service client, and the smaller codecs
and loops of the kernel, Windows and macOS backends.

`dafny verify dfyconfig.toml` checks everything.

## Filesystem backend

`Filesystem` is the file system: names, inodes, descriptors, directories, and for crashes the set of
bindings each recently changed name may fall back to and the inodes whose content is on disk. `Exec`
is one system call; a `Disturbance` lets any call fail, transfer less, or return any random bytes.

`Program` is the control flow of `get`, `set` and `delete` as an automaton over system calls.
`LinuxSystem.System` executes calls for one operation and advances that automaton at each of them, so
the imperative code in `Storage` (the functions of storage_linux.go, the longer ones in parts) can only
verify if it makes exactly the automaton's calls. `Answers` accounts for what an operation answers:
from the history of its calls alone it says which errors the answer matches. `FilesystemKeyring` adds contexts, key names and the lock
array; `FakeKeyring` is the in-memory keyring; `Refinement` relates the two for any run of requests.

`Machine` runs any number of those automata side by side on one file system, with the striped locks, a
fault at any call and a crash at any time, and logs each operation at the call where it takes effect.
`Threads` says what holds of one operation, `Guarantees` and `Interference` what operations leave
alone of each other, `OwnSteps`, `WriteSteps` and `GlobalSteps` that every call keeps it, and
`Concurrency` and `Theorems` draw the conclusions: linearizability, crash safety, exclusion, progress.

`Directories` follows directory_linux.go call by call and shows that the store may treat preparing
and opening directories as single calls.

The environment is taken to be this:

- Counts reported by read and write lie between zero and the length asked for, also with an error; the
  code passes the count of a read on unchecked.
- A failing create, rename or unlink changes nothing; close releases the descriptor even when it fails.
- Descriptors and inode numbers are identities and are not handed out twice.
- The service directory itself is durable: the code never syncs the directories above it.
- Where a statement speaks of an honest system, the faults of its system calls do not pretend that a
  file is missing or in the way. The mount check is no system call but code of the repository: it may
  refuse with any error that matches insecure-fallback, as all its refusals do. Where a statement
  speaks of a harmless script, no call fails but transfers may still be short. Statements that speak
  of neither hold for all faults.
- SHA-256 is any function to 32 bytes. Statements that need it assume no collision on the texts in use.
- The umask is a parameter: the mode a temporary is created with grants nothing to group or others.

## Mount check

`Texts` and `Paths` are the splitting, cleaning, parent and relative-path functions of the standard
library on which the code rests; `MountInfo` is the record format with its escapes, `MountTable` the
line scanner, `MountSelection` the choice of a mount, `MountCheck` the whole check and `MountRefusals`
what an operation answers when it refuses. Characters are code points, so names that are not valid
UTF-8 are outside the model. Case is folded as the code folds it, so that U+017F also spells an `s`
of `drvfs`. Each path is inspected at most once in a run, so an environment that is a
function of the path covers a file system that changes.

internal/contract/errors.go:12 says that not-found reports a credential that does not exist. That does
not hold of every answer of the filesystem backend. The check wraps its cause
(mount_linux.go:74-77, 270-272), and `get` and `delete` read a missing file anywhere in the error of
`openServiceDirectory` as a missing credential (storage_linux.go:137-141, 170-174, 194-197, 364-385):
when /proc/self/mountinfo cannot be opened because it is missing, they answer not-found for a
credential that is on disk (`MountRefusals.PresentButNotFound`). `MountCheck.ValidateMount` and
`MountRefusals.Enter` state when exactly that happens. A caller can tell: such an answer also matches
insecure-fallback, and in an honest system not-found without insecure-fallback is true
(`Storage.LinuxStorage.Get`, `Theorems.NotFoundMeansAbsent`).

## WSL2 bridge

`Base64`, `LimitedBuffers`, `BridgeProtocol`, `BridgeClient`, `BridgeErrors` and `BridgeKeyring` follow
the files of secure/wsl2; `BridgeRefinement` runs the client against a helper that is a map. The JSON
codec is a parameter: statements about runs assume that the helper sees the request that was encoded.
Errors from outside (lookup, runner, random source, codec) are taken to carry no portable category and
no sentinel of the bridge where a statement says so.

docs/wsl2.md:50-53 says that only an absent helper lets discovery continue. The code also continues
when the helper itself replies `backend_unavailable`, `unsupported_protocol` or
`unsupported_operation`, and outside WSL2. `BridgeKeyring.New` states the code's exact set.

That a failing operation matches exactly one portable category does not hold for every context:
a nil context is reported both as an invalid argument and as a backend failure
(`BridgeErrors.NilContextMatchesTwo`), and a cancellation carries no category.
`BridgeKeyring.OneCategoryExactly` states the exact condition for an exchange, and `Get`, `Set` and
`Delete` state it for the operations; a secret that is too large is refused before the context is
looked at, with exactly one category.

## Selection, Secret Service and the smaller backends

`Selection` models the selection loop against a registry whose openers may answer differently each
time they are called, and `SelectionError.Unwrap` over the error trees of `Errors`.

`SecretService` is the D-Bus client as a log of calls against a script of answers; every way of
failing is one script. The statements hold of the log of every run; what a failing call says is a
table of bus names and contexts that shares nothing with the client's own classification.

`Keyctl` reads a kernel key that other processes may replace between any two calls; `KeyctlStore` is
the keyring on top of it. `WindowsTarget` is the target check over `Unicode`, and `Keychain` the
encoding used on macOS. For kernel and Windows names, two credentials of one service are always
distinct. Of two services they need not be: `ServicesMeetExactly` states for each backend when two
services can share a name, and `ServicesCanMeet` gives an input. Services without a NUL, respectively
without a colon, never do.

## Model

| member | source | states |
|---|---|---|
| Program.NotFoundExactly | internal/backend/fs/storage_linux.go:364-385 | an operation reports `NotFound` if and only if its error already did or, for Get and Delete, a file was missing |
| Program.NumbersAreClassified | internal/backend/fs/storage_linux.go:364-385 | every system error is reported under exactly one category, by this table |
| Program.OperationErrorKeepsCause | internal/backend/fs/storage_linux.go:364-385 | classifying an error never hides anything `errors.Is` found in its cause |
| Program.ExecFits | internal/backend/fs/storage_linux.go:25-39 | every system call, whatever fault hits it, ends in one of the outcomes its caller handles |
| Answers.NextAccounted | internal/backend/fs/storage_linux.go:137-385 | one more call, whatever it meets, keeps what the error carried at every control point says of the calls so far: that of the only call that failed, or at least that of the first |
| Answers.EveryRunIsSettled | internal/backend/fs/storage_linux.go:137-385 | in every run of an operation, alone or among others, the answer is a success exactly when no call complained; when one call alone failed it has exactly the category of that system error, insecure-fallback for a file that is not private, and what the error already said otherwise; the first error is never replaced by a later one; at most 128 temporary names are tried |
| Invariants.ExecConsistent | internal/backend/fs/storage_linux.go:25-39 | no call with any fault makes an entry, a descriptor, a crash candidate or a sync mark dangle |
| LinuxSystem.System.Invoke | internal/backend/fs/storage_linux.go:25-39 | each call has exactly the effect the file system gives it and advances the program of its operation: code that verifies makes these calls in this order and no others |
| LinuxSystem.System.Read | internal/backend/fs/storage_linux.go:356-362 | a read delivers the next bytes of the file at the descriptor's offset; with no error, none only at the end |
| LinuxSystem.System.Write | internal/backend/fs/storage_linux.go:75-77 | a write appends a prefix of the bytes and reports its length, also when it fails |
| LinuxSystem.System.Close | internal/backend/fs/storage_linux.go:83-85 | close releases exactly that descriptor even when it reports an error |
| LinuxSystem.System.Rename | internal/backend/fs/storage_linux.go:87-89 | rename replaces the credential by the temporary and removes the temporary's name; failing, it changes nothing |
| LinuxSystem.System.PrepareDirectories | internal/backend/fs/directory_linux.go:18-41 | as one call: only directories change, none is lost, and without faults acceptable directories always become ready |
| Storage.LinuxStorage.OpenDirectories | internal/backend/fs/storage_linux.go:204-214 | root, version and service are opened in turn and on every path only the service descriptor, or none, is left open |
| Storage.LinuxStorage.OpenServiceDirectory | internal/backend/fs/storage_linux.go:194-215 | exactly one new descriptor on success and none on failure, directories made only for Set; a refused mount check is the answer, and any other failure in an honest system says "missing" only of a missing directory |
| Storage.LinuxStorage.OpenCredential | internal/backend/fs/storage_linux.go:217-258 | succeeds only on a regular file of the user without group or other access; without faults a file that is not so is refused as exactly insecure-fallback; every failure leaves no descriptor; from an honest system "missing" is said only of a missing name |
| Storage.LinuxStorage.ReadAll | internal/backend/fs/storage_linux.go:137-154 | the whole content from the descriptor's offset, however short the reads are, or the first read error |
| Storage.LinuxStorage.Get | internal/backend/fs/storage_linux.go:137-154 | a value is the complete content of a secure file; nothing on disk and no descriptor changes; without faults an absent name is not-found and an insecure file exactly insecure-fallback; the answer is the one the history of calls settles (`Answers.EveryRunIsSettled`); met honestly, not-found without insecure-fallback means that the name is absent, and with it that the mount check was refused and its error is the answer |
| Storage.LinuxStorage.CreateTemporary | internal/backend/fs/storage_linux.go:311-333 | within 128 attempts a fresh private empty file under a temporary name, open for writing, or nothing at all |
| Storage.LinuxStorage.WriteAll | internal/backend/fs/storage_linux.go:335-354 | however short the writes are, on success the temporary holds exactly the value; a write of nothing without an error fails |
| Storage.LinuxStorage.Fill | internal/backend/fs/storage_linux.go:290-298 | mode, content and fsync: on success a private, complete and synced temporary |
| Storage.LinuxStorage.CleanUp | internal/backend/fs/storage_linux.go:278-288 | the deferred cleanup closes the temporary once and removes it; it stays only if its unlink failed |
| Storage.LinuxStorage.WriteAtomic | internal/backend/fs/storage_linux.go:271-309 | under every fault script the name has its old or its new complete file: success means new and durable, failure in the directory fsync means new, any other failure means old |
| Storage.LinuxStorage.ValidateExistingCredential | internal/backend/fs/storage_linux.go:260-269 | passes exactly an absent name or a secure file, closing what it opened |
| Storage.LinuxStorage.Set | internal/backend/fs/storage_linux.go:156-168 | the effect of `writeAtomic` on its own name, every other credential name untouched also after a crash, and no descriptor left, under every fault script; without faults an insecure file in its place is exactly insecure-fallback, and the answer is always the one the history of calls settles |
| Storage.LinuxStorage.Delete | internal/backend/fs/storage_linux.go:170-192 | unlinks only a secure file; success means the removal is durable; failure before the directory fsync changes nothing; other names untouched and no descriptor left; without faults an insecure file is exactly insecure-fallback, the answer is always the one the history of calls settles, and not-found means what it means for `get` |
| Storage.StagedUnlinked | internal/backend/fs/storage_linux.go:282-287 | removing the temporary restores every name as it was before the Set |
| Storage.RenamePublishes | internal/backend/fs/storage_linux.go:304-307 | renaming a complete synced temporary makes it the credential and adds only itself to what a crash may leave there |
| Layout.HexInjective | internal/backend/fs/layout.go:31-34 | different digests have different names |
| Layout.HexDigits | internal/backend/fs/layout.go:31-34 | each byte becomes its two lower-case hexadecimal digits, the higher one first |
| Layout.NamesApart | internal/backend/fs/storage_linux.go:311-333 | no credential name, 64 hexadecimal characters, is ever a temporary name |
| Layout.DomainsApart | internal/backend/fs/layout.go:8-34 | what is hashed for a service is never what is hashed for a key |
| Layout.IdentifiersDistinguish | internal/backend/fs/layout.go:31-34 | without a hash collision equal identifiers come from equal values |
| Layout.SameNameSameStripe | internal/backend/fs/keyring.go:111-114 | keys that share a credential name share the mutation lock |
| FilesystemKeyring.Keyring.Get | internal/backend/fs/keyring.go:72-77 | a nil context or an empty key is exactly an invalid argument, a cancelled context the cancellation without a category, an overdue one exactly a timeout; otherwise the complete content of the key's file or an error, exactly insecure-fallback for an insecure file without faults; met honestly, not-found without insecure-fallback means that the file is absent, and with it that the mount check was refused |
| FilesystemKeyring.Keyring.Set | internal/backend/fs/keyring.go:80-88 | calls are refused as for Get and then change nothing; otherwise the key's file is replaced as `set` promises, with its answer, and no lock stays held |
| FilesystemKeyring.Keyring.Delete | internal/backend/fs/keyring.go:91-99 | calls are refused as for Get and then change nothing; otherwise the key's file is removed as `delete` promises, with its answer, and no lock stays held |
| Contexts.ContextErrorIsClassified | internal/contract/context.go:9-19 | only a live context lets an operation go on; a nil one is exactly an invalid argument, an overdue one exactly a timeout, and a cancellation has no category |
| FakeKeyring.Keyring.Get | secure/fake/keyring.go:48-65 | the lookup of the map; a context or injected error comes first |
| FakeKeyring.Keyring.Set | secure/fake/keyring.go:68-81 | the update of the map; a context or injected error changes nothing |
| FakeKeyring.Keyring.Delete | secure/fake/keyring.go:84-100 | the removal from the map, not-found when absent |
| Refinement.StoreRefines | internal/backend/fs/storage_linux.go:156-168 | a successful Set on disk is the map update at its credential, given no collision |
| Refinement.RemoveRefines | internal/backend/fs/storage_linux.go:170-192 | a successful Delete on disk is the map removal at its credential |
| Refinement.ServeAll | internal/backend/fs/keyring.go:71-99 | without faults, any sequence of requests over any number of services under one root is answered as the in-memory map answers it |
| Directories.OpenDirectoryAt | internal/backend/fs/directory_linux.go:58-89 | succeeds only on a private folder of the effective user; one more descriptor on success and none on failure, whatever call fails; a failure has exactly the category of the refused call, or is exactly insecure-fallback for a folder that is not private |
| Directories.NumbersAreClassified | internal/backend/fs/directory_linux.go:117-128 | every system error but a missing directory gets exactly one category, by this table |
| Directories.ValidateDirectory | internal/backend/fs/directory_linux.go:91-115 | without faults passes exactly a folder of the effective user without group or other access and answers any other with exactly insecure-fallback; a failing call is answered by its number |
| Directories.OpenOrCreateDirectory | internal/backend/fs/directory_linux.go:43-56 | the folder is there and private afterwards with one descriptor on it, or there is no descriptor and, in an honest system, no claim that it is missing; without faults it succeeds exactly when the folder is private or can be made, and otherwise answers exactly insecure-fallback |
| Directories.OpeningAllowed | internal/backend/fs/directory_linux.go:58-89 | opening a level, call by call, is an outcome of the single call that the store assumes |
| Directories.PrepareDirectories | internal/backend/fs/directory_linux.go:18-41 | under every fault script each descriptor it opens is closed again and the result and the directories are ones the single call assumed by the store allows; without faults it succeeds exactly when the existing directories are acceptable, and otherwise answers exactly insecure-fallback |
| Guarantees.StepGuaranteed | internal/backend/fs/storage_linux.go:137-354 | each call of each operation changes only its own descriptors, its own temporary and, at the rename or unlink, its own name |
| Interference.GuaranteeMeetsRely | internal/backend/fs/storage_linux.go:137-354 | a call of one operation never disturbs another that shares neither descriptors nor a name both mutate |
| Interference.ThreadStable | internal/backend/fs/storage_linux.go:137-354 | everything that holds of a running operation still holds after any undisturbing call of another |
| WriteSteps.StepAdvances | internal/backend/fs/storage_linux.go:137-354 | an operation's own call keeps what holds of it, at every control point and for every fault, the answers of the mount check included |
| GlobalSteps.StepDurable | internal/backend/fs/storage_linux.go:271-309 | whatever a crash may leave under a credential name stays complete, on disk and unwritten |
| GlobalSteps.StepReadersFrozen | internal/backend/fs/storage_linux.go:137-154 | a file that some operation has open for reading is never written again |
| GlobalSteps.StepView | internal/backend/fs/storage_linux.go:137-192 | for every fault, each call changes the map of credentials exactly as its log entry says, and the entry is legal for a map |
| Concurrency.AdvanceKeeps | internal/backend/fs/storage_linux.go:137-354 | one system call of one of any number of running operations, whatever fault strikes it, keeps the whole invariant |
| Concurrency.MutualExclusion | internal/backend/fs/keyring.go:80-114 | two running mutations never work on the same name |
| Theorems.RunKeeps | internal/backend/fs/keyring.go:71-114 | the invariant holds in every state reached by any interleaving with any faults and crashes |
| Theorems.Linearizable | internal/backend/fs/keyring.go:71-114 | in every interleaving with any faults the log is a legal map history ending in what is on disk; every operation is in it at most once, after its invocation and before its answer, with an entry of its own kind on its own name; every value and every success is the one the map gives there, and so is not-found without insecure-fallback when only honest faults struck the operation |
| Theorems.NotFoundMeansAbsent | internal/backend/fs/storage_linux.go:364-385 | what not-found means in any interleaving for an operation that only honest faults struck: without insecure-fallback the name was absent at a moment between call and answer; with it the mount check was refused and nothing was looked at |
| Theorems.HonestRunTrusts | internal/backend/fs/storage_linux.go:137-192 | in a run of an honest system every operation is one that only honest faults struck, so that the meaning of not-found applies to all |
| Theorems.DescriptorsOwned | internal/backend/fs/storage_linux.go:137-354 | in every reachable state each open descriptor belongs to exactly one running operation: none is open when none runs |
| Theorems.RealTimeOrder | internal/backend/fs/keyring.go:71-114 | an operation that answered before another was invoked comes first in that history |
| Theorems.CrashLeavesWholeValues | internal/backend/fs/storage_linux.go:271-309 | under any faults, after a crash at any step of any run each credential name holds a whole value that some Set wrote to it or that was there, or is absent |
| Theorems.AcknowledgedSurvives | internal/backend/fs/storage_linux.go:185-191 | a Set or Delete that returned nil survives any number of crashes until a later mutation of the name begins |
| Theorems.ReplacesWhatItValidated | internal/backend/fs/storage_linux.go:164-185 | at its rename or unlink a mutation finds exactly the inode that it validated, whatever faults struck it; that it finds the absence it was told of holds when they were honest |
| Theorems.OneMutationPerName | internal/backend/fs/keyring.go:80-99 | under any faults, between taking and releasing the lock no other mutation of the name runs |
| Theorems.NoDeadlock | internal/backend/fs/keyring.go:80-99 | while some operation has not answered, some operation can move |
| Texts.SplitOfJoin | internal/backend/fs/mount_linux.go:246-252 | splitting undoes joining for parts free of the separator |
| Texts.JoinOfSplit | internal/backend/fs/mount_linux.go:246-252 | joining undoes splitting for every text |
| Paths.CleanPathIsClean | internal/backend/fs/mount_linux.go:103 | cleaning leaves no empty, dot or inner dot-dot element |
| Paths.CleanOfRender | internal/backend/fs/mount_linux.go:178 | a clean path survives printing and cleaning |
| Paths.DirIsParent | internal/backend/fs/mount_linux.go:123 | the parent taken from the text drops exactly the last element of a clean path |
| MountInfo.FieldsOfJoin | internal/backend/fs/mount_linux.go:152 | tokens printed with single spaces are read back one by one |
| MountInfo.UnescapeMountField | internal/backend/fs/mount_linux.go:201-226 | the loop computes the unescaping that the two lemmas below characterise |
| MountInfo.UnescapeOfEscape | internal/backend/fs/mount_linux.go:201-226 | unescaping undoes escaping, for every text |
| MountInfo.EscapeOfUnescape | internal/backend/fs/mount_linux.go:201-226 | on fields without white space escaping undoes unescaping |
| MountInfo.UnescapeAccepts | internal/backend/fs/mount_linux.go:201-226 | on fields without white space unescaping succeeds exactly on images of the escaper |
| MountInfo.ParseOfPrintDevice | internal/backend/fs/mount_linux.go:185-199 | every pair of 32-bit device numbers survives printing and parsing |
| MountInfo.ParseMountInfoLine | internal/backend/fs/mount_linux.go:151-183 | the line parser computes the record function that is inverted below, with the first separator field |
| MountInfo.ParseOfPrint | internal/backend/fs/mount_linux.go:151-183 | a printed record, with any number of optional fields and any clean absolute mount point without other white space, is parsed back to its device, point, type, source and options |
| MountInfo.PrintedExample | internal/backend/fs/mount_linux.go:151-183 | the columns and escapes of one line, spelled out |
| MountInfo.ParsedExample | internal/backend/fs/mount_linux.go:151-183 | which of those columns become the device, point, type, source and options |
| MountTable.ParseMountInfo | internal/backend/fs/mount_linux.go:134-149 | succeeds exactly when every line is a record, none reaches the length limit and reading does not fail, with all records in order |
| MountTable.ParsedPointsAreClean | internal/backend/fs/mount_linux.go:178 | every parsed mount point is a clean path |
| MountTable.ParseOfPrintTable | internal/backend/fs/mount_linux.go:134-149 | a printed table is read back record by record |
| MountSelection.WithinIsPrefix | internal/backend/fs/mount_linux.go:246-252 | the textual test with `filepath.Rel` holds exactly when the point is a component-wise prefix of the path |
| MountSelection.LengthIsDepth | internal/backend/fs/mount_linux.go:235 | among prefixes of one path, text length orders as depth does |
| MountSelection.SelectMount | internal/backend/fs/mount_linux.go:228-244 | the last-listed of the longest matching mounts of the device, or none exactly when there is none |
| MountSelection.ChosenGoverns | internal/backend/fs/mount_linux.go:228-252 | that choice is the last-listed mount at the deepest component-wise ancestor with that device |
| MountSelection.OneGoverns | internal/backend/fs/mount_linux.go:228-244 | at most one mount governs a path |
| MountSelection.IsDrvFS | internal/backend/fs/mount_linux.go:254-268 | true exactly for a type or source that spells `drvfs`, or a 9p record one of whose comma-separated options spells `aname=drvfs` or begins with a spelling of `aname=drvfs;`, wherever it stands in the list |
| MountCheck.NearestExistingPath | internal/backend/fs/mount_linux.go:98-132 | ends, and returns the device and real path of the deepest existing ancestor with everything below it missing, or an insecure-fallback error exactly when there is none to use; it says which of these errors match a missing file |
| MountCheck.NearestIsUnique | internal/backend/fs/mount_linux.go:98-132 | at most one ancestor is the nearest existing one |
| MountCheck.ValidateMount | internal/backend/fs/mount_linux.go:68-96 | returns nil if and only if the whole table was read and the mount chosen for the nearest existing ancestor is not on Windows; every refusal is an insecure-fallback error, and exactly that when no cause has a category; one matches a missing file if and only if a path or the table was reported missing (`LooksMissing`) |
| MountCheck.PrintedTableDecides | internal/backend/fs/mount_linux.go:68-96 | against any table the kernel prints, the root is let through exactly when the governing record exists and is not on Windows |
| MountCheck.WindowsTableRefused | internal/backend/fs/mount_linux.go:254-268 | in any printed table a governing 9p record with a DrvFS option anywhere among its options has the root refused |
| MountCheck.OtherTableAllowed | internal/backend/fs/mount_linux.go:254-268 | a governing record without such an option, type and source lets the root through |
| MountCheck.MountErrorKeepsMissing | internal/backend/fs/mount_linux.go:270-272 | the wrapping of the check keeps what the cause said about a missing file |
| MountRefusals.RefusalAnswered | internal/backend/fs/storage_linux.go:364-385 | a refused mount check is answered with insecure-fallback by every operation, and also with not-found if and only if its error matches it, or the operation is Get or Delete and its error matches a missing file |
| MountRefusals.Enter | internal/backend/fs/storage_linux.go:194-197 | the head of an operation over the real check: it goes on exactly for an acceptable root, and Get and Delete answer a refusal as not-found exactly when a path or the table was reported missing or the cause itself matched not-found |
| MountRefusals.WithoutTableLooksMissing | internal/backend/fs/mount_linux.go:74-77 | where every path exists but the mount table does not, any root is refused with an error that matches a missing file |
| MountRefusals.PresentButNotFound | internal/backend/fs/storage_linux.go:137-141 | with that error Get and Delete of a credential that is on disk answer not-found: the input at which the category misleads |
| Base64.DecodeOfEncode | secure/wsl2/keyring.go:122 | decoding, strict or not, undoes encoding (section 4 of RFC 4648) |
| Base64.EncodeOfDecode | secure/wsl2/protocol.go:160 | what strict decoding accepts re-encodes to itself once line breaks are removed (section 3.5 of RFC 4648) |
| Base64.StrictAccepts | secure/wsl2/protocol.go:160 | strict decoding accepts exactly the encodings, with line breaks anywhere |
| Base64.EncodesBigEndian | secure/wsl2/keyring.go:122 | three bytes, the first one highest, are the four digits of one number in the alphabet of section 4 of RFC 4648 |
| Base64.EncodesTail | secure/wsl2/keyring.go:122 | one or two remaining bytes are two or three such digits, filled with zero bits and padded |
| LimitedBuffers.LimitedBuffer.Write | internal/iox/buffer.go:35-47 | the buffer holds the first `limit` bytes of everything written so far, overflows exactly when there was more, and always claims the whole write |
| LimitedBuffers.Collect | internal/iox/buffer.go:35-58 | the same for any chunking of the output |
| BridgeProtocol.RequestsAccepted | secure/wsl2/protocol.go:76-107 | exactly the four request shapes pass, and a bad name is blamed on the argument |
| BridgeProtocol.ResultsAccepted | secure/wsl2/protocol.go:145-180 | exactly the well-shaped results pass, and the secret is the one whose encoding was sent |
| BridgeProtocol.ResponsesAccepted | secure/wsl2/protocol.go:109-143 | exactly correlated replies to this request are accepted, from output within the limit |
| BridgeProtocol.RefusalIsProtocol | secure/wsl2/protocol.go:109-197 | every refused response is a protocol error |
| BridgeClient.Prepare | secure/wsl2/client.go:20-62 | every request that is sent carries the protocol, the generated identifier, the operation, the names and the secret it was asked for, within the size limit |
| BridgeErrors.PortableErrorMatches | secure/wsl2/keyring.go:139-168 | a portable error matches the chosen category and what the error matched before, nothing else |
| BridgeErrors.PortableErrorOfSentinel | secure/wsl2/keyring.go:139-168 | an error with a single sentinel matches exactly the category of that sentinel |
| BridgeErrors.NilContextMatchesTwo | secure/wsl2/keyring.go:109-115 | a nil context is reported under two categories, so that exactly-one fails there |
| BridgeClient.Run | secure/wsl2/process.go:24-45 | the output is complete, or the run failed as a protocol error; it never exceeds the limit |
| BridgeClient.Invoke | secure/wsl2/client.go:20-108 | succeeds exactly with a validated, correlated success decoded from the whole output and a zero exit; every other outcome stands for the one sentinel its stage, or the code of the complaint, gives it |
| BridgeClient.Conclude | secure/wsl2/client.go:87-107 | decoding sees the child's whole output, never above the limit, and success or complaint must agree with the exit status |
| BridgeKeyring.OneCategoryExactly | secure/wsl2/keyring.go:139-168 | a failing exchange matches exactly one portable category if and only if its context was neither nil nor cancelled |
| BridgeKeyring.KindIsCategory | secure/wsl2/keyring.go:139-168 | what a failing exchange stands for is, stage by stage and for each of the ten codes, the category of a literal table |
| BridgeKeyring.New | secure/wsl2/keyring.go:51-88 | opens exactly when the helper completes the probe; a failure lets selection continue exactly when not on WSL2, the helper is absent, or it replied with one of three codes, and has exactly the category of the stage it failed at |
| BridgeKeyring.Get | secure/wsl2/keyring.go:109-115 | returns the secret of the completed reply, or an error with exactly one portable category if and only if the context was neither nil nor cancelled; a valid complaint is reported under exactly the category of its code |
| BridgeKeyring.Set | secure/wsl2/keyring.go:118-125 | refuses secrets above 2560 bytes as exactly too large, even with a nil or cancelled context; otherwise succeeds exactly with a completed reply, reports a valid complaint under exactly the category of its code, and an error has exactly one portable category if and only if the context was neither nil nor cancelled |
| BridgeKeyring.Delete | secure/wsl2/keyring.go:128-137 | succeeds exactly when the helper confirms a deletion; an unconfirmed one is exactly not-found, a valid complaint exactly the category of its code, and an error has exactly one portable category if and only if the context was neither nil nor cancelled |
| BridgeRefinement.ServeAll | secure/wsl2/keyring.go:109-137 | against any helper that behaves as a map of texts, any run of operations answers as the map of secrets does |
| Errors.IsTransitive | internal/contract/selection.go:33-48 | matching over error trees is transitive |
| Selection.Unwrap | internal/contract/selection.go:33-48 | computes the list without the rejections that the cause matches; it matches a target exactly when the cause or some rejection does |
| Selection.SelectionErrorMatches | internal/contract/selection.go:33-48 | `errors.Is` on a selection error holds exactly for itself, what its cause matches and what a rejection matches |
| Selection.SelectBackend | internal/selection/selection.go:17-57 | for any order, registry and context: openers run in order up to one stopping place, every earlier candidate was refused as unavailable or unsupported, and the result, its rejections and the fallback flag are those of that place |
| Selection.PassedOverExactly | internal/selection/selection.go:25-46 | of the candidates come to with a live context, those passed over are exactly those without an opener and those refused as unavailable or unsupported; the first other refusal ends selection as its cause, which the error matches |
| Selection.NotRegisteredIsUnsupported | internal/selection/selection.go:29-34 | a candidate without an opener is rejected as exactly unsupported |
| Selection.EndsOnce | internal/selection/selection.go:17-50 | the stopping place is unique |
| Selection.SuccessMeansEarlierRefused | internal/selection/selection.go:36-41 | after success the rejections are exactly the candidates before it, all unavailable or unsupported, and any of them sets the fallback flag |
| Selection.ExhaustionIsUnavailable | internal/selection/selection.go:49 | running out of candidates is an unavailable backend |
| SecretService.HandlePrompt | internal/backend/dbus/client.go:278-331 | succeeds only without a prompt or after an undismissed completion; signals and accepted match rules are always taken back, after they were registered; a failure matches what its failing call, or the dismissal, says and nothing else |
| SecretService.UnlockObject | internal/backend/dbus/client.go:223-236 | success means the object was unlocked, at once or by a completed prompt |
| SecretService.Find | internal/backend/dbus/client.go:238-260 | the first item the search for this service and key returned; exactly not-found when it returned none; otherwise what the failing call says |
| SecretService.CloseOperationSession | internal/backend/dbus/client.go:340-357 | closes the session once, except for a cancelled or overdue result, which stays as it is; a failure to close is joined to the result and hides nothing of it |
| SecretService.Get | internal/backend/dbus/client.go:97-136 | whatever fails, the run gives every resource back and success returns the secret the service answered for the first item found; under a live context it fails exactly when a call of its run does, matching what the failing calls say and nothing else; when all calls and prompts succeed, it succeeds exactly when the one search returns an item and is exactly not-found otherwise |
| SecretService.Set | internal/backend/dbus/client.go:138-187 | whatever fails, the run gives every resource back, and success means an item with these attributes and value was created and its prompt settled; under a live context it fails exactly when a call of its run does, matching what the failing calls say and nothing else |
| SecretService.Remove | internal/backend/dbus/client.go:189-221 | whatever fails, the run gives every resource back, and success means the first item found was deleted and its prompt settled; its failures are accounted for as those of Get, with exactly not-found for a search that returns no item |
| SecretService.OnlyFailureAnswers | internal/backend/dbus/errors.go:24-68 | when one call of a run alone fails, the answer is exactly the category its bus name stands for, by a literal table, or how the context ended; a dismissed prompt is exactly interaction-required and an empty search exactly not-found |
| SecretService.ReleasedMeaning | internal/backend/dbus/client.go:340-366 | in every such run the connection is closed exactly once and last; an opened session is closed exactly once unless interrupted, every registration and rule is taken back exactly as often as it was made, and no prefix of the run gives back more than it took |
| SecretService.ReleasedInOrder | internal/backend/dbus/client.go:278-366 | each session is closed only after it was opened, and each registration and rule taken back only after it was made |
| SecretService.ReleasedIsGuarded | internal/backend/dbus/client.go:97-221 | no secret is read, created or deleted before what it touches was unlocked in that run |
| SecretService.BackendErrorIsClassified | internal/backend/dbus/errors.go:24-68 | every backend error is the cancellation or carries a portable category |
| Keyctl.ReadKeyContents | internal/backend/keyctl/keyring_linux.go:108-124 | always ends, returns exactly the payload of its last read, and reads again only while the payload outgrows the buffer |
| Keyctl.KeyDetermined | internal/backend/keyctl/keyring_linux.go:50-57 | without a collision one service never gives two keys the same name |
| Keyctl.ServiceDetermined | internal/backend/keyctl/keyring_linux.go:50-57 | services without a NUL are told apart by what is hashed |
| Keyctl.ServicesMeetExactly | internal/backend/keyctl/keyring_linux.go:50-57 | some keys of two services are hashed as the same text if and only if one service, with the separator, begins the other |
| Keyctl.ServicesCanMeet | internal/backend/keyctl/keyring_linux.go:50-57 | two credentials, one with a NUL in its service, that share one name |
| KeyctlStore.MissingExactly | internal/backend/keyctl/keyring_linux.go:137-151 | not-found is reported exactly when the kernel said that the key is gone |
| KeyctlStore.NumbersAreClassified | internal/backend/keyctl/keyring_linux.go:137-151 | every system error gets exactly one category, by this table |
| KeyctlStore.Keyring.Get | internal/backend/keyctl/keyring_linux.go:64-77 | the whole payload, or a failure with exactly the category of the system error that its latest call met; a failure that met none is exactly not-found and says that there is no key |
| KeyctlStore.Keyring.Set | internal/backend/keyctl/keyring_linux.go:80-93 | the new payload or no change, with exactly the category of the system error that prevented it; values above 32767 bytes are exactly too large |
| KeyctlStore.Keyring.Delete | internal/backend/keyctl/keyring_linux.go:96-106 | the key is gone, or nothing changed and the failure is classified as that of Get |
| KeyctlStore.Serve | internal/backend/keyctl/keyring_linux.go:64-106 | without faults the kernel keyring answers each request as the in-memory map does |
| Unicode.ValidIsEncoded | internal/backend/windows/client.go:93 | bytes are valid UTF-8 exactly when they encode some text (section 3 of RFC 3629) |
| Unicode.RunesAppend | internal/backend/windows/client.go:116-118 | decoding and validity are compositional behind valid bytes |
| Unicode.Utf16Append | internal/backend/windows/client.go:116-118 | UTF-16 encoding is a homomorphism (section 2.1 of RFC 2781) |
| Unicode.Utf16Length | internal/backend/windows/client.go:116-118 | the length in UTF-16 units is the number of characters plus the number at or above U+10000 |
| Unicode.Utf16Injective | internal/backend/windows/client.go:116-118 | different texts have different UTF-16 encodings |
| Unicode.EncodedCharSpelled | internal/backend/windows/client.go:93 | the bytes of a character, with the ranges and bits of section 3 of RFC 3629 |
| WindowsTarget.UnitsOfTarget | internal/backend/windows/client.go:105-118 | the target's UTF-16 length is the sum of its parts plus one |
| WindowsTarget.UnitsCounted | internal/backend/windows/client.go:116-118 | the units that the bounds limit are characters plus supplementary characters of the decoded text |
| WindowsTarget.TargetsAccepted | internal/backend/windows/client.go:83-114 | exactly the non-empty, NUL-free, valid pairs within 513 units for the key and 32767 for the target are accepted; the rest are exactly invalid arguments |
| WindowsTarget.KeyDetermined | internal/backend/windows/client.go:104-105 | for one service the target determines the key |
| WindowsTarget.ServiceDetermined | internal/backend/windows/client.go:104-105 | services without a colon are told apart too |
| WindowsTarget.ServicesMeetExactly | internal/backend/windows/client.go:83-114 | two different services share an accepted target if and only if one continues the other behind a colon within the two bounds |
| WindowsTarget.ServicesCanMeet | internal/backend/windows/client.go:104-105 | the services `a` and `a:a` share a target |
| Keychain.ReadOfStored | internal/backend/darwin/client.go:34-70 | what Set stores is marked and encoded, and is read back, whatever white space surrounds it |
| Keychain.ReadOfLegacy | internal/backend/darwin/errors.go:22-23 | values in the older hexadecimal encoding are read back |
| Keychain.ReadOfPlain | internal/backend/darwin/errors.go:26-27 | a value stored plainly by another program is returned as its bytes |
| Keychain.HexAccepts | internal/backend/darwin/errors.go:22-23 | the older encoding is decoded exactly when it is an even number of hexadecimal digits |
| Keychain.ReadOfBroken | internal/backend/darwin/errors.go:16-34 | reading fails exactly for a marked value that cannot be decoded, as exactly a backend failure |

## Left out

- `openLinuxStorage`, `Open` and `openKeyring`: argument checks and one call of the mount and directory code before the first operation.
- Other processes, or a second keyring on the same root: the locks do not cover them, so the concurrent model has one keyring.
- The SHA-256 function, the quality of random bytes, error message texts, clocks and real timeouts.
- Custom `Is` methods of error types other than `syscall.Errno`, and errors that unwrap to nil.
- `io.ReadAll` growing its buffer: a read asks for any amount, and what it may deliver is any shorter part.
- Closing the mount table and the buffer sizes of the scanner; a line at or above 1 MiB is an error as in the code.
- Case folding of characters that cannot match an ASCII option or file system name.
- The JSON grammar, and texts that are not valid UTF-8, which JSON encoding would change.
- The WSL2 kernel release test and the search of the PATH: their answers are parameters.
- Bus errors are classified by a name that the answer carries; the transport and the probe are not modelled.
- The command text and shell quoting of the macOS tool, its 4096 byte bound, and its Delete.
- The native calls, Get, Set and Delete of the Windows backend, which only pass the target on.
- Opening the kernel session keyring and its error classes (`probeError`).
- Platform information constants, option merging, the native dispatch, the example program and scripts.
- Paths.Rel: of a relative target `.` the result is that of an empty path; the code only asks about absolute targets.
