# spot: target and task resolution, and the per-host runner

A Dafny model of the core of `spot`, a deployment runner. A playbook names
*targets* (groups of hosts) and *tasks* (ordered lists of commands). The
runner executes one task against one target. The model covers:

- **Task resolution** (`PlayBook.Task`). The task is looked up and copied.
  Its user is chosen by precedence: command-line override, then the task's
  own user, then the playbook's. Override environment variables are merged
  into every script command.
- **Target resolution** (`PlayBook.TargetHosts`). Sources are tried in
  strict precedence order:
  1. hosts given on the command line;
  2. an inventory file given on the command line;
  3. an inventory URL given on the command line;
  4. when the name is not a target: the name itself, if it looks like a
     host, and otherwise the error "target N not found";
  5. when it is a target: its static hosts, completed with port 22 and
     the default user;
  6. else the target's inventory file;
  7. else the target's inventory URL.

  A missing host list is an error. An empty host list is not.
- **Inventory parsing** (`parseInventory`). Lines of `host[:port][ user]`
  sit under `[group]` headers. Blank lines and `#` comments are skipped.
  Only hosts under the requested groups are kept. The first malformed port
  is an error.
- **Script rendering** (`Cmd.GetScript`, `getScriptCommand`,
  `getScriptFile`, `genEnv`).
  - A one-line script becomes `sh -c "…"` with the sorted environment in
    front.
  - A multi-line script becomes a file: a shebang, `set -e`, one `export`
    line per variable, then the script's lines.
  - Lines shorter than two bytes once trimmed are dropped. Trailing `#`
    comments are cut.
- **Templates** (`applyTemplates`). Five variables are substituted in the
  forms `${VAR}`, `$VAR` and `{VAR}`: `SPOT_REMOTE_HOST`, `SPOT_COMMAND`,
  `SPOT_REMOTE_USER`, `SPOT_TASK` and `SPOT_ERROR`.
- **Command execution** (`execCommand`, `wait`). Each command is dispatched
  in the fixed priority order script, copy, sync, delete, wait. A command
  with none of these is an unknown command, reported without a host. Every
  executor failure is wrapped in an error naming the host.
- **The per-host loop** (`runTaskOnHost`).
  - It connects first.
  - It applies the `only`/`skip`/`no_auto` filters with ASCII case folding.
  - It counts the commands that succeeded.
  - It stops at the first failure that is not ignored.
- **The early exit of `Run`**. An unknown task or an unresolvable target
  aborts with zero statistics before any host is contacted.

The file system, HTTP, IP address parsing and the remote executor are
oracles: function-valued fields of `Playbook.Sources` and
`Runner.Connector`. The executor is a function of the call it receives:
host, command index, whether it runs locally, and the operation. The model
therefore says exactly which calls are made and what their outcomes lead
to.

Behaviours of the code that the model keeps as written:

- An inventory read from a URL is filtered by the groups of the target's
  `inventory_file` entry, not its `inventory_url` entry
  (`Playbook.URLInventoryFilteredByFileGroups`).
- Hosts read from an inventory that name no user get the playbook's user,
  even when the command line overrides the user
  (`Playbook.InventoryIgnoresUserOverride`).
- Host lines are split on single spaces, so two spaces leave an empty user
  (`Inventory.DoubleSpaceEmptiesUser`).
- Colon fields after the port are ignored
  (`Inventory.ExtraColonFieldsIgnored`).
- A line starting with `#` is kept in the one-line command form but
  dropped from the file form
  (`Script.FilePartIsCommandPartWithoutComments`).
- A bare IPv6 target such as `::1` is split on its colons, and the empty
  second field is rejected as a port (`Playbook.IPv6BareHostRejected`).
- Host lists are not deduplicated.
- `strconv.Atoi` reports leading digits that overflow 64 bits as "value out
  of range", even when an invalid character follows them
  (`Text.OverflowReportedFirst`).

Modules:

| Module | Contents |
|---|---|
| `Wrappers` | `Option` and `Result` |
| `Text` | the Go `strings` and `strconv` functions the core uses |
| `StringOrder` | byte-wise string order and an in-place sort |
| `Config` | the playbook's records |
| `Inventory` | inventory parsing |
| `Playbook` | task and target resolution |
| `Script` | script rendering |
| `Templates` | template substitution |
| `Runner` | execution |

## Model

| member | source | states |
|---|---|---|
| Text.TrimSpace | app/config/config.go:325 | the trimmed line is no longer than the input and neither starts nor ends with white space |
| Text.TrimLeft | app/config/config.go:325 | the result is a suffix of the input, every dropped character is white space, and the result does not start with white space |
| Text.TrimRight | app/config/config.go:325 | the result is a prefix of the input, every dropped character is white space, and the result does not end with white space |
| Text.TrimSpaceKeeps | app/config/config.go:325 | a line that neither starts nor ends with white space is unchanged by trimming |
| Text.Utf8Len | app/config/config.go:393 | Go's `len` of a string counts UTF-8 bytes: at least one and at most four per character |
| Text.ShortUtf8 | app/config/config.go:393 | `len(c) < 2` on UTF-8 bytes holds exactly when the string is empty or a single ASCII character (`Text.ShorterThanTwoBytes`) |
| Text.IndexFrom | app/config/config.go:396 | the first position at or after k holding the character, and -1 exactly when there is none |
| Text.IndexOf | app/config/config.go:396 | `strings.Index`: the position of the first occurrence, with no earlier occurrence, and -1 exactly when the character is absent |
| Text.Split | app/config/config.go:323 | `strings.Split` gives at least one piece, none containing the separator, and exactly one piece (the whole string) when the separator is absent |
| Text.JoinSplit | app/config/config.go:389-401 | joining (`Text.Join`) the pieces of a split with the separator gives back the original string |
| Text.SplitJoin | app/config/config.go:389-401 | splitting pieces joined by a separator none of them contains gives back the pieces |
| Text.JoinSplitStep | app/config/config.go:389-401 | one step of the split/join round trip at the first separator |
| Text.SeparatorAt | app/config/config.go:389 | the string is the text before the first separator, the separator, and the rest |
| Text.SplitJoinedAt | app/config/config.go:389 | joining a split equals the first piece, the separator and the joined rest |
| Text.SplitFirst | app/config/config.go:340 | text with no separator, then a separator, then more splits into that text followed by the pieces of the rest |
| Text.SplitAt | app/config/config.go:340 | a split is the text before the first separator followed by the split of the rest |
| Text.JoinCons | app/config/config.go:386 | joining a list of two or more pieces puts the separator after the first piece |
| Text.ReplaceAllAbsent | app/runner/runner.go:253-255 | `strings.ReplaceAll` (`Text.ReplaceAll`) with a pattern that does not occur leaves the string unchanged |
| Text.ReplaceAllStep | app/runner/runner.go:253-255 | the text before the first occurrence is kept, the occurrence is replaced, and scanning resumes after it |
| Text.ReplaceAllSkip | app/runner/runner.go:253-255 | where the pattern does not start the text, the first character is kept |
| Text.NoOccurrenceShift | app/runner/runner.go:253-255 | a pattern absent from a text stays absent when the text's first character is dropped |
| Text.Atoi | app/config/config.go:349 | `strconv.Atoi` succeeds exactly on an optionally signed decimal within 64-bit range and gives its signed value; an out-of-range decimal, or leading digits that already overflow 64 bits before an invalid character, give "value out of range"; any other input gives "invalid syntax" |
| Text.LeadingValueOfDigits | app/config/config.go:349 | for a string of digits only, the value scanned up to the first non-digit is the whole value |
| Text.OverflowReportedFirst | app/config/config.go:349 | `strconv.Atoi` scans digits from the left, so leading digits whose value exceeds 64 bits give "value out of range" even when an invalid character follows |
| StringOrder.BelowTotal | app/config/config.go:445 | the byte-wise string order is total |
| StringOrder.BelowAntisymmetric | app/config/config.go:445 | the string order is antisymmetric |
| StringOrder.BelowTransitive | app/config/config.go:445 | the string order is transitive |
| StringOrder.SortedHeadLeast | app/config/config.go:445 | the first element of a sorted list is below every element |
| StringOrder.SortedUnique | app/config/config.go:445 | two sorted lists with the same elements are equal, so the sorted environment does not depend on map order |
| StringOrder.IndexOfElement | app/config/config.go:445 | an element of a multiset of a list is found at some index |
| StringOrder.MultisetTail | app/config/config.go:445 | dropping the head of a list removes one copy of it from its multiset |
| StringOrder.Insert | app/config/config.go:445 | insertion adds exactly one element and puts it or the old head first |
| StringOrder.InsertSorted | app/config/config.go:445 | insertion into a sorted list keeps it sorted |
| StringOrder.SortedExists | app/config/config.go:445 | every multiset of strings has a sorted arrangement |
| StringOrder.SortStrings | app/config/config.go:445 | `sort.Slice` on the environment lines leaves the array sorted and a permutation of its old contents |
| StringOrder.InsertLeft | app/config/config.go:445 | one insertion-sort pass extends the sorted prefix and keeps a permutation |
| StringOrder.SwapAdjacent | app/config/config.go:445 | swapping two neighbours changes only them and keeps a permutation |
| Inventory.HostLineRoundTrip | app/config/config.go:339-356 | a line written as `host:port user` parses back to that host, port and user |
| Inventory.HostLineDefaults | app/config/config.go:339-346 | a line with no colon and no space gives port 22 and the default user |
| Inventory.DoubleSpaceEmptiesUser | app/config/config.go:340-344 | two spaces between host and user leave the user empty |
| Inventory.ExtraColonFieldsIgnored | app/config/config.go:348-354 | fields after the port are ignored |
| Inventory.DigitsHaveNoSeparators | app/config/config.go:340-348 | a port of digits contains neither a space nor a colon |
| Inventory.NoSpaceIn | app/config/config.go:340 | a line without spaces is a single field |
| Inventory.ColonFields | app/config/config.go:348 | the first two colon fields are the host and the port |
| Inventory.HostLineFields | app/config/config.go:339-356 | `ParseHostLine`: the user is the second space field if there is one, else the default user; without a colon in the first field the host is that field on port 22; with one, the host is the first colon field and the port the second one's value, or the line fails with exactly "can't parse port P: E" carrying `strconv.Atoi`'s error; a parsed host holds neither a space nor a colon |
| Inventory.ParseFromBounded | app/config/config.go:321-359 | reading the lines (`Inventory.ParseFrom`) gives at most one host per line |
| Inventory.ParseFromUnnamed | app/config/config.go:352-356 | hosts read from an inventory carry no name |
| Inventory.HostLineUnnamed | app/config/config.go:352-356 | a parsed host line has no name |
| Inventory.ParseInventory | app/config/config.go:302-360 | `parseInventory` returns the result of reading the text's lines in order from group `all` |
| Inventory.ParseLines | app/config/config.go:321-359 | the loop over the lines keeps the parsed prefix in front of the parse of the remaining lines |
| Inventory.ParseLine | app/config/config.go:324-357 | one line skips, switches the group, appends a host or stops with the port error, in agreement with the whole parse |
| Inventory.SkipLine | app/config/config.go:326-337 | a blank, comment or filtered-out line contributes nothing |
| Inventory.HeaderLine | app/config/config.go:330-333 | a `[group]` line switches the current group |
| Inventory.HostLine | app/config/config.go:339-357 | an accepted host line is parsed and prepended, and a bad port ends the parse with its error |
| Inventory.ParseIsFilterThenParse | app/config/config.go:321-359 | parsing equals tagging each host line with its group, keeping the accepted ones, and parsing them in order |
| Inventory.HostLineStep | app/config/config.go:335-357 | one host line keeps the parse and the filter-then-parse reference in agreement |
| Inventory.FirstBadLine | app/config/config.go:349-351 | the index of the first unparsable line is within bounds |
| Inventory.FirstBadLineIsFirst | app/config/config.go:349-351 | every line before that index parses and the line at it does not |
| Inventory.ParseAllErr | app/config/config.go:349-351 | parsing fails exactly when some line is bad, and then with the first bad line's error |
| Inventory.ParseAllOk | app/config/config.go:339-357 | a successful parse gives one destination per line, in order |
| Inventory.EmptyFilterSelectsAll | app/config/config.go:304-307 | an empty group list keeps every host line |
| Inventory.SelectedMembers | app/config/config.go:335-337 | a line is kept exactly when it sits under an accepted group |
| Playbook.WithEnv | app/config/config.go:155-163 | a command with no script is unchanged; otherwise the override variables are added and win over the command's own |
| Playbook.TaskUser | app/config/config.go:143-150 | the user override wins, then the task's user, then the playbook's |
| Playbook.TaskSpec | app/config/config.go:135-170 | an unknown task gives "task N not found"; a known one is renamed, keeps key and on_error, and gets its user and each command's merged environment |
| Playbook.TaskEnvironment | app/config/config.go:152-165 | each command of a resolved task keeps name, script and options and has exactly the merged environment |
| Playbook.NoEnvOverridesKeepCommands | app/config/config.go:153 | without environment overrides the commands are unchanged |
| Playbook.ResolveTask | app/config/config.go:135-170 | the loop over override variables and commands computes the resolved task |
| Playbook.SetInScripts | app/config/config.go:155-163 | setting one variable in every script command and leaving the others |
| Playbook.EnvNothing | app/config/config.go:153-165 | merging no variables changes no command |
| Playbook.OneMoreVariable | app/config/config.go:154-164 | merging one more override variable equals merging the larger set |
| Playbook.FromFile | app/config/config.go:176-187 | an unreadable file gives "can't open inventory file F"; a parse failure gives "can't parse inventory file F"; otherwise the parsed hosts |
| Playbook.FromURL | app/config/config.go:189-204 | a failed request, a status other than 200 or a parse failure is an error naming the URL; otherwise the parsed hosts |
| Playbook.HostPort | app/config/config.go:215-224 | a host without a colon gets port 22; a success always carries the user, no name and a host without a colon |
| Playbook.HostPortFields | app/config/config.go:215-224 | with a colon, the host is the first colon field and the port the second one's value, or the result is exactly "can't parse port P: E" with `strconv.Atoi`'s error; the result is an error exactly when there is a colon and `strconv.Atoi` rejects the second field |
| Playbook.HostPorts | app/config/config.go:212-227 | a success gives one destination per entry |
| Playbook.Completed | app/config/config.go:269-276 | a static host keeps its name and host, its port becomes 22 exactly when unset and is kept otherwise, and its user becomes the default user exactly when unset and is kept otherwise |
| Playbook.CompletedAll | app/config/config.go:267-279 | every static host is completed, in order |
| Playbook.HostPortsAll | app/config/config.go:212-227 | command-line hosts parse exactly when every entry does, giving one destination per entry in order |
| Playbook.HostPortRoundTrip | app/config/config.go:215-223 | `host:port` reads back as that host and port |
| Playbook.CommandLineHostsWin | app/config/config.go:211-227 | command-line hosts decide the result of `TargetSpec` whatever the target name and targets |
| Playbook.CommandLineFileWins | app/config/config.go:229-232 | without command-line hosts, a command-line inventory file decides the result |
| Playbook.CommandLineURLWins | app/config/config.go:233-236 | without command-line hosts or file, a command-line inventory URL decides the result, read with no group filter |
| Playbook.TargetHostsCompleted | app/config/config.go:266-279 | `TargetSpec` returns a target's static hosts completed, one per entry in order, each with its name and host, port 22 when unset and its own port otherwise, and the default user when unset and its own user otherwise |
| Playbook.TargetFileWins | app/config/config.go:281-284 | a target without hosts of its own but with an inventory file reads that file with the file's groups; its URL is not consulted |
| Playbook.URLInventoryFilteredByFileGroups | app/config/config.go:286-289 | a target's URL inventory is filtered by the groups of its file entry |
| Playbook.MissingVersusEmptyHosts | app/config/config.go:291-295 | a missing host list is an error, an empty one gives no hosts |
| Playbook.BareHostWithPort | app/config/config.go:239-261 | a name that is not a target but is a host name by `IsHostName` (an IP, dotted, or `localhost…`) gives one host with the port after its colon |
| Playbook.BareHostDefaultPort | app/config/config.go:241-254 | such a host name without a colon gives one host on port 22 |
| Playbook.UnknownTarget | app/config/config.go:241-263 | a name that is neither a target nor a host name by `IsHostName` (an IP, dotted, or `localhost…`) gives "target N not found" |
| Playbook.IPv6BareHostRejected | app/config/config.go:252-260 | a bare address containing `::` is rejected with a port error |
| Playbook.EmptyPortField | app/config/config.go:256-260 | `a::b` has an empty port field, which `strconv.Atoi` rejects |
| Playbook.EmptySecondField | app/config/config.go:256 | the second colon field of `a::b` is empty |
| Playbook.InventoryIgnoresUserOverride | app/config/config.go:229-232 | hosts from a command-line inventory file get the playbook's user, not the overriding user |
| Playbook.SingleHostInventory | app/config/config.go:321-357 | a one-line inventory naming a plain host is one destination on port 22 with the default user |
| Playbook.TargetHosts | app/config/config.go:174-296 | `TargetHosts` returns `TargetSpec`, the result of the precedence chain |
| Playbook.ParseHostList | app/config/config.go:212-227 | the loop over command-line hosts stops at the first bad port |
| Playbook.CompleteHosts | app/config/config.go:267-279 | the loop over static hosts completes each |
| Playbook.LoadInventoryFile | app/config/config.go:176-187 | the file loader computes the file source's result |
| Playbook.LoadInventoryURL | app/config/config.go:189-204 | the URL loader computes the URL source's result |
| Script.EnvEntries | app/config/config.go:440-444 | one `k='v'` line per variable |
| Script.EnvEntriesPick | app/config/config.go:442-444 | the lines are one variable's line plus the lines of the others |
| Script.ChosenKey | app/config/config.go:442 | some variable can be taken first |
| Script.EnvEntriesMembers | app/config/config.go:442-444 | a line is present exactly when it is some variable's `k='v'` |
| Script.EnvList | app/config/config.go:440-447 | `genEnv` is sorted and holds exactly one line per variable |
| Script.GenEnv | app/config/config.go:440-447 | the loop and sort compute that sorted list |
| Script.EnvListMembers | app/config/config.go:440-447 | the list has one entry per variable, every variable's line is in it, and nothing else is |
| Script.TrimSpaceWithin | app/config/config.go:392 | trimming adds no character |
| Script.CommandPartShape | app/config/config.go:391-399 | a kept command line is non-empty and either starts with `#` or has no `#` |
| Script.FilePartIsCommandPartWithoutComments | app/config/config.go:422-432 | the file form keeps a line exactly as the command form does, except lines starting with `#` |
| Script.FilePartHasNoComment | app/config/config.go:422-432 | a kept file line is non-empty and has no `#` |
| Script.LinePartRule | app/config/config.go:422-432 | a line contributes nothing (`Script.LinePart`) exactly when its trimmed text is shorter than two bytes (empty or one ASCII character), or, in the file form, starts with `#`; a kept part is non-empty and starts as the trimmed line does |
| Script.ScriptCommand | app/config/config.go:378-403 | `getScriptCommand` is empty for no script, otherwise `CommandForm`: the `sh -c` form of the sorted environment and the kept parts |
| Script.CollectParts | app/config/config.go:389-400 | the loop collects the kept part of each line, in order |
| Script.PartsStep | app/config/config.go:391-399 | the parts of the remaining lines are the current line's part followed by the parts of the rest |
| Script.KeptPartText | app/config/config.go:392-398 | a kept part is the whole trimmed line when it has no `#` or starts with one, and otherwise the line cut before its first `#` with the white space before it dropped; it is a prefix of the trimmed line followed only by white space up to that `#` |
| Script.TrimmedPart | app/config/config.go:392-398 | the loop body computes `LinePart`, the part stated by `Script.LinePartRule` and `Script.KeptPartText` |
| Script.ScriptFile | app/config/config.go:407-438 | `getScriptFile` is `FileForm`: the header, one `export` line per sorted variable, and the kept lines |
| Script.WriteExports | app/config/config.go:415-419 | appends one `export` line per variable |
| Script.WriteLines | app/config/config.go:422-435 | appends each kept line with a newline |
| Script.GetScript | app/config/config.go:363-374 | no script gives nothing; a multi-line script gives only the file; a one-line script gives only the command |
| Templates.Forms | app/runner/runner.go:251-256 | the three spellings of a variable, each longer than its name |
| Templates.AbsentByChar | app/runner/runner.go:253-255 | a pattern holding a character the text lacks does not occur in it |
| Templates.ApplyAbsent | app/runner/runner.go:251-257 | substituting a variable (`Templates.Apply`) none of whose forms occurs changes nothing |
| Templates.ApplyAbsentByChar | app/runner/runner.go:251-257 | substituting a variable whose name holds a character the text lacks changes nothing |
| Templates.NoSigilUnchanged | app/runner/runner.go:250-271 | text with no `$` and no `{` is unchanged by `applyTemplates` |
| Templates.SigilFree | app/runner/runner.go:251-257 | no form occurs in text without `$` and `{` |
| Templates.NoPlaceholderUnchanged | app/runner/runner.go:250-271 | text containing no form of any of the five variables is unchanged by `Templates.ApplyTemplates` |
| Templates.WholePlaceholder | app/runner/runner.go:253-255 | a text that is exactly a form becomes the value |
| Templates.ErrorPlaceholder | app/runner/runner.go:264-268 | `$SPOT_ERROR` becomes the error's text, or the empty string without an error |
| Templates.LastStep | app/runner/runner.go:264-268 | the last substitution turns `$SPOT_ERROR` into the value |
| Templates.CopyExample | app/runner/runner.go:250-271 | `copy to ${SPOT_REMOTE_HOST}/$SPOT_TASK` on host `h1` in task `deploy` becomes `copy to h1/deploy` |
| Templates.ApplyChain | app/runner/runner.go:251-257 | one variable's substitution is the three replacements in order |
| Runner.KindOf | app/runner/runner.go:159-200 | dispatch order: a command is a script exactly when it has one; a copy exactly when it has no script and both copy paths; a sync, delete or wait exactly when its own field is set and every earlier branch fails; and unknown exactly when nothing is set |
| Runner.Truncate | app/runner/runner.go:194-195 | `Duration.Truncate` rounds toward zero to a multiple and leaves the value alone for a non-positive multiple |
| Runner.RoundUp | app/runner/runner.go:194-195 | rounding a negative duration toward zero gives a multiple within one step |
| Runner.RoundDown | app/runner/runner.go:194-195 | rounding a non-negative duration down gives a multiple within one step |
| Runner.CheckInterval | app/runner/runner.go:211-214 | a zero interval becomes five seconds, any other is kept |
| Runner.Wait | app/runner/runner.go:207-232 | a zero timeout succeeds at once; otherwise the result is the poll of the command at the check interval |
| Runner.Wrap | app/runner/runner.go:164-197 | success gives no error, and a failure is prefixed with the operation and host |
| Runner.ExecCommand | app/runner/runner.go:158-203 | `execCommand` computes `ExecSpec`: the dispatch and the executor call it makes |
| Runner.DetailsIgnoreOutcome | app/runner/runner.go:163-200 | the details depend only on the command, not on the executor's outcome, and exist for every known kind |
| Runner.UnknownCommand | app/runner/runner.go:199-200 | a command with nothing set gives `unknown command "N"` and no details |
| Runner.ScriptShadowsOthers | app/runner/runner.go:160 | with a script set, the copy, sync, delete and wait fields make no difference |
| Runner.WaitRules | app/runner/runner.go:190-198 | a wait with zero timeout succeeds; with a zero interval the poll runs every five seconds and its failure is "wait failed on H" |
| Runner.ContainsFold | app/runner/runner.go:90-97 | true exactly when some entry equals the name ignoring ASCII case |
| Runner.SkippedRule | app/runner/runner.go:107-116 | a command is skipped (`Runner.Skipped`) exactly when it is in `skip`, or `only` or `no_auto` applies and it is not in `only` |
| Runner.EqualFoldSymmetric | app/runner/runner.go:92 | case-insensitive equality (`Text.EqualFold`) is symmetric |
| Runner.EqualFoldTransitive | app/runner/runner.go:92 | case-insensitive equality is transitive |
| Runner.ContainsFoldCase | app/runner/runner.go:90-97 | membership ignores the case of the name looked up |
| Runner.SkippedIgnoresCase | app/runner/runner.go:107-116 | skipping does not depend on the case of the command name |
| Runner.EligibleMembers | app/runner/runner.go:106-116 | the commands run are the non-skipped ones, in increasing order |
| Runner.FirstFatal | app/runner/runner.go:124-128 | the first non-skipped failing command without `ignore_errors` |
| Runner.Succeeded | app/runner/runner.go:134-137 | the number of successful commands in a range is at most its length |
| Runner.RunTaskOnHost | app/runner/runner.go:89-141 | `runTaskOnHost` returns the count and error of the reference outcome, and runs the commands it lists |
| Runner.RunFromReference | app/runner/runner.go:105-140 | the loop's result (`Runner.RunFrom`) is the successes before the first fatal failure and that failure's wrapped error |
| Runner.RunFromStep | app/runner/runner.go:106-137 | a step past a non-fatal command adds one exactly for a success |
| Runner.SucceededFront | app/runner/runner.go:134-137 | counting successes from the front |
| Runner.HostOutcome | app/runner/runner.go:99-140 | `HostSpec`: a connect failure gives 0 and "can't connect to H"; otherwise the count is the successes before the first fatal failure, which alone gives an error |
| Runner.ExecutedOrder | app/runner/runner.go:106-128 | the commands run are the non-skipped ones up to and including the first fatal one, in order |
| Runner.Run | app/runner/runner.go:47-57 | `Run` resolves the task and then the target |
| Runner.RunEarlyExit | app/runner/runner.go:47-57 | `Run` (`Runner.StartSpec`) aborts with zero statistics exactly when the task or the target cannot be resolved, with the task's error first; otherwise it goes on with the resolved task and hosts |

Proof steps and modelling devices have no row. These include:
- `Inventory.PrependTwice`, `Script.RemoveOne` and `Runner.MultipleMod`;
- `Playbook.Restrict`, `Script.OptionSeq` and `Runner.Errors`, whose meaning is stated by `Playbook.TaskEnvironment`, `Script.KeptPartText` and `Runner.HostOutcome`;
- the steps of `Templates.CopyExample`: `Templates.HostStep`, `Templates.LaterFormsAbsent`, `Templates.FirstFormReplaced`, `Templates.TaskStep` and `Templates.SecondFormReplaced`, whose general forms are `Templates.ApplyChain` and `Text.ReplaceAllStep`.

## Left out

- Reading the inventory file, the HTTP request (with its ten-second timeout), IP address parsing, and every executor operation. These are oracles: a read gives text or an error, and a request gives a failure or a status and a body. A failure of `io.ReadAll` while reading the text (app/config/config.go:316-319) is therefore not modelled.
- The bounded-concurrency fan-out over hosts in `Run`, the aggregation of `ProcStats`, and the `on_error` hook (app/runner/runner.go:60-85). `Run` is modelled up to the launch of the hosts.
- Runner.Wait: the ticker loop of `wait` (app/runner/runner.go:215-231), including cancellation and the "timeout exceeded" error, is not modelled. One `Poll` call to the executor stands for the whole loop. A negative interval or timeout makes `time.NewTicker` panic (app/runner/runner.go:215, 217); the model gives the poll's outcome there instead.
- Coloured output, logging, and the elapsed time printed per command.
- The deep copy in `PlayBook.Task` (app/config/config.go:137-141): the model works on values, so the copy cannot fail and the stored playbook cannot be changed.
- `Text.EqualFold` folds ASCII letters only; `strings.EqualFold` also folds Unicode.
- `%q` in error messages is written as plain double quotes, without Go's escaping.
- The details string of `execCommand` is modelled as the `Runner.Details` datatype, not as formatted text.
- app/runner/runner.go:162 passes both results of `GetScript` into `applyTemplates`, which takes one string. The model passes the command string, which is empty for a multi-line script.
- app/runner/runner.go:65 passes a destination where `runTaskOnHost` expects a host string. The model takes the host string.
- Templates.ErrorPlaceholder: requires that the error text contains no `{`. Otherwise the later `{SPOT_ERROR}` replacement could apply to text that the earlier replacements produced.
- Templates.CopyExample and the lemmas it uses are about one concrete template. The general statements are `Templates.NoPlaceholderUnchanged`, `Templates.ApplyChain` and `Text.ReplaceAllStep`.
- The concrete inventory `[web]`, `host1:2022 deploy`, `host2`, `[db]`, `host3` read for group `web` is not stated as its own lemma. The general statements cover it: `Inventory.ParseIsFilterThenParse`, `Inventory.SelectedMembers`, `Inventory.HostLineRoundTrip` and `Inventory.HostLineDefaults`.
- Strings are sequences of Unicode characters, not bytes. Go's byte length is `Text.Utf8Len`. Where the code compares it with 2 (app/config/config.go:393, 424), the model tests the equivalent `Text.ShorterThanTwoBytes` (proved equal by `Text.ShortUtf8`). `strings.Index` gives a byte offset and the model a character offset, but both cut off the same text before the `#`. Elsewhere only empty strings or ASCII delimiters are measured, where characters and bytes agree.
