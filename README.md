# kconf-cli core in Dafny

kconf-cli is a small command-line tool for kubeconfig files. This project
models its core: the in-memory kubeconfig document and the operations on it.
The document holds three ordered lists, `clusters`, `users` and `contexts`, a
`current-context`, and other top-level keys that no operation touches. Each
context names one cluster and one user.

- `add_context` merges a bundle of one cluster, one user and one context. A new
  name is appended; an existing name is replaced in place once the user
  confirms. A declined override stops the operation, and the writes already
  made stay in place.
- `delete_context` removes the first context of that name. It then removes the
  context's cluster and user if no remaining context uses them, and clears
  `current-context` if it named the deleted context.
- `export_contexts` builds a standalone document from some context names.
- The supporting logic:
  - the first-match name lookup and the yes/no answer rule;
  - how the kubeconfig path is chosen;
  - how a loaded file is normalised;
  - where the backup goes before a save;
  - how a shell startup file gets its `KUBECONFIG` line, and how the value of
    that variable is built.

Layout, one module per file:

- `options.dfy`: `Option`.
- `strings.dfy`: the parts of Python's `str` the tool uses, namely `strip`,
  `lower`, `split`, `join` and `splitlines`.
- `paths.dfy`: the parts of `pathlib` the tool uses, namely `/`, `name`,
  `suffix` and `with_suffix`.
- `documents.dfy`: the document's entries, lists and raw top-level values.
- `utils.dfy`: `find_item_by_name` and the answer rule of `prompt_for_override`.
- `operations.dfy`: the three operations.
  - Each is stated as a function on document values (`AddContextSpec`,
    `DeleteContextSpec`, `ExportContexts`), with lemmas about it.
  - The class `KubeConfig` holds the document as mutable fields. Its methods
    `AddContext` and `DeleteContext` are proved to produce exactly what those
    functions describe.
- `manager.dfy`: path resolution, the `_load` normalisation, the backup
  decision of `save`, and the `KubeConfigManager` class.
- `env_manager.dfy`: the shell-file update of `_set_unix_env` and the value
  joined by `set_persistent_kubeconfig`.

Some inputs come from outside the program, and the model takes each one as a
parameter:

- the interactive answer, as a responder function from (item type, name) to
  the typed response;
- the environment variables `KUBECONFIG` and `SHELL`;
- the home directory and the path separator;
- `Path.resolve`, as a function on strings;
- whether the kubeconfig file exists;
- the parsed file content, and the text of the shell startup file.

## Model

| member | source | states |
|---|---|---|
| Strings.Strip | kconf/utils.py:50 | `strip()` is `rstrip` of `lstrip`; StripShape, TrimStart and TrimEnd state what it removes, and StripOfPadded gives its result for every input split as whitespace, word, whitespace |
| Strings.Lower | kconf/utils.py:50 | `lower()` character by character, ASCII letters only; LowerShape states that each capital becomes its small letter and nothing else changes, LowerOfConcat and LowerKeepsSpace that it works per character and keeps whitespace |
| Strings.TrimStart | kconf/utils.py:50 | `lstrip`: the result is a suffix of the input, everything dropped is whitespace, and the result does not start with whitespace |
| Strings.TrimEnd | kconf/utils.py:50 | `rstrip`: the result is a prefix of the input, everything dropped is whitespace, and the result does not end with whitespace |
| Strings.StripOfPadded | kconf/utils.py:50 | `strip` of whitespace, a word that neither starts nor ends with whitespace, then whitespace, gives exactly the word |
| Strings.StripUnpadded | kconf/env_manager.py:55 | a non-empty line that neither starts nor ends with whitespace is its own `strip` |
| Strings.StripShape | kconf/utils.py:50 | `strip()` never lengthens its input, leaves no whitespace at either end and maps an all-whitespace string to "" |
| Strings.TrimEndKeepsPrefix | kconf/env_manager.py:55 | `rstrip()` never cuts into a prefix that ends with a non-whitespace character |
| Strings.LowerShape | kconf/utils.py:50 | `lower()` keeps the length, turns each ASCII capital into its small letter (code point plus 32), leaves no capital and changes no other character |
| Strings.FirstSegment | kconf/kubeconfig_manager.py:32 | the text before the first separator: a prefix of the input that holds no separator and is followed by one unless it is the whole input |
| Strings.FirstSegmentOf | kconf/kubeconfig_manager.py:32 | a separator-free text followed by a separator (or by nothing) is the first segment |
| Strings.SplitOn | kconf/kubeconfig_manager.py:32 | `split(sep)`: at least one part, the first part is the first segment, no part holds the separator, and joining the parts with the separator gives the input back |
| Strings.SplitOnCons | kconf/kubeconfig_manager.py:32 | splitting a segment, a separator and a tail gives the segment followed by the split of the tail |
| Strings.SplitOfJoin | kconf/env_manager.py:90 | joining separator-free parts and splitting again gives the parts back |
| Strings.JoinWith | kconf/env_manager.py:66 | `sep.join(parts)`: "" for no parts, otherwise it starts with the first part, followed by `sep` when there are more; JoinWithAppend, JoinEndsWithLast and, as the inverse of `split`, SplitOn and SplitOfJoin state the rest |
| Strings.JoinWithAppend | kconf/env_manager.py:66 | joining one more part adds the separator and that part at the end |
| Strings.JoinEndsWithLast | kconf/env_manager.py:90 | a join ends with its last part |
| Strings.LastSegment | kconf/env_manager.py:29 | `split('/')[-1]`: a suffix of the input that holds no separator and follows a separator unless it is the whole input |
| Strings.LineEnd | kconf/env_manager.py:51 | the first line break of the text, or its end: nothing before it is a break |
| Strings.SplitLines | kconf/env_manager.py:51 | `splitlines()` over Python's full set of line boundaries: no returned line holds a break, and the result is empty exactly when the text is; SplitLinesOfLine, SplitLinesAtBreak and SplitLinesAtCrLf fix the result on every input |
| Strings.LineEndOf | kconf/env_manager.py:51 | a break-free line followed by a break ends at that break |
| Strings.SplitLinesOfLine | kconf/env_manager.py:51 | a non-empty text without a break is a single line |
| Strings.SplitLinesAtBreak | kconf/env_manager.py:51 | a break-free line ended by a one-character break yields that line followed by the lines of the rest; a '\r' before '\n' is excluded here |
| Strings.SplitLinesAtCrLf | kconf/env_manager.py:51 | a break-free line ended by "\r\n" yields that line followed by the lines of the rest, so "\r\n" is one break |
| Strings.SplitLinesOfJoined | kconf/env_manager.py:51-66 | break-free lines, joined with "\n" and ended with "\n" as they are written, read back with `splitlines()` as the same lines |
| Paths.Join | kconf/kubeconfig_manager.py:36 | `dir / part`: `part` alone under the current directory; otherwise the result starts with `dir`, continues with a single '/' unless `dir` ends with one, and ends with `part` |
| Paths.Name | kconf/kubeconfig_manager.py:61 | the name of a path is everything after its last '/': a suffix holding no '/' that is the whole path or follows a '/'; "." has the empty name |
| Paths.RFind | kconf/kubeconfig_manager.py:61 | the index of the last dot of a name, or -1 when there is none |
| Paths.Suffix | kconf/kubeconfig_manager.py:61 | the suffix of a name is a final part of it |
| Paths.WithSuffix | kconf/kubeconfig_manager.py:61 | `with_suffix`: None (the ValueError) exactly when the name is empty; otherwise the directory part is kept and the result ends with the new suffix; WithExtendedSuffix gives the result when the suffix is extended |
| Paths.BackupPath | kconf/kubeconfig_manager.py:61 | `path.with_suffix(path.suffix + ".bak")`: None exactly when the name is empty; BackupPathAppendsBak states it is otherwise the path with ".bak" appended |
| Paths.WithExtendedSuffix | kconf/kubeconfig_manager.py:61 | for a path with a non-empty name, `with_suffix(suffix + ext)` is the path with `ext` appended |
| Paths.BackupPathAppendsBak | kconf/kubeconfig_manager.py:61 | the backup path is the path with ".bak" appended; a path with an empty name has none (`with_suffix` raises ValueError) |
| Utils.IndexOfName | kconf/utils.py:35-38 | the smallest index whose entry is named `name`, or -1 exactly when no entry has that name; entries without a name never match |
| Utils.IndexOfNameIs | kconf/utils.py:35-37 | an index whose entry has the name and that no earlier entry has is the one found |
| Utils.FindItemByName | kconf/utils.py:24-38 | the scan returns the first matching index and its entry, or (-1, None); the list is only read |
| Utils.IsAffirmative | kconf/utils.py:51 | the answer rule: the response lowercased and stripped is "y" or "yes"; AnswerRule and ConfirmingAnswers state which responses it accepts |
| Utils.PromptForOverride | kconf/utils.py:40-51 | the confirmation is the answer rule applied to the response the user types for (item type, name); IsAffirmative, AnswerRule and ConfirmingAnswers state the rule, and Confirms and KubeConfig.AddItem use it |
| Utils.AnswerRule | kconf/utils.py:50-51 | a response confirms exactly when, once lowercased and stripped, it is "y" or "yes"; whitespace around the word does not matter and the empty response declines |
| Utils.LowerIsYes | kconf/utils.py:50-51 | the words that lowercase to "y" are "y" and "Y"; those that lowercase to "yes" are the three letters y, e, s, each in either case |
| Utils.ConfirmingAnswers | kconf/utils.py:50-51 | a response confirms exactly when, after the whitespace around it, its word is "y" or "yes" in any mix of cases, so "Y", "YES" and "Yes" confirm |
| Operations.AddContextSpec | kconf/kubeconfig_operations.py:15-52 | the result and the lists `add_context` leaves; stated by AddContextStages, AbortIsFinal, AddContextIdempotent and AddContextKeepsNamesUnique, and met by KubeConfig.AddContext |
| Operations.ExtractBundle | kconf/kubeconfig_operations.py:24-30 | the bundle is read exactly when `clusters`, `users` and `contexts` are present and indexable; it is then the first cluster, the first user and the first context, each with a name |
| Operations.Merge | kconf/kubeconfig_operations.py:39-51 | one kind: fails exactly when the name exists and the override is declined; a new name is appended at the end; an existing one is replaced at its own index; every other entry stays in place |
| Operations.AbortIsFinal | kconf/kubeconfig_operations.py:38-48 | once a kind is declined, later kinds change nothing |
| Operations.AddContextStages | kconf/kubeconfig_operations.py:24-52 | a malformed bundle returns False and changes nothing; kinds run in the order cluster, user, context; a decline returns False and keeps the writes to earlier kinds (no rollback) with that kind and later ones untouched; otherwise all three are merged |
| Operations.MergeIdempotent | kconf/kubeconfig_operations.py:40-51 | with the override confirmed, merging an entry again changes nothing |
| Operations.AddContextIdempotent | kconf/kubeconfig_operations.py:15-52 | with every override confirmed, adding the same bundle twice gives the same outcome and lists as adding it once |
| Operations.MergeKeepsNamesUnique | kconf/kubeconfig_operations.py:40-51 | merging never creates a second entry with the same name |
| Operations.AddContextKeepsNamesUnique | kconf/kubeconfig_operations.py:32-52 | lists with unique names keep unique names through `add_context` |
| Operations.DeleteContextSpec | kconf/kubeconfig_operations.py:54-96 | the result and the document `delete_context` leaves; stated by DeleteContextRemovesOne, DeleteCascadeRule, DeleteCurrentContextRule, DeletePreservesIntegrity and DeletePreservesCurrentValid, and met by KubeConfig.DeleteContext |
| Operations.DeleteContextRemovesOne | kconf/kubeconfig_operations.py:63-72 | succeeds exactly when the context exists, and otherwise changes nothing; removes only the first context of that name, the others keep their order, and every other name keeps its count |
| Operations.RemoveAtShifts | kconf/kubeconfig_operations.py:72 | `pop(i)` keeps the entries before `i` and shifts the ones after it down by one |
| Operations.DeletedContextIsGone | kconf/kubeconfig_operations.py:63-72 | with unique context names, the deleted name can no longer be found |
| Operations.DeleteCascadeRule | kconf/kubeconfig_operations.py:74-91 | the cluster changes exactly when it is declared and no remaining context uses it, and then only its first entry is popped; the same holds for the user |
| Operations.DeleteCurrentContextRule | kconf/kubeconfig_operations.py:93-95 | `current-context` is cleared exactly when it named the deleted context, and is otherwise untouched |
| Operations.DeletePreservesIntegrity | kconf/kubeconfig_operations.py:68-91 | if every context named a declared cluster and user before the delete, every remaining context still does |
| Operations.DeletePreservesCurrentValid | kconf/kubeconfig_operations.py:63-96 | a current context that named an existing context still does after the delete, or is cleared |
| Operations.DeleteOnlyContextEmptiesDocument | kconf/kubeconfig_operations.py:63-96 | deleting the only context of a one-of-each document empties all three lists and clears the current context |
| Operations.ResolveContexts | kconf/kubeconfig_operations.py:109-120 | the resolved contexts are at most one per requested name; each is the first context carrying a requested name; there are none exactly when no requested name exists |
| Operations.ResolveContextsConcat | kconf/kubeconfig_operations.py:113-120 | names resolve one at a time, in request order: resolving a concatenation gives the concatenation of the results |
| Operations.FilterNamed | kconf/kubeconfig_operations.py:127-128 | the comprehension keeps exactly the entries whose name is in the set |
| Operations.FilterNamedConcat | kconf/kubeconfig_operations.py:127-128 | the comprehension keeps the source order: filtering a concatenation gives the concatenation of the results |
| Operations.ExportContexts | kconf/kubeconfig_operations.py:98-139 | the document `export_contexts` returns; stated by ExportShape, ExportCurrentIsFirstResolved, ExportSelfContained and Manager.ExportReloads |
| Operations.ExportShape | kconf/kubeconfig_operations.py:109-139 | None exactly when no requested name resolves; otherwise "v1", "Config", empty preferences, the resolved contexts, and exactly the source clusters and users those contexts name |
| Operations.ResolveFirst | kconf/kubeconfig_operations.py:113-120 | when the first resolvable requested name is at position `k`, the first resolved context carries that name |
| Operations.ExportCurrentIsFirstResolved | kconf/kubeconfig_operations.py:135 | the exported `current-context` is the first requested name that resolves |
| Operations.ExportSelfContained | kconf/kubeconfig_operations.py:109-139 | from a document with referential integrity, the export has referential integrity and its current context names one of its contexts |
| Operations.KubeConfig.SetList | kconf/kubeconfig_operations.py:45-51 | writing a list in place changes that list only |
| Operations.KubeConfig.AddItem | kconf/kubeconfig_operations.py:39-51 | one pass of the loop leaves exactly what `Merge` describes, and returns False on a decline |
| Operations.KubeConfig.AddContext | kconf/kubeconfig_operations.py:15-52 | the result and the new lists are those of the `add_context` specification; the other keys are unchanged |
| Operations.KubeConfig.DropUnused | kconf/kubeconfig_operations.py:77-91 | unless the name is still used, the first entry carrying it is popped, if there is one |
| Operations.KubeConfig.DeleteFrom | kconf/kubeconfig_operations.py:63-96 | find, pop, cascade and clear compute exactly the `delete_context` specification |
| Operations.KubeConfig.DeleteContext | kconf/kubeconfig_operations.py:54-96 | the result and the new document are those of the `delete_context` specification; the other keys are unchanged |
| Manager.ResolvePath | kconf/kubeconfig_manager.py:26-37 | an explicit path wins; otherwise a non-empty KUBECONFIG gives its first segment; otherwise `<home>/.kube/config` |
| Manager.ForceList | kconf/kubeconfig_manager.py:46-48 | one key ends up holding the list it had, or an empty list in place of a missing or non-list value; no other key changes |
| Manager.WithDefaults | kconf/kubeconfig_manager.py:49-52 | `apiVersion` becomes "v1" and `kind` becomes "Config" only when absent; present values are never overwritten |
| Manager.Normalized | kconf/kubeconfig_manager.py:42-53 | the normal form `_load` gives a parsed document; stated by NormalizedLists and NormalizedKeeps, and computed by Load |
| Manager.NormalizedLists | kconf/kubeconfig_manager.py:46-48 | after loading, `clusters`, `users` and `contexts` hold lists: the file's own, or empty ones |
| Manager.NormalizedKeeps | kconf/kubeconfig_manager.py:46-52 | loading adds only the three list keys and the two defaults, keeps every other key as it was, and sets the defaults only when absent |
| Manager.ForceListKeys | kconf/kubeconfig_manager.py:46-48 | the loop forces the three keys in turn |
| Manager.Load | kconf/kubeconfig_manager.py:42-53 | a missing or empty file loads as an empty mapping; the result is the normal form of the parsed document |
| Manager.ExportReloads | kconf/kubeconfig_manager.py:42-53 | loading a document that `export_contexts` produced gives back its lists and its current context |
| Manager.PlanBackup | kconf/kubeconfig_manager.py:60-61 | a backup is made only when the file exists, and goes to the path with ".bak" appended; a path with an empty name raises ValueError |
| Manager.KubeConfigManager.constructor | kconf/kubeconfig_manager.py:13-40 | the path is the resolved one, and the document is the loaded normal form, holding three lists |
| EnvManager.ShellName | kconf/env_manager.py:29 | the shell name is the text after the last '/' of SHELL, or the empty text when SHELL is unset |
| EnvManager.ShellConfigFor | kconf/env_manager.py:33-44 | only bash, zsh and fish are supported: bash writes `export KUBECONFIG="<v>"` to ".bashrc", zsh the same to ".zshrc", fish `set -x KUBECONFIG "<v>"` to ".config/fish/config.fish"; each command is recognised as a KUBECONFIG line |
| EnvManager.KubeconfigCommand | kconf/env_manager.py:34-36 | the command is the lead, a '"', the value and a closing '"', and is recognised as a KUBECONFIG line |
| EnvManager.QuotedLayout | kconf/env_manager.py:34-36 | where the lead, the two quotes and the value sit in `lead"value"` |
| EnvManager.IsKubeconfigLine | kconf/env_manager.py:55 | the test of line 55: once stripped, the line starts with `export KUBECONFIG=` or `set -x KUBECONFIG`; IndentedLineRecognised states that any line made of whitespace, a prefix and any text passes, CommandRecognised that the written commands pass and BlankNotRecognised that the blank line does not |
| EnvManager.CommandRecognised | kconf/env_manager.py:34-55 | both commands, once stripped, start with one of the two prefixes the rewrite looks for |
| EnvManager.IndentedLineRecognised | kconf/env_manager.py:54-57 | a line of whitespace, then `export KUBECONFIG=` or `set -x KUBECONFIG`, then any text is recognised, so an indented user line is replaced too |
| EnvManager.CommandHasNoBreak | kconf/env_manager.py:34-36 | a command carries no line break whenever its value has none |
| EnvManager.BlankNotRecognised | kconf/env_manager.py:55-62 | the blank separator line is not a KUBECONFIG line |
| EnvManager.FirstMatch | kconf/env_manager.py:54-59 | the index of the first accepted line, with no earlier line accepted, or -1 when no line is accepted |
| EnvManager.Rewritten | kconf/env_manager.py:54-64 | only the first accepted line is replaced, with the count and all other lines unchanged; without one, "" and the command are appended after the unchanged lines |
| EnvManager.RewriteIdempotent | kconf/env_manager.py:54-64 | rewriting again with the same recognised command changes nothing |
| EnvManager.RewrittenHasNoBreaks | kconf/env_manager.py:54-64 | the rewrite brings in no line break |
| EnvManager.RewriteLines | kconf/env_manager.py:52-64 | the loop with its early exit and flag computes exactly the rewrite |
| EnvManager.FileText | kconf/env_manager.py:66 | the text written: it always ends with "\n", is "\n" for no lines and starts with the first line; SplitLinesOfJoined states that it reads back as the same lines |
| EnvManager.UnixEnvPlan | kconf/env_manager.py:27-66 | an unsupported shell writes nothing; otherwise the shell's startup file under home is written, and the text written is its lines (none when it does not exist) with the first KUBECONFIG line replaced by the shell's command, or a blank line and the command appended, joined with "\n" and ended by "\n" |
| EnvManager.SetUnixEnv | kconf/env_manager.py:27-70 | the steps of `_set_unix_env` give exactly the planned outcome and text |
| EnvManager.RewriteRoundTrip | kconf/env_manager.py:51-66 | writing the rewritten lines, reading them back with `splitlines()` and rewriting again gives the same lines |
| EnvManager.SetUnixEnvIdempotent | kconf/env_manager.py:51-66 | running the update on the text it wrote writes the same text again |
| EnvManager.KubeconfigValue | kconf/env_manager.py:90 | the resolved paths joined by the path separator: "" for no paths, otherwise it starts with the first resolved path; KubeconfigValueSplitsBack and PersistedKubeconfigSelectsFirst state what it reads back as |
| EnvManager.Resolved | kconf/env_manager.py:90 | each path is resolved, in the given order |
| EnvManager.KubeconfigValueSplitsBack | kconf/env_manager.py:90 | splitting the value on the separator gives back the resolved paths, in order, when none holds the separator |
| EnvManager.PersistedKubeconfigSelectsFirst | kconf/env_manager.py:90 | a later run with the persisted KUBECONFIG and no explicit path uses the first resolved file |

## Left out

- YAML parsing and dumping: a document is the parsed top-level mapping. A missing file, or one that parses to an empty or false value, is `None` to `Load`.
  - A file whose top level is not a mapping is not modelled.
  - The ValueError of unparsable YAML, and the `sys.exit` that follows it, are not modelled.
- File system effects: `exists` is a parameter. The backup copy, `mkdir`, reading and writing files, the OSError and IOError handlers and `sys.exit` are left out. The model states only the decisions: which path, whether to back up and to where, and what text to write.
- `input()` in `prompt_for_override` is interactive I/O, replaced by a responder parameter. Only the answer rule is modelled.
- `print` diagnostics are console output and carry no state.
- The Windows branch (`setx` through `subprocess`) and the `platform.system()` dispatch of `set_persistent_kubeconfig` call external programs and detect the OS.
- `Path.resolve`, `Path.home`, `os.environ` and `os.pathsep` are parameters.
- kconf/kube_tool.py is not part of this model. It is command-line wiring around the operations.
- Paths are strings already in normal form, with no trailing or repeated '/'. `pathlib`'s own normalisation is not modelled.
- Paths.Suffix: a name ending in a dot has no suffix, which is how `pathlib` behaves before Python 3.14.
- Strings.Lower: maps ASCII letters only. The answer rule compares with "y" and "yes", and no other character lowercases to those letters, so the rule is unaffected.
- Entries are values with an optional string `name`, an optional `context` link and opaque other content.
  - A non-string `name` is treated as no name. That is exact where the name is compared with a string key: the name given to `delete_context` or `export_contexts`, and a context's string reference to its cluster or user. It is not exact for `add_context`, whose key is the bundle item's own name (see Operations.ExtractBundle below).
  - An item that is not a mapping is not modelled.
  - Object identity is not modelled: the exported document shares its entries with the source in Python, and nothing mutates them afterwards.
- The uncaught KeyError and TypeError of `add_context` (a bundle item without a `name`), `delete_context` (a context without `context.cluster` or `context.user`) and `export_contexts` are preconditions (`ItemsNamed`, `Deletable`, `Exportable`). The model does not describe the crash.
  - For `export_contexts`, `Exportable` demands that every resolved context carries `context.cluster` and `context.user`, and that every cluster and user has a string `name`.
  - Operations.ExportContexts: `Exportable` also excludes a cluster or user whose `name` is null or not a string. Python does not fail on such an entry: the filter at kconf/kubeconfig_operations.py:127-128 only compares it with the referenced names. The model gives such an entry no name and cannot tell it from an entry with no `name` key, which does fail.
- Operations.ExtractBundle: `ItemsNamed` also excludes a bundle item whose `name` is null or not a string. Python raises nothing for such an item. It looks that value up with `find_item_by_name` (kconf/kubeconfig_operations.py:39-40), where null matches the first entry without a `name` (kconf/utils.py:36), and then prompts, replaces or appends as usual. The model gives such an item no name and cannot tell it from an item with no `name` key, which raises KeyError.
- Operations.DeleteContextSpec: `Deletable` excludes a context whose `context.cluster` or `context.user` is null or not a string. `ContextRef` holds strings only. Python compares and looks up such a value at kconf/kubeconfig_operations.py:68-86 without failing.
- Operations.ExtractBundle: a bundle value is indexable when it is a non-empty list or a non-empty string. Other indexable values, such as a mapping with the key 0, are treated as malformed.
- `current-context` is `Option<string>`, and the model does not distinguish the value None from an absent key. A non-string `current-context` is read as None.
- Operations.KubeConfig.DeleteContext: computes the new lists as values and assigns the fields once, instead of popping from the stored lists one at a time. The final state is the same.
