# backup.py in Dafny

`backup.py` is a small backup orchestrator. It reads a JSON configuration listing
source directories and one target directory. It checks that every source is
readable and that no two sources share an identifier (the last path component,
which names the destination subdirectory). If the target is missing, it asks
before creating it. It checks that the target is writable, asks `Proceed?`,
and then runs `rsync` once per source.

This project models that logic. Filesystem probes, `makedirs`, the parsed JSON
document and the user's typed answers are parameters. The `du` and `rsync`
processes are modelled by the argument vectors they would receive.

Modules:

- `Wrappers`: `Option` and `Result`.
- `Paths`: `trim_trailing_slash`, `os.path.basename`, `str.strip()`, `os.path.join` and `str.join`.
- `Json`: the document `json.load` returns. Lookup and key listing follow
  Python dict semantics: for a repeated key the last value wins, and each key
  is listed once, in the order of its first occurrence.
- `Config`: `makelist`, `getpath`, `getexclude` and the schema check of
  `readconfig`, as functions. Every Python exception on this path becomes a
  `ConfigError`.
- `Registry`: the class-level `identifiers` dict and `padding` of `Source`, as a
  class. It holds ghost histories of what was registered, and `Valid()` ties the
  dict and the padding to those histories.
- `Entities`: the `Source` class (constructor, `exclude`, `err`, the `du`
  argument loop), the `Target` value, the `rsync` argument loop, and the
  `size` cache (see Findings).
- `Loader`: the `readconfig` loop, which builds `Source` objects in order on a
  shared registry.
- `Orchestrator`: `confirm` and `main`. `Run` returns an `Outcome`: `Exit1`,
  `Exit3`, or `Done` with the rsync argument vectors in the order they run.

Quirks of the code that the model keeps:

- `--autoconfirm` is parsed but never handed to `confirm` (backup.py:109,
  backup.py:213), so both gates always prompt.
- An object source entry without `"exclude"` raises a KeyError in `getexclude`
  (backup.py:152), so it is a configuration failure, not an empty exclusion list.
- The registry stores the raw path, before the trailing slash is trimmed
  (backup.py:97).
- `size` never caches (backup.py:58, backup.py:63); see Findings.

## Model

| member | source | states |
|---|---|---|
| `Paths.TrimTrailingSlash` | backup.py:29-32 | The result is a prefix of the input. It is exactly one character shorter when the input ends in `/` and is the input itself otherwise. |
| `Paths.DoubleSlashKeepsOne` | backup.py:29-32 | Only one slash is trimmed: `s + "//"` becomes `s + "/"`, whose identifier is empty. |
| `Paths.BasenameSpec` | backup.py:92 | The identifier contains no `/` and is a suffix of the path. It is the whole path or is preceded by a `/`, so it is the text after the last `/`. |
| `Paths.BasenameAfterLastSlash` | backup.py:92 | If index `i` holds the last `/`, the identifier is `p[i+1..]`. |
| `Paths.JoinPathSpec` | backup.py:115 | `os.path.join(a, b)` is `b` when `b` starts with `/`. Otherwise it is `a` followed by `b`, with one `/` inserted exactly when `a` is non-empty and does not already end in `/`. |
| `Paths.IdnIgnoresOneTrailingSlash` | backup.py:91-92 | A path with one trailing slash has the same identifier as the path without it. |
| `Paths.SpaceRunEnd` | backup.py:137 | From index `i`, the result is the end of a run of whitespace, and the next character, if any, is not whitespace. |
| `Paths.SpaceRunStart` | backup.py:137 | Up to index `j`, the result is the start of a run of whitespace, and the character before it, if any, is not whitespace. |
| `Paths.StripLeft` | backup.py:137 | Only whitespace is removed from the front, and the result does not start with whitespace. |
| `Paths.StripRight` | backup.py:137 | Only whitespace is removed from the back, and the result does not end with whitespace. |
| `Paths.StripSlice` | backup.py:137 | The stripped target path is a slice of the input. Everything cut from either end is whitespace, and the slice's own ends are not. |
| `Paths.StripIdempotent` | backup.py:137 | Stripping twice is stripping once. |
| `Json.Get` | backup.py:146 | `dict[key]` succeeds exactly when some member has that key. It returns the value of the last member with that key. |
| `Json.Keys` | backup.py:160 | `dict.keys()` lists each key present in the document exactly once. |
| `Json.FirstIndex` | backup.py:167 | The position of a key's first occurrence among an object's members, or the member count when the key is absent. |
| `Json.KeysInFirstOrder` | backup.py:167 | `dict.keys()` lists the keys in insertion order: a key listed earlier first occurs earlier in the document. |
| `Json.TwoKeysAreThese` | backup.py:160-162 | Two keys, both `sources` and `target` present, means there is no third key. |
| `Config.Iterate` | backup.py:165-167 | A Python `for` loop over a list visits its items, in order. Over a dict it visits each key of the document exactly once, as strings, in the order of first occurrence. Over a string it visits its one-character strings, in order. Over `None`, a number or a boolean it raises a TypeError. |
| `Config.AsStrings` | backup.py:167-168 | The exclusion values become strings, one for one and in order, or fail when any value is not a string. |
| `Config.BareStringEntry` | backup.py:144-152 | A bare string entry has that string as its path and no exclusions. |
| `Config.ObjectEntrySingleExclude` | backup.py:139-152 | An object entry whose `exclude` is one string has `path = entry["path"]` and exactly that one pattern. |
| `Config.ObjectEntryExcludeList` | backup.py:139-152 | An object entry whose `exclude` is a list of strings keeps the list unchanged and in order. |
| `Config.ObjectEntryExcludeDict` | backup.py:149-168 | An object entry whose `exclude` is an object has exactly that object's keys as patterns, each once, in the order of first occurrence. That order is the order of the `--exclude` pairs in the du and rsync vectors. |
| `Config.ObjectEntryWithoutExclude` | backup.py:152 | An object entry without an `exclude` key is a configuration failure (the KeyError). |
| `Config.EntriesSucceedIff` | backup.py:164-169 | The sources list normalises exactly when every entry does. The result then has one entry per item, in order. |
| `Config.EntriesFailAt` | backup.py:164-169 | The first failing entry decides the error of the whole list. |
| `Config.EntriesExtend` | backup.py:164-169 | Each successful entry extends the normalised prefix by one. |
| `Config.NormaliseAccepts` | backup.py:155-172 | A configuration loads exactly when the document is an object with exactly two keys, `sources` is a list, `target` is a string, and every entry normalises. The keys are then exactly `sources` and `target`. |
| `Config.SchemaRejects` | backup.py:160-162 | A document with a key count other than two, or without `target`, is refused. |
| `Registry.Registry.constructor` | backup.py:44-45 | At process start the dict is empty and the padding is 0. |
| `Registry.Registry.UpdatePadding` | backup.py:65-68 | The padding becomes `(3*len)/2` of the path when that is larger, and is unchanged otherwise. The dict is unchanged. |
| `Registry.Registry.Register` | backup.py:95-98 | For a new identifier, `unique` is true and the identifier maps to the raw path. For a known one, `unique` is false and the dict is unchanged. Either way no other entry changes, the identifier is registered afterwards, and the padding is unchanged. |
| `Registry.FirstSeenDomain` | backup.py:96-97 | An identifier is in the registry exactly when some source registered it. |
| `Registry.FirstSeenAppend` | backup.py:96 | An identifier is still new after more registrations exactly when it was new before and none of them used it. |
| `Registry.FirstSeenValue` | backup.py:96-97 | The first registration of an identifier is the path stored for it. |
| `Registry.FirstSeenGrows` | backup.py:96-97 | Later registrations never change or remove an entry. |
| `Registry.MaxPaddingBound` | backup.py:65-68 | The padding is at least `(3*len)/2` of every path seen. |
| `Registry.MaxPaddingAttained` | backup.py:65-68 | The padding is 0 or equals `(3*len)/2` of some path seen, so it is exactly the maximum. |
| `Registry.MaxPaddingMonotone` | backup.py:65-68 | The padding never decreases as more sources are constructed. |
| `Entities.Source.constructor` | backup.py:89-98 | The path has its trailing slash trimmed, and the identifier is its basename. The exclusion list starts empty. The padding is widened with the trimmed path, and the identifier is registered with the raw string under the `Register` rule. |
| `Entities.Source.Exclude` | backup.py:87-88 | Appends one pattern to the exclusions. |
| `Entities.Source.Err` | backup.py:50-56 | The result is `""` exactly when the source is readable and unique. Otherwise it is `not readable`, or `<idn> conflicts with <first raw path>`, or both in that order joined by `,`. Both checks always run. |
| `Entities.Source.SizeArgs` | backup.py:59-61 | The du vector is `du -sh path` followed by one `--exclude path/pattern` pair per pattern, in order. |
| `Entities.ExcludeFlagsAt` | backup.py:60-61 | The exclusion flags are one `--exclude`, `base/pattern` pair per pattern, each pattern in its place. |
| `Entities.DuArgvShape` | backup.py:59-61 | The du vector has length `3 + 2*n` and the stated contents at every index. |
| `Entities.RsyncArgvShape` | backup.py:130-133 | The rsync vector is the seven fixed flags, then `--exclude idn/pattern` per pattern in order, then source path and target root. Its length is `9 + 2*n`. |
| `Entities.Rsync` | backup.py:127-134 | The loop builds exactly that rsync vector for the target and source. |
| `Entities.ShowSourceFailsOnShortPaths` | backup.py:125 | When every trimmed source path has at most 2 characters, `Source.padding` is at most 3. The size column width `padding-4` is then negative, so `showSource` cannot format an existing destination. |
| `Entities.ShowSourceFailsForDot` | backup.py:125 | For the single source `.`, the padding is 1, and an existing destination cannot be shown. |
| `Entities.SizeColumnWidthFixed` | backup.py:125 | Corrected width: never negative, and equal to `padding-4` whenever that is a valid width. |
| `Entities.NewTargetStrips` | backup.py:136-137 | A target path has no surrounding whitespace, and building a target from it again gives the same target. |
| `Entities.SizeAsWrittenNeverCaches` | backup.py:57-64 | As written, the cached value is never found. Every call runs du again and returns du's latest output. |
| `Entities.SizeAsWrittenNotIdempotent` | backup.py:58-63 | As written, two queries on a fresh source give different sizes when du's output changes in between. |
| `Entities.SizeMemo` | backup.py:57-64 | Corrected cache: du runs exactly when no size is stored, and the stored size is returned afterwards. |
| `Entities.SizeMemoIdempotent` | backup.py:57-64 | With the corrected cache, a second query returns the first answer without running du. |
| `Loader.AddExcludes` | backup.py:167-168 | `source.exclude` is applied to each pattern in order. The result equals the normalised exclusion list, or is the failure when a pattern is not a string. |
| `Loader.LoadSource` | backup.py:165-169 | One loop iteration builds a Source from the entry's path, registers it and adds its exclusions. It fails exactly as the entry's normalisation fails. |
| `Loader.LoadNext` | backup.py:165-169 | One step keeps the sources in step with the normalised entries and the registry history. |
| `Loader.LoadSources` | backup.py:164-169 | The loop builds one source per entry, in order. A source is unique exactly when its identifier was not registered before and no earlier entry shares it. The registry history and the padding paths grow by exactly these sources. |
| `Loader.ReadConfig` | backup.py:155-172 | Loading succeeds exactly when normalisation does, with the same error. On success the sources match the entries and the target is the stripped `target` string. |
| `Loader.FirstRegisteredWins` | backup.py:55 | Every identifier built is registered. Its stored path is that of the first source with that identifier, which is the unique one, so every later conflict message names that path. |
| `Orchestrator.Confirm` | backup.py:34-41 | The gate proceeds only on the exact answer `y` or when skipped. Any other line aborts (exit 3), and end of input is an error. |
| `Orchestrator.SyncsShape` | backup.py:130-133 | Each configured rsync call has the fixed flags, the patterns under the identifier, then the trimmed source path and the stripped target. |
| `Orchestrator.CheckSources` | backup.py:196-198 | The sanity loop passes exactly when every source's `err()` is empty, that is, when each source is readable and unique. |
| `Orchestrator.SyncAll` | backup.py:214-215 | One rsync per source, in configuration order, whatever each returns. |
| `Orchestrator.SaneFromBuilt` | backup.py:196-198 | Sources built on a fresh registry are all sane exactly when every entry is readable and no earlier entry shares its identifier. |
| `Orchestrator.SyncsAgree` | backup.py:214-215 | The rsync calls for the loaded objects are those computed from the configuration. |
| `Orchestrator.Load` | backup.py:191 | `readconfig` on a fresh registry succeeds exactly when the document normalises, and its sources are sane exactly when the configuration is. It returns the target built from the stripped `target` string, `Source.padding` as the widest padding of the trimmed source paths, and each source's identifier as the basename of its trimmed path. |
| `Orchestrator.Prepare` | backup.py:191-198 | Reaching the target step is possible exactly when the configuration loads and every source is sane. Then the target, the padding and the identifiers are those of the configuration. |
| `Orchestrator.ShowDestinations` | backup.py:208-210 | The `showSource` loop completes exactly when no source's destination `os.path.join(target, idn)` both exists and gets a size column of negative width; otherwise it stops with an error. |
| `Orchestrator.Run` | backup.py:189-216 | Any source error gives exit 1 with no creation attempt. `makedirs` is attempted only for a missing target after a `y`. A non-`y` answer at either gate gives exit 3. When the target is ready and writable, some destination exists and `Source.padding` is below 4, `showSource` raises and the run exits 1 before `Proceed?`. `Done` happens exactly when the target is ready and writable, every destination could be shown, and `Proceed?` got `y`. Then `Target.sanity` holds, as the assertion at backup.py:206 claims, and rsync runs once per source in configuration order. |

## Left out

- Terminal output (`Color`, `show`, the text `showSource` writes, the progress messages) is left out because it is presentation only. `showSource` is kept for the one way it can end the run, the format error of its size column (see Findings). `os.path.exists` on each destination is the `destExists` parameter of `Run`. The `du` calls made while printing are assumed to succeed; a failing `du` there would end the run with status 1.
- Running `du` and `rsync` and parsing du's output are left out because they are external processes. The model gives only the argument vectors, and rsync's return code is never consulted.
- `os.access`, `os.path.exists` and `os.makedirs` are oracle parameters of `Run`. The target's writability is one value, the same before and after creation.
- The `assert target.sanity()` at backup.py:206 is taken to hold. Nothing else acts on the filesystem between the probes.
- `json.load` and opening the file are left out. A document that cannot be read or parsed is `None` and gives exit 1. JSON numbers are integers only, since a number is an error on every path that meets one.
- `getargs`, argparse and `expanduser`/`realpath`/`normpath` are left out because they are command-line and OS path resolution. `--autoconfirm` is a parameter of `Run` that, as in the source, is never used.
- `input()` is the answers sequence. End of input is the EOFError, which ends the run with status 1.
- `Orchestrator.Run`: a list exclusion holding a non-string is refused while loading. In Python it fails later, but always with status 1 before any prompt, `makedirs` or rsync. The outcome is therefore the same, but the model does not show where the failure happens.
- `Config.AsStrings`, `Loader.AddExcludes`, `Loader.LoadSource`, `Loader.ReadConfig`: these refuse a non-string exclusion pattern while loading. `Source.exclude` appends any value (backup.py:88). Python first fails on such a value when `show()` calls `size()` on a sane source and the du argument building adds a string to it (backup.py:61, backup.py:78-79). For a source that is not sane it fails at the sanity exit (backup.py:197-198). The model does not keep non-string patterns in a Source.
- `Registry.Registry.UpdatePadding`: `int(len * 1.5)` is modelled as the exact integer `(3*len)/2`, without floating point.
- `Entities.Source.Err`: the readability probe is a boolean argument, not a filesystem query.

## Findings

| source | as written | input that shows it | evidently intended | confidence | as-written member | corrected member |
|---|---|---|---|---|---|---|
| backup.py:58-63 | `size` tests `hasattr(self, '__size')`, but `self.__size = …` inside class `Source` stores the attribute `_Source__size`. The test never succeeds and du runs on every call. | Two `size()` calls on one source while du's output changes from `4.0K` to `8.0K` return `4.0K`, then `8.0K`. | du runs once per source, and later calls return the stored size. | high, not executed | `Entities.SizeAsWrittenNotIdempotent` | `Entities.SizeMemoIdempotent` |
| backup.py:125 | `showSource` formats du's size with width `Source.padding-4`. When every trimmed source path has at most 2 characters the padding is at most 3, the width is negative, and `str.format` raises ValueError. | `{"sources": ["."], "target": "/backup"}` with `/backup/.` existing, which it does whenever `/backup` is a directory. The padding is 1 and the width -3, so the run exits 1 before `Proceed?`. | A size column of non-negative width, for example `max(padding-4, 0)`. | high, not executed | `Entities.ShowSourceFailsForDot` | `Entities.SizeColumnWidthFixed` |

`Orchestrator.Run` models the program as written, so it keeps the size-column width `padding-4` and exits 1 where the program raises. The corrected width `Entities.SizeColumnWidthFixed` is proved to be a valid width that agrees with `padding-4` wherever that one is valid.
