# Xwayback output discovery, Xwayland argument vector and wayback logging

Xwayback runs legacy X11 clients on a Wayland compositor. It starts
`wayback-compositor` and connects to it as a Wayland client. It learns the
compositor's outputs from `wl_output` and `zxdg_output_manager_v1` globals
and their events. It picks the output to size the X server by, which the
`WAYBACK_OUTPUT` environment variable can override. Finally it starts
Xwayland with a fixed set of flags followed by the user's arguments, minus
those its option table knows. All wayback executables share a small logging
facility.

The model is in seven modules:

- `Wrappers` (`wrappers.dfy`): the `Option` type. A C `NULL` is `None`.
- `CInts` (`c_ints.dfy`): `int32_t` and `uint32_t` values, the implicit
  conversion between them, and the decimal text `%d` produces, with its
  round trip.
- `Outputs` (`outputs.dfy`): the value-level specification of discovery.
  - The `struct xway_output` record.
  - The events the compositor delivers.
  - `Apply`, the effect of each listener callback on its record.
  - `Step` and `Replay`, the effect of one event and of a run of events on
    the client state: the manager binding, the list of outputs (head first)
    and `first_output`.
  - `Select`, the `WAYBACK_OUTPUT` scan.
  - Lemmas about the state these produce.
- `Discovery` (`discovery.dfy`): class `Xwayback` holds the fields that the
  C code updates in place. Its listeners, its dispatch loop over the queued
  events and its selection loop are methods. Each is proved to leave the
  state that `Outputs` specifies.
- `OptionFilter` (`option_filter.dfy`): the option table `OPTS`, the
  lookup, the filter `Forward` and its properties. The lookup and the
  filter are defined for any table.
- `XwaylandArgs` (`xwayland_args.dfy`) covers three things:
  - the argument vector: the builder writing into an array, its
    specification `XwaylandArgv`, and the capacity finding below;
  - the `"%dx%d"` geometry string;
  - the compositor's argument vector.
- `WaybackLog` (`wayback_log.dfy`): class `Logger` holds the module-global
  configuration. `DefaultLogFunc` is the default sink's decision: the line
  it writes, or nothing.

The record a listener receives is identified by its handle. A handle is the
record's creation ordinal, so the record with handle `h` sits at list
position `|outputs| - 1 - h`.

Behaviour of the code worth knowing:

- **No retroactive binding.** Binding the manager does not create
  xdg-output objects for outputs already in the list. Such outputs never
  receive name, description or logical geometry events. See
  `ManagerAfterOutputScenario`.
- **Newest-first selection.** The list is head-inserted, so the
  `WAYBACK_OUTPUT` scan visits outputs newest first. The scan keeps the last
  match in list order, which is the earliest-advertised matching output. See
  `SelectPicksEarliestMatch`.
- **Geometry not passed on.** The geometry string is computed but never put
  into Xwayland's arguments. `XwaylandArgv` does not depend on the outputs.
- **`optind` is assumed to be 1.** Options are scanned by `optparse`, which
  is not part of this model, and `optind` is read after it. The model assumes
  `optind` keeps its initial value, 1, where a lemma needs a value. The
  argument-array overrun does not depend on that assumption: it holds for
  every `optind >= 1` (`DisplayArgumentOverflowsAnyOptind`).

## Model

| member | source | states |
|---|---|---|
| CInts.ToU32 | xwayback/xwayback.c:95-96 | storing an `int32_t` event argument into a `uint32_t` field reduces it modulo 2^32, keeps non-negative values, and `AsI32` undoes it |
| CInts.AsI32 | xwayback/xwayback.c:443-447 | `%d` reads a `uint32_t` as the `int32_t` with the same bits: congruent modulo 2^32, equal below 2^31 |
| CInts.Decimal | xwayback/xwayback.c:375-377 | `%d` of a non-negative number is a non-empty digit string without a leading zero |
| CInts.DecimalRoundTrip | xwayback/xwayback.c:375-377 | the decimal text of a descriptor number reads back as that number |
| CInts.DecimalLength | xwayback/xwayback.c:372-377 | a number below 10^k has at most k digits |
| CInts.IntText | xwayback/xwayback.c:443-447 | the signed `%d` text is digits with an optional leading '-', and the '-' is there exactly for negative values |
| CInts.IntTextRoundTrip | xwayback/xwayback.c:443-447 | the signed `%d` text reads back as the integer |
| CInts.Int32TextFits | xwayback/xwayback.c:372-377 | the `%d` text of any `int32_t` is at most 11 characters, so the 64-byte buffers never truncate it |
| Outputs.NewOutput | xwayback/xwayback.c:189-193 | the `calloc`ed record: its handle and global name are set, it has no xdg-output object, and its strings are `NULL` and its numbers zero |
| Outputs.Writes | xwayback/xwayback.c:61-160 | only globals and `done` events write nothing; width and height are always written together, and only by `mode` and `logical_size`; the name comes only from an xdg-output event |
| Outputs.Apply | xwayback/xwayback.c:61-160 | each callback changes only its own fields (`Writes`) and never the record's identity or xdg-output object; geometry ignores `x`/`y`; both `done` events change nothing |
| Outputs.ModeIgnoresFlags | xwayback/xwayback.c:86-98 | the mode handler applies every mode, whatever its `flags` |
| Outputs.LastSizeWriterWins | xwayback/xwayback.c:86-98 | after a run of callbacks, width and height are those of the last `mode` or `logical_size` event |
| Outputs.SizeKeptWithoutWriter | xwayback/xwayback.c:130-138 | without a `mode` or `logical_size` event, width and height are unchanged |
| Outputs.Step | xwayback/xwayback.c:181-205 | one event keeps the registry well formed, adds at most one record, and never unbinds the manager |
| Outputs.ManagerBindLeavesRecords | xwayback/xwayback.c:201-204 | binding the manager leaves every existing record as it was |
| Outputs.Replay | xwayback/xwayback.c:404-409 | delivering the queued events keeps the registry well formed and never removes a record |
| Outputs.ReplayCounts | xwayback/xwayback.c:188-204 | there is one record per `wl_output` global, and the manager is bound exactly when its global was advertised |
| Outputs.ReplayDiscovers | xwayback/xwayback.c:188-200 | record `h` comes from the h-th `wl_output` global and carries its name; it has an xdg-output object exactly when the manager was advertised before that global |
| Outputs.StepOutputGlobal | xwayback/xwayback.c:188-200 | only a `wl_output` global adds a record: a fresh one at the head, with its global name, bound to xdg-output only when the manager already is |
| Outputs.RecordKeepsIdentity | xwayback/xwayback.c:61-205 | no event changes an existing record's global name or xdg-output object |
| Outputs.FirstIsFirstAdvertised | xwayback/xwayback.c:197-198 | without an override, `first_output` is the first-advertised output, and is set exactly when some output was advertised |
| Outputs.ManagerAfterOutputScenario | xwayback/xwayback.c:199-204 | an output advertised before the manager gets no xdg-output object, and its name event is lost |
| Outputs.ManagerBeforeOutputScenario | xwayback/xwayback.c:170-179 | an output advertised after the manager gets an xdg-output object and receives its name |
| Outputs.Matches | xwayback/xwayback.c:417-418 | the override matches when it equals the make, and a match always begins with the make |
| Outputs.LastMatch | xwayback/xwayback.c:414-420 | the position found matches the override and no later position does; `None` means nothing matches |
| Outputs.Select | xwayback/xwayback.c:411-421 | the scan changes neither the list nor the manager; when it changes `first_output`, the new one is a matching record |
| Outputs.SelectKeepsValid | xwayback/xwayback.c:411-426 | selection moves only `first_output`, and afterwards `first_output` is set exactly when the list is non-empty |
| Outputs.SelectPicksEarliestMatch | xwayback/xwayback.c:411-421 | when some output matches, the one selected matches and has the smallest handle among the matches |
| Outputs.SelectNoMatchKeepsFirst | xwayback/xwayback.c:411-421 | without a match, selection changes nothing |
| Discovery.Xwayback.constructor | xwayback/xwayback.c:404-405 | the initial state: an empty list, no `first_output`, no manager |
| Discovery.Xwayback.AddXdgOutput | xwayback/xwayback.c:170-179 | the record gets an xdg-output object; if it already has one, nothing changes |
| Discovery.Xwayback.HandleGlobal | xwayback/xwayback.c:181-205 | the new state is `Step` of the old one and the global |
| Discovery.Xwayback.OutputGeometry | xwayback/xwayback.c:61-84 | the new state is `Step` of the old one and the geometry event |
| Discovery.Xwayback.OutputMode | xwayback/xwayback.c:86-98 | the new state is `Step` of the old one and the mode event |
| Discovery.Xwayback.OutputScale | xwayback/xwayback.c:106-111 | the new state is `Step` of the old one and the scale event |
| Discovery.Xwayback.XdgLogicalPosition | xwayback/xwayback.c:120-128 | the new state is `Step` of the old one and the event, for a record with an xdg-output object |
| Discovery.Xwayback.XdgLogicalSize | xwayback/xwayback.c:130-138 | the new state is `Step` of the old one and the event, for a record with an xdg-output object |
| Discovery.Xwayback.XdgName | xwayback/xwayback.c:146-151 | the new state is `Step` of the old one and the event, for a record with an xdg-output object |
| Discovery.Xwayback.XdgDescription | xwayback/xwayback.c:153-160 | the new state is `Step` of the old one and the event, for a record with an xdg-output object |
| Discovery.Xwayback.Dispatch | xwayback/xwayback.c:113-168 | an event reaches the registry listener, or the listener of an object that exists; the new state is `Step` |
| Discovery.Xwayback.Roundtrips | xwayback/xwayback.c:406-409 | delivering the queued events in order leaves `Replay` of them |
| Discovery.Xwayback.SelectOutput | xwayback/xwayback.c:411-426 | the scan leaves `Select` of the old state, and reports whether `first_output` is set |
| Discovery.Xwayback.Discover | xwayback/xwayback.c:404-447 | after the round-trips and the scan, the result is `None` exactly when there are no outputs; otherwise it is the geometry of `first_output` |
| OptionFilter.FindOpt | xwayback/xwayback.c:455-463 | the lookup's result is an index of the table, or the table's length |
| OptionFilter.FindOptIsFirstMatch | xwayback/xwayback.c:455-463 | the lookup finds the first entry with the name, and returns the table's length exactly when no entry has it |
| OptionFilter.FirstMatchIsFindOpt | xwayback/xwayback.c:455-463 | an index with no earlier match that matches (or is the length) is the lookup's result |
| OptionFilter.FindOption | xwayback/xwayback.c:455-463 | the inner scan loop computes the lookup |
| OptionFilter.Forward | xwayback/xwayback.c:454-467 | the filter never lengthens the argument list |
| OptionFilter.ForwardedAreUnrecognised | xwayback/xwayback.c:464-466 | no forwarded token is a table entry |
| OptionFilter.ForwardIsSubsequence | xwayback/xwayback.c:454-467 | the forwarded tokens appear in their original order |
| OptionFilter.RecognisedIsDropped | xwayback/xwayback.c:457-461 | a list containing a table entry loses at least that token |
| OptionFilter.UnrecognisedAreKept | xwayback/xwayback.c:464-466 | without table entries, every token is forwarded as it is |
| OptionFilter.ForwardKeepsAllIff | xwayback/xwayback.c:454-467 | every token is forwarded exactly when none is a table entry |
| OptionFilter.ForwardStep | xwayback/xwayback.c:456-466 | one filter step: keep an unknown token; drop a known one, and also the next token when the entry takes an operand and one follows |
| OptionFilter.FindOptConcat | xwayback/xwayback.c:228-289 | looking up in a concatenated table searches the first part, then the second part offset by the first part's length |
| OptionFilter.FindOptByParts | xwayback/xwayback.c:228-289 | looking up in `OPTS` is looking up in its five parts in turn |
| OptionFilter.OptsAreDashed | xwayback/xwayback.c:228-289 | every table name starts with '-' |
| OptionFilter.UndashedIsNotRecognised | xwayback/xwayback.c:454-466 | a token not starting with '-', such as the display `:1`, is never a table entry |
| OptionFilter.RootlessIsEntry13 | xwayback/xwayback.c:251 | `-rootless` is entry 13 and takes no operand |
| OptionFilter.WmIsEntry15 | xwayback/xwayback.c:253 | `-wm` is entry 15 and takes an operand |
| OptionFilter.DepthIsEntry24 | xwayback/xwayback.c:264 | `-depth` is entry 24 and takes an operand |
| OptionFilter.FixedFlagsAreDropped | xwayback/xwayback.c:251-253 | a user's own `-rootless -wm 3` is dropped entirely |
| OptionFilter.XorgOptionIsDropped | xwayback/xwayback.c:264 | `-depth 24` is dropped together with its operand |
| OptionFilter.HyphenHostGrabIsEntry9 | xwayback/xwayback.c:247 | the entry `-host‐grab`, spelt with U+2010, is entry 9 |
| OptionFilter.AsciiHyphenPassesThrough | xwayback/xwayback.c:242-249 | the U+2010 spelling of `-host‐grab` is dropped, but the ASCII `-host-grab` reaches Xwayland |
| XwaylandArgs.XwaybackArgs | xwayback/xwayback.c:435-441 | the fixed flags are five strings |
| XwaylandArgs.Strings | xwayback/xwayback.c:450-469 | entry `i` is `Some` of string `i`: no `NULL` inside the vector |
| XwaylandArgs.StringsAppend | xwayback/xwayback.c:450-469 | the conversion distributes over concatenation |
| XwaylandArgs.XwaylandArgv | xwayback/xwayback.c:449-469 | the vector is the path, the five fixed flags, the forwarded arguments and a final `NULL`; its length is 7 plus the number forwarded |
| XwaylandArgs.DeclaredLength | xwayback/xwayback.c:450 | the declared array length is below `argc + 6` for every `optind >= 1` |
| XwaylandArgs.DeclaredLengthOverflow | xwayback/xwayback.c:450 | the vector is longer than the declared array exactly when at least `argc - optind` arguments are forwarded |
| XwaylandArgs.OverflowWhenNothingDropped | xwayback/xwayback.c:450-469 | with `optind == 1`, the declared array is overrun exactly when no user argument is a table entry, and then by one entry |
| XwaylandArgs.DisplayArgumentOverflowsAnyOptind | xwayback/xwayback.c:450-469 | `Xwayback :1` overruns the declared array whatever value `optind` has from 1 upwards |
| XwaylandArgs.ArgumentsCapacity | xwayback/xwayback.c:450 | the corrected length bounds the vector for every table and input |
| XwaylandArgs.UndashedArgumentsOverflow | xwayback/xwayback.c:450-469 | when no user argument starts with '-', the vector fills the corrected length exactly and overruns the declared one by one entry |
| XwaylandArgs.DisplayArgumentOverflows | xwayback/xwayback.c:450-469 | `Xwayback :1` writes eight entries into an array declared with seven |
| XwaylandArgs.NextIndex | xwayback/xwayback.c:454-463 | the filter loop always advances, by one or two tokens, and never past `argc` |
| XwaylandArgs.FilterAdvance | xwayback/xwayback.c:454-467 | one pass of the loop keeps the forwarded-so-far list plus the filter of the rest equal to the whole filter |
| XwaylandArgs.AppendOne | xwayback/xwayback.c:465 | `arguments[count++] = argv[i]` extends the filled prefix by that string |
| XwaylandArgs.AppendAll | xwayback/xwayback.c:452-453 | the copy loop appends the fixed flags after the filled prefix |
| XwaylandArgs.FilterOne | xwayback/xwayback.c:455-466 | one pass appends `argv[i]` exactly when it is not a table entry, and resumes at `NextIndex` |
| XwaylandArgs.AppendForwarded | xwayback/xwayback.c:454-467 | the loop appends exactly the filtered user arguments, in order |
| XwaylandArgs.BuildArguments | xwayback/xwayback.c:449-469 | in an array of the corrected length, every write is in bounds and the entries written are `XwaylandArgv` |
| XwaylandArgs.GeometryText | xwayback/xwayback.c:443-447 | the `"%dx%d"` text is at least three characters of digits, '-' and 'x', and starts with '-' exactly when the width reads as a negative `int32_t` |
| XwaylandArgs.GeometryFits | xwayback/xwayback.c:434-447 | the geometry text is at most 23 characters, so the 4096-byte buffer never truncates it |
| XwaylandArgs.IndexOfX | xwayback/xwayback.c:443-447 | the separator position found is the first 'x' |
| XwaylandArgs.GeometryRoundTrip | xwayback/xwayback.c:443-447 | width and height read back from the `"%dx%d"` text |
| XwaylandArgs.Resolution | xwayback/xwayback.c:443-447 | the geometry of `first_output` reads back as its width and height, and fits its buffer |
| XwaylandArgs.FullHdGeometry | xwayback/xwayback.c:443-447 | a 1920 by 1080 output gives `1920x1080` |
| XwaylandArgs.CompositorArgv | xwayback/xwayback.c:383 | the compositor's vector is its path, three descriptor numbers and `NULL` |
| XwaylandArgs.CompositorArgvDescriptors | xwayback/xwayback.c:372-383 | distinct descriptors give distinct arguments, and each reads back as its descriptor |
| WaybackLog.TableIndex | common/wayback_log.c:37 | the table index is below `LOG_LAST`; it is the level itself when in range, and `LOG_DEBUG` otherwise |
| WaybackLog.PrefixIsBracketedName | common/wayback_log.c:25-30 | each prefix is the level's enumerator name without `LOG_`, in brackets |
| WaybackLog.ColorCodes | common/wayback_log.c:18-23 | the colours are bold red, yellow, white and default; the DEBUG one carries a stray ']' |
| WaybackLog.Body | common/wayback_log.c:42-44 | the line body starts with the level's prefix and ends with the message, and adds five separator characters to prefix, context and message |
| WaybackLog.Line | common/wayback_log.c:39-49 | the line always ends with a newline; colour adds exactly the colour code and the reset |
| WaybackLog.ColorWrapsPlainLine | common/wayback_log.c:39-49 | a coloured line is the plain line with the colour before it and the reset before its newline |
| WaybackLog.PlainLineFields | common/wayback_log.c:42-49 | a plain line is the prefix, the context and the message at fixed offsets, then a newline |
| WaybackLog.Logger.constructor | common/wayback_log.c:14-16 | the initial state is `LOG_INFO`, `"wayback"`, colour on and the default sink |
| WaybackLog.Logger.Init | common/wayback_log.c:54-69 | sets the maximum; replaces context and sink only when given; turns colour off for a non-empty `NO_COLOR` or a non-terminal, and never turns it on |
| WaybackLog.ColorSuppressed | common/wayback_log.c:66-68 | colour is turned off when standard error is not a terminal; with a terminal and `NO_COLOR` unset or empty it stays on |
| WaybackLog.Logger.SetVerbosity | common/wayback_log.c:71-74 | changes only the maximum verbosity |
| WaybackLog.Logger.DefaultLogFunc | common/wayback_log.c:32-50 | writes nothing exactly when the level is above the maximum; otherwise writes the line for the clamped level |
| WaybackLog.Logger.Log | common/wayback_log.c:76-87 | hands the level and message unchanged to a custom sink, or produces the default sink's line |
| WaybackLog.MoreSevereAlsoWritten | common/wayback_log.c:34-35 | when a level is written, every more severe level is written too |
| WaybackLog.OutOfRangeNeedsOutOfRangeMax | common/wayback_log.c:34-37 | an out-of-range level is written only when the maximum is out of range too, and then exactly as `LOG_DEBUG` |

## Left out

- Sockets and processes: `socketpair`, `posix_spawn` and its file actions, `close`, `waitid` and the exit status. Only the two argument vectors are modelled.
- `getenv`, `setenv`, `unsetenv` and `access`: their values (`WAYBACK_OUTPUT`, `NO_COLOR`, the executable paths) are parameters. The failures for a missing executable are not modelled.
- The libwayland connection, `wl_registry_bind` and the `*_add_listener` calls are replaced by the ordered sequence of events they would deliver.
- Bind versions (3 for `wl_output`, 2 for the manager) are not modelled. Neither is the advertised version; it is carried in `Global` but unused.
- Global removal has no handler in the source and is not modelled.
- `refresh` is a `float` computed as `refresh / 1000`. The model records the integer millihertz argument instead.
- The `xwayback` struct comes from `malloc`, so its manager pointer starts uninitialised. The model starts it unbound.
- Outputs.Identified: the selection model requires every record to have make and model. The source passes possibly `NULL` strings to `asprintf` and `strcmp`, and that case is not modelled.
- `strdup_or_exit`, `asprintf_or_exit` and `calloc` are total copies and concatenations here; allocation failure and `free` are not modelled.
- Option parsing (`optparse`, the `-help`, `-version` and `-showconfig` output and exits) and the "Argument count is <= 0" message are not modelled. `optparse.h` is not part of this model. `optind` is assumed to be 1 where a lemma needs a value.
- The SIGSEGV handler is signal I/O and is not modelled.
- Logging: `vfprintf` formatting is an opaque message string, and `isatty` is a parameter. A custom sink is an identifier, and what it does is not modelled. Writes to standard error are returned as the line instead.
- XwaylandArgs.ArgumentsCapacity and XwaylandArgs.BuildArguments: use the corrected length `argc + 6`, not the declared `argc - optind + 6`; see Findings.

## Findings

| source | as written | input that shows it | evidently intended | confidence | as-written member | corrected member |
|---|---|---|---|---|---|---|
| xwayback/xwayback.c:450 | `arguments` is declared with `argc - optind + 6` entries, but the path, five flags, every forwarded argument and `NULL` make up to `argc + 6` writes | `Xwayback :1` (`argc == 2`, `optind == 1`): 8 entries are written into an array of 7 | room for every entry: `argc + 6`, counting the executable path | not executed | XwaylandArgs.DisplayArgumentOverflows | XwaylandArgs.BuildArguments |
