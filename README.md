# tauri-spy in Dafny

tauri-spy starts a Tauri (WebKitGTK) application with its injection library,
`libspy.so`, preloaded. The library turns on WebKit's developer extras for
every webview it can find, keeps them on, and installs a Ctrl+Shift+I handler
that toggles the web inspector. This project models the two pieces of logic
that make those decisions, and proves properties of them:

- **the launcher** (`src/main.rs`), in `launcher.dfy` (module `Launcher`). It
  validates the target binary: existence, file type, execute bits, and the
  ELF header's magic, class, machine and type. It composes `LD_PRELOAD`,
  encodes the auto-open flag for the child, and maps the child's status to
  the process exit code.
- **the injection shim** (`inject/spy.c`):
  - `host.dfy` (module `Host`) holds the parts of the host the shim sees:
    - the widget tree, whose nodes are a view, a container, both, or NULL;
    - the results of the library lookups;
    - the per-view settings objects and inspectors;
    - the top-level window list;
    - the foreign calls the shim can make.
  - `registry.dfy` (module `Registry`) models the webview registry as a
    bounded, duplicate-free, append-only sequence.
  - `spy.dfy` (module `Spy`) holds the rest:
    - the specification functions for the tree walk, the key-handler pass
      and the retry policy;
    - the invariant on the record of foreign calls;
    - class `Shim`, whose fields are the C file's static variables and whose
      methods are its functions. The registry is an `array<int>` of 16
      entries plus a count, as in C.
- **the hand-off** between the two (`handoff.dfy`, module `Handoff`): the
  launcher writes the auto-open flag into an environment variable, and the
  shim reads it back.

The foreign calls that act on the host are `HostCall` values, with their
arguments: the real developer-extras setter, the auto-open
`webkit_web_inspector_show`, `g_idle_add`, the key-handler connection and the
forwarded entry points. The shim's methods append them to the ghost field
`Shim.trace`. A key press changes no shim state, so `OnKeyPress` returns its
`InspectorShow`/`InspectorClose` requests as its result instead. Queries have
no `HostCall`. These are `dlsym`, `getenv`, `g_type_from_name`,
`gtk_window_list_toplevels`, `gtk_container_get_children`, the settings and
inspector of a view, `webkit_web_inspector_is_attached` and
`g_object_get_data`. Their answers come from the `Host` value passed to each
method. The `Shim.Valid` invariant holds across every entry point:
- `g_idle_add` has been called exactly once if the poller is installed, and
  never otherwise;
- every call to the real developer-extras setter passes TRUE;
- every window marked with the key-handler tag carries exactly one handler,
  and no other window carries one;
- the registry is bounded, holds no duplicates and no NULL, and is filled
  only by the pass that succeeds.

The methods that do not appear as separate functions in the C source are
blocks of the C functions, split out so that each can be proved on its own:
- `ForceDevExtras`, `IsTracked` and `Track` are the steps of
  `enable_devtools_on_webview`;
- `VisitChild` is the body of the loop in `traverse_children`;
- `ToggleAll` is the loop in `on_key_press`;
- `ScanWindows`, `ScanWindow`, `PollWindows`, `FailPoll`,
  `FailPass`, `FinishPass` and `ConnectKeyHandlers` are the blocks of
  `idle_callback`.

The symbol lookups cache only a lookup that succeeded
(`if (!real_x) real_x = dlsym(...)`, inject/spy.c:57-62 and 270-276), so a
failed lookup is retried on the next call. The model's resolution flag is
therefore `resolved' == resolved || found now`.

## Model

| member | source | states |
|---|---|---|
| Launcher.LeU16 | src/main.rs:85 | `u16::from_le_bytes([lo, hi])` is below 2^16, its low byte is `lo` and its high byte is `hi` |
| Launcher.ToLeBytes | src/main.rs:95 | every 16-bit value is the little-endian decoding of some byte pair, so the decoded header fields range over all of u16 |
| Launcher.CheckElfHeader | src/main.rs:67-105 | accepts exactly a header that is at least 64 bytes long, with bytes 0..4 equal to `\x7fELF`, class byte 2, `e_machine` (bytes 18-19, little-endian) 0x3E and `e_type` (bytes 16-17) 2 or 3; otherwise the first failing check in source order decides the error, and the wrong machine or type is reported with the decoded value |
| Launcher.HeaderPrefixDecides | src/main.rs:68-103 | for files of at least 64 bytes, the outcome of the header checks depends only on the first 20 bytes |
| Launcher.IsExecutable | src/main.rs:59 | `mode & 0o111 != 0` iff the owner, group or other execute bit is set |
| Launcher.ValidateTarget | src/main.rs:45-106 | success iff the path exists, is a file, its mode has an execute bit and its contents pass the header checks; each failing step gives its own error, checked in source order (missing, not a file, metadata failure, not executable, read failure, then the header) |
| Launcher.ComposedPreloadUnique | src/main.rs:164-169 | the LD_PRELOAD composition rule (the library path first; the path alone iff the old value is absent or empty; otherwise `path:old`) determines the value uniquely |
| Launcher.BuildPreload | src/main.rs:163-169 | the value built starts with the library path, equals it exactly when the old LD_PRELOAD is absent or empty, and is otherwise `path + ":" + old` |
| Launcher.EncodeAutoOpen | src/main.rs:172 | the flag is encoded as `"0"` or `"1"`, and it is `"1"` iff the flag is set |
| Launcher.AsU8 | src/main.rs:196 | `code as u8` is congruent to the code modulo 256 and equals it when it already fits in a byte |
| Launcher.ExitCodeFor | src/main.rs:185-197 | a successful child gives exit code 0; a child without a code (killed by a signal) gives 1; any other code `c` gives a byte congruent to `c` modulo 256, which for 1..255 is `c` itself |
| Launcher.Run | src/main.rs:117-204 | an invalid target or a missing library gives FAILURE without launching; otherwise the child runs the target with the original arguments and exactly four variables set: the composed LD_PRELOAD, the encoded auto-open flag and the two WebKit workarounds set to `"1"`; the exit code is FAILURE if the spawn fails and otherwise comes from the child's status |
| Handoff.AutoOpenRoundTrip | inject/spy.c:258-261 | the shim's exact-`"1"` test applied to the launcher's encoding (src/main.rs:172) gives back the CLI flag: the shim auto-opens iff `--auto-open` was given |
| Host.OfferedIffReaches | inject/spy.c:111-133 | the walk offers a handle iff it is a view among the children, or a view reached by descending through containers only (a reference definition of reachability) |
| Host.OfferedByIffReachesVia | inject/spy.c:117-129 | one child contributes exactly itself, if it is a view, and what is reachable inside it, if it is a container, whether or not it is also a view |
| Host.OfferedPrefix | inject/spy.c:116-130 | the walk over the first i+1 children is the walk over the first i, followed by child i (depth first, in child order) |
| Host.PassOffersPrefix | inject/spy.c:203-214 | the pass over the first i+1 top-level windows is the pass over the first i, followed by window i's children if it is a container |
| Host.WindowPtrsMembers | inject/spy.c:228-232 | the handles a pass marks are exactly the non-null entries of the top-level list |
| Registry.Insert | inject/spy.c:93-100 | an offer appends the handle at index `webview_count` iff the registry has room and does not hold it yet; otherwise the registry is unchanged; the bound of 16 is preserved |
| Registry.InsertKeepsNoDup | inject/spy.c:93-100 | an offer never creates a duplicate, and the handle is tracked afterwards iff it was already tracked or there was room |
| Registry.InsertAll | inject/spy.c:93-100 | a sequence of offers only appends and never takes the registry past 16 entries |
| Registry.InsertAllContents | inject/spy.c:93-100 | after a sequence of offers there are still no duplicates; every offered handle is tracked unless the registry filled up; and nothing but the old entries and the offered handles is present |
| Registry.InsertAllWhenFull | inject/spy.c:93 | once the count is 16, every later offer leaves the registry unchanged |
| Registry.InsertAllGrowsFromEmpty | inject/spy.c:209-212 | starting from an empty registry, offers grow it iff at least one handle is offered |
| Spy.ParseAutoOpen | inject/spy.c:258-261 | the auto-open flag is set iff the variable is present and exactly `"1"` |
| Spy.ChordMatchesIff | inject/spy.c:144-146 | the chord matches iff the Control bit and the Shift bit are both set, whatever other modifiers are held, and the key is `I` or `i` |
| Spy.ToggleCallsTargets | inject/spy.c:150-164 | one press makes at most one request per registry entry, and each request is a close for an attached inspector or a show for a detached one, of a registered view that has an inspector |
| Spy.ToggleEachViewOnce | inject/spy.c:150-164 | over a duplicate-free registry, each registered view with an inspector gets its one toggle exactly once and never the opposite request; every other view gets no request |
| Spy.OfferCallsShape | inject/spy.c:80-109 | one `enable_devtools_on_webview` call first asks the real setter for TRUE on the view's settings exactly when the view has settings and the setter is known; it shows the inspector exactly when auto-open is on, the view has an inspector, and the view was not already tracked in a registry with room (a full registry shows every view); it makes no other call |
| Spy.OfferAllEffects | inject/spy.c:80-109 | a walk fills the registry exactly as the sequence of offers does, only appends to the call record, and never un-resolves the setter |
| Spy.OfferAllNewCalls | inject/spy.c:80-133 | the only calls a walk adds are setter calls passing TRUE and auto-open requests for views it offered |
| Spy.OfferAllEnablesEvery | inject/spy.c:81-90 | when the real setter can be found, every offered view that has a settings object gets developer extras forced on during the walk |
| Spy.PassFindsIffOffers | inject/spy.c:201-216 | from an empty registry, a pass finds a webview (the count grows) iff the walk reaches at least one view |
| Spy.KeyHandlerConnectsOnce | inject/spy.c:227-239 | a successful pass makes only key-handler connections: exactly one to each non-null window that was not marked yet, even if the list names it twice, and none elsewhere |
| Spy.FailingPollResults | inject/spy.c:179-225 | the i-th of n consecutive failing polls returns TRUE iff the incremented retry count `start + i + 1` is at most 200 |
| Spy.NeverSucceedingHost | inject/spy.c:181-188 | from a fresh count, a host that never succeeds sees exactly 200 TRUE results and then FALSE |
| Spy.TraceValidAfterWalk | inject/spy.c:80-133 | extending the call record with walk calls (TRUE setter calls and auto-open requests) keeps the invariant: one `g_idle_add` iff installed, setter always TRUE, one handler per marked window |
| Spy.WalkKeepsTraceValid | inject/spy.c:199-214 | a whole scan over the windows keeps the call-record invariant |
| Spy.TraceValidAfterConnect | inject/spy.c:227-239 | the key-handler pass keeps the invariant, with every non-null top-level window now marked, each with one handler |
| Spy.TraceValidAfterCall | inject/spy.c:68-78 | any other single call that is not `g_idle_add`, not a key-handler connection and not a setter call passing FALSE keeps the invariant |
| Spy.TraceValidAfterInstall | inject/spy.c:252-264 | the first `g_idle_add` keeps the invariant, with the poller now installed |
| Spy.Shim.constructor | inject/spy.c:26-48 | at load time every flag and counter is zero, the registry is empty and every one of its 16 entries is NULL, no real function is resolved, nothing is marked and no call has been made |
| Spy.Shim.EnsureRealSetDevExtras | inject/spy.c:57-62 | the setter stays resolved once known and is otherwise resolved iff the lookup finds it now |
| Spy.Shim.SetEnableDeveloperExtras | inject/spy.c:68-78 | with the setter known, exactly one call forwarding TRUE for the given settings is made, whatever the argument; without it nothing is forwarded; the diagnostic is printed iff something was forwarded and the caller passed FALSE |
| Spy.Shim.IsTracked | inject/spy.c:95-98 | the duplicate scan answers exactly whether the view is among the first `webview_count` entries |
| Spy.Shim.ForceDevExtras | inject/spy.c:81-90 | a view with settings forces developer extras on through the real setter, which is looked up only then; a view without settings changes nothing |
| Spy.Shim.Track | inject/spy.c:92-100 | the registry becomes `Insert` of the old one; it reports the early-return case (room left and view already present); the array is unchanged unless the count grew, and then only index `webview_count` changed, to the view |
| Spy.Shim.EnableDevtoolsOnWebview | inject/spy.c:80-109 | registry, setter resolution and call record move exactly as one offer (`Offer`) says, keeping the registry invariant |
| Spy.Shim.TraverseChildren | inject/spy.c:111-133 | the state afterwards is the walk over the views offered depth first in child order (`Offered`), which by `OfferedIffReaches` are exactly the views reachable through containers |
| Spy.Shim.VisitChild | inject/spy.c:117-129 | one child is enabled if it is a view and then descended if it is a container, in that order |
| Spy.Shim.OnKeyPress | inject/spy.c:138-170 | returns TRUE iff the chord matches; in that case it makes the toggle requests for the registry, and otherwise it makes none; shim state is not changed |
| Spy.Shim.ToggleAll | inject/spy.c:150-164 | the loop's requests are `ToggleCalls` of the registered entries, in registry order |
| Spy.Shim.ScanWindows | inject/spy.c:201-214 | the state afterwards is the walk over the children of every top-level container in order (top-level windows themselves are never offered); `found` holds iff the count grew; the call-record invariant still holds |
| Spy.Shim.ScanWindow | inject/spy.c:204-213 | one top-level window is walked iff it is a non-null container; `found` is set iff the count has grown since the scan began |
| Spy.Shim.ConnectKeyHandlers | inject/spy.c:228-239 | the calls are exactly `KeyHandlerCalls` of the window list, and every non-null window is marked afterwards |
| Spy.Shim.IdleCallback | inject/spy.c:172-247 | keeps `Valid`; TRUE iff the poller is still polling. After success every poll returns FALSE and changes nothing. With the type unregistered or no top-levels, the poll only increments the retry count and returns whether it is at most 200. Otherwise (see PollWindows): a pass that grows the registry sets `spy_enabled`, connects the handlers, keeps the retry count and returns FALSE, and one that does not is a failing poll |
| Spy.Shim.PollWindows | inject/spy.c:201-246 | after the walk over every window: if the registry grew, the success state with the key handlers connected and the retry count unchanged; otherwise a failing poll with nothing else changed |
| Spy.Shim.FailPoll | inject/spy.c:181-188 | the retry count goes up by exactly one, and the result is TRUE iff it is then at most 200 |
| Spy.Shim.FailPass | inject/spy.c:216-225 | a pass that found no webview is a failing poll, with `Valid` kept |
| Spy.Shim.FinishPass | inject/spy.c:227-246 | the success path connects the key handlers, enables the spy (the `Succeeded` phase) and keeps `Valid` |
| Spy.Shim.InstallIdleCallback | inject/spy.c:252-264 | the first call sets `idle_installed`, reads the auto-open flag and calls `g_idle_add` once; every later call changes nothing |
| Spy.Shim.GtkMain | inject/spy.c:269-283 | without the real `gtk_main` it returns with nothing installed; otherwise it installs the poller (once across all hooks) and then calls the real function |
| Spy.Shim.GApplicationRun | inject/spy.c:290-307 | without the real function it returns 1 with nothing installed; otherwise it installs the poller and forwards the original application, argc and argv, returning the real result unchanged |
| Spy.Shim.GtkMainIterationDo | inject/spy.c:315-333 | without the real function it returns FALSE with nothing installed; otherwise it installs the poller if it is not installed yet, forwards `blocking` and returns the real result |

## Left out

- `build.rs` is build plumbing (pkg-config and gcc) and is not part of this model.
- The foreign calls themselves (`dlsym`, GTK, WebKit, GLib, `getenv`) are not executed. Their results are fields of `Host`, and the calls the shim makes are recorded as `HostCall` values.
- Log output (`fprintf`, `println!`, `eprintln!`) is left out. The one exception is the "blocked attempt" diagnostic of the hooked setter, which appears as the `warned` result of `SetEnableDeveloperExtras`.
- `g_list_free` and `g_object_set_data`'s storage are left out. The key-handler tag is the set `keyHandlerMarked`.
- `find_libspy`, `path.exists()`/`is_file()`/`metadata()`/`fs::read`, `check_webkit_available` and the process spawn are file-system and process I/O. Their outcomes are inputs to `Launcher.Run`, as a `TargetFile`, the library path and the child's status. `check_webkit_available` only prints a warning, so it is not modelled at all.
- clap argument parsing is a library. `Cli` is the parsed result.
- Event-loop scheduling is left out. Idle callbacks are explicit, sequential calls of `IdleCallback`. The real `gtk_main` and `g_application_run`, which would run those callbacks and could re-enter the hooks, are a single recorded call.
- Only the four variables `main` sets on the child are modelled. The child also inherits the rest of the parent's environment.
- The wording of error messages is left out. Each `Err` of `validate_target` is a `TargetError` variant that keeps its variable part.
- A non-Unicode `LD_PRELOAD` (an `Err` from `env::var`) is treated like an unset one, as the source does. The bytes of such a value are not modelled.
- Spy.Shim.IdleCallback: that the GaveUp phase is terminal relies on GLib dropping a source whose callback returned FALSE. The model states that the poll returns FALSE there, and does not model GLib.
- Spy.Shim.FailPoll: `retry_count` is an unbounded integer. The C `int` could only overflow after about 2^31 polls, and polling stops after 201.
- A `Host` is fixed for one method call. The shim's own calls during a poll, such as the auto-open `webkit_web_inspector_show` or the real setter, therefore cannot change what later `gtk_container_get_children` or `webkit_web_inspector_is_attached` queries in the same call see. The C code queries the live host each time (inject/spy.c:112, 155-159).
- `Launcher.ValidateTarget` models the Unix build. The execute-bit check sits under `#[cfg(unix)]` (src/main.rs:55-62), so a non-Unix build skips it, while the model always applies it.
- `libspy_path.to_string_lossy()` (src/main.rs:164) replaces bytes of the library path that are not valid UTF-8. `Launcher.Run` takes the library path as an already-converted `string`, so that replacement is not modelled.
- Host pointers are opaque non-zero integers (`Ptr`). A NULL entry of the toplevel list or of a child list is the `Null` widget. The type tests `WEBKIT_IS_WEB_VIEW` and `GTK_IS_CONTAINER` are the `isView` and `isContainer` fields of `Widget`.
