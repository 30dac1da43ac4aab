# A verified model of the pd-mpv `[mpv]` object

The `[mpv]` object of pd-mpv embeds the mpv media engine in a Gem
framebuffer inside Pure Data. Around its OpenGL and engine plumbing sits a
small amount of logic, and that logic is what this project models in Dafny:

- **Node flattening** (`node_to_atom`, `prop_to_atom`). An engine value tree
  becomes a flat list of host atoms. A property message is the property's
  name, followed by its value.
- **Log level mapping** (`post_mpv_log`). Engine log levels become host log
  levels.
- **Message dispatch** (`command_mess`). This handles the `command`,
  `command_typed`, `property` and `property_typed` messages:
  - it validates their arguments;
  - it strips the type string;
  - it chooses between a command, a property set and a property get;
  - it picks the get format from the first type character;
  - it remembers a `loadfile` command.
- **The object's state machine.** These fields:
  - `m_started`, `m_new_frame`, `m_reload`, `m_auto_resize`;
  - `m_media_width`, `m_media_height`, `m_loadfile_cmd`, `m_event_flag`.

  They are driven by:
  - the engine events drained in `render`;
  - the resize and reload steps that follow the drain;
  - `postrender`;
  - `handle_prop_event`;
  - `dimen_mess`.

Everything the object does to the outside world is recorded in order as an
`Effect` in a trace:
- engine requests (command, set property, get property);
- outlet messages;
- console errors;
- log posts;
- calls into the framebuffer base class.

The engine's event queue is an input sequence. `mpv_wait_event` with a zero
timeout takes the next event from it, or returns NONE when it is empty.

Files:
- `mpv_values.dfy`: atoms, engine nodes, property payloads, events and effects.
- `node_atoms.dfy`: `node_to_atom` and `prop_to_atom`. Both are methods that
  append to a list the caller owns; the list goes in as `res` and comes back
  as `out`. Each is proved against a specification function, `Flatten` or
  `PropAtoms`. `Flatten` is then proved equal to an independent description:
  one atom per scalar leaf, in order.
- `mpv_log.dfy`: `post_mpv_log`.
- `mpv_machine.dfy`: the object as a transition system on values, with the
  lemmas about it. A `State` holds the object's fields and the effect trace.
- `mpv_object.dfy`: the class `Mpv`. Its methods update its fields in place.
  Each one is proved to move `Snapshot()` exactly as the matching function of
  `MpvMachine` moves a `State`.

Behaviour worth knowing, as the code has it:
- A property with a value is set with the raw type string. A command gets the
  type string prefixed with a space, and only when the string is non-empty.
- The remembered loadfile is replayed with the untyped `command` selector.
  The type string of a `command_typed loadfile` is therefore not replayed.
- A `GET_PROPERTY_REPLY` that carries an error only reports that error. Its
  property is never read.
- The reload at gem_mpv.cpp:390 passes the remembered vector's own storage as
  `argv` to `command_mess`, which clears that vector and refills it from
  `argv`. The remembered command still comes out unchanged: `reserve` asks for
  no more than the capacity the vector already has, so the storage is not
  reallocated, and each atom is copied onto itself. The value model does not
  show this aliasing.
- The framebuffer's `m_modified` is read before the resize step (by the drain
  loop) and after it (by the reload and draw steps). The base class's
  `dimMess`, called by the resize step, may change it in between. What it
  leaves it at is an input to `render` (`dimModified`).
- A STRING or OSD_STRING property is sent with the symbol of its value in this
  model; the code as written reads the bytes of the string's address instead (see Findings).

## Model

| member | source | states |
|---|---|---|
| `NodeAtoms.LeafAtom` | gem_mpv.cpp:44-72 | A scalar leaf becomes one atom. It is a symbol exactly when the leaf is a string or OSD string, and then the symbol is that string. A flag becomes 1 when set and 0 when clear. An int64 becomes its value as a number, and a double becomes its value. |
| `NodeAtoms.NodeToAtom` | gem_mpv.cpp:40-93 | The output is the input list followed by the node's atoms. The atoms already in the list are unchanged. The array case is a loop over the elements that appends each element's atoms in index order. |
| `NodeAtoms.FlattenIsLeafAtoms` | gem_mpv.cpp:40-92 | Flattening a node gives one atom per scalar leaf reached through nested arrays, in index order. This is checked against an independent front-to-back list of the leaves. Maps, byte arrays, node and none tags give nothing. |
| `NodeAtoms.FlattenSeqIsLeafAtoms` | gem_mpv.cpp:73-82 | The same for the elements of an array: their atoms are the atoms of all their scalar leaves, in order. |
| `NodeAtoms.FlattenSeqAppend` | gem_mpv.cpp:76-80 | The array loop's output splits at any point: the atoms of `a + b` are the atoms of `a` followed by those of `b`. |
| `NodeAtoms.FlattenSkipsUnhandled` | gem_mpv.cpp:83-91 | A map, byte-array, node or none element contributes nothing, wherever it stands in an array. |
| `NodeAtoms.FlattenNested` | gem_mpv.cpp:73-82 | Nesting is transparent: an inner array contributes its atoms in place, between those of its neighbours. |
| `NodeAtoms.PropToAtom` | gem_mpv.cpp:95-155 | The output is the input list followed by the property's atoms, `PropAtoms`. |
| `NodeAtoms.PropAtomsByFormat` | gem_mpv.cpp:97-154 | The message starts with the name symbol when the name is non-null. Without a name it is the payload's atoms alone. Null data (format NONE) adds nothing after the name. A flag adds 1 when set and 0 when clear. A string adds the symbol of its value (the intended behaviour; see Findings). An int64 or double adds its value. A node adds exactly the atoms of `node_to_atom`. A top-level node array, node map or byte array adds nothing. |
| `NodeAtoms.AddressText` | gem_mpv.cpp:137-138 | The text read from the eight bytes that hold an address is at most eight characters long. |
| `NodeAtoms.PayloadAtomsAsWritten` | gem_mpv.cpp:105-154 | As the code is written, a STRING or OSD_STRING payload becomes the symbol of the bytes of the string's address. Every other payload gives the same atoms as `PayloadAtoms`. |
| `NodeAtoms.StringPropertyAsWritten` | gem_mpv.cpp:133-141 | As written, a string property whose value is longer than eight characters is never sent with its value, whatever the string's address. Every property of another format is sent as intended. |
| `MpvLog.HostLevel` | gem_mpv.cpp:157-178 | FATAL maps to host level 0 and ERROR to 1. WARN and INFO map to 2, and V and DEBUG to 3. Every other engine level maps to 41, and 41 is used for no known level. |
| `MpvLog.HostLevelMonotone` | gem_mpv.cpp:160-178 | Among the known levels, a more severe engine level never maps to a higher host level. |
| `MpvLog.PostLog` | gem_mpv.cpp:157-181 | The guard against level -1 never fails. Every log message yields exactly one post, at `HostLevel` of its level, with its prefix, level name and text. |
| `MpvMachine.GetFormat` | gem_mpv.cpp:544-562 | The get format is FLAG exactly for a leading 'b', INT64 for 'i' and STRING for 's'. It is DOUBLE exactly when the types are empty or start with any other character. |
| `MpvMachine.CommandSpec` | gem_mpv.cpp:472-571 | Every command message appends exactly one effect and keeps all earlier effects. It never touches the new-frame, reload, auto-resize, media-size or event flags. |
| `MpvMachine.CommandRejection` | gem_mpv.cpp:476-498 | The one effect is an error exactly when the message is rejected. A message is rejected when it is malformed or the engine handle is absent. A typed variant is malformed with fewer than two arguments or a non-symbol among the first two. An untyped variant is malformed with no arguments or a non-symbol first argument. A rejected message leaves every field unchanged. The error names the usage, or the missing handle. |
| `MpvMachine.CommandLoadfile` | gem_mpv.cpp:501-525 | An accepted command issues its arguments after the type string, with the type string behind a space when non-empty. A `loadfile` with more than one remaining argument sets `started` to false and remembers exactly the remaining arguments. Any other command leaves both unchanged. |
| `MpvMachine.PropertySetOrGet` | gem_mpv.cpp:526-570 | An accepted property message changes no field. It issues a set request with the remaining values and the raw types when values follow the name. Otherwise it issues a get request with userdata 0, in the format `GetFormat` picks. |
| `MpvMachine.ReplayLoadfile` | gem_mpv.cpp:385-391 | Replaying a remembered loadfile re-issues it untyped and sets `started` to false. The remembered command stays the same. |
| `MpvMachine.CommandKeepsLoadfileInv` | gem_mpv.cpp:505-517 | The remembered command is always empty or a `loadfile` with at least one argument, and a command message keeps it that way. |
| `MpvMachine.PropEventSpec` | gem_mpv.cpp:573-591 | An INT64 "width" property sets the media width and an INT64 "height" property sets the media height. Any other property leaves both unchanged. Every property is sent as a `property` message with `prop_to_atom`'s atoms. Nothing else changes. |
| `MpvMachine.DimenSpec` | gem_mpv.cpp:593-605 | Auto-resize is turned on exactly when both arguments are negative. The framebuffer is then asked for the media size; otherwise it is asked for the given size. Nothing else changes. |
| `MpvMachine.EventSpec` | gem_mpv.cpp:239-376 | Only a NONE event lowers the event flag. Each event only appends to the effect trace. |
| `MpvMachine.EventOutcome` | gem_mpv.cpp:239-376 | For every event except TICK, this gives the new state in full, and every field not named stays as it was. NONE lowers the event flag and emits nothing. A log message adds the one post of `post_mpv_log`. A failed get-property reply adds only its error. A successful reply and a property change are handled as `handle_prop_event` does. START_FILE and END_FILE clear `started` and send `start` and `end`. FILE_LOADED sends `file_loaded`, then gets `width` and `height` as INT64 and `duration` as DOUBLE, in that order, with userdata 'w', 'h' and 'd'. SEEK and PLAYBACK_RESTART set `started` and send `playback_restart`. Every other event changes nothing. |
| `MpvMachine.EventStarted` | gem_mpv.cpp:266-360 | START_FILE and END_FILE set `started` false. SEEK and PLAYBACK_RESTART set it true. No other event changes it. |
| `MpvMachine.TickQueries` | gem_mpv.cpp:311-337 | A TICK sets the new-frame flag. Only while playback is started does it issue the two double-format get requests, for `time-pos` and then `percent-pos`. Nothing else changes. |
| `MpvMachine.EventKeepsLoadfileInv` | gem_mpv.cpp:239-376 | No event breaks the invariant on the remembered command. |
| `MpvMachine.Drain` | gem_mpv.cpp:235-377 | The drain only appends effects, and never leaves more events queued than it found. |
| `MpvMachine.DrainStep` | gem_mpv.cpp:236-239 | When the loop guard holds, one turn takes the next event (NONE on an empty queue), handles it, and drains the rest. |
| `MpvMachine.WaitWellFormed` | gem_mpv.cpp:238 | Taking an event from a queue of well-formed events gives a well-formed event and leaves a suffix of the queue. |
| `MpvMachine.DrainLeavesSuffix` | gem_mpv.cpp:236-243 | The drain takes events only from the front: what it leaves queued is a suffix of the queue. |
| `MpvMachine.DrainBlocked` | gem_mpv.cpp:236 | Without an engine handle, or while the framebuffer is modified, no event is taken and nothing changes. |
| `MpvMachine.DrainLowersFlag` | gem_mpv.cpp:236-243 | A drain that is not blocked always ends with the event flag down. |
| `MpvMachine.DrainStopsAtNone` | gem_mpv.cpp:236-243 | A NONE event ends the drain. The events queued after the first NONE stay queued. |
| `MpvMachine.DrainKeepsLoadfileInv` | gem_mpv.cpp:236-377 | Draining any sequence of events keeps the invariant on the remembered command. |
| `MpvMachine.CheckResize` | gem_mpv.cpp:379-383 | With auto-resize on and a media size different from the framebuffer's, the framebuffer is asked for the media size and a reload is scheduled; no other field changes. Otherwise nothing happens. |
| `MpvMachine.ReloadStage` | gem_mpv.cpp:385-391 | The reload step only appends effects. When no reload is pending, or the framebuffer is modified, it changes nothing. Otherwise it clears the pending reload, and with no loadfile remembered (at most one atom) that is all it does. |
| `MpvMachine.ReloadReplays` | gem_mpv.cpp:385-391 | The whole new state of the reload step when a reload is pending and the framebuffer is not modified. With no loadfile remembered, only the pending reload is cleared. Otherwise the pending reload is cleared, playback is marked not started, the remembered loadfile is kept and replayed as one untyped command request, and no other field changes. |
| `MpvMachine.DrawStage` | gem_mpv.cpp:393-395 | The framebuffer draws exactly when a new frame is waiting and the framebuffer is not modified. No field changes. |
| `MpvMachine.RenderSpec` | gem_mpv.cpp:233-412 | A render pass only appends effects. The drain reads the framebuffer's modified flag as it was. The reload and draw steps read it as the resize step leaves it. |
| `MpvMachine.RenderAfterDrain` | gem_mpv.cpp:233-395 | A render pass is its drain followed by the resize, reload and draw steps, with the modified flag as the resize step leaves it. |
| `MpvMachine.RenderReload` | gem_mpv.cpp:379-391 | Say the framebuffer is not modified after the resize step. Then no reload is pending after the render. While it is modified, a pending reload is kept, and a size mismatch under auto-resize adds one. |
| `MpvMachine.ResizeReloads` | gem_mpv.cpp:379-395 | Say auto-resize is on, the media size differs from the framebuffer's after the drain, and a loadfile is remembered. Then render asks the framebuffer for the media size. If the resize leaves the framebuffer unmodified, render at once replays the loadfile, sets `started` to false, keeps the remembered command, and draws only if a new frame is waiting. If the resize marks it modified, the reload stays pending, and nothing is replayed or drawn in this pass. |
| `MpvMachine.RenderKeepsLoadfileInv` | gem_mpv.cpp:233-412 | A whole render pass keeps the invariant on the remembered command. |
| `MpvMachine.PostrenderSpec` | gem_mpv.cpp:414-421 | After postrender no new frame is pending. The framebuffer's postrender runs only if a frame was pending. Nothing else changes. |
| `MpvMachine.SetupErrors` | gem_mpv.cpp:183-205 | The constructor's console errors. "context init failed" is reported exactly when no handle is created, and then it is the only error. "init failed" is reported exactly when the handle does not initialize. "failed to set VO" is reported exactly when it refuses the video output, even after a failed initialization, and then it comes second. Each error appears at most once and no other error is reported, so a clean setup reports nothing. |
| `MpvObject.Mpv.constructor` | gem_mpv.cpp:183-225 | A new object records whether the engine handle exists. All flags start cleared and nothing is remembered. The only effects are the setup errors of `SetupErrors`. |
| `MpvObject.Mpv.CommandMess` | gem_mpv.cpp:472-571 | The in-place handler moves the object as `CommandSpec` does. The remembered loadfile is rebuilt atom by atom in a loop. |
| `MpvObject.Mpv.HandlePropEvent` | gem_mpv.cpp:573-591 | The in-place handler moves the object as `PropEventSpec` does. |
| `MpvObject.Mpv.DimenMess` | gem_mpv.cpp:593-605 | The in-place handler moves the object as `DimenSpec` does. |
| `MpvObject.Mpv.WaitEvent` | gem_mpv.cpp:238 | It takes the next queued event, or gives NONE when the queue is empty. |
| `MpvObject.Mpv.DispatchEvent` | gem_mpv.cpp:239-376 | The switch on one event moves the object as `EventSpec` does. |
| `MpvObject.Mpv.DrainOnce` | gem_mpv.cpp:238-376 | One turn of the loop takes the next event as `Wait` does and handles it as `EventSpec` does. It leaves less work: the queue shrinks or the event flag drops. |
| `MpvObject.Mpv.DrainEvents` | gem_mpv.cpp:236-377 | The `while` loop moves the object and the queue as `Drain` does. |
| `MpvObject.Mpv.ResizeReloadDraw` | gem_mpv.cpp:379-395 | The steps after the drain move the object as the resize, reload and draw steps do. The modified flag ends as the resize step leaves it. |
| `MpvObject.Mpv.Reload` | gem_mpv.cpp:385-391 | The reload step moves the object as `ReloadStage` does. |
| `MpvObject.Mpv.RaiseAndDrain` | gem_mpv.cpp:233-377 | Raising the event flag and draining moves the object and the queue as `Drain` does from the raised state. |
| `MpvObject.Mpv.Render` | gem_mpv.cpp:233-412 | `render` moves the object and the queue as `RenderSpec` does. The modified flag ends as the resize step leaves it. |
| `MpvObject.Mpv.Postrender` | gem_mpv.cpp:414-421 | `postrender` moves the object as `PostrenderSpec` does. |

## Left out

- OpenGL and render-context work is left out because it is GPU and driver I/O. This covers `startRendering`, `stopRendering` and the `mpv_render_context_*` block of `render`. The model keeps only the guard `m_new_frame && !m_modified`, recorded as a `FramebufferRender` effect. So the `m_reload = true` at the end of `startRendering` is not modelled.
- `get_proc_address_mpv` is left out: it is a platform symbol lookup.
- The engine's client calls are left out: `mpv_create`, `mpv_initialize`, `mpv_set_option_string`, `mpv_request_event`, `mpv_set_wakeup_callback` and `mpv_terminate_destroy`. The constructor takes their outcomes as inputs: whether a handle was created, whether it initialized, and whether it took the video output. It records the errors these outcomes produce.
- The initial field values are declared in `gem_mpv.hpp`, which is not part of this model. The constructor assumes false, 0 and empty.
- `log_mess` is left out. It only forwards a level string to `mpv_request_log_messages`, a foreign call.
- `obj_setupCallback` is left out. It is method registration with the host; the four selectors it routes to `command_mess` are the `Selector` type.
- The error codes returned by the async engine calls are not modelled. Every request is taken as accepted. So the errors "Error when executing command", "can't set property" and "can't send get property" are never produced.
- `node_builder` is not part of this model: its definition is in a header that is not available. Command and set-property requests record the raw atoms and the type string that would be handed to it.
- The wakeup callback `wakeup` / `rise_event_flag` is left out. It runs on the engine's thread, so its point is concurrency. `render` raises the flag itself before draining, and that is modelled.
- `gemframebuffer` base-class behaviour is left out. Its `dimMess`, `render` and `postrender` are recorded as effects. Its fields `m_width` and `m_height` are inputs that this object reads. `dimMess` may change `m_modified`; in `render` the value it leaves is an input, `dimModified`. `dimMess` does not change `m_width` and `m_height` in the model.
- Console diagnostics of the converters are not recorded. These are `node_to_atom`'s `pd_error` for map and byte-array nodes and `prop_to_atom`'s standard-output message for top-level array, map and byte-array payloads. Both append nothing, and that is modelled.
- Numbers are exact: `t_float` single-precision rounding is not modelled. `int64_t` values are unbounded, and so is their assignment to the media size fields, whose declared type is in the header.
- Symbols are plain strings; `gensym` interning is not modelled.
- The property data of `prop_to_atom` is typed by its format. The engine reports format NONE exactly when the data pointer is null. So the `MPV_FORMAT_NONE` case after the null check cannot be reached, and it is not represented.
- `HandlePropEvent` and the drain require a non-null name on every property event they read, because `handle_prop_event` passes it to `strcmp`. The engine always sets it.
- `NodeAtoms.PropToAtom` and `NodeAtoms.PropAtomsByFormat` state the intended string case (the symbol of the value), not the code as written at gem_mpv.cpp:137; the as-written behaviour is modelled separately and listed under Findings.
- `AddressText` reads the bytes of an address least significant first and stops within the eight bytes. This assumes a little-endian 64-bit machine, where a user-space address has zero high bytes.

## Findings

| source | as written | input that shows it | evidently intended | confidence | as-written member | corrected member |
|---|---|---|---|---|---|---|
| gem_mpv.cpp:133-141 | For a STRING or OSD_STRING property, `prop_to_atom` casts `prop->data` itself to `char*`. The engine's data for these formats points at a `char*`, as it does for the other formats, which line 112 (`*(bool *)`), line 120 and line 128 dereference. So the symbol is interned from the bytes that hold the string's address, not from the string. `PayloadAtomsAsWritten` models this; the rest of the model, including `PropToAtom`, uses the intended `PayloadAtoms`. | `property_typed s media-title`, answered by a GET_PROPERTY_REPLY in format STRING with a title longer than eight characters: the property message carries at most eight characters of address bytes instead of the title | `char* s = *(char **)prop->data;`, sending the value as a symbol | high; not executed | `NodeAtoms.StringPropertyAsWritten` | `NodeAtoms.PropAtomsByFormat` |
