/** The mpv object as a transition system on values. A State holds the
    object's own fields and the effects produced so far; each function below
    says what one message handler, one engine event or one render pass does
    to it. The class in MpvObject is proved against these functions. */
module MpvMachine {
  import opened MpvValues
  import opened NodeAtoms
  import opened MpvLog

  /** The four host messages routed to command_mess. */
  datatype Selector = Command | CommandTyped | Property | PropertyTyped

  predicate IsTyped(sel: Selector) {
    sel == CommandTyped || sel == PropertyTyped
  }

  predicate IsCommand(sel: Selector) {
    sel == Command || sel == CommandTyped
  }

  /** The object's fields that its handlers update, and the effects so far. */
  datatype State = State(
    started: bool,          // playback has (re)started since the last file start or end
    newFrame: bool,         // a frame is waiting to be drawn
    reload: bool,           // the file must be loaded again
    autoResize: bool,       // the framebuffer follows the media size
    mediaWidth: int,
    mediaHeight: int,
    loadfileCmd: seq<Atom>, // the last loadfile command, kept for a reload
    eventFlag: bool,        // there may be engine events to drain
    effects: seq<Effect>)

  function Emit(st: State, e: Effect): State {
    st.(effects := st.effects + [e])
  }

  /** Only the effects differ. */
  predicate SameFields(a: State, b: State) {
    a.(effects := []) == b.(effects := [])
  }

  // ---------------------------------------------------------------------
  // The constructor

  /** The console errors of the constructor, given whether the engine handle
      was created, whether it initialized and whether it took the libmpv video
      output. A missing handle stops the setup; a failed initialization does not. */
  function SetupErrors(created: bool, initOk: bool, voOk: bool): (r: seq<Effect>)
    ensures forall i :: 0 <= i < |r| ==> r[i].Error?
    ensures Error(ContextInitFailed) in r <==> !created
    ensures Error(InitFailed) in r <==> created && !initOk
    ensures Error(SetVoFailed) in r <==> created && !voOk
    ensures !created ==> |r| == 1
    ensures created && !initOk && !voOk ==> r == [Error(InitFailed), Error(SetVoFailed)]
    ensures |r| == (if !created then 1 else (if initOk then 0 else 1) + (if voOk then 0 else 1))
  {
    if !created then [Error(ContextInitFailed)]
    else (if initOk then [] else [Error(InitFailed)]) + (if voOk then [] else [Error(SetVoFailed)])
  }

  // ---------------------------------------------------------------------
  // command_mess

  /** The argument shapes command_mess accepts: the typed variants need two
      symbols (the types and the name), the others one symbol (the name). */
  predicate WellShaped(sel: Selector, argv: seq<Atom>) {
    if IsTyped(sel) then |argv| >= 2 && argv[0].Sym? && argv[1].Sym?
    else |argv| >= 1 && argv[0].Sym?
  }

  /** The arguments after the type string has been taken off. */
  function Stripped(sel: Selector, argv: seq<Atom>): seq<Atom> {
    if IsTyped(sel) && argv != [] then argv[1..] else argv
  }

  /** The type string: the first symbol of a typed variant, empty otherwise. */
  function TypesOf(sel: Selector, argv: seq<Atom>): string {
    if IsTyped(sel) && argv != [] && argv[0].Sym? then argv[0].name else ""
  }

  /** A loadfile command with at least one argument. */
  predicate IsLoadfile(args: seq<Atom>) {
    |args| > 1 && args[0] == Sym("loadfile")
  }

  /** The format a property is requested in, chosen by the first type character. */
  function GetFormat(types: string): (f: Format)
    ensures f == FFlag <==> |types| > 0 && types[0] == 'b'
    ensures f == FInt64 <==> |types| > 0 && types[0] == 'i'
    ensures f == FString <==> |types| > 0 && types[0] == 's'
    ensures f == FDouble <==> types == [] || types[0] !in "bis"
  {
    if types == [] then FDouble
    else match types[0]
      case 'b' => FFlag
      case 'i' => FInt64
      case 's' => FString
      case _ => FDouble
  }

  /** command_mess: one message from the host, exactly one effect. */
  function CommandSpec(st: State, handle: bool, sel: Selector, argv: seq<Atom>): (r: State)
    ensures |r.effects| == |st.effects| + 1 && r.effects[..|st.effects|] == st.effects
    ensures r.newFrame == st.newFrame && r.reload == st.reload && r.autoResize == st.autoResize
    ensures r.mediaWidth == st.mediaWidth && r.mediaHeight == st.mediaHeight && r.eventFlag == st.eventFlag
  {
    if !WellShaped(sel, argv) then
      Emit(st, Error(if IsTyped(sel) then TypedUsage else UntypedUsage))
    else if !handle then
      Emit(st, Error(NotInitialized))
    else
      var types, args := TypesOf(sel, argv), Stripped(sel, argv);
      if IsCommand(sel) then
        var st1 := if IsLoadfile(args) then st.(started := false, loadfileCmd := args) else st;
        Emit(st1, CommandRequest(args, if types == "" then "" else " " + types))
      else if |args| > 1 then
        Emit(st, SetPropertyRequest(args[0].name, args[1..], types))
      else
        Emit(st, GetPropertyRequest(0, args[0].name, GetFormat(types)))
  }

  /** A malformed message or a missing engine handle yields one error and
      nothing else; every other message yields a request. */
  lemma CommandRejection(st: State, handle: bool, sel: Selector, argv: seq<Atom>)
    ensures var r := CommandSpec(st, handle, sel, argv);
      r.effects[|st.effects|].Error? <==> !WellShaped(sel, argv) || !handle
    ensures !WellShaped(sel, argv) ==>
      CommandSpec(st, handle, sel, argv) == Emit(st, Error(if IsTyped(sel) then TypedUsage else UntypedUsage))
    ensures WellShaped(sel, argv) && !handle ==>
      CommandSpec(st, handle, sel, argv) == Emit(st, Error(NotInitialized))
  {
  }

  /** A command issues itself, with the type string behind a space; a
      loadfile with arguments also stops playback and is remembered verbatim.
      Any other command leaves both untouched. */
  lemma CommandLoadfile(st: State, sel: Selector, argv: seq<Atom>)
    requires IsCommand(sel) && WellShaped(sel, argv)
    ensures var r := CommandSpec(st, true, sel, argv);
      var args, types := Stripped(sel, argv), TypesOf(sel, argv);
      && r.started == (if IsLoadfile(args) then false else st.started)
      && r.loadfileCmd == (if IsLoadfile(args) then args else st.loadfileCmd)
      && r.effects[|st.effects|] == CommandRequest(args, if types == "" then "" else " " + types)
  {
  }

  /** A property message with a value sets it; without one it gets it, in
      the format the type string asks for. No field changes. */
  lemma PropertySetOrGet(st: State, sel: Selector, argv: seq<Atom>)
    requires !IsCommand(sel) && WellShaped(sel, argv)
    ensures var args := Stripped(sel, argv);
      var r := CommandSpec(st, true, sel, argv);
      && SameFields(r, st)
      && r.effects[|st.effects|] ==
        if |args| > 1 then SetPropertyRequest(args[0].name, args[1..], TypesOf(sel, argv))
        else GetPropertyRequest(0, args[0].name, GetFormat(TypesOf(sel, argv)))
  {
  }

  /** The remembered command is empty or a loadfile with arguments. */
  predicate LoadfileInv(st: State) {
    st.loadfileCmd == [] || IsLoadfile(st.loadfileCmd)
  }

  /** Replaying the remembered loadfile re-issues it untyped and remembers the same command. */
  lemma ReplayLoadfile(st: State)
    requires IsLoadfile(st.loadfileCmd)
    ensures CommandSpec(st, true, Command, st.loadfileCmd) ==
      Emit(st.(started := false), CommandRequest(st.loadfileCmd, ""))
  {
  }

  // ---------------------------------------------------------------------
  // handle_prop_event and dimen_mess

  /** handle_prop_event: an INT64 "width" or "height" property updates the
      media size; every property is sent out of the property outlet. */
  function PropEventSpec(st: State, p: EventProperty): (r: State)
    requires p.name.Some?
    ensures r.mediaWidth == if p.name.value == "width" && PropFormat(p) == FInt64 then p.data.value.i else st.mediaWidth
    ensures r.mediaHeight == if p.name.value == "height" && PropFormat(p) == FInt64 then p.data.value.i else st.mediaHeight
    ensures r.effects == st.effects + [Outlet("property", PropAtoms(p))]
    ensures r == st.(mediaWidth := r.mediaWidth, mediaHeight := r.mediaHeight, effects := r.effects)
  {
    var st1 :=
      if p.name.value == "width" then
        (if PropFormat(p) == FInt64 then st.(mediaWidth := p.data.value.i) else st)
      else if p.name.value == "height" then
        (if PropFormat(p) == FInt64 then st.(mediaHeight := p.data.value.i) else st)
      else st;
    Emit(st1, Outlet("property", PropAtoms(p)))
  }

  /** dimen_mess: two negative sizes switch auto-resize on and ask the
      framebuffer for the media size; anything else switches it off and asks
      for the given size. */
  function DimenSpec(st: State, width: int, height: int): (r: State)
    ensures r.autoResize <==> width < 0 && height < 0
    ensures r.effects == st.effects +
      [if r.autoResize then FramebufferDim(st.mediaWidth, st.mediaHeight) else FramebufferDim(width, height)]
    ensures r == st.(autoResize := r.autoResize, effects := r.effects)
  {
    if width < 0 && height < 0 then
      Emit(st.(autoResize := true), FramebufferDim(st.mediaWidth, st.mediaHeight))
    else
      Emit(st.(autoResize := false), FramebufferDim(width, height))
  }

  // ---------------------------------------------------------------------
  // The event drain of render

  /** Property events carry a name (a failed reply's property is never read). */
  predicate EventWellFormed(e: Event) {
    match e
    case EvGetPropertyReply(err, p) => err != ERROR_SUCCESS || p.name.Some?
    case EvPropertyChange(p) => p.name.Some?
    case _ => true
  }

  predicate AllWellFormed(q: seq<Event>) {
    forall i :: 0 <= i < |q| ==> EventWellFormed(q[i])
  }

  function EventOut(name: string): Effect {
    Outlet("event", [Sym(name)])
  }

  /** The two position queries issued on each tick while playing. */
  const TimePosQuery: seq<Atom> := [Sym("d"), Sym("time-pos")]
  const PercentPosQuery: seq<Atom> := [Sym("d"), Sym("percent-pos")]

  /** One event of the drain loop. */
  function EventSpec(st: State, handle: bool, e: Event): (r: State)
    requires EventWellFormed(e)
    ensures r.eventFlag == (st.eventFlag && !e.EvNone?)
    ensures st.effects <= r.effects
  {
    match e
    case EvNone => st.(eventFlag := false)
    case EvLogMessage(msg) => st.(effects := st.effects + PostLog(msg))
    case EvGetPropertyReply(err, p) =>
      if err != ERROR_SUCCESS then Emit(st, Error(GetPropertyFailed)) else PropEventSpec(st, p)
    case EvStartFile => Emit(st.(started := false), EventOut("start"))
    case EvEndFile => Emit(st.(started := false), EventOut("end"))
    case EvFileLoaded =>
      st.(effects := st.effects + [EventOut("file_loaded"),
                                   GetPropertyRequest('w' as int, "width", FInt64),
                                   GetPropertyRequest('h' as int, "height", FInt64),
                                   GetPropertyRequest('d' as int, "duration", FDouble)])
    case EvTick =>
      var st1 := st.(newFrame := true);
      if st1.started then
        CommandSpec(CommandSpec(st1, handle, PropertyTyped, TimePosQuery), handle, PropertyTyped, PercentPosQuery)
      else st1
    case EvSeek => Emit(st.(started := true), EventOut("playback_restart"))
    case EvPlaybackRestart => Emit(st.(started := true), EventOut("playback_restart"))
    case EvPropertyChange(p) => PropEventSpec(st, p)
    case _ => st
  }

  /** What each event does, apart from TICK (see TickQueries): the outlet
      message it sends, the requests and posts it makes, and the fields it
      changes; every field not named stays as it was. */
  lemma EventOutcome(st: State, handle: bool, e: Event)
    requires EventWellFormed(e) && !e.EvTick?
    ensures var r := EventSpec(st, handle, e);
      match e
      case EvNone => r == st.(eventFlag := false)
      case EvLogMessage(msg) => r == st.(effects := st.effects + PostLog(msg))
      case EvGetPropertyReply(err, p) =>
        if err != ERROR_SUCCESS then r == st.(effects := st.effects + [Error(GetPropertyFailed)])
        else r == PropEventSpec(st, p)
      case EvStartFile => r == st.(started := false, effects := st.effects + [Outlet("event", [Sym("start")])])
      case EvEndFile => r == st.(started := false, effects := st.effects + [Outlet("event", [Sym("end")])])
      case EvFileLoaded => r == st.(effects := st.effects + [
          Outlet("event", [Sym("file_loaded")]),
          GetPropertyRequest('w' as int, "width", FInt64),
          GetPropertyRequest('h' as int, "height", FInt64),
          GetPropertyRequest('d' as int, "duration", FDouble)])
      case EvSeek => r == st.(started := true, effects := st.effects + [Outlet("event", [Sym("playback_restart")])])
      case EvPlaybackRestart =>
        r == st.(started := true, effects := st.effects + [Outlet("event", [Sym("playback_restart")])])
      case EvPropertyChange(p) => r == PropEventSpec(st, p)
      case _ => r == st
  {
  }

  /** File start and end stop playback, seek and restart start it; no other
      event touches the flag. */
  lemma EventStarted(st: State, handle: bool, e: Event)
    requires EventWellFormed(e)
    ensures EventSpec(st, handle, e).started ==
      if e.EvStartFile? || e.EvEndFile? then false
      else if e.EvSeek? || e.EvPlaybackRestart? then true
      else st.started
  {
  }

  /** A tick marks a new frame and, only while playing, asks for the playback
      position as a double, in time and in percent. */
  lemma TickQueries(st: State)
    ensures var r := EventSpec(st, true, EvTick);
      && r.newFrame
      && r == st.(newFrame := true, effects := r.effects)
      && r.effects == st.effects +
        if st.started then [GetPropertyRequest(0, "time-pos", FDouble), GetPropertyRequest(0, "percent-pos", FDouble)]
        else []
  {
  }

  /** mpv_wait_event with a zero timeout: the next queued event, or NONE. */
  function Wait(q: seq<Event>): (Event, seq<Event>) {
    if q == [] then (EvNone, []) else (q[0], q[1..])
  }

  /** The drain loop: while the handle exists, the event flag is up and the
      framebuffer is not being rebuilt, take the next event and handle it. */
  function Drain(st: State, handle: bool, modified: bool, q: seq<Event>): (r: (State, seq<Event>))
    requires AllWellFormed(q)
    ensures st.effects <= r.0.effects
    ensures |r.1| <= |q|
    decreases |q| + (if st.eventFlag then 1 else 0)
  {
    if !(handle && st.eventFlag && !modified) then (st, q)
    else
      var (e, rest) := Wait(q);
      Drain(EventSpec(st, handle, e), handle, modified, rest)
  }

  /** Taking an event from a well-formed queue leaves a well-formed event and queue. */
  lemma WaitWellFormed(q: seq<Event>)
    requires AllWellFormed(q)
    ensures AllWellFormed(Wait(q).1) && EventWellFormed(Wait(q).0)
    ensures |Wait(q).1| <= |q| && Wait(q).1 == q[|q| - |Wait(q).1|..]
  {
    if q != [] {
      forall i | 0 <= i < |q[1..]| ensures EventWellFormed(q[1..][i]) {
        assert q[1..][i] == q[i + 1];
      }
    }
  }

  lemma SuffixOfSuffix(q: seq<Event>, rest: seq<Event>, r: seq<Event>)
    requires |rest| <= |q| && rest == q[|q| - |rest|..]
    requires |r| <= |rest| && r == rest[|rest| - |r|..]
    ensures |r| <= |q| && r == q[|q| - |r|..]
  {
  }

  /** The drain takes events from the front only: what it leaves queued is a suffix of the queue. */
  lemma {:induction false} DrainLeavesSuffix(st: State, handle: bool, modified: bool, q: seq<Event>)
    requires AllWellFormed(q)
    ensures var rest := Drain(st, handle, modified, q).1; rest == q[|q| - |rest|..]
    decreases |q| + (if st.eventFlag then 1 else 0)
  {
    if handle && st.eventFlag && !modified {
      WaitWellFormed(q);
      var (e, rest) := Wait(q);
      DrainLeavesSuffix(EventSpec(st, handle, e), handle, modified, rest);
      SuffixOfSuffix(q, rest, Drain(EventSpec(st, handle, e), handle, modified, rest).1);
    }
  }

  /** One turn of the drain loop. */
  lemma DrainStep(st: State, handle: bool, modified: bool, q: seq<Event>, e: Event, rest: seq<Event>)
    requires AllWellFormed(q) && (e, rest) == Wait(q)
    requires handle && st.eventFlag && !modified
    ensures Drain(st, handle, modified, q) == Drain(EventSpec(st, handle, e), handle, modified, rest)
  {
  }

  /** Without a handle, or while the framebuffer is being rebuilt, nothing is drained. */
  lemma DrainBlocked(st: State, handle: bool, modified: bool, q: seq<Event>)
    requires AllWellFormed(q)
    requires !handle || modified
    ensures Drain(st, handle, modified, q) == (st, q)
  {
  }

  /** A drain that runs always ends with the event flag down. */
  lemma {:induction false} DrainLowersFlag(st: State, handle: bool, modified: bool, q: seq<Event>)
    requires AllWellFormed(q)
    requires handle && !modified
    ensures !Drain(st, handle, modified, q).0.eventFlag
    decreases |q| + (if st.eventFlag then 1 else 0)
  {
    if st.eventFlag {
      var (e, rest) := Wait(q);
      DrainLowersFlag(EventSpec(st, handle, e), handle, modified, rest);
    }
  }

  /** A NONE event ends the drain: whatever follows it stays queued. */
  lemma {:induction false} DrainStopsAtNone(st: State, handle: bool, modified: bool, a: seq<Event>, b: seq<Event>)
    requires AllWellFormed(a + [EvNone] + b)
    requires handle && !modified && st.eventFlag
    requires forall i :: 0 <= i < |a| ==> !a[i].EvNone?
    ensures Drain(st, handle, modified, a + [EvNone] + b).1 == b
    decreases |a|
  {
    var q := a + [EvNone] + b;
    if a == [] {
      assert q[0] == EvNone && q[1..] == b;
      var st1 := EventSpec(st, handle, EvNone);
      assert Drain(st, handle, modified, q) == Drain(st1, handle, modified, b);
    } else {
      assert q[0] == a[0] && q[1..] == a[1..] + [EvNone] + b;
      var st1 := EventSpec(st, handle, a[0]);
      assert AllWellFormed(q[1..]) by {
        forall i | 0 <= i < |q[1..]| ensures EventWellFormed(q[1..][i]) {
          assert q[1..][i] == q[i + 1];
        }
      }
      DrainStopsAtNone(st1, handle, modified, a[1..], b);
    }
  }

  // ---------------------------------------------------------------------
  // render after the drain, and postrender

  /** Auto-resize is on and the media size is not the framebuffer's. */
  predicate Resizes(st: State, width: int, height: int) {
    st.autoResize && (st.mediaWidth != width || st.mediaHeight != height)
  }

  /** Auto-resize with a size mismatch asks for the media size and schedules a
      reload; otherwise nothing happens. */
  function CheckResize(st: State, width: int, height: int): (r: State)
    ensures Resizes(st, width, height) ==>
      r == st.(reload := true, effects := st.effects + [FramebufferDim(st.mediaWidth, st.mediaHeight)])
    ensures !Resizes(st, width, height) ==> r == st
  {
    if Resizes(st, width, height) then
      Emit(st, FramebufferDim(st.mediaWidth, st.mediaHeight)).(reload := true)
    else st
  }

  /** A pending reload replays the remembered loadfile, if there is one,
      once the framebuffer is not being rebuilt; otherwise nothing happens. */
  function ReloadStage(st: State, handle: bool, modified: bool): (r: State)
    ensures st.effects <= r.effects
    ensures !(st.reload && !modified) ==> r == st
    ensures st.reload && !modified ==> !r.reload
    ensures st.reload && !modified && |st.loadfileCmd| <= 1 ==> r == st.(reload := false)
  {
    if st.reload && !modified then
      var st1 := st.(reload := false);
      if |st1.loadfileCmd| > 1 then CommandSpec(st1, handle, Command, st1.loadfileCmd) else st1
    else st
  }

  /** A pending reload is cleared, and replays the remembered loadfile only
      when one is remembered. */
  lemma ReloadReplays(st: State)
    requires LoadfileInv(st) && st.reload
    ensures ReloadStage(st, true, false) ==
      if st.loadfileCmd == [] then st.(reload := false)
      else st.(reload := false, started := false, effects := st.effects + [CommandRequest(st.loadfileCmd, "")])
  {
  }

  /** A waiting frame is drawn unless the framebuffer is being rebuilt; no field changes. */
  function DrawStage(st: State, modified: bool): (r: State)
    ensures r.effects == st.effects + (if st.newFrame && !modified then [FramebufferRender] else [])
    ensures r == st.(effects := r.effects)
  {
    if st.newFrame && !modified then Emit(st, FramebufferRender) else st
  }

  /** The state after render's drain loop. */
  function Drained(st: State, handle: bool, modified: bool, q: seq<Event>): State
    requires AllWellFormed(q)
  {
    Drain(st.(eventFlag := true), handle, modified, q).0
  }

  /** The framebuffer's modified flag after the resize step. The base class's
      dimMess runs only on a resize, and what it leaves the flag at is its own
      affair: `dimModified`. */
  function ModifiedAfterResize(st: State, width: int, height: int, modified: bool, dimModified: bool): bool {
    if Resizes(st, width, height) then dimModified else modified
  }

  /** render: raise the event flag, drain, resize, reload, draw. The drain
      reads the framebuffer's modified flag as it was; the reload and draw
      steps read it as the resize step leaves it. */
  function RenderSpec(st: State, handle: bool, modified: bool, dimModified: bool, width: int, height: int,
                      q: seq<Event>): (r: (State, seq<Event>))
    requires AllWellFormed(q)
    ensures st.effects <= r.0.effects
  {
    var (drained, rest) := Drain(st.(eventFlag := true), handle, modified, q);
    var m := ModifiedAfterResize(drained, width, height, modified, dimModified);
    (DrawStage(ReloadStage(CheckResize(drained, width, height), handle, m), m), rest)
  }

  /** A render pass is its drain followed by the steps after it. */
  lemma RenderAfterDrain(st: State, handle: bool, modified: bool, dimModified: bool, width: int, height: int,
                         q: seq<Event>, drained: State, rest: seq<Event>)
    requires AllWellFormed(q) && (drained, rest) == Drain(st.(eventFlag := true), handle, modified, q)
    ensures drained == Drained(st, handle, modified, q)
    ensures var m := ModifiedAfterResize(drained, width, height, modified, dimModified);
      RenderSpec(st, handle, modified, dimModified, width, height, q) ==
        (DrawStage(ReloadStage(CheckResize(drained, width, height), handle, m), m), rest)
  {
  }

  /** After a render that leaves the framebuffer unmodified no reload is
      pending; while it is modified a pending reload is kept, and a size
      mismatch under auto-resize adds one. */
  lemma RenderReload(st: State, handle: bool, modified: bool, dimModified: bool, width: int, height: int,
                     q: seq<Event>)
    requires AllWellFormed(q)
    ensures var d := Drained(st, handle, modified, q);
      var m := ModifiedAfterResize(d, width, height, modified, dimModified);
      var r := RenderSpec(st, handle, modified, dimModified, width, height, q).0;
      r.reload == (m && (d.reload || Resizes(d, width, height)))
  {
  }

  /** With auto-resize on, a media size that differs from the framebuffer's
      resizes the framebuffer. If the resize leaves it unmodified, the
      remembered file is reloaded at once; if the resize marks it modified,
      the reload stays pending and nothing is drawn in this pass. */
  lemma ResizeReloads(st: State, dimModified: bool, width: int, height: int, q: seq<Event>)
    requires AllWellFormed(q)
    requires var d := Drained(st, true, false, q);
      Resizes(d, width, height) && IsLoadfile(d.loadfileCmd)
    ensures var d := Drained(st, true, false, q);
      var r := RenderSpec(st, true, false, dimModified, width, height, q).0;
      if dimModified then
        r == d.(reload := true, effects := d.effects + [FramebufferDim(d.mediaWidth, d.mediaHeight)])
      else
        && !r.reload && !r.started
        && r.loadfileCmd == d.loadfileCmd
        && r.effects == d.effects
          + [FramebufferDim(d.mediaWidth, d.mediaHeight), CommandRequest(d.loadfileCmd, "")]
          + (if d.newFrame then [FramebufferRender] else [])
  {
  }

  /** postrender: a drawn frame is handed to the framebuffer once. */
  function PostrenderSpec(st: State): (r: State)
    ensures !r.newFrame
    ensures r.effects == st.effects + (if st.newFrame then [FramebufferPostrender] else [])
    ensures r == st.(newFrame := false, effects := r.effects)
  {
    if st.newFrame then Emit(st, FramebufferPostrender).(newFrame := false) else st
  }

  // ---------------------------------------------------------------------
  // The remembered loadfile stays a loadfile

  lemma CommandKeepsLoadfileInv(st: State, handle: bool, sel: Selector, argv: seq<Atom>)
    requires LoadfileInv(st)
    ensures LoadfileInv(CommandSpec(st, handle, sel, argv))
  {
  }

  lemma EventKeepsLoadfileInv(st: State, handle: bool, e: Event)
    requires EventWellFormed(e) && LoadfileInv(st)
    ensures LoadfileInv(EventSpec(st, handle, e))
  {
  }

  lemma {:induction false} DrainKeepsLoadfileInv(st: State, handle: bool, modified: bool, q: seq<Event>)
    requires AllWellFormed(q) && LoadfileInv(st)
    ensures LoadfileInv(Drain(st, handle, modified, q).0)
    decreases |q| + (if st.eventFlag then 1 else 0)
  {
    if handle && st.eventFlag && !modified {
      var (e, rest) := Wait(q);
      EventKeepsLoadfileInv(st, handle, e);
      DrainKeepsLoadfileInv(EventSpec(st, handle, e), handle, modified, rest);
    }
  }

  /** Every render keeps the remembered command a loadfile with arguments, or empty. */
  lemma RenderKeepsLoadfileInv(st: State, handle: bool, modified: bool, dimModified: bool, width: int, height: int,
                               q: seq<Event>)
    requires AllWellFormed(q) && LoadfileInv(st)
    ensures LoadfileInv(RenderSpec(st, handle, modified, dimModified, width, height, q).0)
  {
    DrainKeepsLoadfileInv(st.(eventFlag := true), handle, modified, q);
    var (d, rest) := Drain(st.(eventFlag := true), handle, modified, q);
    RenderAfterDrain(st, handle, modified, dimModified, width, height, q, d, rest);
    var m := ModifiedAfterResize(d, width, height, modified, dimModified);
    var c := CheckResize(d, width, height);
    if c.reload && !m && |c.loadfileCmd| > 1 {
      CommandKeepsLoadfileInv(c.(reload := false), handle, Command, c.loadfileCmd);
    }
    assert LoadfileInv(ReloadStage(c, handle, m));
  }
}
