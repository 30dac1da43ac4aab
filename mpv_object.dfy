/** The mpv object: its handlers update its fields in place and append what
    they do to the world to `effects`. Each handler is proved to move the
    object exactly as the matching function of MpvMachine moves a State. */
module MpvObject {
  import opened MpvValues
  import opened NodeAtoms
  import opened MpvLog
  import opened MpvMachine

  class Mpv {
    /** Whether the engine handle was created. */
    const hasHandle: bool

    var started: bool
    var newFrame: bool
    var reload: bool
    var autoResize: bool
    var mediaWidth: int
    var mediaHeight: int
    var loadfileCmd: seq<Atom>
    var eventFlag: bool
    var effects: seq<Effect>

    // State of the framebuffer base class; read here, changed only by it.
    var modified: bool
    var width: int
    var height: int

    /** The engine's pending events. */
    var queue: seq<Event>

    function Snapshot(): State
      reads this
    {
      State(started, newFrame, reload, autoResize, mediaWidth, mediaHeight, loadfileCmd, eventFlag, effects)
    }

    /** The engine's answers to the setup calls are inputs: whether the handle
        was created, whether it initialized and whether it took the libmpv
        video output. */
    constructor (created: bool, initOk: bool, voOk: bool, fbWidth: int, fbHeight: int)
      ensures hasHandle == created && width == fbWidth && height == fbHeight
      ensures !modified && queue == []
      ensures Snapshot() == State(false, false, false, false, 0, 0, [], false, SetupErrors(created, initOk, voOk))
    {
      hasHandle := created;
      started, newFrame, reload, autoResize := false, false, false, false;
      mediaWidth, mediaHeight := 0, 0;
      loadfileCmd := [];
      eventFlag := false;
      effects := [];
      if !created {
        effects := effects + [Error(ContextInitFailed)];
      } else {
        if !initOk {
          effects := effects + [Error(InitFailed)];
        }
        if !voOk {
          effects := effects + [Error(SetVoFailed)];
        }
      }
      modified := false;
      width, height := fbWidth, fbHeight;
      queue := [];
    }

    /** command_mess */
    method CommandMess(sel: Selector, argv: seq<Atom>)
      modifies this`started, this`loadfileCmd, this`effects
      ensures Snapshot() == CommandSpec(old(Snapshot()), hasHandle, sel, argv)
    {
      var types := "";
      var args := argv;
      if IsTyped(sel) {
        if |args| < 2 || !args[0].Sym? || !args[1].Sym? {
          effects := effects + [Error(TypedUsage)];
          return;
        }
        types := args[0].name;
        args := args[1..];
      } else if |args| == 0 || !args[0].Sym? {
        effects := effects + [Error(UntypedUsage)];
        return;
      }
      assert WellShaped(sel, argv) && args == Stripped(sel, argv) && types == TypesOf(sel, argv);
      if !hasHandle {
        effects := effects + [Error(NotInitialized)];
        return;
      }
      if IsCommand(sel) {
        if types != "" {
          types := " " + types;
        }
        if |args| > 1 && args[0].Sym? && args[0].name == "loadfile" {
          started := false;
          // remember the command, atom by atom, to reload the file later
          loadfileCmd := [];
          var i := 0;
          while i < |args|
            invariant 0 <= i <= |args|
            invariant loadfileCmd == args[..i]
            modifies this`loadfileCmd
          {
            loadfileCmd := loadfileCmd + [args[i]];
            i := i + 1;
          }
          assert args[..|args|] == args;
        }
        effects := effects + [CommandRequest(args, types)];
      } else {
        var name := args[0].name;
        args := args[1..];
        if |args| > 0 {
          effects := effects + [SetPropertyRequest(name, args, types)];
        } else {
          var format := FDouble;
          if types != "" {
            match types[0]
            case 'b' => format := FFlag;
            case 'i' => format := FInt64;
            case 's' => format := FString;
            case _ => format := FDouble;
          }
          assert format == GetFormat(types);
          effects := effects + [GetPropertyRequest(0, name, format)];
        }
      }
    }

    /** handle_prop_event */
    method HandlePropEvent(p: EventProperty)
      requires p.name.Some?
      modifies this`mediaWidth, this`mediaHeight, this`effects
      ensures Snapshot() == PropEventSpec(old(Snapshot()), p)
    {
      if p.name.value == "width" {
        if p.data.Some? && p.data.value.PInt64? {
          mediaWidth := p.data.value.i;
        }
      } else if p.name.value == "height" {
        if p.data.Some? && p.data.value.PInt64? {
          mediaHeight := p.data.value.i;
        }
      }
      var a := PropToAtom(p, []);
      assert a == PropAtoms(p);
      effects := effects + [Outlet("property", a)];
    }

    /** dimen_mess */
    method DimenMess(w: int, h: int)
      modifies this`autoResize, this`effects
      ensures Snapshot() == DimenSpec(old(Snapshot()), w, h)
    {
      if w < 0 && h < 0 {
        autoResize := true;
        effects := effects + [FramebufferDim(mediaWidth, mediaHeight)];
      } else {
        autoResize := false;
        effects := effects + [FramebufferDim(w, h)];
      }
    }

    /** mpv_wait_event with a zero timeout. */
    method WaitEvent() returns (e: Event)
      modifies this`queue
      ensures (e, queue) == Wait(old(queue))
    {
      if queue == [] {
        e := EvNone;
      } else {
        e := queue[0];
        queue := queue[1..];
      }
    }

    /** The body of render's drain loop: one event. */
    method DispatchEvent(e: Event)
      requires EventWellFormed(e)
      modifies this`started, this`newFrame, this`eventFlag, this`mediaWidth, this`mediaHeight,
        this`loadfileCmd, this`effects
      ensures Snapshot() == EventSpec(old(Snapshot()), hasHandle, e)
    {
      match e
      case EvNone =>
        eventFlag := false;
      case EvLogMessage(msg) =>
        effects := effects + PostLog(msg);
      case EvGetPropertyReply(err, p) =>
        if err != ERROR_SUCCESS {
          effects := effects + [Error(GetPropertyFailed)];
        } else {
          HandlePropEvent(p);
        }
      case EvStartFile =>
        started := false;
        effects := effects + [Outlet("event", [Sym("start")])];
      case EvEndFile =>
        started := false;
        effects := effects + [Outlet("event", [Sym("end")])];
      case EvFileLoaded =>
        effects := effects + [Outlet("event", [Sym("file_loaded")])];
        // observed properties may have been missed: ask for them again
        effects := effects + [GetPropertyRequest('w' as int, "width", FInt64)];
        effects := effects + [GetPropertyRequest('h' as int, "height", FInt64)];
        effects := effects + [GetPropertyRequest('d' as int, "duration", FDouble)];
      case EvTick =>
        newFrame := true;
        if started {
          CommandMess(PropertyTyped, [Sym("d"), Sym("time-pos")]);
          CommandMess(PropertyTyped, [Sym("d"), Sym("percent-pos")]);
        }
      case EvSeek =>
        started := true;
        effects := effects + [Outlet("event", [Sym("playback_restart")])];
      case EvPlaybackRestart =>
        started := true;
        effects := effects + [Outlet("event", [Sym("playback_restart")])];
      case EvPropertyChange(p) =>
        HandlePropEvent(p);
      case EvShutdown =>
      case EvSetPropertyReply =>
      case EvCommandReply =>
      case EvIdle =>
      case EvClientMessage =>
      case EvVideoReconfig =>
      case EvAudioReconfig =>
      case EvQueueOverflow =>
      case EvOther(_) =>
    }

    /** One turn of render's drain loop: take the next event and handle it. */
    method DrainOnce() returns (e: Event)
      requires AllWellFormed(queue)
      modifies this`started, this`newFrame, this`eventFlag, this`mediaWidth, this`mediaHeight,
        this`loadfileCmd, this`effects, this`queue
      ensures (e, queue) == Wait(old(queue)) && AllWellFormed(queue) && EventWellFormed(e)
      ensures Snapshot() == EventSpec(old(Snapshot()), hasHandle, e)
      ensures |queue| + (if eventFlag then 1 else 0) < |old(queue)| + 1
    {
      ghost var q := queue;
      e := WaitEvent();
      assert AllWellFormed(queue) && EventWellFormed(e) by {
        if q != [] {
          forall i | 0 <= i < |queue| ensures EventWellFormed(queue[i]) {
            assert queue[i] == q[i + 1];
          }
        }
      }
      DispatchEvent(e);
    }

    /** The drain loop of render. */
    method DrainEvents()
      requires AllWellFormed(queue)
      modifies this`started, this`newFrame, this`eventFlag, this`mediaWidth, this`mediaHeight,
        this`loadfileCmd, this`effects, this`queue
      ensures (Snapshot(), queue) == Drain(old(Snapshot()), hasHandle, modified, old(queue))
    {
      while hasHandle && eventFlag && !modified
        invariant AllWellFormed(queue)
        invariant Drain(Snapshot(), hasHandle, modified, queue) == Drain(old(Snapshot()), hasHandle, modified, old(queue))
        decreases |queue| + (if eventFlag then 1 else 0)
      {
        ghost var before, q := Snapshot(), queue;
        var e := DrainOnce();
        DrainStep(before, hasHandle, modified, q, e, queue);
      }
    }

    /** What render does after the drain: follow the media size, reload the
        file if needed, then draw a new frame. The base class's dimMess may
        mark the framebuffer modified; `dimModified` is what it leaves. */
    method ResizeReloadDraw(dimModified: bool)
      modifies this`started, this`reload, this`loadfileCmd, this`effects, this`modified
      ensures modified == ModifiedAfterResize(old(Snapshot()), width, height, old(modified), dimModified)
      ensures Snapshot() == DrawStage(ReloadStage(CheckResize(old(Snapshot()), width, height), hasHandle, modified), modified)
    {
      if autoResize && (mediaWidth != width || mediaHeight != height) {
        effects := effects + [FramebufferDim(mediaWidth, mediaHeight)];
        modified := dimModified;
        reload := true;
      }
      ghost var resized := Snapshot();
      assert resized == CheckResize(old(Snapshot()), width, height);
      Reload();
      if newFrame && !modified {
        effects := effects + [FramebufferRender];
      }
    }

    /** The reload step of render: replay the remembered loadfile once the
        framebuffer is no longer being rebuilt. */
    method Reload()
      modifies this`started, this`reload, this`loadfileCmd, this`effects
      ensures Snapshot() == ReloadStage(old(Snapshot()), hasHandle, modified)
    {
      if reload && !modified {
        reload := false;
        // reload the file when the size changed
        if |loadfileCmd| > 1 {
          CommandMess(Command, loadfileCmd);
        }
      }
    }

    /** The start of render: raise the event flag, then drain the events. */
    method RaiseAndDrain()
      requires AllWellFormed(queue)
      modifies this`started, this`newFrame, this`eventFlag, this`mediaWidth, this`mediaHeight,
        this`loadfileCmd, this`effects, this`queue
      ensures (Snapshot(), queue) == Drain(old(Snapshot()).(eventFlag := true), hasHandle, modified, old(queue))
    {
      eventFlag := true;
      DrainEvents();
    }

    /** render, without the drawing itself. */
    method Render(dimModified: bool)
      requires AllWellFormed(queue)
      modifies this`started, this`newFrame, this`reload, this`eventFlag, this`mediaWidth, this`mediaHeight,
        this`loadfileCmd, this`effects, this`queue, this`modified
      ensures (Snapshot(), queue) == RenderSpec(old(Snapshot()), hasHandle, old(modified), dimModified, width, height, old(queue))
      ensures modified ==
        ModifiedAfterResize(Drained(old(Snapshot()), hasHandle, old(modified), old(queue)), width, height, old(modified), dimModified)
    {
      ghost var s0, q0, m0 := Snapshot(), queue, modified;
      RaiseAndDrain();
      ghost var drained, rest := Snapshot(), queue;
      ResizeReloadDraw(dimModified);
      RenderAfterDrain(s0, hasHandle, m0, dimModified, width, height, q0, drained, rest);
    }

    /** postrender */
    method Postrender()
      modifies this`newFrame, this`effects
      ensures Snapshot() == PostrenderSpec(old(Snapshot()))
    {
      if newFrame {
        effects := effects + [FramebufferPostrender];
        newFrame := false;
      }
    }
  }
}
