/** The values that cross the mpv object: host message atoms, the media engine's
    nodes, property payloads and events, and the effects the object produces
    (engine requests, outlet messages, console errors and log posts). */
module MpvValues {

  datatype Option<+T> = None | Some(value: T)

  /** A host message atom: a symbol or a number. Numbers are kept exact; the
      host's single-precision float is not modelled. */
  datatype Atom = Sym(name: string) | Float(value: real)

  /** The engine's value formats (mpv_format). */
  datatype Format =
    | FNone | FString | FOsdString | FFlag | FInt64 | FDouble
    | FNode | FNodeArray | FNodeMap | FByteArray

  /** An engine node (mpv_node): a tagged union whose arrays and maps hold
      further nodes. A flag is 0 or 1 in the engine, so it is a bool here. */
  datatype Node =
    | NNone
    | NString(s: string)
    | NOsdString(s: string)
    | NFlag(flag: bool)
    | NInt64(i: int)
    | NDouble(d: real)
    | NArray(values: seq<Node>)
    | NMap(keys: seq<string>, values: seq<Node>)
    | NByteArray(bytes: seq<bv8>)
    | NNode   // a node whose own tag says "node"; it carries no value

  /** The non-null data of a property event, typed by its format. */
  datatype Payload =
    | PString(s: string)
    | POsdString(s: string)
    | PFlag(flag: bool)
    | PInt64(i: int)
    | PDouble(d: real)
    | PNode(node: Node)
    | PNodeArray(values: seq<Node>)
    | PNodeMap(keys: seq<string>, values: seq<Node>)
    | PByteArray(bytes: seq<bv8>)

  /** A property event (mpv_event_property). The engine reports format NONE
      exactly when the data pointer is null, so the format is the payload's. */
  datatype EventProperty = EventProperty(name: Option<string>, data: Option<Payload>)

  function PayloadFormat(p: Payload): Format {
    match p
    case PString(_) => FString
    case POsdString(_) => FOsdString
    case PFlag(_) => FFlag
    case PInt64(_) => FInt64
    case PDouble(_) => FDouble
    case PNode(_) => FNode
    case PNodeArray(_) => FNodeArray
    case PNodeMap(_, _) => FNodeMap
    case PByteArray(_) => FByteArray
  }

  function PropFormat(p: EventProperty): Format {
    if p.data.None? then FNone else PayloadFormat(p.data.value)
  }

  /** A log message from the engine: its prefix, level name, text and numeric level. */
  datatype LogMessage = LogMessage(prefix: string, level: string, text: string, logLevel: int)

  /** The events the engine's event queue can deliver. */
  datatype Event =
    | EvNone
    | EvShutdown
    | EvLogMessage(msg: LogMessage)
    | EvGetPropertyReply(error: int, prop: EventProperty)
    | EvSetPropertyReply
    | EvCommandReply
    | EvStartFile
    | EvEndFile
    | EvFileLoaded
    | EvIdle
    | EvTick
    | EvClientMessage
    | EvVideoReconfig
    | EvAudioReconfig
    | EvSeek
    | EvPlaybackRestart
    | EvPropertyChange(prop: EventProperty)
    | EvQueueOverflow
    | EvOther(id: int)   // an event id the object has no case for

  /** The engine's success code. */
  const ERROR_SUCCESS: int := 0

  /** The errors the object reports on the host console. */
  datatype ErrorKind =
    | TypedUsage        // command_typed|property_typed <types> <command> <arguments...>
    | UntypedUsage      // command|property <command> <arguments...>
    | NotInitialized    // no engine handle
    | GetPropertyFailed // a property reply carried an error
    | ContextInitFailed // the engine handle could not be created
    | InitFailed        // the engine did not initialize
    | SetVoFailed       // the engine refused the libmpv video output

  /** Everything the object does to the world, in order. */
  datatype Effect =
    | Error(kind: ErrorKind)
    | LogPost(level: int, prefix: string, levelName: string, text: string)
    | Outlet(selector: string, atoms: seq<Atom>)
    | CommandRequest(args: seq<Atom>, types: string)
    | SetPropertyRequest(name: string, args: seq<Atom>, types: string)
    | GetPropertyRequest(userdata: int, name: string, format: Format)
    | FramebufferDim(width: int, height: int)
    | FramebufferRender
    | FramebufferPostrender
}
