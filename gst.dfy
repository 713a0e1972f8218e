/** The GStreamer (and MediaPlayInfo) vocabulary shared by the pipelines:
    element states, bus messages and media descriptors. Native objects are
    reduced to identities; only what the core inspects is kept. */
module Gst {

  /** Identity of a GStreamer object (an element, a pipeline). */
  type ObjectId = nat

  /** The subset of GstState the core requests or inspects. */
  datatype State = VoidPending | Null | Ready | Paused | Playing

  /** The bus message types the core distinguishes; everything else is
      `Application` (posted by tests) or `Other`. */
  datatype MessageKind =
    | Error(error: string, debug: string)
    | Eos
    | StateChanged(oldState: State, newState: State, pending: State)
    | NeedContext(contextType: string)
    | Application
    | Other

  /** A bus message: a unique id (its reference), its source, its payload. */
  datatype Message = Message(id: nat, src: ObjectId, kind: MessageKind)

  /** The answer of a bus sync handler (GstBusSyncReply). */
  datatype BusReply = Drop | Pass | Async

  /** MediaPlayInfo::Type. */
  datatype MediaType = Video | Image | Test

  /** MediaPlayInfo: what to play. `location` is a path or a test-pattern
      name; `durationNs` is std::chrono::nanoseconds (signed). */
  datatype MediaPlayInfo = MediaPlayInfo(
    mediaType: MediaType,
    location: string,
    durationNs: int,
    fadeNs: int,
    loop: bool)
}
