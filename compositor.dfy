/** Compositor.cpp: the bus reaction of the compositing pipeline, its
    need-context answers and the per-sample callback of its appsink. GL
    objects are reduced to identities and buffers to the fields the
    callback reads; whether the native video-frame map succeeds is a
    parameter. */
module Compositor {
  import opened Gst
  import opened Wrappers

  /** A GstGLContext, a GstGLDisplay. */
  type ContextId = nat
  type DisplayId = nat

  /** A raw pointer member: either never assigned, so its value is
      indeterminate, or pointing at an object. */
  datatype Pointer<T> = Indeterminate | PointsTo(target: T)

  /** The video meta of a buffer, and the GstVideoInfo built from it. */
  datatype VideoInfo = VideoInfo(format: nat, width: nat, height: nat)

  /** A composed GstBuffer: its identity, the GL context of its first
      memory, its video meta, and whether it carries GstGLSyncMeta. */
  datatype Buffer = Buffer(id: nat, memoryContext: ContextId, meta: VideoInfo, hasSyncMeta: bool)

  /** A GstContext set on an element. */
  datatype Context = DisplayContext(display: Pointer<DisplayId>) | AppContext(context: Pointer<ContextId>)

  /** GstFlowReturn values the callback returns. */
  datatype FlowReturn = FlowOk | FlowFlushing | FlowError

  /** The compositor's Qt signals. */
  datatype Signal = VideoInfos(info: VideoInfo) | NewFrame(buffer: Buffer)

  /** Requests made of GStreamer, and log records, in order. */
  datatype Effect =
    | LogInfo(text: string)
    | LogDebug(text: string)
    | LogError(text: string)
    | SetState(state: State)
    | SetContext(element: ObjectId, context: Context)
    | SetSyncPoint(buffer: nat, glContext: ContextId)

  /** GST_GL_DISPLAY_CONTEXT_TYPE. */
  const GlDisplayContextType: string := "gst.gl.GLDisplay"
  const AppContextType: string := "gst.gl.app_context"

  /** The context the compositor answers a need-context request with. */
  function ContextFor(contextType: string, display: Pointer<DisplayId>, context: Pointer<ContextId>): (c: Option<Context>)
    ensures c == Some(DisplayContext(display)) <==> contextType == GlDisplayContextType
    ensures c == Some(AppContext(context)) <==> contextType == AppContextType
    ensures c == None <==> contextType != GlDisplayContextType && contextType != AppContextType
  {
    if contextType == GlDisplayContextType then Some(DisplayContext(display))
    else if contextType == AppContextType then Some(AppContext(context))
    else None
  }

  /** How many VideoInfos signals are in a signal history. */
  function VideoInfosCount(signals: seq<Signal>): (n: nat)
    ensures n <= |signals|
  {
    if signals == [] then 0
    else VideoInfosCount(signals[..|signals| - 1])
         + (if signals[|signals| - 1].VideoInfos? then 1 else 0)
  }

  /** The count is 0 exactly when no videoInfos signal is in the history. */
  lemma {:induction false} VideoInfosCountZero(signals: seq<Signal>)
    ensures VideoInfosCount(signals) == 0 <==> forall i :: 0 <= i < |signals| ==> !signals[i].VideoInfos?
  {
    if signals != [] {
      var init := signals[..|signals| - 1];
      VideoInfosCountZero(init);
      assert forall i :: 0 <= i < |init| ==> init[i] == signals[i];
    }
  }

  lemma VideoInfosCountAppend(signals: seq<Signal>, s: Signal)
    ensures VideoInfosCount(signals + [s]) == VideoInfosCount(signals) + (if s.VideoInfos? then 1 else 0)
  {
    assert (signals + [s])[..|signals|] == signals;
  }

  class Compositor {
    /** d_pipeline's object identity. */
    const id: ObjectId
    /** d_display and d_context: declared without an initialiser and
        assigned nowhere, so they stay indeterminate; the need-context
        answers pass them on as they are. */
    const display: Pointer<DisplayId>
    const context: Pointer<ContextId>
    /** d_gstContext: the GL context of the composed buffers. */
    var gstContext: Option<ContextId>
    /** d_infos. */
    var infos: Option<VideoInfo>
    var signals: seq<Signal>
    var effects: seq<Effect>

    /** The GL context and the video info are captured together, by the
        first sample; videoInfos was emitted once if they are, never
        otherwise. */
    ghost predicate Valid()
      reads this
    {
      && (gstContext.Some? <==> infos.Some?)
      && VideoInfosCount(signals) == (if infos.Some? then 1 else 0)
    }

    constructor Init(id: ObjectId)
      ensures Valid() && this.id == id && display == Indeterminate && context == Indeterminate
      ensures gstContext == None && infos == None && signals == [] && effects == []
    {
      this.id, display, context := id, Indeterminate, Indeterminate;
      gstContext, infos := None, None;
      signals, effects := [], [];
    }

    /** start(media, layer) has an empty body. */
    method Start(media: MediaPlayInfo, layer: int)
      ensures unchanged(this)
    {
    }

    /** onMessage: EOS is only logged, ERROR is logged and sets the
        pipeline to NULL, anything else is ignored. */
    method OnMessage(msg: Message)
      modifies this`effects
      ensures msg.kind.Eos? ==> effects == old(effects) + [LogInfo("EOS")]
      ensures msg.kind.Error? ==> effects == old(effects) + [LogError("GStreamer Error"), SetState(Null)]
      ensures !msg.kind.Eos? && !msg.kind.Error? ==> effects == old(effects)
    {
      match msg.kind {
        case Eos =>
          effects := effects + [LogInfo("EOS")];
        case Error(_, _) =>
          effects := effects + [LogError("GStreamer Error")];
          effects := effects + [SetState(Null)];
        case _ =>
      }
    }

    /** onSyncMessageCb: acts only on NEED_CONTEXT, setting on the asking
        element the display context or the application context it names;
        it always returns false. */
    method OnSyncMessage(msg: Message) returns (handled: bool)
      modifies this`effects
      ensures !handled
      ensures !msg.kind.NeedContext? ==> effects == old(effects)
      ensures msg.kind.NeedContext? ==>
                var t := msg.kind.contextType;
                effects == old(effects) + [LogInfo("Gstreamer need context")]
                  + (if t == AppContextType then [LogDebug("GstGL Objects")] else [])
                  + match ContextFor(t, display, context)
                    case Some(c) => [SetContext(msg.src, c)]
                    case None => []
    {
      if !msg.kind.NeedContext? {
        return false;
      }
      var contextType := msg.kind.contextType;
      effects := effects + [LogInfo("Gstreamer need context")];
      if contextType == GlDisplayContextType {
        effects := effects + [SetContext(msg.src, DisplayContext(display))];
      } else if contextType == AppContextType {
        effects := effects + [LogDebug("GstGL Objects")];
        effects := effects + [SetContext(msg.src, AppContext(context))];
      }
      return false;
    }

    /** The first-sample part of onNewSampleCb: the GL context of the
        buffer's memory and the video info of its meta are captured, once,
        and videoInfos is emitted then. */
    method CaptureFormat(buffer: Buffer)
      requires Valid()
      modifies this`gstContext, this`infos, this`signals, this`effects
      ensures Valid()
      ensures gstContext == Some(old(gstContext).GetOr(buffer.memoryContext))
      ensures infos == Some(old(infos).GetOr(buffer.meta))
      ensures signals == old(signals) + (if old(infos).None? then [VideoInfos(buffer.meta)] else [])
      ensures effects == old(effects) + (if old(infos).None? then [LogInfo("got format")] else [])
    {
      if gstContext.None? {
        gstContext := Some(buffer.memoryContext);
      }
      if infos.None? {
        infos := Some(buffer.meta);
        effects := effects + [LogInfo("got format")];
        VideoInfosCountAppend(signals, VideoInfos(buffer.meta));
        signals := signals + [VideoInfos(buffer.meta)];
      } else {
        assert signals + [] == signals && effects + [] == effects;
      }
    }

    /** onNewSampleCb. A null sample gives FLUSHING and changes nothing.
        Otherwise: the first sample fixes the GL context and the video info
        (and emits videoInfos); the buffer gets sync meta if it has none and
        a sync point is set; a failed map gives FLOW_ERROR, a successful one
        emits exactly one newFrame and gives OK. */
    method OnNewSample(sample: Option<Buffer>, mapOk: bool) returns (ret: FlowReturn)
      requires Valid()
      modifies this`gstContext, this`infos, this`signals, this`effects
      ensures Valid()
      ensures sample.None? ==>
                ret == FlowFlushing && gstContext == old(gstContext) && infos == old(infos)
                && signals == old(signals) && effects == old(effects)
      ensures sample.Some? ==> gstContext == Some(old(gstContext).GetOr(sample.value.memoryContext))
      ensures sample.Some? ==> infos == Some(old(infos).GetOr(sample.value.meta))
      ensures sample.Some? ==> ret == (if mapOk then FlowOk else FlowError)
      ensures sample.Some? ==>
                signals == old(signals)
                  + (if old(infos).None? then [VideoInfos(sample.value.meta)] else [])
                  + (if mapOk then [NewFrame(sample.value.(hasSyncMeta := true))] else [])
      ensures sample.Some? ==>
                effects == old(effects)
                  + (if old(infos).None? then [LogInfo("got format")] else [])
                  + [SetSyncPoint(sample.value.id, gstContext.value)]
                  + (if mapOk then [] else [LogError("failed to map video buffer")])
    {
      if sample.None? {
        return FlowFlushing;
      }
      CaptureFormat(sample.value);
      ret := SyncAndMap(sample.value, mapOk);
    }

    /** The rest of onNewSampleCb, once the format is known: the buffer
        gets sync meta if it has none and a sync point in the captured
        context; a failed map gives FLOW_ERROR, a successful one emits one
        newFrame of the synced buffer and gives OK. */
    method SyncAndMap(buffer: Buffer, mapOk: bool) returns (ret: FlowReturn)
      requires Valid() && gstContext.Some?
      modifies this`signals, this`effects
      ensures Valid()
      ensures ret == (if mapOk then FlowOk else FlowError)
      ensures signals == old(signals) + (if mapOk then [NewFrame(buffer.(hasSyncMeta := true))] else [])
      ensures effects == old(effects) + [SetSyncPoint(buffer.id, gstContext.value)]
                         + (if mapOk then [] else [LogError("failed to map video buffer")])
    {
      var buffer := buffer;
      if !buffer.hasSyncMeta {
        buffer := buffer.(hasSyncMeta := true);
      }
      effects := effects + [SetSyncPoint(buffer.id, gstContext.value)];
      if !mapOk {
        effects := effects + [LogError("failed to map video buffer")];
        assert signals == old(signals) + [];
        return FlowError;
      }
      assert effects == old(effects) + [SetSyncPoint(buffer.id, gstContext.value)] + [];
      VideoInfosCountAppend(signals, NewFrame(buffer));
      signals := signals + [NewFrame(buffer)];
      return FlowOk;
    }
  }

  /** videoInfos is emitted once over a run of samples, even when a map
      fails in between, and later samples keep the first GL context. */
  method FirstSampleFixesFormat(first: Buffer, second: Buffer, third: Buffer)
    returns (infosSignals: nat, frames: seq<Signal>, results: seq<FlowReturn>, ctx: Option<ContextId>)
    ensures infosSignals == 1 && ctx == Some(first.memoryContext)
    ensures results == [FlowOk, FlowError, FlowOk]
    ensures frames == [VideoInfos(first.meta), NewFrame(first.(hasSyncMeta := true)),
                       NewFrame(third.(hasSyncMeta := true))]
  {
    var c := new Compositor.Init(0);
    var r1 := c.OnNewSample(Some(first), true);
    var r2 := c.OnNewSample(Some(second), false);
    var r3 := c.OnNewSample(Some(third), true);
    var r4 := c.OnNewSample(None, true);
    infosSignals := VideoInfosCount(c.signals);
    frames, results, ctx := c.signals, [r1, r2, r3], c.gstContext;
  }
}
