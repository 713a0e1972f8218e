/** MediaPipeline.cpp: the per-input playback state machine. A
    MediaPipeline keeps a queue and a proxysink permanently in its bin; each
    play adds and links the three elements of a file/image or a test-pattern
    sub-graph in front of the queue, and reset removes exactly the set of
    the media type that was recorded. Element linking and the native state
    change are outside the model: whether linking succeeds is a parameter,
    and every request made of GStreamer or emitted as a Qt signal is
    recorded, in order, as an Effect. */
module MediaPipeline {
  import opened Gst
  import opened Wrappers
  import Fractional
  import opened Arithmetic

  /** The elements a MediaPipeline creates in its constructor. */
  datatype Element =
    | FileSource | DecodeBin | DecodeCapsfilter
    | TestSource | TestCapsfilter | TimeOverlay
    | Queue | ProxySink

  /** The elements that stay in the bin for the pipeline's whole life. */
  const Permanent: set<Element> := {Queue, ProxySink}

  /** The type-specific sub-graph added by play and removed by reset. */
  function ElementsOf(t: MediaType): (es: set<Element>)
    ensures |es| == 3 && es !! Permanent
  {
    if t == Test then {TestSource, TestCapsfilter, TimeOverlay}
    else {FileSource, DecodeBin, DecodeCapsfilter}
  }

  /** What the pipeline asks of the outside world. */
  datatype Effect =
    | LogError(text: string)
    | LogInfo(text: string)
    | DownstreamEos       // an EOS event sent from the proxysink
    | EmitEos             // the EOS() signal
    | EmitError           // the Error() signal
    | SetState(state: State)

  // ------------------------------------------------------ test patterns

  /** The videotestsrc pattern names; a name's code is its index. */
  const PatternNames: seq<string> := [
    "smpte", "snow", "black", "white", "red", "green", "blue",
    "checkers-1", "checkers-2", "checkers-4", "checkers-8",
    "circular", "blink", "smpte75", "zone-plate", "gamut",
    "chroma-zone-plate", "solid-color", "ball", "smpte100", "bar",
    "pinwheel", "spokes", "gradient", "colors", "smpte-rp-219"]

  /** patternByName: every name it knows maps to that name's own position
      in the table. */
  function PatternByName(): (m: map<string, nat>)
    ensures forall name :: name in m ==> m[name] < |PatternNames| && PatternNames[m[name]] == name
  {
    PatternNamesDistinct();
    map i | 0 <= i < |PatternNames| :: PatternNames[i] := i
  }

  /** The code of a pattern name, if the table knows it. */
  function PatternCode(name: string): (code: Option<nat>)
    ensures code.Some? <==> name in PatternByName()
  {
    if name in PatternByName() then Some(PatternByName()[name]) else None
  }

  /** The table holds 26 distinct names. */
  lemma PatternNamesDistinct()
    ensures |PatternNames| == 26
    ensures forall i, j :: 0 <= i < j < |PatternNames| ==> PatternNames[i] != PatternNames[j]
  {
  }

  /** Each of the 26 names maps to its own code 0..25, and only those
      names are known. */
  lemma PatternTable()
    ensures forall i :: 0 <= i < 26 ==> PatternCode(PatternNames[i]) == Some(i)
    ensures forall name :: PatternCode(name).Some? ==>
              PatternCode(name).value < 26 && PatternNames[PatternCode(name).value] == name
  {
    PatternNamesDistinct();
    forall i | 0 <= i < 26
      ensures PatternCode(PatternNames[i]) == Some(i)
    {
      assert PatternNames[i] in PatternByName();
    }
  }

  /** Some names the player uses. */
  lemma PatternExamples()
    ensures PatternCode("smpte") == Some(0) && PatternCode("black") == Some(2)
    ensures PatternCode("ball") == Some(18)
  {
    PatternTable();
    assert PatternNames[0] == "smpte" && PatternNames[2] == "black" && PatternNames[18] == "ball";
  }

  /** The misspelt "smtpe" is not a pattern name. */
  lemma MisspeltPattern()
    ensures PatternCode("smtpe") == None
  {
    assert "smtpe" !in PatternNames;
  }

  // ------------------------------------------------------- num-buffers

  const U64: nat := 0x1_0000_0000_0000_0000
  const NsPerSecond: nat := 1000000000

  /** The num-buffers value of a test source: duration_ns * fpsNum /
      fpsDen / 10^9 in uint64_t arithmetic (the signed duration is taken
      modulo 2^64, the product wraps, both divisions truncate). */
  function TestBufferCount(durationNs: int, fpsNum: nat, fpsDen: nat): (n: nat)
    requires 0 < fpsDen
    ensures n < U64
  {
    var product := ((durationNs % U64) * (fpsNum % U64)) % U64;
    product / fpsDen / NsPerSecond
  }

  /** Without wrap-around the count is floor(duration * fps), in whole
      buffers: the duration in seconds times fpsNum / fpsDen, rounded
      down. */
  lemma {:induction false} TestBufferCountExact(durationNs: nat, fpsNum: nat, fpsDen: nat)
    requires 0 < fpsDen && durationNs * fpsNum < U64
    ensures TestBufferCount(durationNs, fpsNum, fpsDen)
         == (durationNs * fpsNum) / (fpsDen * NsPerSecond)
  {
    if durationNs == 0 || fpsNum == 0 {
      assert durationNs * fpsNum == 0;
    } else {
      FactorBound(durationNs, fpsNum);
      FactorBound(fpsNum, durationNs);
      assert durationNs % U64 == durationNs && fpsNum % U64 == fpsNum;
    }
    assert (durationNs * fpsNum) % U64 == durationNs * fpsNum;
    NestedDivision(durationNs * fpsNum, fpsDen, NsPerSecond);
  }

  lemma FactorBound(a: nat, b: nat)
    requires b >= 1
    ensures a <= a * b && a <= b * a
  {
    assert a * b == a * (b - 1) + a;
  }

  /** Truncating twice is truncating once by the product. */
  lemma NestedDivision(x: nat, a: nat, b: nat)
    requires a > 0 && b > 0
    ensures x / a / b == x / (a * b)
  {
    var q1, r1 := x / a, x % a;
    var q2, r2 := q1 / b, q1 % b;
    Regroup(x, a, b, q1, r1, q2, r2);
    DivUnique(x, a * b, q2, r2 * a + r1);
  }

  lemma Regroup(x: int, a: int, b: int, q1: int, r1: int, q2: int, r2: int)
    requires x == q1 * a + r1 && q1 == q2 * b + r2
    requires 0 <= r1 < a && 0 <= r2 < b
    ensures x == q2 * (a * b) + (r2 * a + r1)
    ensures 0 <= r2 * a + r1 < a * b
  {
    assert (q2 * b + r2) * a == q2 * (a * b) + r2 * a;
    assert r2 * a <= (b - 1) * a;
    assert (b - 1) * a == a * b - a;
  }

  /** The player's examples: two seconds of pattern at 30 fps is 60
      buffers; at 33.333 fps (33333/1000) it is 66. */
  lemma TestBufferCountExamples()
    ensures TestBufferCount(2 * NsPerSecond, 30, 1) == 60
    ensures TestBufferCount(2 * NsPerSecond, 33333, 1000) == 66
  {
  }

  // ------------------------------------------------------ the pipeline

  /** The effects of a play call made while idle. */
  function PlayEffects(info: MediaPlayInfo, linkOk: bool): seq<Effect>
  {
    if info.mediaType != Test then
      if linkOk then [SetState(Playing)] else [LogError("could not link file pipeline")]
    else if PatternCode(info.location).None? then
      [LogError("unknown pattern name")]
    else
      [LogInfo("test media duration")]
      + (if linkOk then [SetState(Playing)] else [LogError("could not link test pipeline")])
  }

  /** The construction of a MediaPipeline: it throws when the permanent
      queue cannot be linked to the proxysink. */
  datatype Construction = Built(pipeline: MediaPipeline) | Thrown(what: string)

  class MediaPipeline {
    /** d_pipeline's object identity: the source of its own bus messages. */
    const id: ObjectId
    /** d_framerateNum / d_framerateDenum, from build_fraction(FPS). */
    const framerateNum: nat
    const framerateDen: nat
    /** The elements currently in the bin. */
    var bin: set<Element>
    /** d_playing. */
    var playing: bool
    /** d_currentMedia. */
    var currentMedia: Option<MediaType>
    /** The filesrc "location" property. */
    var location: string
    /** The videotestsrc "pattern" and "num-buffers" properties. */
    var pattern: nat
    var numBuffers: nat
    /** Requests and signals, in order. */
    var effects: seq<Effect>

    /** The permanent elements are always in the bin; the sub-graph of the
        recorded media type is there exactly while playing. */
    ghost predicate Valid()
      reads this
    {
      && framerateDen > 0
      && (playing ==> currentMedia.Some? && bin == Permanent + ElementsOf(currentMedia.value))
      && (!playing ==> bin == Permanent)
    }

    constructor Init(id: ObjectId, fpsIntegral: nat, fpsMicro: nat)
      requires fpsMicro <= Fractional.Precision
      ensures Valid() && this.id == id
      ensures (framerateNum as int, framerateDen as int) == Fractional.BuildFraction(fpsIntegral, fpsMicro)
      ensures bin == Permanent && !playing && currentMedia == None && effects == []
    {
      Fractional.BuildFractionNonNegative(fpsIntegral, fpsMicro);
      var (num, den) := Fractional.BuildFraction(fpsIntegral, fpsMicro);
      this.id := id;
      framerateNum, framerateDen := num, den;
      bin := Permanent;
      playing, currentMedia := false, None;
      location, pattern, numBuffers := "", 0, 0;
      effects := [];
    }

    /** The constructor; it throws when the queue -> proxysink link fails. */
    static method Create(id: ObjectId, fpsIntegral: nat, fpsMicro: nat, finalLinkOk: bool)
      returns (r: Construction)
      requires fpsMicro <= Fractional.Precision
      ensures r.Thrown? <==> !finalLinkOk
      ensures r.Thrown? ==> r.what == "could not link final element"
      ensures r.Built? ==> fresh(r.pipeline) && r.pipeline.Valid() && r.pipeline.id == id
                           && r.pipeline.bin == Permanent && !r.pipeline.playing
                           && r.pipeline.currentMedia == None
    {
      if !finalLinkOk {
        return Thrown("could not link final element");
      }
      var p := new MediaPipeline.Init(id, fpsIntegral, fpsMicro);
      return Built(p);
    }

    /** play: rejected with an error log while playing; otherwise starts
        the media. */
    method Play(info: MediaPlayInfo, linkOk: bool)
      requires Valid()
      modifies this
      ensures Valid()
      ensures old(playing) ==>
                && effects == old(effects) + [LogError("already playing")]
                && bin == old(bin) && playing && currentMedia == old(currentMedia)
                && location == old(location) && pattern == old(pattern)
                && numBuffers == old(numBuffers)
      ensures !old(playing) ==> Started(info, linkOk, old(effects), old(location),
                                        old(pattern), old(numBuffers))
    {
      if playing {
        effects := effects + [LogError("already playing")];
        return;
      }
      Start(info, linkOk);
    }

    /** The state after play(info) from idle: the media type is recorded
        whatever happens; the sub-graph is in the bin and the pipeline
        playing exactly when linking succeeded and, for a test, the
        pattern name is known. */
    ghost predicate Started(info: MediaPlayInfo, linkOk: bool, effects0: seq<Effect>,
                            location0: string, pattern0: nat, numBuffers0: nat)
      reads this
    {
      && framerateDen > 0
      && currentMedia == Some(info.mediaType)
      && playing == (linkOk && (info.mediaType == Test ==> PatternCode(info.location).Some?))
      && bin == Permanent + (if playing then ElementsOf(info.mediaType) else {})
      && effects == effects0 + PlayEffects(info, linkOk)
      && location == (if info.mediaType != Test then info.location else location0)
      && (if info.mediaType == Test && PatternCode(info.location).Some? then
            && pattern == PatternCode(info.location).value
            && numBuffers == TestBufferCount(info.durationNs, framerateNum, framerateDen)
          else pattern == pattern0 && numBuffers == numBuffers0)
    }

    /** The idle branch of play: record the media type, then build the
        sub-graph of that type. */
    method Start(info: MediaPlayInfo, linkOk: bool)
      requires Valid() && !playing
      modifies this
      ensures Valid()
      ensures Started(info, linkOk, old(effects), old(location), old(pattern), old(numBuffers))
    {
      currentMedia := Some(info.mediaType);
      if info.mediaType == Test {
        PlayTest(info, linkOk);
        assert effects == old(effects) + PlayEffects(info, linkOk);
      } else {
        PlayFile(info, linkOk);
        assert effects == old(effects) + PlayEffects(info, linkOk);
      }
    }

    /** playFile: sets the location, adds the three file elements and links
        them to the queue; on a link failure removes them again. */
    method PlayFile(info: MediaPlayInfo, linkOk: bool)
      requires Valid() && !playing && info.mediaType != Test
      modifies this
      ensures Valid() && location == info.location
      ensures pattern == old(pattern) && numBuffers == old(numBuffers)
      ensures !linkOk ==>
                && bin == old(bin) && !playing && currentMedia == old(currentMedia)
                && effects == old(effects) + [LogError("could not link file pipeline")]
      ensures linkOk ==>
                && bin == old(bin) + ElementsOf(info.mediaType) && playing
                && currentMedia == Some(info.mediaType)
                && effects == old(effects) + [SetState(Playing)]
    {
      location := info.location;
      bin := bin + {FileSource, DecodeBin, DecodeCapsfilter};
      if !linkOk {
        effects := effects + [LogError("could not link file pipeline")];
        bin := bin - {FileSource, DecodeBin, DecodeCapsfilter};
        return;
      }
      effects := effects + [SetState(Playing)];
      playing := true;
      currentMedia := Some(info.mediaType);
    }

    /** playTest: an unknown pattern name is logged and nothing else
        happens; otherwise sets pattern and num-buffers, adds the three test
        elements and links them; on a link failure removes them again. */
    method PlayTest(info: MediaPlayInfo, linkOk: bool)
      requires Valid() && !playing
      modifies this
      ensures Valid() && location == old(location)
      ensures PatternCode(info.location).None? ==>
                && bin == old(bin) && !playing && currentMedia == old(currentMedia)
                && pattern == old(pattern) && numBuffers == old(numBuffers)
                && effects == old(effects) + [LogError("unknown pattern name")]
      ensures PatternCode(info.location).Some? ==>
                && pattern == PatternCode(info.location).value
                && numBuffers == TestBufferCount(info.durationNs, framerateNum, framerateDen)
      ensures PatternCode(info.location).Some? && !linkOk ==>
                && bin == old(bin) && !playing && currentMedia == old(currentMedia)
                && effects == old(effects) + [LogInfo("test media duration"),
                                              LogError("could not link test pipeline")]
      ensures PatternCode(info.location).Some? && linkOk ==>
                && bin == old(bin) + ElementsOf(Test) && playing && currentMedia == Some(Test)
                && effects == old(effects) + [LogInfo("test media duration"), SetState(Playing)]
    {
      var code := PatternCode(info.location);
      if code.None? {
        effects := effects + [LogError("unknown pattern name")];
        return;
      }
      var buffers := TestBufferCount(info.durationNs, framerateNum, framerateDen);
      effects := effects + [LogInfo("test media duration")];
      LinkTestSource(code.value, buffers, linkOk);
    }

    /** The known-pattern part of playTest: set the pattern and
        num-buffers, add the three test elements and link them; on a link
        failure remove them again. */
    method LinkTestSource(code: nat, buffers: nat, linkOk: bool)
      requires Valid() && !playing
      modifies this
      ensures Valid() && location == old(location)
      ensures pattern == code && numBuffers == buffers
      ensures !linkOk ==>
                && bin == old(bin) && !playing && currentMedia == old(currentMedia)
                && effects == old(effects) + [LogError("could not link test pipeline")]
      ensures linkOk ==>
                && bin == old(bin) + ElementsOf(Test) && playing && currentMedia == Some(Test)
                && effects == old(effects) + [SetState(Playing)]
    {
      pattern, numBuffers := code, buffers;
      bin := bin + {TestSource, TestCapsfilter, TimeOverlay};
      if !linkOk {
        effects := effects + [LogError("could not link test pipeline")];
        bin := bin - {TestSource, TestCapsfilter, TimeOverlay};
        return;
      }
      effects := effects + [SetState(Playing)];
      playing := true;
      currentMedia := Some(Test);
    }

    /** onMessage: ERROR is logged and handled by onError, EOS is logged
        and handled by onEOS, and a state change of this very pipeline to
        NULL resets it. Nothing else has an effect. */
    method OnMessage(msg: Message)
      requires Valid()
      modifies this`effects, this`bin, this`playing, this`currentMedia
      ensures Valid()
      ensures msg.kind.Error? ==>
                && effects == old(effects) + [LogError("Gstreamer error"), DownstreamEos,
                                              EmitError, EmitEos, SetState(Null)]
                && bin == old(bin) && playing == old(playing)
                && currentMedia == old(currentMedia)
      ensures msg.kind.Eos? ==>
                && effects == old(effects) + [LogInfo("EOS"), EmitEos, SetState(Null)]
                && bin == old(bin) && playing == old(playing)
                && currentMedia == old(currentMedia)
      ensures msg.kind.StateChanged? && msg.src == id && msg.kind.newState == Null ==>
                && bin == Permanent && !playing && currentMedia == None
                && effects == old(effects)
      ensures !msg.kind.Error? && !msg.kind.Eos?
              && !(msg.kind.StateChanged? && msg.src == id && msg.kind.newState == Null) ==>
                && effects == old(effects) && bin == old(bin) && playing == old(playing)
                && currentMedia == old(currentMedia)
      ensures location == old(location) && pattern == old(pattern)
      ensures numBuffers == old(numBuffers)
    {
      match msg.kind {
        case Error(_, _) =>
          effects := effects + [LogError("Gstreamer error")];
          OnError();
          assert effects == old(effects) + [LogError("Gstreamer error"), DownstreamEos,
                                            EmitError, EmitEos, SetState(Null)];
        case Eos =>
          effects := effects + [LogInfo("EOS")];
          OnEos();
          assert effects == old(effects) + [LogInfo("EOS"), EmitEos, SetState(Null)];
        case StateChanged(_, newState, _) =>
          if msg.src != id {
            return;
          }
          if newState != Null {
            return;
          }
          Reset();
        case _ =>
      }
    }

    /** stop: an EOS is pushed downstream only while playing; onEOS always
        follows. */
    method Stop()
      requires Valid()
      modifies this`effects
      ensures effects == old(effects) + (if playing then [DownstreamEos] else [])
                                      + [EmitEos, SetState(Null)]
    {
      if playing {
        ForceDownstreamEos();
      }
      OnEos();
    }

    /** onEOS: emits EOS() and requests the NULL state. A state-change
        message to NULL from this pipeline is what onMessage resets on. */
    method OnEos()
      modifies this`effects
      ensures effects == old(effects) + [EmitEos, SetState(Null)]
    {
      effects := effects + [EmitEos];
      effects := effects + [SetState(Null)];
    }

    method ForceDownstreamEos()
      modifies this`effects
      ensures effects == old(effects) + [DownstreamEos]
    {
      effects := effects + [DownstreamEos];
    }

    /** onError: a downstream EOS first, then Error(), then onEOS. */
    method OnError()
      modifies this`effects
      ensures effects == old(effects) + [DownstreamEos, EmitError, EmitEos, SetState(Null)]
    {
      ForceDownstreamEos();
      effects := effects + [EmitError];
      OnEos();
    }

    /** reset: removes the sub-graph of the recorded media type only (the
        queue and proxysink stay), then forgets the media and stops
        playing. */
    method Reset()
      requires Valid()
      modifies this`bin, this`playing, this`currentMedia
      ensures Valid()
      ensures bin == old(bin) - (if old(currentMedia).Some? then ElementsOf(old(currentMedia).value) else {})
      ensures bin == Permanent
      ensures !playing && currentMedia == None
    {
      if currentMedia.Some? {
        match currentMedia.value {
          case Image => bin := bin - {FileSource, DecodeBin, DecodeCapsfilter};
          case Video => bin := bin - {FileSource, DecodeBin, DecodeCapsfilter};
          case Test => bin := bin - {TestSource, TestCapsfilter, TimeOverlay};
        }
      }
      playing := false;
      currentMedia := None;
    }

    /** ~MediaPipeline: the native pipeline is set to NULL. */
    method Destroy()
      modifies this`effects
      ensures effects == old(effects) + [SetState(Null)]
    {
      effects := effects + [SetState(Null)];
    }
  }

  /** A known test pattern plays, ends on its EOS and returns to idle once
      the NULL state change arrives, with no Error() signal and no stop. */
  method TestPatternLifecycle(id: ObjectId) returns (effects: seq<Effect>, idle: bool)
    ensures idle
    ensures effects == [LogInfo("test media duration"), SetState(Playing),
                        LogInfo("EOS"), EmitEos, SetState(Null)]
  {
    var p := new MediaPipeline.Init(id, 30, 0);
    assert PatternCode("black") == Some(2) by { PatternExamples(); }
    p.Play(MediaPlayInfo(Test, "black", 2 * NsPerSecond, 0, false), true);
    assert p.playing && p.effects == [LogInfo("test media duration"), SetState(Playing)];
    p.OnMessage(Message(0, id, Eos));
    assert p.effects == [LogInfo("test media duration"), SetState(Playing),
                         LogInfo("EOS"), EmitEos, SetState(Null)];
    p.OnMessage(Message(1, id, StateChanged(Playing, Null, VoidPending)));
    effects := p.effects;
    idle := !p.playing && p.currentMedia == None && p.bin == Permanent;
  }

  /** An unknown pattern name never leaves idle, but the media type is
      already recorded; the pipeline's own NULL state change clears it. */
  method UnknownPatternStaysIdle(id: ObjectId) returns (playing: bool, media: Option<MediaType>)
    ensures !playing && media == Some(Test)
  {
    var p := new MediaPipeline.Init(id, 60, 0);
    p.Play(MediaPlayInfo(Test, "smtpe", 2 * NsPerSecond, 0, false), true);
    assert PatternCode("smtpe") == None by { MisspeltPattern(); }
    playing, media := p.playing, p.currentMedia;
  }
}
