# yams playback core in Dafny

yams is a media player built on GStreamer and Qt. This project models the
sequential logic in the middle of it and proves what that logic promises.
GStreamer elements, GL objects and Qt widgets are replaced by plain values:
element sets, message datatypes, optional fields, booleans, and ordered logs
of the requests made of the framework. The model covers nine pieces:

- `ObjectPool` (`object_pool.dfy`). The pool of reusable objects: `Get`, the
  release closure, `PoolSize` and the destructor. It is a class whose free
  queue is a bag.
- `Fractional` (`fractional.hpp`, in `fractional.dfy`). The Euclidean `gcd`,
  and `build_fraction` over an integer part plus a micro-remainder.
- `MediaPipeline` (`media_pipeline.dfy`). The per-input playback state
  machine: play, file and test-pattern sub-graphs, stop, EOS, error, reset
  and bus-message dispatch. It also holds the pattern table and the
  `num-buffers` formula.
- `GstPipeline` (`gstreamer/Pipeline.cpp`, in `pipeline.dfy`). Bus-message
  routing: a synchronous hook drops each message or queues it in FIFO order
  for `onMessage`. Every dropped or handled message is released once;
  messages still queued when the pipeline is destroyed are not.
- `Frame` (`frame.dfy`). The mapped flag of a video frame, with `map`,
  `unmap`, `waitSync` and `TexID`.
- `Compositor` (`compositor.dfy`). The bus reaction, the need-context
  answers and the per-sample appsink callback.
- `PlayerControl` (`player_control.dfy`). The millisecond → `hh:mm:ss.zzz`
  conversion, position clamping, the slider and the play/stop button state.
- `ScreenSelect` (`main.cpp` `selectScreen`, in `screen_select.dfy`). The
  output-screen choice over `(name, model)` screens, the optional
  `YAMS_OUTPUT_SCREEN` value and the primary screen's name.
- `Logging` (`logging.dfy`). `qtMessageHandler` as a function from a Qt
  message to the one structured record it logs.

Shared modules:

- `Wrappers`: `Option`.
- `Gst`: GStreamer states, message kinds, media types.
- `Arithmetic`: uniqueness of Euclidean quotient and remainder.
- `Digits`: decimal digit characters.

Integer widths are written out where the source depends on them:

- `uint64_t` wrap-around in the `num-buffers` computation;
- the signed/unsigned mix of `qint64` positions and the `quint64` duration;
- C truncating division;
- the narrowing of a `qint64` to the slider's `int`.

The headers and the .cpp files disagree in places. The model follows the
.cpp files:

- `MediaPipeline.hpp` declares `play(info, offset)` and a different `Args`,
  and has no `d_queue`. The model follows `play(infos)`, the queue and the
  proxysink of `MediaPipeline.cpp`.
- `PlayerControl.hpp` does not declare the `d_state` that `setState` and
  `on_playButton_clicked` use. The model gives the class that field.
- `Compositor::onNewSampleCb` allocates each frame with `g_new0`, not from
  an `ObjectPool`. The model follows the code, so that pool is not used.
- `Compositor.hpp` declares `d_display` and `d_context` with no
  initialiser, and no code assigns them, yet `onSyncMessageCb` passes them
  on. The model gives both fields the value `Indeterminate`, and the
  need-context answers carry that value.

## Model

| member | source | states |
|---|---|---|
| ObjectPool.Pool.constructor | src/yams/utils/ObjectPool.hpp:82-89 | a new pool has an empty queue, no constructed object and no outstanding handle |
| ObjectPool.Pool.Valid | src/yams/utils/ObjectPool.hpp:61-79 | the pool invariant: queued and outstanding objects are disjoint, every identity is below the counter, and the counter d_allocated equals queued + outstanding |
| ObjectPool.Pool.Get | src/yams/utils/ObjectPool.hpp:61-75 | with a non-empty queue, it hands back a queued object, constructs nothing and leaves the counter alone. With an empty queue, it constructs exactly one object, the counter grows by exactly 1, and the new identity is the old count. Either way the handle becomes outstanding with its hooks, and allocated = queued + outstanding is preserved |
| ObjectPool.Pool.Release | src/yams/utils/ObjectPool.hpp:65-68 | runs every onDelete hook in order, then enqueues the object. The deleter is not called and the counter is unchanged. The invariant is preserved |
| ObjectPool.HookEvents | src/yams/utils/ObjectPool.hpp:66 | one hook call per hook, in the order given, each on the released object |
| ObjectPool.Pool.PoolSize | src/yams/utils/ObjectPool.hpp:77-79 | the number of constructed objects, which equals queued + outstanding |
| ObjectPool.Pool.Destroy | src/yams/utils/ObjectPool.hpp:48-54 | every queued object goes to the deleter exactly once (as a multiset), and the queue ends empty. With no handle outstanding, the number of deleter calls grows by the number of constructed objects |
| ObjectPool.ReusesAllocated | src/yams/utils/ObjectPoolTest.cpp:41-49 | get a, get b, release a, get c: exactly two constructions, and after the handles return and the pool dies, as many deletions as constructions |
| ObjectPool.TearDown | src/yams/utils/ObjectPoolTest.cpp:29-48 | returning the two outstanding handles and destroying the pool calls the deleter once per constructed object |
| ObjectPool.CanHookOnRelease | src/yams/utils/ObjectPoolTest.cpp:51-57 | a hook given to Get runs on release, and nothing is deleted |
| Fractional.Gcd | src/yams/utils/fractional.hpp:9-23 | the recursion terminates on naturals, and the result is positive unless both arguments are 0 |
| Fractional.GcdZeroLeft | src/yams/utils/fractional.hpp:12-14 | gcd(0, b) = b |
| Fractional.GcdZeroRight | src/yams/utils/fractional.hpp:15-17 | gcd(a, 0) = a |
| Fractional.GcdDivides | src/yams/utils/fractional.hpp:18-22 | the gcd of two naturals, not both 0, is positive and divides both |
| Fractional.GcdGreatest | src/yams/utils/fractional.hpp:18-22 | every common divisor divides the gcd |
| Fractional.GcdExamples | src/yams/utils/fractionalTest.cpp:8-16 | gcd(1,0)=gcd(0,1)=1, gcd(1,2)=1, gcd(2,3)=1, gcd(3,6)=3, gcd(15,21)=3 |
| Fractional.BuildFraction | src/yams/utils/fractional.hpp:36-43 | build_fraction: the denominator 10^6 / gcd(r, 10^6) is positive and divides 10^6 |
| Fractional.BuildFractionNonNegative | src/yams/utils/fractional.hpp:36-43 | a non-negative rate gives a non-negative numerator |
| Fractional.BuildFractionValue | src/yams/utils/fractional.hpp:36-43 | num / den equals integral + r / 10^6 as a rational (cross-multiplied) |
| Fractional.BuildFractionLowestTerms | src/yams/utils/fractional.hpp:36-43 | num and den have no common divisor greater than 1 |
| Fractional.BuildFractionIntegral | src/yams/utils/fractional.hpp:36-43 | r = 0 yields (integral, 1) |
| Fractional.BuildFractionCarry | src/yams/utils/fractional.hpp:36-43 | r = 10^6, a remainder that rounded up, yields (integral + 1, 1) |
| Fractional.BuildFractionExamples | src/yams/utils/fractionalTest.cpp:20-22 | 1.0 → (1,1), 25.0 → (25,1), 33.333 → (33333,1000) |
| MediaPipeline.ElementsOf | src/yams/MediaPipeline.cpp:24-98 | each media type owns three elements, disjoint from the permanent queue and proxysink |
| MediaPipeline.PatternByName | src/yams/MediaPipeline.cpp:273-300 | every name the map knows maps to that name's own position in the table |
| MediaPipeline.PatternCode | src/yams/MediaPipeline.cpp:273-300 | a name has a code exactly when it is in the pattern table |
| MediaPipeline.PatternNamesDistinct | src/yams/MediaPipeline.cpp:273-300 | the table has 26 names, pairwise distinct |
| MediaPipeline.PatternTable | src/yams/MediaPipeline.cpp:273-300 | the i-th name maps to code i, and every code found is below 26 and names its own entry |
| MediaPipeline.PatternExamples | src/yams/MediaPipeline.cpp:273-300 | "smpte" → 0, "black" → 2, "ball" → 18 |
| MediaPipeline.MisspeltPattern | src/yams/MediaPipeline.cpp:273-308 | the misspelling "smtpe" has no code, so playTest logs an unknown pattern |
| MediaPipeline.TestBufferCount | src/yams/MediaPipeline.cpp:310-311 | computed in uint64 arithmetic: the result is below 2^64 |
| MediaPipeline.TestBufferCountExact | src/yams/MediaPipeline.cpp:310-311 | without wrap-around, the count is duration_ns · fpsNum / (fpsDen · 10^9), rounded down |
| MediaPipeline.TestBufferCountExamples | src/yams/MediaPipeline.cpp:310-311 | 2 s at 30/1 fps gives 60 buffers; 2 s at 33333/1000 fps gives 66 |
| MediaPipeline.MediaPipeline.Init | src/yams/MediaPipeline.cpp:24-98 | the bin holds exactly the permanent queue and proxysink. The pipeline is idle with no media. The frame rate is build_fraction of the FPS |
| MediaPipeline.MediaPipeline.Valid | src/yams/MediaPipeline.cpp:108-233 | the invariant the methods keep: the frame-rate denominator is positive. While playing, a media type is recorded and the bin is the queue and proxysink plus exactly that type's three elements. While idle, the bin is only the queue and proxysink |
| MediaPipeline.MediaPipeline.Create | src/yams/MediaPipeline.cpp:94-97 | construction throws "could not link final element" exactly when the queue → proxysink link fails |
| MediaPipeline.MediaPipeline.Play | src/yams/MediaPipeline.cpp:108-123 | while playing, only an "already playing" error is logged and nothing else changes. Otherwise the media type is recorded and the type's sub-graph is started |
| MediaPipeline.MediaPipeline.Started | src/yams/MediaPipeline.cpp:113-122 | the state after play's idle branch. The media type is recorded. It plays iff linking succeeded and, for a test, the pattern is known. The bin holds the type's elements exactly then. The effects are the old ones followed by the play effects. A file sets the location; a known test pattern sets the pattern and num-buffers; nothing else changes those three |
| MediaPipeline.MediaPipeline.Start | src/yams/MediaPipeline.cpp:113-122 | the media type is recorded whatever happens. The three elements are in the bin, and the pipeline plays, exactly when linking succeeded (and, for a test, the pattern is known). Otherwise the bin is back to the permanent elements |
| MediaPipeline.MediaPipeline.PlayFile | src/yams/MediaPipeline.cpp:235-270 | sets the location. On success it adds exactly the three file elements, plays and requests PLAYING. On a link failure it removes exactly those three, stays idle and logs the error |
| MediaPipeline.MediaPipeline.PlayTest | src/yams/MediaPipeline.cpp:272-361 | an unknown pattern adds nothing, stays idle and logs. A known one sets the pattern and num-buffers, then either adds the three test elements and plays, or, on a link failure, removes them and stays idle |
| MediaPipeline.MediaPipeline.LinkTestSource | src/yams/MediaPipeline.cpp:321-360 | sets pattern and num-buffers. On success it adds exactly the three test elements, plays and requests PLAYING. On a link failure it removes exactly those three and stays idle |
| MediaPipeline.MediaPipeline.OnMessage | src/yams/MediaPipeline.cpp:125-166 | ERROR runs onError and EOS runs onEOS. A state change to NULL whose source is this pipeline runs reset. Every other message changes nothing |
| MediaPipeline.MediaPipeline.Stop | src/yams/MediaPipeline.cpp:168-173 | a downstream EOS is sent only while playing, and onEOS always runs |
| MediaPipeline.MediaPipeline.OnEos | src/yams/MediaPipeline.cpp:175-178 | emits EOS, then requests NULL |
| MediaPipeline.MediaPipeline.ForceDownstreamEos | src/yams/MediaPipeline.cpp:180-183 | sends one downstream EOS |
| MediaPipeline.MediaPipeline.OnError | src/yams/MediaPipeline.cpp:185-190 | downstream EOS, then Error, then EOS, then a NULL request |
| MediaPipeline.MediaPipeline.Reset | src/yams/MediaPipeline.cpp:192-233 | removes exactly the recorded media type's elements, never the queue or proxysink, so the bin is back to those two. Afterwards the pipeline is not playing and has no recorded media |
| MediaPipeline.MediaPipeline.Destroy | src/yams/MediaPipeline.cpp:100-102 | requests NULL |
| MediaPipeline.TestPatternLifecycle | src/yams/MediaPipeline.cpp:108-233 | a known test pattern plays, its EOS emits EOS and requests NULL, and the pipeline's own NULL state change returns it to idle: the exact effect sequence |
| MediaPipeline.UnknownPatternStaysIdle | src/yams/MediaPipeline.cpp:301-308 | an unknown pattern leaves the pipeline idle, but the media type stays recorded |
| GstPipeline.Passed | src/yams/gstreamer/Pipeline.cpp:43-48 | the messages the hook does not drop, in posting order |
| GstPipeline.Dropped | src/yams/gstreamer/Pipeline.cpp:36-40 | the messages the hook drops, in posting order; never more than were posted |
| GstPipeline.PassedDroppedPartition | src/yams/gstreamer/Pipeline.cpp:36-48 | passed and dropped messages together are exactly the posted ones (as multisets) |
| GstPipeline.PassedMembers | src/yams/gstreamer/Pipeline.cpp:36-48 | a message is passed iff posted and not dropped by the hook, and dropped iff posted and dropped |
| GstPipeline.Routed | src/yams/gstreamer/Pipeline.cpp:33-56 | the routing invariant. Delivered followed by pending are the passed messages, in posting order. The released messages are the dropped ones plus the delivered ones, as multisets. Released plus pending are all the posted messages |
| GstPipeline.DefaultOnSync | src/yams/gstreamer/Pipeline.hpp:25-27 | the default hook never drops |
| GstPipeline.DefaultDeliversAll | src/yams/gstreamer/Pipeline.hpp:25-27 | with the default hook, every message is delivered asynchronously, in order, and none is dropped |
| GstPipeline.SyncStep | src/yams/gstreamer/Pipeline.cpp:33-51 | a sync callback preserves the routing invariant: delivered + pending are the passed messages in order, and released is the dropped messages plus the delivered ones |
| GstPipeline.HandleStep | src/yams/gstreamer/Pipeline.cpp:53-56 | handling the head of the queue preserves the routing invariant |
| GstPipeline.Pipeline.Init | src/yams/gstreamer/Pipeline.cpp:12-27 | a new pipeline has nothing posted, nothing pending and nothing released |
| GstPipeline.Pipeline.Valid | src/yams/gstreamer/Pipeline.cpp:33-56 | Routed holds of the pipeline's logs and its queue |
| GstPipeline.Pipeline.Create | src/yams/gstreamer/Pipeline.cpp:15-18 | construction throws "could not set pipeline" exactly when the native pipeline is null |
| GstPipeline.Pipeline.OnBusSyncMessage | src/yams/gstreamer/Pipeline.cpp:33-51 | the bus always gets DROP back. A message the hook drops is released at once. Any other message is queued at the back. Nothing is delivered here |
| GstPipeline.Pipeline.HandleMessage | src/yams/gstreamer/Pipeline.cpp:53-56 | the oldest pending message goes to onMessage once and is then released |
| GstPipeline.Pipeline.Destroy | src/yams/gstreamer/Pipeline.cpp:29-31 | the pipeline ends in NULL |
| GstPipeline.DrainedReleasesAll | src/yams/gstreamer/Pipeline.cpp:38-55 | once the queue is drained, every posted message is released exactly once (as a multiset), and the delivered ones are exactly the passed ones, in posting order |
| GstPipeline.DroppedNeverDelivered | src/yams/gstreamer/PipelineTest.cpp:59-70 | a dropped message is released and never reaches onMessage |
| GstPipeline.PassedDeliveredOnce | src/yams/gstreamer/PipelineTest.cpp:72-105 | a passed message reaches onMessage exactly once and is released once |
| Frame.Frame.constructor | src/yams/Frame.cpp:13-14 | a new frame is unmapped |
| Frame.Frame.Map | src/yams/Frame.cpp:20-23 | the mapped flag becomes exactly the native map result, which is returned |
| Frame.Frame.Unmap | src/yams/Frame.cpp:25-31 | an unmapped frame is left as it is. Otherwise the frame is unmapped exactly once. Either way it ends unmapped |
| Frame.Frame.WaitSync | src/yams/Frame.cpp:33-42 | throws, before any wait, when unmapped or when the buffer has no sync meta. Otherwise it waits exactly once |
| Frame.Frame.TexID | src/yams/Frame.cpp:44-49 | 0 whenever the frame is unmapped |
| Frame.UnmapIdempotent | src/yams/Frame.cpp:25-31 | unmapping twice unmaps once, and the texture then reads 0 |
| Frame.FailedMapThrows | src/yams/Frame.cpp:20-42 | after a failed map, waitSync throws and TexID is 0 |
| Compositor.ContextFor | src/yams/Compositor.cpp:195-216 | the display type gets a display context carrying d_display. "gst.gl.app_context" gets an app context carrying d_context. Any other type gets nothing. Each case is an iff |
| Compositor.VideoInfosCount | src/yams/Compositor.cpp:257 | the number of videoInfos signals in a history, at most its length |
| Compositor.VideoInfosCountZero | src/yams/Compositor.cpp:257 | the count is 0 exactly when no videoInfos signal was emitted |
| Compositor.Compositor.Init | src/yams/Compositor.cpp:37-146 | no GL context captured, no video info, no signals and no effects. d_display and d_context, never assigned, are Indeterminate |
| Compositor.Compositor.Valid | src/yams/Compositor.cpp:231-258 | the GL context and the video info are captured together. videoInfos has been emitted once if they are, never otherwise |
| Compositor.Compositor.Start | src/yams/Compositor.cpp:148 | changes nothing |
| Compositor.Compositor.OnMessage | src/yams/Compositor.cpp:150-181 | EOS only logs. ERROR logs, then requests NULL. Other types have no effect |
| Compositor.Compositor.OnSyncMessage | src/yams/Compositor.cpp:183-219 | always returns false. A non-NEED_CONTEXT message has no effect. NEED_CONTEXT logs, and then sets the context that ContextFor gives for its type |
| Compositor.Compositor.CaptureFormat | src/yams/Compositor.cpp:231-258 | the GL context and the video info are taken from the buffer only when not yet set, and only then is "got format" logged and videoInfos emitted. The once-only invariant is kept |
| Compositor.Compositor.SyncAndMap | src/yams/Compositor.cpp:260-285 | a sync point is set in the captured context. A failed map logs and returns ERROR with no newFrame. Otherwise one newFrame of the buffer, now carrying sync meta, is emitted and OK returned |
| Compositor.Compositor.OnNewSample | src/yams/Compositor.cpp:221-286 | a null sample returns FLUSHING and changes nothing. The first sample fixes the GL context and the video info, which are never replaced, and emits videoInfos, which happens once over all samples. Each processed buffer gains sync meta and a sync point. A map failure returns ERROR with no newFrame. Success emits one newFrame and returns OK |
| Compositor.FirstSampleFixesFormat | src/yams/Compositor.cpp:221-286 | over three samples with a failed map in the middle: one videoInfos signal, the first sample's GL context, and results OK, ERROR, OK |
| PlayerControl.ToInt32 | src/PlayerControl.cpp:42-48 | the narrowing to int gives a 32-bit value, and keeps values that already fit |
| PlayerControl.Quot | src/PlayerControl.cpp:42-48 | C++ `/` on qint64: the floor for a non-negative dividend. For a negative one, a non-positive q with q·b − b < a ≤ q·b, so it rounds toward zero |
| PlayerControl.ToUnsigned | src/PlayerControl.cpp:59-64 | qint64 → quint64: a value below 2^64, the same value when non-negative, and x + 2^64 for a negative x |
| PlayerControl.ToSigned | src/PlayerControl.cpp:64 | a 64-bit unsigned value read as qint64: a 64-bit value with the same bits |
| PlayerControl.ClockOf | src/PlayerControl.cpp:27-32 | for a non-negative input, h·3600000 + m·60000 + s·1000 + ms = input, with m < 60, s < 60 and ms < 1000 |
| PlayerControl.ClockUnique | src/PlayerControl.cpp:27-34 | the decomposition of a normal clock's value is that clock |
| PlayerControl.QTimeText | src/PlayerControl.cpp:35-37 | a text exists exactly when the clock is a valid QTime |
| PlayerControl.FormatClock | src/PlayerControl.cpp:37 | the "hh:mm:ss.zzz" text is 12 characters: zero-padded digits with ':' and '.' in place |
| PlayerControl.DurationToString | src/PlayerControl.cpp:26-38 | the text exists exactly for 0 ≤ ms < 24 h, and then has the "hh:mm:ss.zzz" shape: 12 characters, digits around two colons and a dot |
| PlayerControl.DurationText | src/PlayerControl.cpp:26-38 | the returned QString: non-empty exactly for 0 ≤ ms < 24 h, and then it reads back as ms; empty for an invalid QTime |
| PlayerControl.ParseDuration | src/PlayerControl.cpp:37 | reading an "hh:mm:ss.zzz" text back gives a value under 24 h |
| PlayerControl.DurationRoundTrip | src/PlayerControl.cpp:27-38 | reading back the text of any 0 ≤ ms < 24 h gives ms |
| PlayerControl.ParseRoundTrip | src/PlayerControl.cpp:27-38 | formatting a valid "hh:mm:ss.zzz" text's value gives the same text |
| PlayerControl.DurationOfClock | src/PlayerControl.cpp:27-38 | the text of a valid clock's value is that clock formatted |
| PlayerControl.DurationAtZero | src/PlayerControl.cpp:27-38 | 0 → "00:00:00.000" |
| PlayerControl.DurationExample | src/PlayerControl.cpp:27-38 | 3723004 → "01:02:03.004" |
| PlayerControl.DurationDayEnd | src/PlayerControl.cpp:27-38 | one ms before 24 h → "23:59:59.999"; 24 h has no text |
| PlayerControl.IconFor | src/PlayerControl.cpp:74-87 | the play button shows pause iff the state is Playing |
| PlayerControl.ClickSignal | src/PlayerControl.cpp:137-147 | a click emits pause iff Playing and play iff Stopped or Paused |
| PlayerControl.ClickMatchesIcon | src/PlayerControl.cpp:137-147 | the click emits pause exactly when the button shows the pause icon |
| PlayerControl.Elapsed | src/PlayerControl.cpp:60-62 | the clamped position is a 64-bit value |
| PlayerControl.Remaining | src/PlayerControl.cpp:64 | the quint64 difference read back as qint64 is a 64-bit value |
| PlayerControl.ClampedPosition | src/PlayerControl.cpp:59-65 | for in-range values: elapsed = min(position, duration), 0 ≤ elapsed ≤ duration, and remaining = duration − elapsed |
| PlayerControl.PositionLabels | src/PlayerControl.cpp:59-65 | under 24 h both labels have text, and the times they show add up to the duration |
| PlayerControl.PlayerControl.ElapsedLabel | src/PlayerControl.cpp:63 | the text is non-empty exactly when the elapsed time is a valid time of day, and then reads back as that time |
| PlayerControl.PlayerControl.RemainingLabel | src/PlayerControl.cpp:64 | the text starts with "-". It is "-" alone exactly when the remaining time is not a valid time of day; otherwise it has 13 characters and the part after "-" reads back as the remaining time |
| PlayerControl.PlayerControl.Init | src/PlayerControl.cpp:7-21 | duration 0, slider maximum 0, and both labels show 0 |
| PlayerControl.PlayerControl.UpdatePositionInfo | src/PlayerControl.cpp:59-65 | the labels show the position clamped to the duration (unsigned comparison) and the unsigned difference read as qint64 |
| PlayerControl.PlayerControl.DurationChanged | src/PlayerControl.cpp:40-44 | stores the duration as quint64, and sets the slider maximum to duration / 1000 (truncated, narrowed to int). The labels are refreshed from slider value · 1000 |
| PlayerControl.PlayerControl.PositionChanged | src/PlayerControl.cpp:46-51 | the slider moves to pos / 1000 only when not held down. The labels are refreshed from pos |
| PlayerControl.PlayerControl.SliderMoved | src/PlayerControl.cpp:54-56 | emits exactly one seek(v · 1000) |
| PlayerControl.PlayerControl.SetState | src/PlayerControl.cpp:68-89 | the current state is a no-op. Otherwise the state is stored, stop is enabled iff the new state is not Stopped, and the icon is pause iff Playing |
| PlayerControl.PlayerControl.PlayButtonClicked | src/PlayerControl.cpp:137-147 | emits exactly one signal: play in Stopped or Paused, pause in Playing |
| PlayerControl.SliderMillisFit | src/PlayerControl.cpp:43-55 | an int slider value times 1000 fits in qint64 |
| PlayerControl.HeldSliderStays | src/PlayerControl.cpp:46-51 | a position change while the slider is held leaves it where it was, and the elapsed label follows the position |
| ScreenSelect.SpaceRun | src/yams/main.cpp:36 | atoi's leading whitespace: the longest prefix of C-locale spaces |
| ScreenSelect.IsSpace | src/yams/main.cpp:36 | the predicate itself: the six characters of C-locale isspace |
| ScreenSelect.DigitRun | src/yams/main.cpp:36 | the longest prefix of decimal digits |
| ScreenSelect.DecimalString | src/yams/main.cpp:36-37 | a non-empty string of digits |
| ScreenSelect.DecimalStringValue | src/yams/main.cpp:36 | the digits of n have decimal value n |
| ScreenSelect.Atoi | src/yams/main.cpp:36 | std::atoi of a string with no digit in it is 0 |
| ScreenSelect.AtoiDigits | src/yams/main.cpp:36 | atoi of a non-empty digit string is its decimal value |
| ScreenSelect.AtoiRoundTrip | src/yams/main.cpp:36 | atoi of the decimal text of n is n |
| ScreenSelect.AtoiNegative | src/yams/main.cpp:36-37 | a "-" before digits never gives a positive value, so such a value is not an index request |
| ScreenSelect.AtoiZeroPrefix | src/yams/main.cpp:36-37 | atoi("0abc") = 0, so "0abc" is not an index request |
| ScreenSelect.FindFrom | src/yams/main.cpp:48-74 | the first index at or after `from` whose element satisfies the predicate, or none when no element from there does |
| ScreenSelect.FindFirst | src/yams/main.cpp:48-74 | std::find_if: the first element satisfying the predicate, or none when no element does |
| ScreenSelect.Fallback | src/yams/main.cpp:65-74 | the choice is always a valid index |
| ScreenSelect.IsIndexRequest | src/yams/main.cpp:37 | the predicate itself: atoi is positive, or the value is literally "0" |
| ScreenSelect.SelectScreen | src/yams/main.cpp:26-75 | every chosen index is within the screen list |
| ScreenSelect.OnlyScreen | src/yams/main.cpp:29-32 | with exactly one screen, that screen is chosen with one warning, whatever the env value |
| ScreenSelect.IndexRequest | src/yams/main.cpp:35-45 | an index request within range selects that index, logging nothing. Out of range, it warns and falls through to the fallback |
| ScreenSelect.DecimalIndexSelects | src/yams/main.cpp:35-45 | the decimal text of an in-range index selects that index |
| ScreenSelect.NameRequest | src/yams/main.cpp:36-74 | a non-index value is chosen, logging nothing, iff some screen's name or model equals it, and then the first such screen is chosen. When no screen matches, the outcome is a "wanted screen not found" warning followed by the fallback's choice and log |
| ScreenSelect.FallbackChoice | src/yams/main.cpp:65-74 | the log is exactly one "primary screen" Info record. The first screen whose name differs from the primary's is chosen iff one exists; with none, the code dereferences end() |
| ScreenSelect.TwoScreensByName | src/yams/main.cpp:33-75 | two screens, the first primary: unset picks the non-primary screen, and "LG" picks the second screen by its model |
| ScreenSelect.TwoScreensByIndex | src/yams/main.cpp:35-75 | two screens: "1" picks index 1, and the out-of-range "7" falls back to the non-primary screen |
| Logging.Handle | src/yams/Logging.cpp:19-59 | one record per message, at the type's level, with the message text unchanged |
| Logging.LevelOf | src/yams/Logging.cpp:37-58 | the handler's switch itself: Debug, Info, Warning, Critical and Fatal messages log at Debug, Info, Warn, Error and Fatal |
| Logging.QtTypeOf | src/yams/Logging.cpp:37-58 | the switch read backwards, from a level to the one Qt type logged at it; LevelRoundTrip proves it the inverse |
| Logging.SeverityTable | src/yams/Logging.cpp:37-58 | Debug→Debug, Info→Info, Warning→Warn, Critical→Error, Fatal→Fatal |
| Logging.LevelRoundTrip | src/yams/Logging.cpp:37-58 | the level mapping is a bijection, with an inverse both ways |
| Logging.LevelInjective | src/yams/Logging.cpp:37-58 | two message types share a level iff they are equal |
| Logging.Lookup | src/yams/Logging.cpp:27-34 | the first attribute with the key, or none when no attribute has it |
| Logging.HandleAttributes | src/yams/Logging.cpp:23-34 | exactly three attributes: the file or "" when null, the line when > 0 and otherwise 0, the category or "" when null |
| Logging.LineAttribute | src/yams/Logging.cpp:29-30 | the line attribute is never negative, and equals the context line iff that line is ≥ 0 |
| Logging.ReleaseBuildRecords | src/yams/utils/LoggingTest.cpp:148-200 | qDebug/qWarning/qCritical without file or line: Debug/Warn/Error records with "", 0 and the "default" category |

## Left out

- GStreamer and GL calls are outside the model. These are element
  factories, caps, pad linking, `gst_video_frame_map`, the
  `gst_context_*` objects and the GL sync wait. Their outcomes are
  parameters (link and map success, a null pipeline), and their requests
  are recorded as effects.
- The caps-parsing failures of the `MediaPipeline` constructor
  (`invalid videotestsrc caps`, `invalid decode caps`) are not modelled.
  They depend on GStreamer parsing constant caps strings. The constructor
  models only the final-link failure.
- The graph built by the `Compositor` constructor (appsink, GL upload,
  compositor and the MediaPipeline inputs) is not modelled. Nor is
  `start`'s layer switching, which has no body.
- Pipeline running-time offsets, pad probes, `removeMedia` and the dual-slot
  input switching are not modelled. The .cpp files have no code for them.
- Concurrency is not modelled. The pool's lock-free queue and atomic
  counter are sequential: the queue is a bag with no order promised. The
  Qt queued connection between the bus thread and the owner's loop is
  modelled as a FIFO.
- ObjectPool.Pool.Destroy requires that no handle is outstanding. In the
  code, every release closure keeps the pool alive through
  `shared_from_this`, so the destructor cannot run earlier.
- PlayerControl.DurationToString and PlayerControl.QTimeText give no text
  for 24 h or more, or for a negative duration. The source computes in
  quint64, so a negative duration wraps around. The QTime constructor then
  narrows the hours to `int`. For some of these inputs the narrowed time
  is valid and the source prints it: 2^32 · 3600000 ms prints
  "00:00:00.000". For the others QTime is invalid and the text is empty.
  The model gives no text for any of them.
- PlayerControl.PlayerControl: the labels are held as the qint64
  durations they show. `ElapsedLabel` and `RemainingLabel` give their
  texts, with the empty QString of an invalid time, so the remaining label
  is then "-".
- PlayerControl.PlayerControl: QSlider's clamping of a value to its range
  is not modelled. The slider value is stored as set.
- PlayerControl.PlayerControl.Init: the constructor never initialises
  `d_state`, and the `.ui` file gives the buttons their first state. Both
  are constructor parameters.
- `PlayerControl::volume`, `setVolume`, `playbackRate`, `setPlaybackRate`,
  `opacity`, `setOpacity` and their slider slots are not modelled. They are
  floating point and QAudio conversions.
- The stop, prev and next button connections are not modelled. They are
  Qt signal forwarding only.
- MediaPipeline.MediaPipeline.PlayTest: `num-buffers` is a `gint`
  property, and the `uint64_t` count reaches it through `g_object_set`
  varargs, so the element sees it truncated to an int. The model stores
  the full 64-bit count.
- GstPipeline.Pipeline.Destroy only requests NULL, as `~Pipeline` does.
  Messages still queued for `handleMessage` are never unref'd, because Qt
  drops queued calls to a destroyed receiver. The model shows this leak
  rather than hiding it: the queue stays as it was, and
  GstPipeline.DrainedReleasesAll applies only once the queue is empty.
- MediaPipeline.MediaPipeline.OnMessage: the reset branch acts on the
  pipeline's own state change to NULL. A GstPipeline flushes its bus on
  the change to NULL by default (auto-flush-bus), and a flushing bus
  discards posted messages, so that state-changed message probably never
  arrives. After an EOS the source would then stay "playing", and the next
  play would log "already playing". The model states what the branch does
  when the message arrives, as in MediaPipeline.TestPatternLifecycle.
- Fractional.BuildFraction takes the integer part and the rounded
  micro-remainder as integers. The source computes `integral * denominator
  + numerator` in the floating type. That is exact for the `qreal` frame
  rate of the MediaPipeline constructor. With `float` the sum rounds once
  it passes 2^24: 29.97f gives 29969999, rounded to 29970000 over 10^6.
  That result has neither the value nor the lowest terms proved here.
- Compositor.Compositor.OnSyncMessage: GStreamer emits the "sync-message"
  signal only when the bus sync handler does not return DROP. The handler
  of `Pipeline` always returns DROP (GstPipeline.Pipeline.OnBusSyncMessage),
  so as written this callback is probably never reached. The model states
  what it does when it is called.
- ScreenSelect.Atoi does not model overflow of `int` on long digit
  strings, which is undefined behaviour in C.
- ScreenSelect: the QScreen list, the environment lookup and the primary
  screen are parameters.
- ScreenSelect.Fallback returns `UndefinedDeref` when every screen has the
  primary's name. The code dereferences `end()` there, which has no
  defined result.
- Logging: installing the handler (`initLogging`) and `setOpenGLFormat`
  are not modelled. They act on foreign Qt state.
- Logging: slog's termination after a Fatal record is not modelled. The
  record is produced, and what happens to the process afterwards is
  outside the model.
- `PTS`, `DTS` and `Duration` of `Frame` are not modelled. They only read
  GStreamer timestamps.
- The rest of the repository is not part of this model:
  - OpenGL rendering and video widgets;
  - threads and event loops;
  - the playlist model;
  - the Windows launcher;
  - RAII helpers and version metadata.
