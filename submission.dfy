/** The title form shown after the mask is confirmed, and the submission it
    starts: a single `generate_3d_model` for the model flow, or, for the video
    flow, a timed frame capture, one `upload_frame` per captured frame, and a
    per-index aggregator that sends `generate_3d_video` once every frame id
    has come back. */
module Submission {
  import opened Relay

  const CaptureFrameRate: real := 1.0
  const FrameInterval: real := 1000.0 / CaptureFrameRate
  const TotalDuration: real := 5000.0
  /** Timer ticks before the capture stops: the first `frameCount` with
      `frameCount >= TotalDuration / FrameInterval`. */
  const CaptureTicks: nat := 5
  const Placeholder := "placeholder"
  const BuildFramerate := 1

  const TitleAlert := "Please enter a title."
  const MissingAlert := "Mask or current frame is missing."

  /** The frames grabbed at the ticks whose canvas had a 2D context. */
  function Grabbed(grabs: seq<Option<string>>): (r: seq<string>)
    ensures |r| <= |grabs|
    ensures |r| == |grabs| <==> forall k :: 0 <= k < |grabs| ==> grabs[k].Some?
    decreases |grabs|
  {
    if grabs == [] then []
    else Grabbed(grabs[..|grabs| - 1])
         + (if grabs[|grabs| - 1].Some? then [grabs[|grabs| - 1].value] else [])
  }

  /** The capture loop of the video flow. The batch starts with the frame the
      mask was made from; tick `k` appends `grabs[k]` when the canvas had a
      context; the loop stops once `frameCount` reaches
      `TotalDuration / FrameInterval`, so at most six frames are collected. */
  method CaptureBatch(currentFrame: string, grabs: seq<Option<string>>) returns (batch: seq<string>)
    requires |grabs| == CaptureTicks
    ensures batch == [currentFrame] + Grabbed(grabs)
    ensures 1 <= |batch| <= CaptureTicks + 1 && batch[0] == currentFrame
    ensures |batch| == CaptureTicks + 1 <==> forall k :: 0 <= k < |grabs| ==> grabs[k].Some?
  {
    var frameCapture := [currentFrame];
    var frameCount: nat := 0;
    while !(frameCount as real >= TotalDuration / FrameInterval)
      invariant frameCount <= CaptureTicks
      invariant frameCapture == [currentFrame] + Grabbed(grabs[..frameCount])
      decreases CaptureTicks - frameCount
    {
      var grab := grabs[frameCount];
      if grab.Some? {
        frameCapture := frameCapture + [grab.value];
      }
      assert grabs[..frameCount + 1][..frameCount] == grabs[..frameCount];
      frameCount := frameCount + 1;
    }
    assert grabs[..frameCount] == grabs;
    batch := frameCapture;
  }

  /** `sent` is one `upload_frame` per frame, in order, tagged with its index. */
  ghost predicate Uploads(sent: seq<Request>, frames: seq<string>, userId: string) {
    |sent| == |frames| && forall i :: 0 <= i < |frames| ==> sent[i] == UploadFrame(frames[i], userId, i)
  }

  // ---------------------------------------------------------------------------
  // The per-index upload aggregator, as a function of the messages delivered.

  /** The fate of the upload listener of one index: still registered, removed
      after a success report, or removed after a failure report (which is only
      logged). */
  datatype Slot = Listening | Uploaded | Failed

  /** The aggregator's state: one slot per frame of the batch, the frame ids in
      arrival order, and how many build requests it has sent. */
  datatype Collector = Collector(slots: seq<Slot>, frameIds: seq<string>, builds: nat)

  /** The number of slots in state `s`. */
  function Count(slots: seq<Slot>, s: Slot): (k: nat)
    ensures k <= |slots|
    decreases |slots|
  {
    if slots == [] then 0
    else Count(slots[..|slots| - 1], s) + (if slots[|slots| - 1] == s then 1 else 0)
  }

  /** The count is the whole sequence exactly when every slot is in state
      `s`, and zero exactly when none is. */
  lemma {:induction false} CountExtremes(slots: seq<Slot>, s: Slot)
    ensures Count(slots, s) == |slots| <==> forall i :: 0 <= i < |slots| ==> slots[i] == s
    ensures Count(slots, s) == 0 <==> forall i :: 0 <= i < |slots| ==> slots[i] != s
    decreases |slots|
  {
    if slots != [] {
      var front := slots[..|slots| - 1];
      CountExtremes(front, s);
      assert forall i :: 0 <= i < |front| ==> front[i] == slots[i];
    }
  }

  lemma {:induction false} CountUpdate(slots: seq<Slot>, i: nat, t: Slot, s: Slot)
    requires i < |slots|
    ensures Count(slots[i := t], s)
            == Count(slots, s) - (if slots[i] == s then 1 else 0) + (if t == s then 1 else 0)
    decreases |slots|
  {
    var n := |slots|;
    var u := slots[i := t];
    var front := slots[..n - 1];
    assert Count(u, s) == Count(u[..n - 1], s) + (if u[n - 1] == s then 1 else 0);
    assert Count(slots, s) == Count(front, s) + (if slots[n - 1] == s then 1 else 0);
    if i == n - 1 {
      assert u[..n - 1] == front;
    } else {
      assert u[..n - 1] == front[i := t];
      CountUpdate(front, i, t, s);
    }
  }

  /** Every reported success has appended exactly one id, and the build has
      been sent exactly when the ids of a non-empty batch are complete. */
  ghost predicate Inv(c: Collector) {
    && |c.frameIds| == Count(c.slots, Uploaded)
    && c.builds == (if |c.slots| > 0 && |c.frameIds| == |c.slots| then 1 else 0)
  }

  /** The aggregator right after the uploads of `n` frames were sent. */
  function Start(n: nat): (c: Collector)
    ensures Inv(c) && |c.slots| == n
    ensures forall i :: 0 <= i < n ==> c.slots[i] == Listening
  {
    CountExtremes(seq(n, _ => Listening), Uploaded);
    Collector(seq(n, _ => Listening), [], 0)
  }

  /** One broadcast message reaching the registered listeners. Only the
      listener of the reported index reacts; it appends the id of a success,
      counts the build when that append completes the batch, and removes
      itself either way. */
  function Deliver(c: Collector, m: TabMessage): (r: Collector)
    requires Inv(c)
    ensures Inv(r) && |r.slots| == |c.slots|
  {
    if m.FrameUploaded? && m.frameIndex < |c.slots| && c.slots[m.frameIndex] == Listening then
      if m.success then
        CountUpdate(c.slots, m.frameIndex, Uploaded, Uploaded);
        var ids := c.frameIds + [m.frameId];
        Collector(c.slots[m.frameIndex := Uploaded], ids, c.builds + (if |ids| == |c.slots| then 1 else 0))
      else
        CountUpdate(c.slots, m.frameIndex, Failed, Uploaded);
        Collector(c.slots[m.frameIndex := Failed], c.frameIds, c.builds)
    else c
  }

  /** The messages `ms`, in order, the last delivered last. */
  function DeliverAll(c: Collector, ms: seq<TabMessage>): (r: Collector)
    requires Inv(c)
    ensures Inv(r) && |r.slots| == |c.slots|
    decreases |ms|
  {
    if ms == [] then c else Deliver(DeliverAll(c, ms[..|ms| - 1]), ms[|ms| - 1])
  }

  /** Each listener reacts at most once: a message changes the aggregator
      exactly when it reports an index whose listener is still registered, and
      then only that index's slot changes; ids are only ever appended. */
  lemma DeliverReactsOnce(c: Collector, m: TabMessage)
    requires Inv(c)
    ensures var r := Deliver(c, m);
            r != c <==> m.FrameUploaded? && m.frameIndex < |c.slots| && c.slots[m.frameIndex] == Listening
    ensures var r := Deliver(c, m);
            forall i :: 0 <= i < |c.slots| && (c.slots[i] != Listening || r == c || i != m.frameIndex) ==>
              r.slots[i] == c.slots[i]
    ensures c.frameIds <= Deliver(c, m).frameIds && c.builds <= Deliver(c, m).builds
  {
  }

  /** Across any sequence of messages, a removed listener stays removed with
      its outcome, ids are only appended and a sent build stays sent. */
  lemma {:induction false} DeliverAllKeepsSettled(c: Collector, ms: seq<TabMessage>)
    requires Inv(c)
    ensures forall i :: 0 <= i < |c.slots| && c.slots[i] != Listening ==> DeliverAll(c, ms).slots[i] == c.slots[i]
    ensures c.frameIds <= DeliverAll(c, ms).frameIds && c.builds <= DeliverAll(c, ms).builds
    decreases |ms|
  {
    if ms != [] {
      DeliverAllKeepsSettled(c, ms[..|ms| - 1]);
      DeliverReactsOnce(DeliverAll(c, ms[..|ms| - 1]), ms[|ms| - 1]);
    }
  }

  /** The build is sent at most once, and it has been sent exactly when every
      index of a non-empty batch has reported success. */
  lemma BuildIffAllUploaded(c: Collector)
    requires Inv(c)
    ensures c.builds <= 1
    ensures c.builds == 1 <==> |c.slots| > 0 && forall i :: 0 <= i < |c.slots| ==> c.slots[i] == Uploaded
  {
    CountExtremes(c.slots, Uploaded);
  }

  /** Once any index has reported failure, no later message sends the build. */
  lemma FailureBlocksBuild(c: Collector, ms: seq<TabMessage>, i: nat)
    requires Inv(c) && i < |c.slots| && c.slots[i] == Failed
    ensures DeliverAll(c, ms).slots[i] == Failed
    ensures DeliverAll(c, ms).builds == 0
  {
    DeliverAllKeepsSettled(c, ms);
    BuildIffAllUploaded(DeliverAll(c, ms));
  }

  /** While some index has not reported, the build has not been sent and the
      ids are incomplete. */
  lemma SilenceBlocksBuild(c: Collector, i: nat)
    requires Inv(c) && i < |c.slots| && c.slots[i] == Listening
    ensures c.builds == 0 && |c.frameIds| < |c.slots|
  {
    CountExtremes(c.slots, Uploaded);
  }

  /** `ms` holds a success report for index `i`. */
  ghost predicate Reported(ms: seq<TabMessage>, i: nat) {
    exists k :: 0 <= k < |ms| && ms[k].FrameUploaded? && ms[k].success && ms[k].frameIndex == i
  }

  /** A slot only becomes `Uploaded` through a success report for its index. */
  lemma {:induction false} UploadedOnlyByReport(c: Collector, ms: seq<TabMessage>, i: nat)
    requires Inv(c) && i < |c.slots| && c.slots[i] == Listening
    ensures DeliverAll(c, ms).slots[i] == Uploaded ==> Reported(ms, i)
    decreases |ms|
  {
    if ms != [] {
      var front := ms[..|ms| - 1];
      var m := ms[|ms| - 1];
      var prev := DeliverAll(c, front);
      UploadedOnlyByReport(c, front, i);
      DeliverReactsOnce(prev, m);
      if DeliverAll(c, ms).slots[i] == Uploaded {
        if prev.slots[i] == Uploaded {
          var k :| 0 <= k < |front| && front[k].FrameUploaded? && front[k].success && front[k].frameIndex == i;
          assert ms[k] == front[k];
        } else {
          assert m.FrameUploaded? && m.success && m.frameIndex == i;
        }
      }
    }
  }

  /** The build request of a batch of `n` frames is only ever sent after every
      index has reported success. */
  lemma BuildNeedsEveryReport(n: nat, ms: seq<TabMessage>)
    ensures DeliverAll(Start(n), ms).builds == 1 ==> n > 0 && forall i :: 0 <= i < n ==> Reported(ms, i)
  {
    var r := DeliverAll(Start(n), ms);
    BuildIffAllUploaded(r);
    forall i | 0 <= i < n && r.builds == 1
      ensures Reported(ms, i)
    {
      UploadedOnlyByReport(Start(n), ms, i);
    }
  }

  /** Distinct in-range success reports, in any arrival order. */
  ghost predicate DistinctSuccesses(n: nat, ms: seq<TabMessage>) {
    && (forall k :: 0 <= k < |ms| ==> ms[k].FrameUploaded? && ms[k].success && ms[k].frameIndex < n)
    && (forall j, k :: 0 <= j < k < |ms| ==> ms[j].frameIndex != ms[k].frameIndex)
  }

  /** The frame ids the reports carry, in arrival order. */
  function IdsOf(ms: seq<TabMessage>): (ids: seq<string>)
    requires forall k :: 0 <= k < |ms| ==> ms[k].FrameUploaded?
    ensures |ids| == |ms|
    ensures forall k :: 0 <= k < |ms| ==> ids[k] == ms[k].frameId
    decreases |ms|
  {
    if ms == [] then [] else IdsOf(ms[..|ms| - 1]) + [ms[|ms| - 1].frameId]
  }

  /** With distinct success reports arriving in any order, the aggregator
      holds their ids in arrival order, exactly the reported slots are
      uploaded, and the build is sent once the last of the batch arrives. */
  lemma {:induction false} CollectSuccesses(n: nat, ms: seq<TabMessage>)
    requires DistinctSuccesses(n, ms)
    ensures DeliverAll(Start(n), ms).frameIds == IdsOf(ms)
    ensures forall i :: 0 <= i < n ==>
              DeliverAll(Start(n), ms).slots[i] == (if Reported(ms, i) then Uploaded else Listening)
    ensures DeliverAll(Start(n), ms).builds == (if n > 0 && |ms| == n then 1 else 0)
    decreases |ms|
  {
    if ms != [] {
      var front := ms[..|ms| - 1];
      var m := ms[|ms| - 1];
      LastNotYetReported(n, ms);
      CollectSuccesses(n, front);
      ReportedSnoc(ms);
      SuccessStep(DeliverAll(Start(n), front), m);
    }
  }

  /** The last of distinct reports is for an index none of the earlier ones
      reported, and the earlier ones are distinct too. */
  lemma LastNotYetReported(n: nat, ms: seq<TabMessage>)
    requires DistinctSuccesses(n, ms) && ms != []
    ensures DistinctSuccesses(n, ms[..|ms| - 1])
    ensures !Reported(ms[..|ms| - 1], ms[|ms| - 1].frameIndex)
  {
    var front := ms[..|ms| - 1];
    forall k | 0 <= k < |front| ensures front[k].frameIndex != ms[|ms| - 1].frameIndex {
      assert ms[k] == front[k];
    }
  }

  /** A first success report for a listening index marks it uploaded and
      appends its id. */
  lemma SuccessStep(c: Collector, m: TabMessage)
    requires Inv(c) && m.FrameUploaded? && m.success
    requires m.frameIndex < |c.slots| && c.slots[m.frameIndex] == Listening
    ensures Deliver(c, m).slots == c.slots[m.frameIndex := Uploaded]
    ensures Deliver(c, m).frameIds == c.frameIds + [m.frameId]
  {
  }

  lemma ReportedSnoc(ms: seq<TabMessage>)
    requires ms != [] && ms[|ms| - 1].FrameUploaded? && ms[|ms| - 1].success
    ensures forall i: nat :: Reported(ms, i) <==> Reported(ms[..|ms| - 1], i) || i == ms[|ms| - 1].frameIndex
  {
    var front := ms[..|ms| - 1];
    var m := ms[|ms| - 1];
    forall i: nat ensures Reported(ms, i) <==> Reported(front, i) || i == m.frameIndex {
      if Reported(ms, i) && i != m.frameIndex {
        var k :| 0 <= k < |ms| && ms[k].FrameUploaded? && ms[k].success && ms[k].frameIndex == i;
        assert k < |front| && front[k] == ms[k];
      }
      if Reported(front, i) {
        var k :| 0 <= k < |front| && front[k].FrameUploaded? && front[k].success && front[k].frameIndex == i;
        assert ms[k] == front[k];
      }
      if i == m.frameIndex {
        assert ms[|front|] == m;
      }
    }
  }

  /** Two frames whose reports arrive index 1 first: the build is sent with the
      ids in arrival order, not in index order. */
  lemma ArrivalOrderNotIndexOrder(a: string, b: string)
    ensures DeliverAll(Start(2), [FrameUploaded(true, b, 1), FrameUploaded(true, a, 0)]).frameIds == [b, a]
    ensures DeliverAll(Start(2), [FrameUploaded(true, b, 1), FrameUploaded(true, a, 0)]).builds == 1
  {
    var ms := [FrameUploaded(true, b, 1), FrameUploaded(true, a, 0)];
    assert DistinctSuccesses(2, ms);
    CollectSuccesses(2, ms);
  }

  // ---------------------------------------------------------------------------
  // The form component.

  class SubmitForm {
    const userId: string
    const positiveCoordinates: seq<Point>
    const positiveCoordsPercent: seq<Point>
    const flow: Flow
    const currentFrame: string
    const maskSrc: Option<string>

    var title: string
    var isGenerating: bool
    var importantMessageVisible: bool
    var successMessageVisible: bool
    var inputAndButtonVisible: bool
    var url: string
    var isLoading: bool
    /** Playback state of the target video, which the capture plays and pauses. */
    var videoPlaying: bool

    // closure state of the upload aggregator: the per-index listeners and the id list
    var listeners: seq<Slot>
    var frameIds: seq<string>
    ghost var buildsSent: nat
    ghost var events: seq<TabMessage>

    ghost function Aggregator(): (c: Collector)
      reads this`listeners, this`frameIds, this`buildsSent
    {
      Collector(listeners, frameIds, buildsSent)
    }

    /** The aggregator is the collector of the current batch fed with the
        messages received since its uploads were sent. */
    ghost predicate Valid()
      reads this`listeners, this`frameIds, this`buildsSent, this`events
    {
      Aggregator() == DeliverAll(Start(|listeners|), events)
    }

    /** The title input and the generate button are rendered. */
    predicate FormShown()
      reads this
    {
      inputAndButtonVisible && !successMessageVisible
    }

    constructor (userId: string, positiveCoordinates: seq<Point>, positiveCoordsPercent: seq<Point>,
                 flow: Flow, currentFrame: string, maskSrc: Option<string>, videoPlaying: bool)
      ensures Valid()
      ensures this.userId == userId && this.positiveCoordinates == positiveCoordinates
      ensures this.positiveCoordsPercent == positiveCoordsPercent && this.flow == flow
      ensures this.currentFrame == currentFrame && this.maskSrc == maskSrc
      ensures this.videoPlaying == videoPlaying
      ensures title == "" && !isGenerating && !importantMessageVisible && !successMessageVisible
      ensures inputAndButtonVisible && url == "" && !isLoading
      ensures listeners == [] && frameIds == [] && buildsSent == 0
    {
      this.userId := userId;
      this.positiveCoordinates := positiveCoordinates;
      this.positiveCoordsPercent := positiveCoordsPercent;
      this.flow := flow;
      this.currentFrame := currentFrame;
      this.maskSrc := maskSrc;
      this.videoPlaying := videoPlaying;
      title := "";
      isGenerating, importantMessageVisible, successMessageVisible := false, false, false;
      inputAndButtonVisible := true;
      url := "";
      isLoading := false;
      listeners, frameIds := [], [];
      buildsSent, events := 0, [];
    }

    /** The title input's `onChange`; the input is only rendered with the
        form, so once a generate button has been clicked the title no longer
        changes and the build carries the title of the click. */
    method SetTitle(t: string)
      requires Valid() && FormShown()
      modifies this`title
      ensures Valid() && title == t
    {
      title := t;
    }

    /** "Generate 3D Model": with a mask and a frame, exactly one
        `generate_3d_model` carrying them is sent and the overlay asks to be
        closed; otherwise an alert and nothing else. The title is not checked. */
    method HandleGenerate3DModel() returns (alert: Option<string>, sent: Option<Request>, close: bool)
      requires Valid() && flow == Model && FormShown() && !isGenerating
      modifies this
      ensures Valid()
      ensures !Present(maskSrc) || currentFrame == "" ==>
                alert == Some(MissingAlert) && sent == None && !close && unchanged(this)
      ensures Present(maskSrc) && currentFrame != "" ==>
                && alert == None && close
                && sent == Some(Generate3DModel(title, userId, maskSrc.value, currentFrame))
                && !inputAndButtonVisible && !isGenerating
      ensures title == old(title) && videoPlaying == old(videoPlaying) && isLoading == old(isLoading)
      ensures successMessageVisible == old(successMessageVisible) && url == old(url)
      ensures importantMessageVisible == old(importantMessageVisible)
      ensures Aggregator() == old(Aggregator()) && events == old(events)
    {
      if !Present(maskSrc) || currentFrame == "" {
        return Some(MissingAlert), None, false;
      }
      isGenerating := true;
      inputAndButtonVisible := false;
      sent := Some(Generate3DModel(title, userId, maskSrc.value, currentFrame));
      isGenerating := false;
      alert, close := None, true;
    }

    /** After a capture from `grabs`: the batch is the mask frame followed by
        the grabbed frames, one upload per frame was sent, the form is hidden
        and loading, the video paused, and the aggregator listens on every
        index of the batch. */
    ghost predicate Captured(grabs: seq<Option<string>>, batch: seq<string>, uploads: seq<Request>)
      reads this
    {
      && batch == [currentFrame] + Grabbed(grabs)
      && Uploads(uploads, batch, userId)
      && isGenerating && !inputAndButtonVisible && !importantMessageVisible
      && isLoading && !videoPlaying
      && Aggregator() == Start(|batch|) && events == []
    }

    /** "Generate 3D Video": with an empty title, an alert and nothing else.
        Otherwise the capture runs and its last tick uploads the batch. */
    method HandleGenerate3DVideo(grabs: seq<Option<string>>)
        returns (alert: Option<string>, batch: seq<string>, uploads: seq<Request>)
      requires Valid() && flow == Video && FormShown() && !isGenerating
      requires |grabs| == CaptureTicks
      modifies this
      ensures Valid()
      ensures title == "" ==> alert == Some(TitleAlert) && batch == [] && uploads == [] && unchanged(this)
      ensures title != "" ==> alert == None && Captured(grabs, batch, uploads)
      ensures title == old(title) && successMessageVisible == old(successMessageVisible) && url == old(url)
    {
      if title == "" {
        return Some(TitleAlert), [], [];
      }
      batch, uploads := CaptureAndUpload(grabs);
      alert := None;
    }

    /** The form is hidden, the notice shown and the video played while
        `CaptureTicks` grabs are taken; the capture's last tick uploads the
        batch. */
    method CaptureAndUpload(grabs: seq<Option<string>>) returns (batch: seq<string>, uploads: seq<Request>)
      requires |grabs| == CaptureTicks
      modifies this`isGenerating, this`inputAndButtonVisible, this`importantMessageVisible
      modifies this`videoPlaying, this`isLoading
      modifies this`listeners, this`frameIds, this`buildsSent, this`events
      ensures Valid() && Captured(grabs, batch, uploads)
    {
      isGenerating := true;
      inputAndButtonVisible := false;
      importantMessageVisible := true;
      videoPlaying := true;
      batch := CaptureBatch(currentFrame, grabs);
      uploads := CaptureStopped(batch);
    }

    /** The capture's last tick: the video is paused, the notice hidden, the
        loading animation started and the batch uploaded. */
    method CaptureStopped(frames: seq<string>) returns (uploads: seq<Request>)
      modifies this`videoPlaying, this`importantMessageVisible, this`isLoading
      modifies this`listeners, this`frameIds, this`buildsSent, this`events
      ensures Valid()
      ensures !videoPlaying && !importantMessageVisible && isLoading
      ensures Uploads(uploads, frames, userId)
      ensures Aggregator() == Start(|frames|) && events == []
    {
      videoPlaying := false;
      importantMessageVisible := false;
      isLoading := true;
      uploads := UploadFramesToServiceWorker(frames);
    }

    /** `uploadFramesToServiceWorker`: a fresh, empty id list; for each frame,
        in order, one `upload_frame` tagged with its index and one listener
        registered for that index. */
    method UploadFramesToServiceWorker(frames: seq<string>) returns (sent: seq<Request>)
      modifies this`listeners, this`frameIds, this`buildsSent, this`events
      ensures Valid()
      ensures Uploads(sent, frames, userId)
      ensures Aggregator() == Start(|frames|) && events == []
    {
      frameIds := [];
      listeners := [];
      sent := [];
      for index := 0 to |frames|
        invariant frameIds == [] && |sent| == index && |listeners| == index
        invariant forall i :: 0 <= i < index ==> sent[i] == UploadFrame(frames[i], userId, i)
        invariant forall i :: 0 <= i < index ==> listeners[i] == Listening
      {
        sent := sent + [UploadFrame(frames[index], userId, index)];
        listeners := listeners + [Listening];
      }
      buildsSent, events := 0, [];
      assert listeners == Start(|frames|).slots;
    }

    /** The upload listeners: only the listener of the reported index reacts,
        once; it removes itself and, on success, appends the frame id in
        arrival order; the append that completes the batch sends the build
        request with the collected ids, the coordinates unchanged and
        framerate 1. */
    method DeliverToUploadListeners(m: TabMessage) returns (sent: Option<Request>)
      requires Valid()
      modifies this`listeners, this`frameIds, this`buildsSent, this`events, this`isGenerating
      ensures Valid()
      ensures events == old(events) + [m]
      ensures Aggregator() == Deliver(old(Aggregator()), m)
      ensures sent.Some? <==> buildsSent == old(buildsSent) + 1
      ensures sent.Some? ==> BuildSent(sent.value)
      ensures sent.None? ==> isGenerating == old(isGenerating)
    {
      sent := UploadListeners(m);
      events := events + [m];
      assert events[..|events| - 1] == old(events);
    }

    /** The registered upload listeners, as code: the received history is
        left to the caller. */
    method UploadListeners(m: TabMessage) returns (sent: Option<Request>)
      requires Inv(Aggregator())
      modifies this`listeners, this`frameIds, this`buildsSent, this`isGenerating
      ensures Aggregator() == Deliver(old(Aggregator()), m)
      ensures sent.Some? <==> buildsSent == old(buildsSent) + 1
      ensures sent.Some? ==> BuildSent(sent.value)
      ensures sent.None? ==> isGenerating == old(isGenerating)
    {
      ghost var after := Deliver(Aggregator(), m);
      sent := None;
      if m.FrameUploaded? && m.frameIndex < |listeners| && listeners[m.frameIndex] == Listening {
        if m.success {
          frameIds := frameIds + [m.frameId];
          if |frameIds| == |listeners| {
            var request := Create3DVideoRequest();
            sent := Some(request);
            buildsSent := buildsSent + 1;
          }
          listeners := listeners[m.frameIndex := Uploaded];
        } else {
          listeners := listeners[m.frameIndex := Failed];
        }
      }
      assert Aggregator() == after;
      if sent.Some? {
        BuildIffAllUploaded(after);
      }
    }

    /** The build request went out: every listener reported success, the ids
        are complete, and the request carries them, the title, the placeholder
        description, the coordinates unchanged and framerate 1. */
    ghost predicate BuildSent(request: Request)
      reads this
    {
      && (forall i :: 0 <= i < |listeners| ==> listeners[i] == Uploaded)
      && |frameIds| == |listeners|
      && request == Generate3DVideo(title, Placeholder, frameIds, positiveCoordinates,
                                    positiveCoordsPercent, userId, BuildFramerate)
      && !isGenerating
    }

    /** `create3DVideoRequest`: the build request for the collected ids. */
    method Create3DVideoRequest() returns (request: Request)
      modifies this`isGenerating
      ensures request == Generate3DVideo(title, Placeholder, frameIds, positiveCoordinates,
                                         positiveCoordsPercent, userId, BuildFramerate)
      ensures !isGenerating
    {
      request := Generate3DVideo(title, Placeholder, frameIds, positiveCoordinates,
                                 positiveCoordsPercent, userId, BuildFramerate);
      isGenerating := false;
    }

    /** The `3d_video_created` listener: a successful build shows the success
        message with its URL and stops the loading animation. */
    method On3DVideoCreated(m: TabMessage)
      modifies this`isLoading, this`successMessageVisible, this`url
      ensures m.VideoCreated? && m.success ==> !isLoading && successMessageVisible && url == m.voxelVideoUrl
      ensures !(m.VideoCreated? && m.success) ==>
                isLoading == old(isLoading) && successMessageVisible == old(successMessageVisible)
                && url == old(url)
    {
      if m.VideoCreated? && m.success {
        isLoading := false;
        successMessageVisible := true;
        url := m.voxelVideoUrl;
      }
    }
  }
}
