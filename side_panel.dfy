/** The side panel: it collects up to ten frames streamed to it, lets the user
    pick a frame and a point on it, requests a mask for that point, and sends
    its own variant of the 3D-video request. */
module SidePanel {
  import opened Relay

  const MaxFrames: nat := 10
  const SelectAlert := "Please select a frame and point."
  const MaskFailedAlert := "Failed to generate mask."
  const EmailAlert := "Please enter your email."
  const PanelTitle := "3D Video"
  const PanelDescription := "3D Video Description"

  /** `handleFrameData` on the frame list: a message carrying frame data
      appends it while fewer than ten frames are held. */
  function KeepFrame(frames: seq<string>, frameData: Option<string>): (r: seq<string>)
    ensures frames <= r && |r| <= |frames| + 1
    ensures |r| == |frames| + 1 <==> Present(frameData) && |frames| < MaxFrames
    ensures |r| == |frames| + 1 ==> r[|frames|] == frameData.value
  {
    if Present(frameData) && |frames| < MaxFrames then frames + [frameData.value] else frames
  }

  /** The frame list after the messages `ds`, the last delivered last. */
  function KeepFrames(frames: seq<string>, ds: seq<Option<string>>): (r: seq<string>)
    ensures frames <= r
    ensures |frames| <= MaxFrames ==> |r| <= MaxFrames
    decreases |ds|
  {
    if ds == [] then frames else KeepFrame(KeepFrames(frames, ds[..|ds| - 1]), ds[|ds| - 1])
  }

  /** The frame data the messages carry, in order. */
  function Carried(ds: seq<Option<string>>): (r: seq<string>)
    ensures |r| <= |ds|
    decreases |ds|
  {
    if ds == [] then []
    else Carried(ds[..|ds| - 1]) + (if Present(ds[|ds| - 1]) then [ds[|ds| - 1].value] else [])
  }

  function Min(a: int, b: int): (m: int)
    ensures m <= a && m <= b && (m == a || m == b)
  {
    if a <= b then a else b
  }

  /** The panel keeps exactly the first frames offered, in order, until it
      holds ten, and drops every later one. */
  lemma {:induction false} KeepFramesTruncates(frames: seq<string>, ds: seq<Option<string>>)
    requires |frames| <= MaxFrames
    ensures var all := frames + Carried(ds);
            KeepFrames(frames, ds) == all[..Min(MaxFrames, |all|)]
    ensures |KeepFrames(frames, ds)| <= MaxFrames
    decreases |ds|
  {
    if ds != [] {
      var front := ds[..|ds| - 1];
      KeepFramesTruncates(frames, front);
      var before := frames + Carried(front);
      var all := frames + Carried(ds);
      assert before <= all;
      if Present(ds[|ds| - 1]) {
        assert all == before + [ds[|ds| - 1].value];
      } else {
        assert all == before;
      }
    }
  }

  /** The selected point: the click position relative to the image's
      top-left corner. */
  function ClickOffset(click: Point, topLeft: Point): (p: Point)
    ensures p.x + topLeft.x == click.x && p.y + topLeft.y == click.y
  {
    Point(click.x - topLeft.x, click.y - topLeft.y)
  }

  class Panel {
    var frameCount: nat
    var selectedPoint: Option<Point>
    var frames: seq<string>
    var selectedFrameIndex: Option<nat>
    var email: string
    var isMaskLoading: bool
    var maskSrc: string
    /** The frame images carrying a point-selection click listener. */
    var pointListeners: set<nat>
    /** The frame data of every message received so far. */
    ghost var offered: seq<Option<string>>

    /** The counter shadows the list, which holds at most ten frames; the
        selection and the point listeners refer to frames that exist. */
    ghost predicate Valid()
      reads this
    {
      && frameCount == |frames| && |frames| <= MaxFrames
      && (selectedFrameIndex.Some? ==> selectedFrameIndex.value < |frames|)
      && (forall i :: i in pointListeners ==> i < |frames|)
      && frames == KeepFrames([], offered)
    }

    constructor ()
      ensures Valid()
      ensures frames == [] && frameCount == 0 && selectedPoint == None && selectedFrameIndex == None
      ensures email == "" && !isMaskLoading && maskSrc == "" && pointListeners == {}
    {
      frameCount, frames := 0, [];
      selectedPoint, selectedFrameIndex := None, None;
      email, maskSrc := "", "";
      isMaskLoading := false;
      pointListeners := {};
      offered := [];
    }

    /** The frame-data listener: the counter moves exactly when a frame is
        appended, and the list is always the first ten frames offered. */
    method OnFrameData(frameData: Option<string>)
      requires Valid()
      modifies this`frames, this`frameCount, this`offered
      ensures Valid()
      ensures offered == old(offered) + [frameData]
      ensures frames == KeepFrame(old(frames), frameData)
      ensures frames == Carried(offered)[..Min(MaxFrames, |Carried(offered)|)]
      ensures frameCount == old(frameCount) + 1 <==> Present(frameData) && old(|frames|) < MaxFrames
      ensures frameCount == old(frameCount) <==> !(Present(frameData) && old(|frames|) < MaxFrames)
    {
      OnFrameDataFolds([], offered, frameData);
      offered := offered + [frameData];
      KeepFramesTruncates([], offered);
      assert [] + Carried(offered) == Carried(offered);
      if Present(frameData) {
        if |frames| >= MaxFrames {
          return;
        }
        frames := frames + [frameData.value];
        frameCount := frameCount + 1;
      }
    }

    /** A click on the image of frame `index`: the point listeners already on
        that image record the click relative to its corner, then the frame is
        selected and one more point listener is attached to it. */
    method ClickFrame(index: nat, click: Point, topLeft: Point)
      requires Valid() && index < |frames|
      modifies this`selectedPoint, this`selectedFrameIndex, this`pointListeners
      ensures Valid()
      ensures selectedFrameIndex == Some(index)
      ensures pointListeners == old(pointListeners) + {index}
      ensures index in old(pointListeners) ==> selectedPoint == Some(ClickOffset(click, topLeft))
      ensures index !in old(pointListeners) ==> selectedPoint == old(selectedPoint)
    {
      if index in pointListeners {
        selectedPoint := Some(ClickOffset(click, topLeft));
      }
      selectedFrameIndex := Some(index);
      pointListeners := pointListeners + {index};
    }

    /** "Generate Mask": without a selected frame and point, an alert and
        nothing else; otherwise loading starts and the selected frame is sent
        with the point as its single coordinate, with no percent list and no
        user id. */
    method GenerateMask() returns (alert: Option<string>, sent: Option<Request>)
      requires Valid()
      modifies this`isMaskLoading
      ensures Valid()
      ensures selectedFrameIndex.None? || selectedPoint.None? ==>
                alert == Some(SelectAlert) && sent == None && isMaskLoading == old(isMaskLoading)
      ensures selectedFrameIndex.Some? && selectedPoint.Some? ==>
                && alert == None && isMaskLoading
                && sent == Some(GetMaskForFrame(frames[selectedFrameIndex.value], [selectedPoint.value], None, None))
    {
      if selectedFrameIndex.None? || selectedPoint.None? {
        return Some(SelectAlert), None;
      }
      isMaskLoading := true;
      var point := selectedPoint.value;
      sent := Some(GetMaskForFrame(frames[selectedFrameIndex.value], [Point(point.x, point.y)], None, None));
      alert := None;
    }

    /** The mask request's callback: loading stops either way. It runs with no
        response (`None`) when the channel closes without an acknowledgement;
        reading `response.success` then throws, so neither the mask nor the
        alert appears. Otherwise the mask is shown only for a successful
        acknowledgement carrying a mask, and anything else alerts. */
    method OnMaskAck(response: Option<MaskAck>) returns (alert: Option<string>)
      requires Valid()
      modifies this`isMaskLoading, this`maskSrc
      ensures Valid()
      ensures !isMaskLoading
      ensures response.None? ==> maskSrc == old(maskSrc) && alert == None
      ensures response.Some? && response.value.success && Present(response.value.mask) ==>
                maskSrc == MaskDataPrefix + response.value.mask.value && alert == None
      ensures response.Some? && !(response.value.success && Present(response.value.mask)) ==>
                maskSrc == old(maskSrc) && alert == Some(MaskFailedAlert)
    {
      isMaskLoading := false;
      if response.None? {
        // `undefined.success` throws: the callback stops here
        return None;
      }
      var ack := response.value;
      if ack.success && Present(ack.mask) {
        maskSrc := MaskDataPrefix + ack.mask.value;
        alert := None;
      } else {
        alert := Some(MaskFailedAlert);
      }
    }

    /** The e-mail input's `onChange`. */
    method SetEmail(e: string)
      requires Valid()
      modifies this`email
      ensures Valid() && email == e
    {
      email := e;
    }

    /** "Generate 3D Video": with an empty e-mail, an alert and nothing else;
        otherwise the panel's variant of the request, with every held frame,
        the selection, the point as a pair (or empty) and fixed title and
        description. */
    method Generate3DVideo() returns (alert: Option<string>, sent: Option<Request>)
      requires Valid()
      ensures email == "" ==> alert == Some(EmailAlert) && sent == None
      ensures email != "" ==>
                && alert == None
                && sent == Some(PanelGenerate3DVideo(
                             frames, selectedFrameIndex,
                             if selectedPoint.Some? then [selectedPoint.value.x, selectedPoint.value.y] else [],
                             PanelTitle, PanelDescription, email))
    {
      if email == "" {
        return Some(EmailAlert), None;
      }
      var point: seq<real> := [];
      if selectedPoint.Some? {
        point := [selectedPoint.value.x, selectedPoint.value.y];
      }
      sent := Some(PanelGenerate3DVideo(frames, selectedFrameIndex, point, PanelTitle, PanelDescription, email));
      alert := None;
    }
  }

  /** One more message is one more step of the fold. */
  lemma OnFrameDataFolds(frames: seq<string>, ds: seq<Option<string>>, d: Option<string>)
    ensures KeepFrame(KeepFrames(frames, ds), d) == KeepFrames(frames, ds + [d])
  {
    assert (ds + [d])[..|ds|] == ds;
  }
}
