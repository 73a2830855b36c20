/** The point-selection overlay drawn over the chosen video: three draggable
    dots, the mask request, the mask confirmation prompt and the gate in front
    of the title form. Each handler and listener callback is one atomic event. */
module Overlay {
  import opened Relay
  import opened Coordinates

  const DragPrompt := "Drag the dots to position the line to capture the character"
  const LoadingPrompt := "Loading, this can take a few mins on cold start..."
  const MaskPrompt := "Is this mask correct?"
  const RedoPrompt := "Drag the dots to the desired positions"

  class OverlaySession {
    const userId: string
    const flow: Flow

    var dots: seq<Point>
    var stageWidth: real
    var stageHeight: real
    var showGenerateButton: bool
    var isGenerating: bool
    var maskSrc: Option<string>
    var showMask: bool
    var nextStepText: string
    var showEmailForm: bool
    var posCoordPercent: Option<seq<Point>>
    var positiveCoordinates: Option<seq<Point>>
    var currentFrame: Option<string>
    var isLoading: bool
    var errorMessage: Option<string>

    /** The dots are either not yet placed or exactly three. */
    ghost predicate Valid()
      reads this
    {
      |dots| == 0 || |dots| == 3
    }

    /** The Konva stage with the line and the draggable dots is rendered. */
    predicate StageShown()
      reads this
    {
      !isGenerating
    }

    /** The "Capture Character" button is rendered and enabled. */
    predicate GenerateEnabled()
      reads this
    {
      showGenerateButton && !isGenerating
    }

    /** The Yes / No controls are rendered. */
    predicate ConfirmShown()
      reads this
    {
      nextStepText == MaskPrompt
    }

    /** The generated mask image is rendered. */
    predicate MaskShown()
      reads this
    {
      maskSrc.Some? && maskSrc.value != "" && showMask
    }

    /** The title form is rendered: it needs both coordinate lists and the frame. */
    predicate EmailFormShown()
      reads this
    {
      showEmailForm && posCoordPercent.Some? && positiveCoordinates.Some?
      && currentFrame.Some? && currentFrame.value != ""
    }

    constructor (userId: string, flow: Flow)
      ensures Valid()
      ensures this.userId == userId && this.flow == flow
      ensures dots == [] && stageWidth == 0.0 && stageHeight == 0.0
      ensures !showGenerateButton && !isGenerating && !showMask && !showEmailForm && !isLoading
      ensures maskSrc == None && posCoordPercent == None && positiveCoordinates == None
      ensures currentFrame == None && errorMessage == None
      ensures nextStepText == DragPrompt
    {
      this.userId := userId;
      this.flow := flow;
      dots := [];
      stageWidth, stageHeight := 0.0, 0.0;
      showGenerateButton, isGenerating, showMask, showEmailForm, isLoading := false, false, false, false, false;
      maskSrc, posCoordPercent, positiveCoordinates, currentFrame, errorMessage := None, None, None, None, None;
      nextStepText := DragPrompt;
    }

    /** Mount, resize or scroll: the stage takes the video's rendered size,
        and a non-zero size puts the three default dots back, discarding any
        dragged positions. */
    method SetStageSize(w: real, h: real)
      requires Valid()
      modifies this
      ensures Valid()
      ensures stageWidth == w && stageHeight == h
      ensures w != 0.0 && h != 0.0 ==> dots == DefaultDots(w, h)
      ensures w == 0.0 || h == 0.0 ==> dots == old(dots)
      ensures showGenerateButton == old(showGenerateButton) && isGenerating == old(isGenerating)
      ensures maskSrc == old(maskSrc) && showMask == old(showMask) && nextStepText == old(nextStepText)
      ensures showEmailForm == old(showEmailForm) && posCoordPercent == old(posCoordPercent)
      ensures positiveCoordinates == old(positiveCoordinates) && currentFrame == old(currentFrame)
      ensures isLoading == old(isLoading) && errorMessage == old(errorMessage)
    {
      stageWidth, stageHeight := w, h;
      if w != 0.0 && h != 0.0 {
        dots := DefaultDots(w, h);
      }
    }

    /** `onDragMove` of dot `index`: only that dot moves, to the dragged stage
        pixel in percent (not clamped), and the generate button is shown. */
    method DragMove(index: nat, px: real, py: real)
      requires Valid() && StageShown()
      requires index < |dots|
      requires stageWidth != 0.0 && stageHeight != 0.0
      modifies this
      ensures Valid()
      ensures stageWidth == old(stageWidth) && stageHeight == old(stageHeight)
      ensures dots == old(dots)[index := Point(DragToPercent(px, stageWidth), DragToPercent(py, stageHeight))]
      ensures |dots| == 3
      ensures forall j :: 0 <= j < |dots| && j != index ==> dots[j] == old(dots)[j]
      ensures showGenerateButton
      ensures isGenerating == old(isGenerating) && maskSrc == old(maskSrc) && showMask == old(showMask)
      ensures nextStepText == old(nextStepText) && showEmailForm == old(showEmailForm)
      ensures posCoordPercent == old(posCoordPercent) && positiveCoordinates == old(positiveCoordinates)
      ensures currentFrame == old(currentFrame) && isLoading == old(isLoading)
      ensures errorMessage == old(errorMessage)
    {
      var newX := DragToPercent(px, stageWidth);
      var newY := DragToPercent(py, stageHeight);
      var newDots := dots[index := Point(newX, newY)];
      dots := newDots;
      showGenerateButton := |newDots| == 3;
    }

    /** "Capture Character": the frame grabbed from the video (at its native
        size) is kept, both coordinate lists are computed from the dots in dot
        order, and one `get_mask_for_frame` carrying them and the user id is
        sent. */
    method GenerateMask(frame: string, videoWidth: nat, videoHeight: nat) returns (sent: Request)
      requires Valid() && GenerateEnabled()
      modifies this
      ensures Valid()
      ensures sent == GetMaskForFrame(frame, NativePixels(dots, videoWidth, videoHeight),
                                      Some(PercentCoords(dots)), Some(userId))
      ensures |sent.positiveCoordinates| == |dots| && |sent.positiveCoordsPercent.value| == |dots|
      ensures isGenerating && isLoading && nextStepText == LoadingPrompt
      ensures currentFrame == Some(frame)
      ensures posCoordPercent == Some(PercentCoords(dots))
      ensures positiveCoordinates == Some(NativePixels(dots, videoWidth, videoHeight))
      ensures dots == old(dots) && stageWidth == old(stageWidth) && stageHeight == old(stageHeight)
      ensures showGenerateButton == old(showGenerateButton) && maskSrc == old(maskSrc)
      ensures showMask == old(showMask) && showEmailForm == old(showEmailForm)
      ensures errorMessage == old(errorMessage)
    {
      isGenerating := true;
      isLoading := true;
      nextStepText := LoadingPrompt;
      currentFrame := Some(frame);
      // img.onload: the decoded frame's natural size is the video's native size
      var coordsPercent := PercentCoords(dots);
      var coordinates := NativePixels(dots, videoWidth, videoHeight);
      posCoordPercent := Some(coordsPercent);
      positiveCoordinates := Some(coordinates);
      sent := GetMaskForFrame(frame, coordinates, Some(coordsPercent), Some(userId));
    }

    /** Listener for `mask_generated` and `error_occurred`; any other message
        changes nothing. */
    method OnMessage(m: TabMessage)
      requires Valid()
      modifies this
      ensures Valid()
      ensures (m.MaskGenerated? || m.ErrorOccurred?) ==> !isLoading
      ensures m.MaskGenerated? && Present(m.mask) ==>
                maskSrc == Some(MaskDataPrefix + m.mask.value) && showMask && MaskShown()
                && !showGenerateButton && nextStepText == MaskPrompt && ConfirmShown()
      ensures !(m.MaskGenerated? && Present(m.mask)) ==>
                maskSrc == old(maskSrc) && showMask == old(showMask)
                && showGenerateButton == old(showGenerateButton) && nextStepText == old(nextStepText)
      ensures m.ErrorOccurred? ==> errorMessage == m.message
      ensures !m.ErrorOccurred? ==> errorMessage == old(errorMessage)
      ensures !(m.MaskGenerated? || m.ErrorOccurred?) ==> isLoading == old(isLoading)
      ensures dots == old(dots) && stageWidth == old(stageWidth) && stageHeight == old(stageHeight)
      ensures isGenerating == old(isGenerating) && showEmailForm == old(showEmailForm)
      ensures posCoordPercent == old(posCoordPercent) && positiveCoordinates == old(positiveCoordinates)
      ensures currentFrame == old(currentFrame)
    {
      match m
      case MaskGenerated(mask) =>
        isLoading := false;
        if Present(mask) {
          maskSrc := Some(MaskDataPrefix + mask.value);
          showMask := true;
          showGenerateButton := false;
          nextStepText := MaskPrompt;
        }
      case ErrorOccurred(message) =>
        isLoading := false;
        errorMessage := message;
      case _ =>
    }

    /** "Yes": the mask is hidden, the prompt cleared and the title form opened. */
    method ConfirmYes()
      requires Valid() && ConfirmShown()
      modifies this
      ensures Valid()
      ensures nextStepText == "" && !ConfirmShown() && !showMask && showEmailForm
      ensures EmailFormShown() <==> old(posCoordPercent.Some? && positiveCoordinates.Some?
                                        && currentFrame.Some? && currentFrame.value != "")
      ensures dots == old(dots) && stageWidth == old(stageWidth) && stageHeight == old(stageHeight)
      ensures showGenerateButton == old(showGenerateButton) && isGenerating == old(isGenerating)
      ensures maskSrc == old(maskSrc) && posCoordPercent == old(posCoordPercent)
      ensures positiveCoordinates == old(positiveCoordinates) && currentFrame == old(currentFrame)
      ensures isLoading == old(isLoading) && errorMessage == old(errorMessage)
    {
      nextStepText := "";
      showMask := false;
      showEmailForm := true;
    }

    /** "No": the mask is hidden, the three default dots for the current stage
        size come back (never the dragged ones), and the stage and the generate
        button are shown again. */
    method ConfirmNo()
      requires Valid() && ConfirmShown()
      requires stageWidth != 0.0 && stageHeight != 0.0
      modifies this
      ensures Valid()
      ensures stageWidth == old(stageWidth) && stageHeight == old(stageHeight)
      ensures dots == DefaultDots(stageWidth, stageHeight)
      ensures dots == [Point(8000.0 / stageWidth, 8000.0 / stageHeight),
                       Point(100.0 / 3.0, 100.0 / 3.0), Point(50.0, 40.0)]
      ensures nextStepText == RedoPrompt && !showMask && !isGenerating && showGenerateButton
      ensures StageShown() && GenerateEnabled() && !ConfirmShown()
      ensures maskSrc == old(maskSrc) && showEmailForm == old(showEmailForm)
      ensures posCoordPercent == old(posCoordPercent) && positiveCoordinates == old(positiveCoordinates)
      ensures currentFrame == old(currentFrame) && isLoading == old(isLoading)
      ensures errorMessage == old(errorMessage)
    {
      nextStepText := RedoPrompt;
      showMask := false;
      dots := DefaultDots(stageWidth, stageHeight);
      isGenerating := false;
      showGenerateButton := true;
    }
  }

  /** Two dots of the mask request, for a 1920x1080 frame with the default
      dots: the centre-biased dot lands on pixel (640, 360) and the third on
      (960, 432). */
  lemma DefaultDotsOnFullHd(w: real, h: real)
    requires w != 0.0 && h != 0.0
    ensures NativePixels(DefaultDots(w, h), 1920, 1080)[1] == Point(640.0, 360.0)
    ensures NativePixels(DefaultDots(w, h), 1920, 1080)[2] == Point(960.0, 432.0)
    ensures PercentCoords(DefaultDots(w, h))[2] == Point(0.5, 0.4)
  {
    var d := DefaultDots(w, h);
    assert PercentToFraction(d[1].x) * 1920.0 == 640.0;
    assert PercentToFraction(d[1].y) * 1080.0 == 360.0;
    assert PercentToFraction(d[2].y) * 1080.0 == 432.0;
  }
}
