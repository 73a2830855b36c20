# Voxel capture extension: message-driven core

This project models the decision logic of a browser extension. The extension
lets a user pick a character in a web video and have a remote service build a
3D model or a 3D video of it. Every listener callback and every click handler
is one atomic event. Frames, masks and tokens are opaque strings. Each remote
call is an outcome value:

- `Ok(payload)`, a parsed OK body;
- `HttpError(message?)`, a non-OK status with the optional message of its error body;
- `Threw(message?)`, an exception.

The modules follow the program's parts:

- `Relay` (shared by all the files) holds the message shapes exchanged between the
  in-page scripts, the side panel and the background coordinator. It also
  holds the remote outcomes and JavaScript truthiness of optional strings
  (`Present`).
- `Coordinates` (`overlay.tsx`) holds the overlay's coordinate maps:
  - a stage pixel to a percent of the stage and back;
  - a percent to a fraction of the frame;
  - a fraction to a rounded pixel of the frame's native size.

  `Math.round` is modelled as `Floor(x + 1/2)`. The three default dots are
  written exactly as the source computes them.
- `Overlay` (`overlay.tsx`) is the point-selection state machine, a class
  `OverlaySession`. It covers the stage size, the drag, the mask request,
  the `mask_generated` / `error_occurred` listener, Yes / No, and the
  render gates (for example "the Yes / No controls are shown"), which become
  preconditions of the click handlers.
- `Submission` (`emailInputAndGenerateButton.tsx`) is the title form, a
  class `SubmitForm`, with two flows:
  - The model flow sends one `generate_3d_model`.
  - The video flow runs a capture loop and sends one upload per frame. A
    per-index aggregator then sends `generate_3d_video` once every frame id
    has come back.

  The aggregator is specified by the functions `Start` / `Deliver` /
  `DeliverAll` over the messages received. The class keeps the source's
  listener state and id list, plus a ghost history of the messages it
  received. `Valid()` ties these to `DeliverAll`.
- `Background` (`background/index.ts`) is the coordinator:
  - `Dispatch` maps a request, the stored token and the remote outcomes to
    the message sent to the tab, the acknowledgement and the new stored token.
  - The class `Coordinator` owns the persisted token `rolo` and is proved
    equal to `Dispatch`.
- `Gate` (`App.tsx`) is the credential gate, a class `ContentScript`. It
  classifies the coordinator's user replies and handles the token form, the
  clear-token and URL-change resets, and showing and closing the overlay.
  Each `video_selected` registers one more reply listener and none is removed,
  so a reply runs through all of them in order. `ApplyAllAsOne` proves that
  this has the effect of a single listener.
- `SidePanel` (`SidePanel.tsx`) is the side-panel variant, a class `Panel`.
  It keeps a frame list capped at ten, with a parallel counter. It also has a
  click offset and guards in front of its mask and 3D-video requests.

Behaviour of the code worth noting:

- Frame ids are appended in the order the upload reports arrive, which need
  not be frame order. `ArrivalOrderNotIndexOrder` shows a batch of two whose
  ids come out reversed.
- Nothing listens for `3d_model_created`. The model flow closes the overlay
  right after it sends its request and does not check the title.
- Dots are percentages from 0 to 100, and a drag past the stage's edge is not
  clamped.
- Every resize or scroll resets the dots to the defaults, dropping any dragged
  positions.
- Replies to the side panel never arrive: the coordinator answers through the
  sender's tab, and the side panel has none.
- A failed upload reaches the form as `error_occurred`, which the per-index
  listeners ignore. The form's own failure branch, which removes the listener,
  is therefore never taken. The listener of that index stays registered and
  the build is not sent (`FailedUploadLeavesListener`).

## Model

| member | source | states |
|---|---|---|
| `Coordinates.DragToPercent` | pages/content-ui/src/overlay.tsx:256-257 | on a stage of positive size, a percent from 0 to 100 is exactly a drag that stays on the stage |
| `Coordinates.PercentToRender` | pages/content-ui/src/overlay.tsx:249-250 | a percent from 0 to 100 is drawn on the stage |
| `Coordinates.PercentToFraction` | pages/content-ui/src/overlay.tsx:135 | the fraction times 100 is the percent, and it lies in [0, 1] exactly when the percent lies in [0, 100] |
| `Coordinates.Round` | pages/content-ui/src/overlay.tsx:137-138 | `Math.round` lands within half a unit of its argument |
| `Coordinates.PercentToNative` | pages/content-ui/src/overlay.tsx:136-139 | a percent becomes a native pixel within half a pixel of `pct/100 · naturalSize` |
| `Coordinates.DefaultDots` | pages/content-ui/src/overlay.tsx:76-86 | the default dots written as the source computes them are exactly (8000/w, 8000/h), (100/3, 100/3) and (50, 40) |
| `Coordinates.PercentCoords` | pages/content-ui/src/overlay.tsx:135 | one fraction pair per dot, in dot order, each the dot divided by 100 |
| `Coordinates.NativePixels` | pages/content-ui/src/overlay.tsx:136-140 | one rounded native pixel pair per dot, in dot order |
| `Coordinates.DragRenderInverse` | pages/content-ui/src/overlay.tsx:249-257 | the drag map and the render map are inverses in both directions for a non-zero stage size |
| `Coordinates.DragToNativeWithinHalf` | pages/content-ui/src/overlay.tsx:256-257 | a dragged stage pixel is sent within half a pixel of its scaled native position, and within half a pixel of itself when the sizes agree |
| `Coordinates.DragNotClamped` | pages/content-ui/src/overlay.tsx:256-257 | a drag gives more than 100 percent exactly when it passes the far edge, and less than 0 exactly when it passes the near edge |
| `Overlay.OverlaySession.constructor` | pages/content-ui/src/overlay.tsx:13-28 | a new session has no dots, no mask, no coordinates and the drag prompt |
| `Overlay.OverlaySession.SetStageSize` | pages/content-ui/src/overlay.tsx:54-86 | any non-zero stage size replaces the dots by the three defaults, dropping the dragged ones; nothing else changes |
| `Overlay.OverlaySession.DragMove` | pages/content-ui/src/overlay.tsx:254-264 | only the dragged dot changes, to the unclamped percent of the drag; there are still three dots; the generate button is shown |
| `Overlay.OverlaySession.GenerateMask` | pages/content-ui/src/overlay.tsx:115-153 | one `get_mask_for_frame` with the frame, the rounded native pixels and the fractions of the dots in dot order, and the user id; loading and generating are set |
| `Overlay.OverlaySession.OnMessage` | pages/content-ui/src/overlay.tsx:88-103 | `mask_generated` always stops loading and shows the mask and the question only for a non-empty mask; `error_occurred` stops loading and shows its message; nothing else changes |
| `Overlay.OverlaySession.ConfirmYes` | pages/content-ui/src/overlay.tsx:155-159 | Yes clears the prompt, hides the mask and opens the title form, which renders exactly when both coordinate lists and the frame exist |
| `Overlay.OverlaySession.ConfirmNo` | pages/content-ui/src/overlay.tsx:161-175 | No restores the default dots for the current stage, never the dragged ones, and shows the stage and the generate button again |
| `Overlay.DefaultDotsOnFullHd` | pages/content-ui/src/overlay.tsx:79-82 | a worked example of the default dots, not a general property: on a 1920x1080 frame the second default dot is pixel (640, 360) and the third (960, 432) |
| `Submission.Grabbed` | pages/content-ui/src/emailInputAndGenerateButton.tsx:122-130 | the ticks append at most one frame each, and all of them exactly when every tick had a canvas context |
| `Submission.CaptureBatch` | pages/content-ui/src/emailInputAndGenerateButton.tsx:105-136 | the batch is the mask frame followed by the grabbed frames; the loop stops after five ticks, so one to six frames |
| `Submission.Count` | pages/content-ui/src/emailInputAndGenerateButton.tsx:154-155 | the number of listeners in one state never exceeds the batch size |
| `Submission.CountExtremes` | pages/content-ui/src/emailInputAndGenerateButton.tsx:154-155 | the count is the whole batch exactly when every listener is in that state, and zero exactly when none is |
| `Submission.Start` | pages/content-ui/src/emailInputAndGenerateButton.tsx:139-151 | after the uploads, every index has a registered listener, no id and no build |
| `Submission.Deliver` | pages/content-ui/src/emailInputAndGenerateButton.tsx:151-163 | one message keeps the aggregator invariant: ids count the successes, and the build has been sent exactly when the ids are complete |
| `Submission.DeliverAll` | pages/content-ui/src/emailInputAndGenerateButton.tsx:143-166 | any message sequence keeps the invariant and the batch size |
| `Submission.DeliverReactsOnce` | pages/content-ui/src/emailInputAndGenerateButton.tsx:152-162 | a message changes the aggregator exactly when it reports a still-registered index, and then changes only that index; ids are only appended |
| `Submission.DeliverAllKeepsSettled` | pages/content-ui/src/emailInputAndGenerateButton.tsx:162 | a removed listener stays removed with its outcome; ids are only appended; a sent build stays sent |
| `Submission.BuildIffAllUploaded` | pages/content-ui/src/emailInputAndGenerateButton.tsx:153-156 | the build is sent at most once, and exactly when every index reported success |
| `Submission.FailureBlocksBuild` | pages/content-ui/src/emailInputAndGenerateButton.tsx:158-160 | once an index has failed, no later message sends the build |
| `Submission.SilenceBlocksBuild` | pages/content-ui/src/emailInputAndGenerateButton.tsx:155 | while an index has not reported, the ids are incomplete and no build is sent |
| `Submission.UploadedOnlyByReport` | pages/content-ui/src/emailInputAndGenerateButton.tsx:152-154 | an index counts as uploaded only after a success report for that index |
| `Submission.BuildNeedsEveryReport` | pages/content-ui/src/emailInputAndGenerateButton.tsx:153-157 | a build is only sent after every index of a non-empty batch has reported success |
| `Submission.IdsOf` | pages/content-ui/src/emailInputAndGenerateButton.tsx:154 | the ids carried by a report sequence, one per report, in order |
| `Submission.CollectSuccesses` | pages/content-ui/src/emailInputAndGenerateButton.tsx:151-157 | distinct success reports in any order leave their ids in arrival order and exactly the reported indices uploaded, and send the build once all n have arrived |
| `Submission.ArrivalOrderNotIndexOrder` | pages/content-ui/src/emailInputAndGenerateButton.tsx:154-156 | reports for index 1 then index 0 send the build with the ids reversed relative to index order |
| `Submission.SubmitForm.constructor` | pages/content-ui/src/emailInputAndGenerateButton.tsx:26-33 | the form starts visible with an empty title and no upload state |
| `Submission.SubmitForm.SetTitle` | pages/content-ui/src/emailInputAndGenerateButton.tsx:185-192 | the title input, rendered only with the form, stores what was typed; after a generate click the form stays hidden, so the build carries the click's title |
| `Submission.SubmitForm.HandleGenerate3DModel` | pages/content-ui/src/emailInputAndGenerateButton.tsx:73-92 | with a missing mask or frame, an alert and no change; otherwise exactly one `generate_3d_model` with the props' mask and frame, and the overlay closes |
| `Submission.SubmitForm.HandleGenerate3DVideo` | pages/content-ui/src/emailInputAndGenerateButton.tsx:94-137 | an empty title gives an alert and changes nothing; otherwise the capture runs and the batch is uploaded |
| `Submission.SubmitForm.CaptureAndUpload` | pages/content-ui/src/emailInputAndGenerateButton.tsx:100-136 | the batch is the mask frame plus the grabs; one upload per frame; the form hidden, the video paused, loading, and every index listening |
| `Submission.SubmitForm.CaptureStopped` | pages/content-ui/src/emailInputAndGenerateButton.tsx:114-119 | the stop pauses the video, hides the notice, starts loading and uploads the batch |
| `Submission.SubmitForm.UploadFramesToServiceWorker` | pages/content-ui/src/emailInputAndGenerateButton.tsx:139-166 | exactly one `upload_frame` per frame, whose index is its position, and one listener per index; the aggregator is `Start` |
| `Submission.SubmitForm.DeliverToUploadListeners` | pages/content-ui/src/emailInputAndGenerateButton.tsx:151-163 | the listeners follow `Deliver`; this message sends a build exactly when it raises the aggregator's build count, which stays at most one and is one exactly when every listener reported success; the build carries the title, the placeholder, the ids, the coordinates unchanged and framerate 1 |
| `Submission.SubmitForm.UploadListeners` | pages/content-ui/src/emailInputAndGenerateButton.tsx:152-162 | the per-index listener code agrees with `Deliver` |
| `Submission.SubmitForm.Create3DVideoRequest` | pages/content-ui/src/emailInputAndGenerateButton.tsx:168-181 | the build request carries the title, the placeholder description, the ids, the coordinate props and framerate 1, and generating stops |
| `Submission.SubmitForm.On3DVideoCreated` | pages/content-ui/src/emailInputAndGenerateButton.tsx:57-64 | a successful `3d_video_created` stops loading and shows the success message with its URL; anything else changes nothing |
| `Background.OrElse` | chrome-extension/src/background/index.ts:85 | a truthy upstream message is relayed as is; otherwise the fixed fallback |
| `Background.CreditReply` | chrome-extension/src/background/index.ts:259-276 | every credit reply says the user exists and names the token; a count is sent only for a found row, positive exactly when the row's count is |
| `Background.CreditReplyThreeWays` | chrome-extension/src/background/index.ts:259-276 | a failed or empty lookup gives `supabase_error` with no count; a count of zero or less gives 0 and `Not enough credits`; a positive count is sent as is with no error |
| `Background.MaskResult` | chrome-extension/src/background/index.ts:79-94 | the tab gets `mask_generated` exactly for an OK answer, and `error_occurred` otherwise |
| `Background.MaskAckAgrees` | chrome-extension/src/background/index.ts:79-94 | the acknowledgement succeeds exactly when `mask_generated` is sent, with the same mask; otherwise it carries the same message as `error_occurred` (upstream or generic, or the fixed reload message) |
| `Background.BuildResult` | chrome-extension/src/background/index.ts:115-184 | a build answer is a creation for the request's own flow or an `error_occurred` |
| `Background.BuildCreatedIffSuccess` | chrome-extension/src/background/index.ts:115-184 | creation is reported exactly for an OK answer with status `success`, with the flow's URL prefix followed by the id verbatim; a non-success status relays the body's message |
| `Background.UploadResult` | chrome-extension/src/background/index.ts:225-241 | an upload answer is a `frame_uploaded` echoing the request's index, or an `error_occurred` |
| `Background.UploadNeverReportsFailure` | chrome-extension/src/background/index.ts:225-241 | an upload success echoes the index with the returned id; every failure is the fixed `error_occurred`, never a failed `frame_uploaded` |
| `Background.FailedUploadLeavesListener` | chrome-extension/src/background/index.ts:233-241 | the form's aggregator ignores a failed upload, so the build waits on that index |
| `Background.MenuClick` | chrome-extension/src/background/index.ts:44-54 | a menu click sends at most `video_selected` for the clicked video's URL |
| `Background.MenuClickFlows` | chrome-extension/src/background/index.ts:44-54 | exactly the two menu ids tag the video with a flow (video for the first); others send nothing |
| `Background.TabUpdated` | chrome-extension/src/background/index.ts:56-61 | only a `url_changed` is sent, and only for an update that carries a URL |
| `Background.TabUpdatedForwardsUrl` | chrome-extension/src/background/index.ts:56-61 | `url_changed` is forwarded exactly when the update carries a URL |
| `Background.TabDispatch` | chrome-extension/src/background/index.ts:63-247 | a request from a tab always gets one tab message, and an acknowledgement exactly when it asks for a mask |
| `Background.Dispatch` | chrome-extension/src/background/index.ts:63-247 | a tab request is answered as `TabDispatch` says; a side-panel request gets no tab message and no acknowledgement, yet has the same storage effect |
| `Background.DispatchShape` | chrome-extension/src/background/index.ts:63-247 | a request gets one tab message exactly when it comes from a tab, and an acknowledgement exactly when it is a tab's mask request; only `set_user` and `clear_token` touch the stored token; a tab's `clear_token` always gets `token_cleared` |
| `Background.CheckUserReply` | chrome-extension/src/background/index.ts:185-194 | with no stored token the reply is `{user: false}`; otherwise it is the credit lookup on the stored token |
| `Background.ClearThenCheck` | chrome-extension/src/background/index.ts:242-257 | after `clear_token`, `check_user` reports `{user: false}` |
| `Background.SetThenCheck` | chrome-extension/src/background/index.ts:202-206 | `set_user` and a later `check_user` agree exactly for a non-empty token; an empty token then reads as absent |
| `Background.Coordinator.constructor` | chrome-extension/src/background/index.ts:187-188 | the coordinator starts from whatever `chrome.storage.local` holds under `rolo` (nothing on a fresh install); the source has no constructor, and the cited lines are where that stored value is read |
| `Background.Coordinator.OnMessage` | chrome-extension/src/background/index.ts:63-247 | the service worker's handler does what `Dispatch` says for the request's sender, the stored token included |
| `Background.Coordinator.ClearLocalStorage` | chrome-extension/src/background/index.ts:249-257 | storage is wiped unless the clear fails |
| `Gate.Classify` | pages/content-ui/src/App.tsx:61-80 | only user replies matter; a reply proceeds only with `user: true` and a non-empty token, which it carries; errors come only from `user: true` replies |
| `Gate.CreditRepliesClassified` | pages/content-ui/src/App.tsx:61-77 | the coordinator's replies lead to the overlay (positive count), two different messages (no credits, failed lookup), and "No token found" for an empty token |
| `Gate.ClassifyOutcomes` | pages/content-ui/src/App.tsx:61-80 | only `user: false` opens the token form; only a reply with a token and a positive count proceeds |
| `Gate.ClearedTokenOpensForm` | pages/content-ui/src/App.tsx:78-79 | after `clear_token`, the coordinator's `check_user` reply opens the token form |
| `Gate.Apply` | pages/content-ui/src/App.tsx:61-80 | one listener saves the token of a positive reply; it shows the overlay only for a positive reply whose video the page has, on that video; other verdicts leave token, video and overlay alone |
| `Gate.ApplyAll` | pages/content-ui/src/App.tsx:60-81 | the registered listeners in order leave token, video and overlay alone unless the reply is positive, and select only videos the page has |
| `Gate.LastFound` | pages/content-ui/src/App.tsx:65-69 | a selected video the page still has, with no later selected video the page has, and none exactly when the page has none of them |
| `Gate.ApplyAllAsOne` | pages/content-ui/src/App.tsx:60-81 | however many reply listeners have piled up, a reply has the effect of one, the overlay going to the latest selected video found |
| `Gate.SingleListenerProceeds` | pages/content-ui/src/App.tsx:64-69 | a positive reply for a single selected video saves the token, selects the video and shows the overlay |
| `Gate.ContentScript.constructor` | pages/content-ui/src/App.tsx:7-14 | a fresh page shows neither the gate nor the overlay, and its flow is model |
| `Gate.ContentScript.OnVideoSelected` | pages/content-ui/src/App.tsx:51-60 | the flow comes from the message, exactly one `check_user` is sent and one more reply listener registered |
| `Gate.ContentScript.OnReply` | pages/content-ui/src/App.tsx:60-81 | the reply runs through every registered listener in order |
| `Gate.ContentScript.ReplyListener` | pages/content-ui/src/App.tsx:61-80 | one listener applies the reply's verdict |
| `Gate.ContentScript.SubmitToken` | pages/content-ui/src/tokenInputForm.tsx:11-15 | the token form sends one `set_user` with the typed token and closes |
| `Gate.ContentScript.ReEnterToken` | pages/content-ui/src/App.tsx:92-93 | "Re-enter Access Token" sends one `clear_token` |
| `Gate.ContentScript.OnClearTokenAck` | pages/content-ui/src/App.tsx:93-96 | the clear callback opens the token form and clears the error |
| `Gate.ContentScript.CloseOverlay` | pages/content-ui/src/App.tsx:156-158 | closing hides the overlay |
| `Gate.ContentScript.OnUrlChanged` | pages/content-ui/src/App.tsx:16-22 | a URL change reloads the page, so all state starts over |
| `SidePanel.KeepFrame` | pages/side-panel/src/SidePanel.tsx:19-24 | the list only grows, by the message's frame, and exactly when the message carries one and fewer than ten are held |
| `SidePanel.KeepFrames` | pages/side-panel/src/SidePanel.tsx:18-32 | the list only grows and never passes ten |
| `SidePanel.Carried` | pages/side-panel/src/SidePanel.tsx:20 | the frame data the messages carry, at most one per message |
| `SidePanel.KeepFramesTruncates` | pages/side-panel/src/SidePanel.tsx:19-24 | the panel keeps exactly the first ten frames offered, in order, and drops every later one |
| `SidePanel.ClickOffset` | pages/side-panel/src/SidePanel.tsx:115-119 | the point plus the image's top-left corner is the click position |
| `SidePanel.Panel.constructor` | pages/side-panel/src/SidePanel.tsx:9-16 | the panel starts empty |
| `SidePanel.Panel.OnFrameData` | pages/side-panel/src/SidePanel.tsx:19-24 | a frame is appended only below ten and the counter moves exactly when it is; the list is always the first ten frames offered so far |
| `SidePanel.Panel.ClickFrame` | pages/side-panel/src/SidePanel.tsx:110-121 | a click selects the frame and attaches a point listener; listeners already on it record the click offset |
| `SidePanel.Panel.GenerateMask` | pages/side-panel/src/SidePanel.tsx:34-47 | without a frame or a point, an alert; otherwise loading and the selected frame with the single point |
| `SidePanel.Panel.OnMaskAck` | pages/side-panel/src/SidePanel.tsx:48-55 | loading stops either way; with no response (the only case this coordinator causes) the callback throws before the mask or an alert; the mask shows only for a successful acknowledgement with a mask, and any other acknowledgement alerts |
| `SidePanel.Panel.SetEmail` | pages/side-panel/src/SidePanel.tsx:170 | the input stores the e-mail |
| `SidePanel.Panel.Generate3DVideo` | pages/side-panel/src/SidePanel.tsx:59-74 | an empty e-mail gives an alert; otherwise the panel's request with all frames, the selection, the point pair or nothing, and the fixed title and description |

## Left out

- Network calls, the credit store query and browser storage are not modelled as code. Their results are the outcome values in `Remote`, and a storage failure is a flag.
- Tab delivery, the `chrome.runtime` relay and listener registration are not modelled as code. They become method calls and their results. The side panel gets no reply from the coordinator, because every reply goes through the sender's tab. A `sendMessage` callback still runs once the channel closes, with no response: `SidePanel.Panel.OnMaskAck` receives `None` then, and `Gate.ContentScript.OnClearTokenAck` runs the same way for `clear_token`, which is never acknowledged by the coordinator either.
- Timers, playback and canvas capture are not modelled. A capture tick is a loop iteration, and a grab is an optional frame given as input.
- The unwired side-panel page-injection code, the context-menu setup and the key-press suppression have no state the model needs.
- The content script's `contextmenu` tracking of the clicked element and its `getClickedElement` reply (App.tsx:30-50) are not modelled: nothing in the modelled flows sends `getClickedElement`, so the tracked element never affects them.
- Listeners that hear late replies after their component is gone are not modelled, and neither is interleaving across tabs.
- The side panel's frame listener sees the list as it was at its last re-registration. Frames that arrive before React re-renders are not modelled.
- Stages of zero width or height are not modelled: drags and "No" require a non-zero stage because the source divides by the stage size there. Resizing to a zero size keeps the dots.
- JavaScript numbers are reals, so IEEE-754 rounding is not modelled.
- The manifest, the loading animation and all styling have no behaviour here.
- `Submission.Deliver`: its contract states only the aggregator invariant and the batch size. What one message does is stated by the lemmas `DeliverReactsOnce` and `DeliverAllKeepsSettled`.
