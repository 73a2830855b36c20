/** The background coordinator: it turns each request and the outcome of the
    remote call it makes into the exact messages sent back to the requesting
    tab and the acknowledgement, and it owns the one piece of persisted state,
    the stored token `rolo`. */
module Background {
  import opened Relay
  import Submission

  const Busted := "Something is busted try again later!"
  const MaskThrew := "An unexpected error occurred! Please reload and try again."
  const BuildThrew := "An unexpected error occurred!"
  const MaskReceived := "Image and coordinates received"
  const SupabaseError := "supabase_error"
  const NotEnoughCredits := "Not enough credits"
  const VideoUrlPrefix := "https://www.voxelvideo.com/voxel_video/"
  const ModelUrlPrefix := "https://www.voxelvideo.com/voxel_model/"
  const VideoMenuId := "extract-3d-video"
  const ModelMenuId := "extract-3d-model"

  /** `a || b` on an optional message: the message when present and non-empty. */
  function OrElse(o: Option<string>, fallback: string): (s: string)
    ensures Present(o) ==> s == o.value
    ensures !Present(o) ==> s == fallback
  {
    if Present(o) then o.value else fallback
  }

  /** `checkUser`: the reply for a token and the credit lookup made with it. */
  function CreditReply(rolo: string, lookup: CreditLookup): (m: TabMessage)
    ensures m.UserReply? && m.user && m.rolo == Some(rolo)
    ensures m.credits.Some? ==> lookup.Row? && (m.credits.value > 0 <==> lookup.credits > 0)
  {
    match lookup
    case LookupFailed => UserReply(true, Some(rolo), None, Some(SupabaseError))
    case NoRow => UserReply(true, Some(rolo), None, Some(SupabaseError))
    case Row(credits) =>
      if credits <= 0 then UserReply(true, Some(rolo), Some(0), Some(NotEnoughCredits))
      else UserReply(true, Some(rolo), Some(credits), None)
  }

  /** The credit lookup is classified three ways, each reply names the token
      and says the user exists: a failed or empty lookup carries the error
      `supabase_error` and no credit count; a non-positive count is reported
      as 0 with `Not enough credits`; a positive count is reported as is with
      no error. */
  lemma CreditReplyThreeWays(rolo: string, lookup: CreditLookup)
    ensures var m := CreditReply(rolo, lookup);
            m.UserReply? && m.user && m.rolo == Some(rolo)
    ensures var m := CreditReply(rolo, lookup);
            m.error == Some(SupabaseError) <==> !lookup.Row?
    ensures var m := CreditReply(rolo, lookup);
            m.error == Some(SupabaseError) ==> m.credits == None
    ensures var m := CreditReply(rolo, lookup);
            m.error == Some(NotEnoughCredits) <==> lookup.Row? && lookup.credits <= 0
    ensures var m := CreditReply(rolo, lookup);
            m.error == Some(NotEnoughCredits) ==> m.credits == Some(0)
    ensures var m := CreditReply(rolo, lookup);
            m.error == None <==> lookup.Row? && lookup.credits > 0
    ensures var m := CreditReply(rolo, lookup);
            m.error == None ==> m.credits == Some(lookup.credits) && m.credits.value > 0
  {
  }

  /** The `get_mask_for_frame` proxy: the tab message and the acknowledgement
      for the outcome of the mask call. */
  function MaskResult(outcome: Outcome<MaskPayload>): (r: (TabMessage, MaskAck))
    ensures r.0.MaskGenerated? <==> outcome.Ok?
    ensures !r.0.MaskGenerated? ==> r.0.ErrorOccurred?
  {
    match outcome
    case Ok(p) => (MaskGenerated(p.mask), MaskAck(true, MaskReceived, p.mask))
    case HttpError(message) =>
      var e := OrElse(message, Busted);
      (ErrorOccurred(Some(e)), MaskAck(false, e, None))
    case Threw(_) => (ErrorOccurred(Some(MaskThrew)), MaskAck(false, MaskThrew, None))
  }

  /** The acknowledgement always agrees with the tab message: success with the
      same mask exactly when the mask was generated, and otherwise a failure
      carrying the same message as the `error_occurred`, which is the
      upstream message or the generic one for a non-OK answer and the fixed
      reload message for an exception. */
  lemma MaskAckAgrees(outcome: Outcome<MaskPayload>)
    ensures var (m, ack) := MaskResult(outcome);
            ack.success <==> m.MaskGenerated?
    ensures var (m, ack) := MaskResult(outcome);
            ack.success ==> outcome.Ok? && m.mask == ack.mask == outcome.payload.mask
    ensures var (m, ack) := MaskResult(outcome);
            !ack.success ==> m.ErrorOccurred? && m.message == Some(ack.message) && ack.mask == None
    ensures outcome.HttpError? ==> MaskResult(outcome).1.message == OrElse(outcome.message, Busted)
    ensures outcome.Threw? ==> MaskResult(outcome).1.message == MaskThrew
  {
  }

  /** The `generate_3d_video` / `generate_3d_model` proxy: the tab message for
      the outcome of the build call. */
  function BuildResult(flow: Flow, outcome: Outcome<BuildPayload>): (m: TabMessage)
    ensures m.VideoCreated? || m.ModelCreated? || m.ErrorOccurred?
    ensures m.VideoCreated? ==> flow.Video?
    ensures m.ModelCreated? ==> flow.Model?
  {
    match outcome
    case Ok(p) =>
      if p.status == "success" then
        if flow == Video then VideoCreated(true, VideoUrlPrefix + p.sdvId, p.message)
        else ModelCreated(true, ModelUrlPrefix + p.sdvId, p.message)
      else ErrorOccurred(p.message)
    case HttpError(message) => ErrorOccurred(Some(OrElse(message, Busted)))
    case Threw(message) => ErrorOccurred(Some(OrElse(message, BuildThrew)))
  }

  /** A build reports creation exactly when the call answered OK with status
      `success`, with the flow's URL prefix followed by the build id verbatim
      and the upstream message; every other outcome is an `error_occurred`,
      relaying the body's own message for a non-success status. */
  lemma BuildCreatedIffSuccess(flow: Flow, outcome: Outcome<BuildPayload>)
    ensures var m := BuildResult(flow, outcome);
            (m.VideoCreated? || m.ModelCreated?) <==> outcome.Ok? && outcome.payload.status == "success"
    ensures var m := BuildResult(flow, outcome);
            m.VideoCreated? ==> flow == Video && m.success && m.message == outcome.payload.message
                                && m.voxelVideoUrl[..|VideoUrlPrefix|] == VideoUrlPrefix
                                && m.voxelVideoUrl[|VideoUrlPrefix|..] == outcome.payload.sdvId
    ensures var m := BuildResult(flow, outcome);
            m.ModelCreated? ==> flow == Model && m.success && m.message == outcome.payload.message
                                && m.voxelModelUrl[..|ModelUrlPrefix|] == ModelUrlPrefix
                                && m.voxelModelUrl[|ModelUrlPrefix|..] == outcome.payload.sdvId
    ensures var m := BuildResult(flow, outcome);
            !(m.VideoCreated? || m.ModelCreated?) ==> m.ErrorOccurred?
    ensures outcome.Ok? && outcome.payload.status != "success" ==>
              BuildResult(flow, outcome) == ErrorOccurred(outcome.payload.message)
  {
  }

  /** The `upload_frame` proxy: the tab message for the outcome of the upload. */
  function UploadResult(frameIndex: nat, outcome: Outcome<UploadPayload>): (m: TabMessage)
    ensures m.FrameUploaded? || m.ErrorOccurred?
    ensures m.FrameUploaded? ==> m.frameIndex == frameIndex
  {
    match outcome
    case Ok(p) => FrameUploaded(true, p.frameId, frameIndex)
    case _ => ErrorOccurred(Some(Busted))
  }

  /** An upload success echoes the request's index with the returned id; any
      failure is the fixed `error_occurred`, so a `frame_uploaded` with
      `success: false` is never sent. */
  lemma UploadNeverReportsFailure(frameIndex: nat, outcome: Outcome<UploadPayload>)
    ensures var m := UploadResult(frameIndex, outcome);
            m.FrameUploaded? <==> outcome.Ok?
    ensures var m := UploadResult(frameIndex, outcome);
            m.FrameUploaded? ==> m.success && m.frameIndex == frameIndex && m.frameId == outcome.payload.frameId
    ensures var m := UploadResult(frameIndex, outcome);
            !m.FrameUploaded? ==> m == ErrorOccurred(Some(Busted))
  {
  }

  /** Since a failed upload never reaches the form as a failure report, its
      listener for that index stays registered: the aggregator ignores the
      error, and the build is not sent until that index reports success. */
  lemma FailedUploadLeavesListener(c: Submission.Collector, frameIndex: nat, outcome: Outcome<UploadPayload>)
    requires Submission.Inv(c) && !outcome.Ok?
    requires frameIndex < |c.slots| && c.slots[frameIndex] == Submission.Listening
    ensures Submission.Deliver(c, UploadResult(frameIndex, outcome)) == c
    ensures c.builds == 0
  {
    Submission.SilenceBlocksBuild(c, frameIndex);
  }

  /** `genericOnClick`: the two menu items tag the chosen video with their
      flow; any other item sends nothing. */
  function MenuClick(menuItemId: string, srcUrl: string): (m: Option<TabMessage>)
    ensures m.Some? ==> m.value.VideoSelected? && m.value.srcUrl == srcUrl
  {
    if menuItemId == VideoMenuId then Some(VideoSelected(srcUrl, Video))
    else if menuItemId == ModelMenuId then Some(VideoSelected(srcUrl, Model))
    else None
  }

  lemma MenuClickFlows(menuItemId: string, srcUrl: string)
    ensures MenuClick(menuItemId, srcUrl).Some? <==> menuItemId == VideoMenuId || menuItemId == ModelMenuId
    ensures MenuClick(menuItemId, srcUrl).Some? ==>
              MenuClick(menuItemId, srcUrl).value.VideoSelected?
              && MenuClick(menuItemId, srcUrl).value.srcUrl == srcUrl
              && (MenuClick(menuItemId, srcUrl).value.flow == Video <==> menuItemId == VideoMenuId)
  {
  }

  /** `tabs.onUpdated`: a change carrying a URL is forwarded as `url_changed`. */
  function TabUpdated(url: Option<string>): (m: Option<TabMessage>)
    ensures m.Some? ==> m.value.UrlChanged? && Present(url)
  {
    if Present(url) then Some(UrlChanged(url.value)) else None
  }

  lemma TabUpdatedForwardsUrl(url: Option<string>)
    ensures TabUpdated(url).Some? <==> Present(url)
    ensures TabUpdated(url).Some? ==> TabUpdated(url).value == UrlChanged(url.value)
  {
  }

  /** What one request produces: the message sent to the requesting tab, the
      acknowledgement, and the stored token afterwards. */
  datatype Step = Step(toTab: Option<TabMessage>, ack: Option<MaskAck>, stored: Option<string>)

  /** Who sent a request: a content script in a tab, or the side panel,
      which has no tab. */
  datatype Sender = TabSender | PanelSender

  /** The `runtime.onMessage` dispatch, for a request coming from a tab. */
  function TabDispatch(stored: Option<string>, req: Request, remote: Remote): (s: Step)
    ensures s.toTab.Some?
    ensures s.ack.Some? <==> req.GetMaskForFrame?
  {
    match req
    case CheckUser =>
      if remote.storageFails then Step(Some(ErrorOccurred(Some(Busted))), None, stored)
      else if Present(stored) then Step(Some(CreditReply(stored.value, remote.credit)), None, stored)
      else Step(Some(UserReply(false, None, None, None)), None, stored)
    case SetUser(rolo) =>
      if remote.storageFails then Step(Some(ErrorOccurred(Some(Busted))), None, stored)
      else Step(Some(CreditReply(rolo, remote.credit)), None, Some(rolo))
    case ClearToken =>
      Step(Some(TokenCleared), None, if remote.storageFails then stored else None)
    case GetMaskForFrame(_, _, _, _) =>
      var (m, ack) := MaskResult(remote.mask);
      Step(Some(m), Some(ack), stored)
    case UploadFrame(_, _, frameIndex) => Step(Some(UploadResult(frameIndex, remote.upload)), None, stored)
    case Generate3DVideo(_, _, _, _, _, _, _) => Step(Some(BuildResult(Video, remote.build)), None, stored)
    case PanelGenerate3DVideo(_, _, _, _, _, _) => Step(Some(BuildResult(Video, remote.build)), None, stored)
    case Generate3DModel(_, _, _, _) => Step(Some(BuildResult(Model, remote.build)), None, stored)
  }

  /** The `runtime.onMessage` dispatch for either sender. Every reply goes out
      through `chrome.tabs.sendMessage(sender.tab.id, …)`, which throws for a
      sender without a tab, in the `try` and again in the `catch`, before any
      acknowledgement; the storage effects happen first, so they are the same. */
  function Dispatch(stored: Option<string>, req: Request, remote: Remote, sender: Sender): (s: Step)
    ensures sender == TabSender ==> s == TabDispatch(stored, req, remote)
    ensures sender == PanelSender ==>
              s.toTab == None && s.ack == None && s.stored == TabDispatch(stored, req, remote).stored
  {
    var step := TabDispatch(stored, req, remote);
    match sender
    case TabSender => step
    case PanelSender => Step(None, None, step.stored)
  }

  /** Every request from a tab sends exactly one message to the tab; only the
      mask request is acknowledged; a side-panel request gets neither; only
      `set_user` and `clear_token` touch the stored token. */
  lemma DispatchShape(stored: Option<string>, req: Request, remote: Remote, sender: Sender)
    ensures Dispatch(stored, req, remote, sender).toTab.Some? <==> sender == TabSender
    ensures Dispatch(stored, req, remote, sender).ack.Some? <==> sender == TabSender && req.GetMaskForFrame?
    ensures !(req.SetUser? || req.ClearToken?) ==> Dispatch(stored, req, remote, sender).stored == stored
    ensures req.SetUser? && !remote.storageFails ==> Dispatch(stored, req, remote, sender).stored == Some(req.rolo)
    ensures req.ClearToken? && sender == TabSender ==>
              Dispatch(stored, req, remote, sender).toTab == Some(TokenCleared)
  {
  }

  /** `check_user` without a stored token (absent or empty) replies
      `{user: false}`; with one it replies exactly as the credit lookup on that
      token classifies. */
  lemma CheckUserReply(stored: Option<string>, remote: Remote)
    requires !remote.storageFails
    ensures !Present(stored) ==> Dispatch(stored, CheckUser, remote, TabSender).toTab == Some(UserReply(false, None, None, None))
    ensures Present(stored) ==>
              Dispatch(stored, CheckUser, remote, TabSender).toTab == Some(CreditReply(stored.value, remote.credit))
  {
  }

  /** After `clear_token` has cleared storage, `check_user` reports
      `{user: false}` whatever was stored before. */
  lemma ClearThenCheck(stored: Option<string>, clearing: Remote, checking: Remote)
    requires !clearing.storageFails && !checking.storageFails
    ensures Dispatch(Dispatch(stored, ClearToken, clearing, TabSender).stored, CheckUser, checking, TabSender).toTab
            == Some(UserReply(false, None, None, None))
  {
  }

  /** `set_user` performs the same lookup a later `check_user` does, so the
      two replies agree for a non-empty token; an empty token is stored and
      looked up, yet `check_user` then treats it as absent. */
  lemma SetThenCheck(stored: Option<string>, rolo: string, setting: Remote, checking: Remote)
    requires !setting.storageFails && !checking.storageFails && setting.credit == checking.credit
    ensures var after := Dispatch(stored, SetUser(rolo), setting, TabSender);
            Dispatch(after.stored, CheckUser, checking, TabSender).toTab == after.toTab <==> rolo != ""
    ensures rolo == "" ==>
              Dispatch(Dispatch(stored, SetUser(rolo), setting, TabSender).stored, CheckUser, checking, TabSender).toTab
              == Some(UserReply(false, None, None, None))
  {
  }

  /** The coordinator service worker and its persisted storage. */
  class Coordinator {
    /** `chrome.storage.local` key `rolo`. */
    var rolo: Option<string>

    constructor (stored: Option<string>)
      ensures rolo == stored
    {
      rolo := stored;
    }

    /** One request, handled as one event. */
    method OnMessage(req: Request, remote: Remote, sender: Sender)
      returns (toTab: Option<TabMessage>, ack: Option<MaskAck>)
      modifies this`rolo
      ensures Step(toTab, ack, rolo) == Dispatch(old(rolo), req, remote, sender)
    {
      ack := None;
      match req {
        case CheckUser =>
          if remote.storageFails {
            toTab := Some(ErrorOccurred(Some(Busted)));
          } else if Present(rolo) {
            toTab := Some(CreditReply(rolo.value, remote.credit));
          } else {
            toTab := Some(UserReply(false, None, None, None));
          }
        case SetUser(token) =>
          if remote.storageFails {
            toTab := Some(ErrorOccurred(Some(Busted)));
          } else {
            rolo := Some(token);
            toTab := Some(CreditReply(token, remote.credit));
          }
        case ClearToken =>
          ClearLocalStorage(remote.storageFails);
          toTab := Some(TokenCleared);
        case GetMaskForFrame(_, _, _, _) =>
          var (m, a) := MaskResult(remote.mask);
          toTab, ack := Some(m), Some(a);
        case UploadFrame(_, _, frameIndex) =>
          toTab := Some(UploadResult(frameIndex, remote.upload));
        case Generate3DVideo(_, _, _, _, _, _, _) =>
          toTab := Some(BuildResult(Video, remote.build));
        case PanelGenerate3DVideo(_, _, _, _, _, _) =>
          toTab := Some(BuildResult(Video, remote.build));
        case Generate3DModel(_, _, _, _) =>
          toTab := Some(BuildResult(Model, remote.build));
      }
      if sender == PanelSender {
        // `sender.tab.id` throws: nothing reaches a tab and no acknowledgement is sent
        toTab, ack := None, None;
      }
    }

    /** `clearLocalStorage`: storage is wiped unless the clear fails, which is
        only logged. */
    method ClearLocalStorage(fails: bool)
      modifies this`rolo
      ensures !fails ==> rolo == None
      ensures fails ==> rolo == old(rolo)
    {
      if !fails {
        rolo := None;
      }
    }
  }
}
