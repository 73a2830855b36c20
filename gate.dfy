/** The content script's credential gate: a chosen video triggers a
    `check_user`, and the coordinator's reply decides between the token form,
    the overlay, and one of three error messages. Every `video_selected`
    registers one more reply listener, and none is ever removed, so each
    later reply reaches all of them in registration order. The page is
    modelled by the set of `src` URLs of its video elements. */
module Gate {
  import opened Relay
  import Background

  const NoTokenMessage := "No token found. Please enter your token."
  const NoCreditsMessage := "You do not have enough credits to perform this action. Please purchase more credits."
  const FetchErrorMessage := "An error occurred while fetching your credits. Please try again."

  /** What a reply listener makes of one message. */
  datatype Verdict = Ignore | ShowTokenForm | ShowError(text: string) | Proceed(rolo: string)

  /** The reply listener's branches, in the order it tests them. */
  function Classify(m: TabMessage): (v: Verdict)
    ensures !m.UserReply? ==> v == Ignore
    ensures v.Proceed? ==> m.UserReply? && m.user && m.rolo == Some(v.rolo) && v.rolo != ""
    ensures v.ShowError? ==> m.UserReply? && m.user
  {
    if m.UserReply? && m.user then
      if !Present(m.rolo) then ShowError(NoTokenMessage)
      else if m.credits.Some? && m.credits.value > 0 then Proceed(m.rolo.value)
      else if m.credits == Some(0) then ShowError(NoCreditsMessage)
      else if m.error == Some(Background.SupabaseError) then ShowError(FetchErrorMessage)
      else Ignore
    else if m.UserReply? && !m.user then ShowTokenForm
    else Ignore
  }

  /** The coordinator's credit replies reach three different outcomes: a
      positive count proceeds with the token, a non-positive count and a
      failed or empty lookup give two different messages (the failed lookup
      carries no count, so it reaches its own branch), and an empty token is
      reported as missing whatever the lookup says. */
  lemma CreditRepliesClassified(rolo: string, lookup: CreditLookup)
    ensures rolo == "" ==> Classify(Background.CreditReply(rolo, lookup)) == ShowError(NoTokenMessage)
    ensures rolo != "" && lookup.Row? && lookup.credits > 0 ==>
              Classify(Background.CreditReply(rolo, lookup)) == Proceed(rolo)
    ensures rolo != "" && lookup.Row? && lookup.credits <= 0 ==>
              Classify(Background.CreditReply(rolo, lookup)) == ShowError(NoCreditsMessage)
    ensures rolo != "" && !lookup.Row? ==>
              Classify(Background.CreditReply(rolo, lookup)) == ShowError(FetchErrorMessage)
    ensures NoTokenMessage != NoCreditsMessage && NoCreditsMessage != FetchErrorMessage
            && FetchErrorMessage != NoTokenMessage
  {
  }

  /** Only a `user: false` reply opens the token form, and only a reply with a
      token and a positive count can show the overlay. */
  lemma ClassifyOutcomes(m: TabMessage)
    ensures Classify(m) == ShowTokenForm <==> m.UserReply? && !m.user
    ensures Classify(m).Proceed? <==>
              m.UserReply? && m.user && Present(m.rolo) && m.credits.Some? && m.credits.value > 0
    ensures Classify(m).Proceed? ==> Classify(m).rolo == m.rolo.value
    ensures !m.UserReply? ==> Classify(m) == Ignore
  {
  }

  /** After `clear_token` the coordinator's answer to `check_user` opens the
      token form. */
  lemma ClearedTokenOpensForm(stored: Option<string>, clearing: Remote, checking: Remote)
    requires !clearing.storageFails && !checking.storageFails
    ensures var after := Background.Dispatch(stored, ClearToken, clearing, Background.TabSender).stored;
            Classify(Background.Dispatch(after, CheckUser, checking, Background.TabSender).toTab.value) == ShowTokenForm
  {
    Background.ClearThenCheck(stored, clearing, checking);
  }

  /** The part of the content script's state the reply listeners write. */
  datatype GateView = GateView(showTokenForm: bool, showOverlay: bool, videoElement: Option<string>,
                       token: string, errorMessage: Option<string>)

  /** One reply listener, registered for the video `src`, acting on a verdict:
      a positive reply saves the token and, when the page still has that
      video, selects it and shows the overlay. */
  function Apply(w: GateView, v: Verdict, src: string, pageVideos: set<string>): (r: GateView)
    ensures v.Proceed? ==> r.token == v.rolo && r.errorMessage == w.errorMessage
    ensures r.showOverlay != w.showOverlay || r.videoElement != w.videoElement ==>
              v.Proceed? && src in pageVideos && r.showOverlay && r.videoElement == Some(src)
    ensures !v.Proceed? ==> r.token == w.token && r.videoElement == w.videoElement && r.showOverlay == w.showOverlay
  {
    match v
    case Ignore => w
    case ShowTokenForm => w.(showTokenForm := true)
    case ShowError(text) => w.(errorMessage := Some(text))
    case Proceed(rolo) =>
      if src in pageVideos then w.(token := rolo, videoElement := Some(src), showOverlay := true)
      else w.(token := rolo)
  }

  /** The listeners registered for `srcs`, in registration order. */
  function ApplyAll(w: GateView, v: Verdict, srcs: seq<string>, pageVideos: set<string>): (r: GateView)
    ensures !v.Proceed? ==> r.token == w.token && r.videoElement == w.videoElement && r.showOverlay == w.showOverlay
    ensures r.videoElement == w.videoElement || (r.videoElement.Some? && r.videoElement.value in pageVideos)
    decreases |srcs|
  {
    if srcs == [] then w
    else Apply(ApplyAll(w, v, srcs[..|srcs| - 1], pageVideos), v, srcs[|srcs| - 1], pageVideos)
  }

  /** The last of `srcs` that the page has a video for. */
  function LastFound(srcs: seq<string>, pageVideos: set<string>): (r: Option<string>)
    ensures r.Some? ==> r.value in pageVideos && r.value in srcs
    ensures r.Some? ==> exists k :: 0 <= k < |srcs| && srcs[k] == r.value && NoneFoundAfter(srcs, k, pageVideos)
    ensures r.None? <==> forall k :: 0 <= k < |srcs| ==> srcs[k] !in pageVideos
    decreases |srcs|
  {
    if srcs == [] then None
    else if srcs[|srcs| - 1] in pageVideos then
      LastSeen(srcs, |srcs| - 1, pageVideos);
      Some(srcs[|srcs| - 1])
    else
      var front := srcs[..|srcs| - 1];
      assert forall k :: 0 <= k < |front| ==> front[k] == srcs[k];
      var r := LastFound(front, pageVideos);
      if r.Some? then LastSeenExtends(srcs, front, r.value, pageVideos); r else r
  }

  /** `srcs[k]` is followed by no src the page has. */
  ghost predicate NoneFoundAfter(srcs: seq<string>, k: nat, pageVideos: set<string>)
    requires k < |srcs|
  {
    forall j :: k < j < |srcs| ==> srcs[j] !in pageVideos
  }

  lemma LastSeen(srcs: seq<string>, k: nat, pageVideos: set<string>)
    requires k == |srcs| - 1
    ensures exists i :: 0 <= i < |srcs| && srcs[i] == srcs[k] && NoneFoundAfter(srcs, i, pageVideos)
  {
    assert NoneFoundAfter(srcs, k, pageVideos);
  }

  lemma LastSeenExtends(srcs: seq<string>, front: seq<string>, v: string, pageVideos: set<string>)
    requires srcs != [] && front == srcs[..|srcs| - 1] && srcs[|srcs| - 1] !in pageVideos
    requires exists i :: 0 <= i < |front| && front[i] == v && NoneFoundAfter(front, i, pageVideos)
    ensures exists i :: 0 <= i < |srcs| && srcs[i] == v && NoneFoundAfter(srcs, i, pageVideos)
  {
    var i :| 0 <= i < |front| && front[i] == v && NoneFoundAfter(front, i, pageVideos);
    assert srcs[i] == v;
    assert NoneFoundAfter(srcs, i, pageVideos);
  }

  /** However many listeners have piled up, a reply has the effect of one:
      the same error or token form, and for a positive reply the saved token,
      with the overlay shown on the most recently selected video the page
      still has, if any. */
  lemma {:induction false} ApplyAllAsOne(w: GateView, v: Verdict, srcs: seq<string>, pageVideos: set<string>)
    requires srcs != []
    ensures v.Ignore? ==> ApplyAll(w, v, srcs, pageVideos) == w
    ensures v.ShowTokenForm? ==> ApplyAll(w, v, srcs, pageVideos) == w.(showTokenForm := true)
    ensures v.ShowError? ==> ApplyAll(w, v, srcs, pageVideos) == w.(errorMessage := Some(v.text))
    ensures v.Proceed? ==>
              ApplyAll(w, v, srcs, pageVideos)
              == if LastFound(srcs, pageVideos).Some?
                 then w.(token := v.rolo, videoElement := LastFound(srcs, pageVideos), showOverlay := true)
                 else w.(token := v.rolo)
    decreases |srcs|
  {
    var front := srcs[..|srcs| - 1];
    if front != [] {
      ApplyAllAsOne(w, v, front, pageVideos);
    }
  }

  /** The content script component. */
  class ContentScript {
    var showTokenForm: bool
    var showOverlay: bool
    /** The selected video element, by its `src`. */
    var videoElement: Option<string>
    var token: string
    var flow: Flow
    var errorMessage: Option<string>
    /** Whether the chosen video's bounding rectangle has been recorded. */
    var videoRect: bool
    /** The `srcUrl` of each `video_selected` whose reply listener is registered. */
    var replyListeners: seq<string>

    function View(): (v: GateView)
      reads this
    {
      GateView(showTokenForm, showOverlay, videoElement, token, errorMessage)
    }

    /** The container over the video is rendered. */
    predicate GateShown()
      reads this
    {
      !showOverlay && videoRect
    }

    predicate TokenFormShown()
      reads this
    {
      GateShown() && showTokenForm
    }

    /** The error box and its "Re-enter Access Token" button are rendered. */
    predicate ErrorShown()
      reads this
    {
      GateShown() && Present(errorMessage)
    }

    predicate OverlayShown()
      reads this
    {
      videoElement.Some? && showOverlay
    }

    constructor ()
      ensures Initial()
    {
      showTokenForm, showOverlay, videoRect := false, false, false;
      videoElement, errorMessage := None, None;
      token := "";
      flow := Model;
      replyListeners := [];
    }

    /** The state of a freshly loaded page. */
    predicate Initial()
      reads this
    {
      && !showTokenForm && !showOverlay && !videoRect
      && videoElement == None && errorMessage == None && token == ""
      && flow == Model && replyListeners == []
      && !GateShown() && !OverlayShown()
    }

    /** `video_selected`: the flow is taken from the message, the video's
        rectangle is recorded when the page has it, exactly one `check_user`
        is sent and one more reply listener is registered. */
    method OnVideoSelected(srcUrl: string, selected: Flow, pageVideos: set<string>) returns (sent: Request)
      modifies this
      ensures sent == CheckUser
      ensures flow == selected
      ensures videoRect == (old(videoRect) || srcUrl in pageVideos)
      ensures replyListeners == old(replyListeners) + [srcUrl]
      ensures View() == old(View())
    {
      flow := selected;
      if srcUrl in pageVideos {
        videoRect := true;
      }
      sent := CheckUser;
      replyListeners := replyListeners + [srcUrl];
    }

    /** A message reaching the registered reply listeners, in registration
        order. */
    method OnReply(m: TabMessage, pageVideos: set<string>)
      modifies this
      ensures View() == ApplyAll(old(View()), Classify(m), replyListeners, pageVideos)
      ensures replyListeners == old(replyListeners) && flow == old(flow) && videoRect == old(videoRect)
    {
      var verdict := Classify(m);
      for i := 0 to |replyListeners|
        invariant replyListeners == old(replyListeners) && flow == old(flow) && videoRect == old(videoRect)
        invariant View() == ApplyAll(old(View()), verdict, replyListeners[..i], pageVideos)
      {
        assert replyListeners[..i + 1][..i] == replyListeners[..i];
        ReplyListener(replyListeners[i], verdict, pageVideos);
      }
      assert replyListeners[..|replyListeners|] == replyListeners;
    }

    /** The reply listener registered for the video `src`. */
    method ReplyListener(src: string, verdict: Verdict, pageVideos: set<string>)
      modifies this`showTokenForm, this`showOverlay, this`videoElement, this`token, this`errorMessage
      ensures View() == Apply(old(View()), verdict, src, pageVideos)
    {
      match verdict {
        case Ignore =>
        case ShowTokenForm =>
          showTokenForm := true;
        case ShowError(text) =>
          errorMessage := Some(text);
        case Proceed(rolo) =>
          token := rolo;
          if src in pageVideos {
            videoElement := Some(src);
            showOverlay := true;
          }
      }
    }

    /** The token form's submit: one `set_user` with the typed token, and the
        form closes. */
    method SubmitToken(typed: string) returns (sent: Request)
      requires TokenFormShown()
      modifies this`showTokenForm
      ensures sent == SetUser(typed) && !showTokenForm
    {
      sent := SetUser(typed);
      showTokenForm := false;
    }

    /** "Re-enter Access Token": one `clear_token`; the state changes only
        when its callback runs. */
    method ReEnterToken() returns (sent: Request)
      requires ErrorShown()
      ensures sent == ClearToken
    {
      sent := ClearToken;
    }

    /** The `clear_token` callback: the token form opens and the error clears. */
    method OnClearTokenAck()
      modifies this`showTokenForm, this`errorMessage
      ensures showTokenForm && errorMessage == None
      ensures GateShown() == old(GateShown()) && !ErrorShown()
    {
      showTokenForm := true;
      errorMessage := None;
    }

    /** The overlay's close callback. */
    method CloseOverlay()
      requires OverlayShown()
      modifies this`showOverlay
      ensures !showOverlay && !OverlayShown()
    {
      showOverlay := false;
    }

    /** `url_changed` reloads the page: every piece of state, the registered
        listeners included, starts over. */
    method OnUrlChanged()
      modifies this
      ensures Initial()
    {
      showTokenForm, showOverlay, videoRect := false, false, false;
      videoElement, errorMessage := None, None;
      token := "";
      flow := Model;
      replyListeners := [];
    }
  }

  /** One chosen video whose token has credits: the reply shows the overlay on
      it with the stored token as the user id. */
  lemma SingleListenerProceeds(w: GateView, rolo: string, credits: int, src: string, pageVideos: set<string>)
    requires rolo != "" && credits > 0 && src in pageVideos
    ensures ApplyAll(w, Classify(Background.CreditReply(rolo, Row(credits))), [src], pageVideos)
            == w.(token := rolo, videoElement := Some(src), showOverlay := true)
  {
    assert [src][..0] == [];
  }
}
