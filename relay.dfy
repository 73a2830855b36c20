/** Message shapes exchanged between the in-page overlay, the side panel and
    the background coordinator, and the outcomes of the remote calls the
    coordinator makes on their behalf. Frames, masks and tokens are opaque
    strings. */
module Relay {

  datatype Option<T> = None | Some(value: T)

  /** JavaScript truthiness of an optional string field: present and non-empty. */
  predicate Present(o: Option<string>) {
    o.Some? && o.value != ""
  }

  /** The session mode chosen from the context menu. */
  datatype Flow = Video | Model

  /** A pair of reals: a dot in percent of the stage, a fraction of the frame,
      or a pixel position. */
  datatype Point = Point(x: real, y: real)

  /** Requests sent to the background coordinator (`chrome.runtime.sendMessage`). */
  datatype Request =
    | CheckUser
    | SetUser(rolo: string)
    | ClearToken
      /** The overlay fills every field; the side panel sends no percent list
          and no user id. */
    | GetMaskForFrame(b64Image: string, positiveCoordinates: seq<Point>,
                      positiveCoordsPercent: Option<seq<Point>>, maskUserId: Option<string>)
    | UploadFrame(frame: string, userId: string, frameIndex: nat)
    | Generate3DVideo(title: string, description: string, frames: seq<string>,
                      videoCoordinates: seq<Point>, videoCoordsPercent: seq<Point>,
                      userId: string, framerate: int)
      /** The side panel's variant of `generate_3d_video`, with its own fields. */
    | PanelGenerate3DVideo(panelFrames: seq<string>, selectedFrame: Option<nat>,
                           selectedPoint: seq<real>, panelTitle: string,
                           description: string, email: string)
    | Generate3DModel(title: string, userId: string, mask: string, frame: string)

  /** Messages the coordinator sends to the originating tab (`chrome.tabs.sendMessage`). */
  datatype TabMessage =
    | VideoSelected(srcUrl: string, flow: Flow)
    | UrlChanged(url: string)
    | MaskGenerated(mask: Option<string>)
    | ErrorOccurred(message: Option<string>)
    | FrameUploaded(success: bool, frameId: string, frameIndex: nat)
    | VideoCreated(success: bool, voxelVideoUrl: string, message: Option<string>)
    | ModelCreated(success: bool, voxelModelUrl: string, message: Option<string>)
    | TokenCleared
      /** Reply to `check_user` / `set_user`; absent fields are `None`. */
    | UserReply(user: bool, rolo: Option<string>, credits: Option<int>, error: Option<string>)

  /** The one-shot acknowledgement (`sendResponse`) of a mask request. */
  datatype MaskAck = MaskAck(success: bool, message: string, mask: Option<string>)

  /** The outcome of one remote HTTP call: a parsed OK body, a non-OK status
      with the optional `message` of its error body, or a thrown exception
      with its optional `message`. */
  datatype Outcome<T> = Ok(payload: T) | HttpError(message: Option<string>) | Threw(message: Option<string>)

  datatype MaskPayload = MaskPayload(mask: Option<string>)
  datatype BuildPayload = BuildPayload(status: string, sdvId: string, message: Option<string>)
  datatype UploadPayload = UploadPayload(frameId: string)

  /** The credit-store query `user_credits.credits where api_key = rolo`:
      an error, no matching row, or the row's credit count. */
  datatype CreditLookup = LookupFailed | NoRow | Row(credits: int)

  /** Everything the outside world decides during one coordinator event. */
  datatype Remote = Remote(storageFails: bool, credit: CreditLookup, mask: Outcome<MaskPayload>,
                           build: Outcome<BuildPayload>, upload: Outcome<UploadPayload>)

  const MaskDataPrefix := "data:image/png;base64,"
}
