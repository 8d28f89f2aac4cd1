/** The image host client of imgbb-uploader.ts. Every path ends in a URL:
    the hosted image's when the upload succeeds and names one, a fixed
    fallback image's otherwise. Nothing escapes as an exception.

    The file system and the HTTP exchange are inputs: whether the file
    exists, and what the upload request got back. */
module ImgbbUploader {

  import opened Common

  const FallbackImageUrl: string :=
    "https://cdn.pixabay.com/photo/2021/05/24/09/15/ethereum-6278326_960_720.png"

  const UploadEndpoint: string := "https://api.imgbb.com/1/upload"

  /** `data.data`; an empty field is a missing or falsy one. */
  datatype ImgbbData = ImgbbData(displayUrl: string, url: string)

  /** What the upload request produced: a thrown network error, a non-2xx
      status with its text, or a parsed body with its `success` flag and
      its `data` object. */
  datatype UploadReply =
    | RequestFailed
    | HttpFailure(status: int, text: string)
    | ReplyBody(success: bool, data: Option<ImgbbData>)

  /** Why the fallback was used. */
  datatype FallbackReason =
    | NoApiKey
    | NoImageFile
    | NetworkError
    | ApiError(status: int, text: string)
    | NoUsableUrl
    | UnexpectedResponse

  datatype UploadOutcome = Uploaded(url: string) | UsedFallback(reason: FallbackReason)

  /** Whether the upload request is sent at all: only with an API key and an
      existing file. */
  predicate SendsRequest(apiKey: string, fileExists: bool) {
    apiKey != "" && fileExists
  }

  /** `uploadImageToImgBB(imagePath)`. `display_url` is preferred to `url`;
      `reply` is consulted only when the request is sent. */
  function Upload(apiKey: string, fileExists: bool, reply: UploadReply): (o: UploadOutcome)
    ensures apiKey == "" ==> o == UsedFallback(NoApiKey)
    ensures apiKey != "" && !fileExists ==> o == UsedFallback(NoImageFile)
    ensures o.Uploaded? <==>
      && SendsRequest(apiKey, fileExists)
      && reply.ReplyBody? && reply.success && reply.data.Some?
      && (reply.data.value.displayUrl != "" || reply.data.value.url != "")
    ensures o.Uploaded? ==>
      o.url != ""
      && (o.url == reply.data.value.displayUrl
          || (reply.data.value.displayUrl == "" && o.url == reply.data.value.url))
    ensures SendsRequest(apiKey, fileExists) && reply.HttpFailure? ==>
      o == UsedFallback(ApiError(reply.status, reply.text))
  {
    if apiKey == "" then UsedFallback(NoApiKey)
    else if !fileExists then UsedFallback(NoImageFile)
    else
      match reply
      case RequestFailed => UsedFallback(NetworkError)
      case HttpFailure(status, text) => UsedFallback(ApiError(status, text))
      case ReplyBody(success, data) =>
        if success && data.Some? then
          if data.value.displayUrl != "" then Uploaded(data.value.displayUrl)
          else if data.value.url != "" then Uploaded(data.value.url)
          else UsedFallback(NoUsableUrl)
        else UsedFallback(UnexpectedResponse)
  }

  /** The URL the call resolves to. */
  function ResultUrl(o: UploadOutcome): (u: string)
    ensures u != ""
    ensures o.UsedFallback? ==> u == FallbackImageUrl
    ensures o.Uploaded? && o.url != "" ==> u == o.url
  {
    match o
    case Uploaded(url) => if url != "" then url else FallbackImageUrl
    case UsedFallback(_) => FallbackImageUrl
  }

  /** The uploader always resolves to a usable URL, and that URL is either
      the fallback or one the image host returned. */
  lemma UploadAlwaysYieldsUrl(apiKey: string, fileExists: bool, reply: UploadReply)
    ensures var u := ResultUrl(Upload(apiKey, fileExists, reply));
      && u != ""
      && (u == FallbackImageUrl
          || (reply.ReplyBody? && reply.data.Some?
              && (u == reply.data.value.displayUrl || u == reply.data.value.url)))
  {
  }

  /** `display_url` wins over `url` when both are present. */
  lemma DisplayUrlPreferred(apiKey: string, displayUrl: string, url: string)
    requires apiKey != "" && displayUrl != ""
    ensures Upload(apiKey, true, ReplyBody(true, Some(ImgbbData(displayUrl, url)))) == Uploaded(displayUrl)
  {
  }
}
