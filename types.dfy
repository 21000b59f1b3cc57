/**
 * The records, errors and external collaborators of the transcript client
 * (transcript/youtube_transcript.go).
 */
module Types {
  import opened Wrappers

  /** One caption track offered by a video page (Go `Transcript`). */
  datatype Transcript = Transcript(
    baseUrl: string,
    languageCode: string,
    language: string,
    isGenerated: bool)

  /** The zero value of Go's `Transcript`: every field empty. */
  const NoTranscript := Transcript("", "", "", false)

  /**
   * One timed caption unit (Go `TranscriptEntry`). Start and duration are
   * carried through unchanged; reals stand for Go's float64 values.
   */
  datatype TranscriptEntry = TranscriptEntry(text: string, start: real, duration: real)

  /** One `<text start=.. dur=..>` element as the XML decoder hands it over. */
  datatype XmlText = XmlText(start: real, dur: real, text: string)

  /** The generic tree `json.Unmarshal` builds into `interface{}` values. */
  datatype Json =
    | JNull
    | JBool(b: bool)
    | JNumber(n: real)
    | JString(s: string)
    | JArray(items: seq<Json>)
    | JObject(fields: map<string, Json>)

  /** The errors the client returns; their message texts are not modelled. */
  datatype Error =
      /** ErrVideoUnavailable: blank ID, failed or non-200 page fetch, or no captions marker. */
    | VideoUnavailable(videoId: string)
      /** ErrNoTranscriptFound: the caption index lists no track. */
    | NoTranscriptFound(videoId: string)
      /** "no transcript found for language code": tracks exist, none in the language. */
    | LanguageNotFound(languageCode: string)
      /** No `{` after the captions marker. */
    | JsonStartMissing
      /** The brace depth never returns to zero. */
    | JsonEndMissing
      /** The balanced slice is shorter than ten bytes. */
    | JsonTooShort(json: string)
      /** json.Unmarshal rejected the slice (or it is not an object). */
    | JsonInvalid(json: string)
      /** No object under "playerCaptionsTracklistRenderer". */
    | RendererMissing
      /** No array under "captionTracks". */
    | CaptionTracksMissing
      /** io.ReadAll failed on the page body. */
    | BodyUnreadable
      /** The GET of a track's base URL failed at the transport level. */
    | RequestFailed(url: string)
      /** The caption document could not be read or decoded as XML. */
    | XmlInvalid

  datatype Result<+T> = Ok(value: T) | Err(error: Error)

  /** The outcome of one HTTP GET: a transport failure, or a status and a body that may fail to read. */
  datatype Response = TransportFailure | Reply(status: int, body: Option<string>)

  const StatusOK := 200

  /**
   * The client and the code it calls but that is not part of this model:
   * `web` answers one GET for a URL (transport, proxy and server together),
   * `unmarshal` is json.Unmarshal, `decodeXml` is the encoding/xml decoding of
   * a timed-text document, `unescape` is html.UnescapeString.
   */
  datatype Client = Client(
    web: string -> Response,
    unmarshal: string -> Option<Json>,
    decodeXml: string -> Option<seq<XmlText>>,
    unescape: string -> string)
}
