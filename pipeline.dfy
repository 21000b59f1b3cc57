/**
 * The client's public operations (transcript/youtube_transcript.go): fetch
 * the watch page, extract the caption index, choose a track, fetch and map
 * its timed text; and the helpers built on them.
 */
module Pipeline {
  import opened Wrappers
  import opened Strings
  import opened Types
  import opened CaptionIndex
  import opened Selection

  const WatchUrlPrefix := "https://www.youtube.com/watch?v="

  /** The watch page of a video. */
  function WatchPageUrl(videoId: string): string {
    WatchUrlPrefix + videoId
  }

  /**
   * fetchVideoInfo: a blank ID is refused before any request; a failed
   * request or a status other than 200 makes the video unavailable; a body
   * that cannot be read is its own error.
   */
  function FetchVideoInfo(client: Client, videoId: string): (r: Result<string>)
    ensures Blank(videoId) ==> r == Err(VideoUnavailable(videoId))
    ensures r.Ok? ==> !Blank(videoId) && client.web(WatchPageUrl(videoId)) == Reply(StatusOK, Some(r.value))
    ensures r.Err? ==> r.error in {VideoUnavailable(videoId), BodyUnreadable}
    ensures r == Err(BodyUnreadable) ==>
      client.web(WatchPageUrl(videoId)) == Reply(StatusOK, None)
    ensures var page := client.web(WatchPageUrl(videoId));
      !Blank(videoId) && page.Reply? && page.status == StatusOK && page.body.Some? ==> r == Ok(page.body.value)
    ensures var page := client.web(WatchPageUrl(videoId));
      !Blank(videoId) && (page.TransportFailure? || page.status != StatusOK) ==> r == Err(VideoUnavailable(videoId))
  {
    TrimSpaceEmptyIffBlank(videoId);
    if TrimSpace(videoId) == [] then
      Err(VideoUnavailable(videoId))
    else
      match client.web(WatchPageUrl(videoId))
      case TransportFailure => Err(VideoUnavailable(videoId))
      case Reply(status, body) =>
        if status != StatusOK then
          Err(VideoUnavailable(videoId))
        else
          match body
          case None => Err(BodyUnreadable)
          case Some(page) => Ok(page)
  }

  /** One decoded `<text>` element as a transcript entry: the text unescaped, the times carried over. */
  function EntryOf(x: XmlText, unescape: string -> string): TranscriptEntry {
    TranscriptEntry(unescape(x.text), x.start, x.dur)
  }

  /** The entry loop of fetchTranscript: one entry per `<text>` element, in document order. */
  method MapEntries(texts: seq<XmlText>, unescape: string -> string) returns (entries: seq<TranscriptEntry>)
    ensures |entries| == |texts|
    ensures forall i :: 0 <= i < |texts| ==> entries[i] == EntryOf(texts[i], unescape)
  {
    entries := [];
    for i := 0 to |texts|
      invariant |entries| == i
      invariant forall k :: 0 <= k < i ==> entries[k] == EntryOf(texts[k], unescape)
    {
      entries := entries + [EntryOf(texts[i], unescape)];
    }
  }

  /** The entries of a decoded caption document. */
  function EntriesOf(texts: seq<XmlText>, unescape: string -> string): (entries: seq<TranscriptEntry>)
    ensures |entries| == |texts|
    ensures forall i :: 0 <= i < |texts| ==> entries[i].text == unescape(texts[i].text)
    ensures forall i :: 0 <= i < |texts| ==> entries[i].start == texts[i].start && entries[i].duration == texts[i].dur
  {
    seq(|texts|, i requires 0 <= i < |texts| => EntryOf(texts[i], unescape))
  }

  /**
   * fetchTranscript as a function of its inputs: a transport failure is
   * returned as is; the status code is not looked at; an unreadable or
   * undecodable document is an XML error.
   */
  function TrackTranscript(client: Client, track: Transcript): (r: Result<seq<TranscriptEntry>>)
    ensures r.Err? ==> r.error in {RequestFailed(track.baseUrl), XmlInvalid}
    ensures r == Err(RequestFailed(track.baseUrl)) <==> client.web(track.baseUrl) == TransportFailure
    ensures r.Ok? ==>
      && client.web(track.baseUrl).Reply?
      && client.web(track.baseUrl).body.Some?
      && client.decodeXml(client.web(track.baseUrl).body.value).Some?
      && |r.value| == |client.decodeXml(client.web(track.baseUrl).body.value).value|
    ensures var reply := client.web(track.baseUrl);
      reply.Reply? && reply.body.Some? && client.decodeXml(reply.body.value).Some? ==>
      r == Ok(EntriesOf(client.decodeXml(reply.body.value).value, client.unescape))
  {
    match client.web(track.baseUrl)
    case TransportFailure => Err(RequestFailed(track.baseUrl))
    case Reply(_, body) =>
      if body.None? then
        Err(XmlInvalid)
      else
        match client.decodeXml(body.value)
        case None => Err(XmlInvalid)
        case Some(texts) => Ok(EntriesOf(texts, client.unescape))
  }

  /** fetchTranscript. */
  method FetchTranscript(client: Client, track: Transcript) returns (r: Result<seq<TranscriptEntry>>)
    ensures r == TrackTranscript(client, track)
  {
    match client.web(track.baseUrl)
    case TransportFailure =>
      return Err(RequestFailed(track.baseUrl));
    case Reply(_, body) =>
      if body.None? {
        return Err(XmlInvalid);
      }
      match client.decodeXml(body.value)
      case None =>
        return Err(XmlInvalid);
      case Some(texts) =>
        var entries := MapEntries(texts, client.unescape);
        assert entries == EntriesOf(texts, client.unescape);
        return Ok(entries);
  }

  /** The outcome of GetTranscript: page, caption index, non-empty track list, default choice, caption document. */
  ghost function TranscriptFor(client: Client, videoId: string): Result<seq<TranscriptEntry>> {
    match FetchVideoInfo(client, videoId)
    case Err(e) => Err(e)
    case Ok(page) =>
      match Extraction(page, client.unmarshal)
      case Err(e) => Err(e)
      case Ok(tracks) =>
        if tracks == [] then Err(NoTranscriptFound(videoId))
        else TrackTranscript(client, DefaultChoice(tracks))
  }

  /** The outcome of GetTranscriptWithLanguage: as GetTranscript, with the explicit policy. */
  ghost function TranscriptInLanguage(client: Client, videoId: string, code: string): Result<seq<TranscriptEntry>> {
    match FetchVideoInfo(client, videoId)
    case Err(e) => Err(e)
    case Ok(page) =>
      match Extraction(page, client.unmarshal)
      case Err(e) => Err(e)
      case Ok(tracks) =>
        if tracks == [] then Err(NoTranscriptFound(videoId))
        else
          match LanguageChoice(tracks, code)
          case None => Err(LanguageNotFound(code))
          case Some(track) => TrackTranscript(client, track)
  }

  /** The outcome of ListAvailableTranscripts: the caption index of the page, possibly empty. */
  ghost function AvailableTranscripts(client: Client, videoId: string): Result<seq<Transcript>> {
    match FetchVideoInfo(client, videoId)
    case Err(e) => Err(e)
    case Ok(page) => Extraction(page, client.unmarshal)
  }

  /** GetTranscript. */
  method GetTranscript(client: Client, videoId: string) returns (r: Result<seq<TranscriptEntry>>)
    ensures r == TranscriptFor(client, videoId)
  {
    var videoInfo := FetchVideoInfo(client, videoId);
    if videoInfo.Err? {
      return Err(videoInfo.error);
    }
    var transcripts := ExtractTranscriptData(videoInfo.value, client.unmarshal);
    if transcripts.Err? {
      return Err(transcripts.error);
    }
    if |transcripts.value| == 0 {
      return Err(NoTranscriptFound(videoId));
    }
    var selected := SelectDefault(transcripts.value);
    r := FetchTranscript(client, selected);
  }

  /** GetTranscriptWithLanguage. */
  method GetTranscriptWithLanguage(client: Client, videoId: string, code: string)
    returns (r: Result<seq<TranscriptEntry>>)
    ensures r == TranscriptInLanguage(client, videoId, code)
  {
    var videoInfo := FetchVideoInfo(client, videoId);
    if videoInfo.Err? {
      return Err(videoInfo.error);
    }
    var transcripts := ExtractTranscriptData(videoInfo.value, client.unmarshal);
    if transcripts.Err? {
      return Err(transcripts.error);
    }
    if |transcripts.value| == 0 {
      return Err(NoTranscriptFound(videoId));
    }
    var selected := SelectLanguage(transcripts.value, code);
    if selected.None? {
      return Err(LanguageNotFound(code));
    }
    r := FetchTranscript(client, selected.value);
  }

  /** ListAvailableTranscripts. */
  method ListAvailableTranscripts(client: Client, videoId: string) returns (r: Result<seq<Transcript>>)
    ensures r == AvailableTranscripts(client, videoId)
  {
    var videoInfo := FetchVideoInfo(client, videoId);
    if videoInfo.Err? {
      return Err(videoInfo.error);
    }
    r := ExtractTranscriptData(videoInfo.value, client.unmarshal);
  }

  /** The texts of the entries, in order. */
  function Texts(entries: seq<TranscriptEntry>): (texts: seq<string>)
    ensures |texts| == |entries|
    ensures forall i :: 0 <= i < |entries| ==> texts[i] == entries[i].text
  {
    seq(|entries|, i requires 0 <= i < |entries| => entries[i].text)
  }

  /** ConcatenateTranscript: the texts separated by newlines, with no separator after the last. */
  method ConcatenateTranscript(entries: seq<TranscriptEntry>) returns (s: string)
    ensures s == Join(Texts(entries), "\n")
  {
    s := [];
    for i := 0 to |entries|
      invariant s == Join(Texts(entries[..i]), "\n") + (if 0 < i < |entries| then "\n" else "")
    {
      assert Texts(entries[..i + 1]) == Texts(entries[..i]) + [entries[i].text];
      var before := s;
      s := s + entries[i].text;
      if i < |entries| - 1 {
        s := s + "\n";
      }
      JoinSnoc(Texts(entries[..i]), entries[i].text, "\n");
    }
    assert entries[..|entries|] == entries;
  }

  /** Appending a part appends a separator (when there was a part before) and the part. */
  lemma {:induction false} JoinSnoc(parts: seq<string>, last: string, sep: string)
    ensures Join(parts + [last], sep) == Join(parts, sep) + (if parts == [] then [] else sep) + last
  {
    var all := parts + [last];
    assert all[..|all| - 1] == parts;
  }

  /** GetTranscriptString. */
  method GetTranscriptString(client: Client, videoId: string) returns (r: Result<string>)
    ensures r.Ok? <==> TranscriptFor(client, videoId).Ok?
    ensures r.Ok? ==> r.value == Join(Texts(TranscriptFor(client, videoId).value), "\n")
    ensures r.Err? ==> r.error == TranscriptFor(client, videoId).error
  {
    var entries := GetTranscript(client, videoId);
    if entries.Err? {
      return Err(entries.error);
    }
    var s := ConcatenateTranscript(entries.value);
    return Ok(s);
  }

  /**
   * FetchMultipleTranscripts, one ID after another: the result holds exactly
   * the IDs whose transcript could be fetched, each with that transcript.
   */
  method FetchMultipleTranscripts(client: Client, videoIds: seq<string>)
    returns (results: map<string, seq<TranscriptEntry>>)
    ensures forall id :: id in results <==> id in videoIds && TranscriptFor(client, id).Ok?
    ensures forall id :: id in results ==> results[id] == TranscriptFor(client, id).value
  {
    results := map[];
    for i := 0 to |videoIds|
      invariant forall id :: id in results <==> id in videoIds[..i] && TranscriptFor(client, id).Ok?
      invariant forall id :: id in results ==> results[id] == TranscriptFor(client, id).value
    {
      assert videoIds[..i + 1] == videoIds[..i] + [videoIds[i]];
      var transcript := GetTranscript(client, videoIds[i]);
      if transcript.Ok? {
        results := results[videoIds[i] := transcript.value];
      }
    }
    assert videoIds[..|videoIds|] == videoIds;
  }

  // Properties of ConcatenateTranscript

  /**
   * No entries give "", one entry gives its own text; otherwise the result
   * starts with the first text and ends with the last one, so there is no
   * trailing separator.
   */
  lemma {:induction false} ConcatenationShape(texts: seq<string>)
    ensures texts == [] ==> Join(texts, "\n") == ""
    ensures |texts| == 1 ==> Join(texts, "\n") == texts[0]
    ensures texts != [] ==>
      var s := Join(texts, "\n");
      |texts[0]| <= |s| && s[..|texts[0]|] == texts[0]
    ensures texts != [] ==>
      var s := Join(texts, "\n");
      var last := texts[|texts| - 1];
      |last| <= |s| && s[|s| - |last|..] == last
  {
    if |texts| > 1 {
      var s := Join(texts, "\n");
      var last := texts[|texts| - 1];
      assert s == Join(texts[..|texts| - 1], "\n") + "\n" + last;
      assert texts == [texts[0]] + texts[1..];
      JoinCons(texts[0], texts[1..], "\n");
      assert s == texts[0] + ("\n" + Join(texts[1..], "\n"));
    }
  }

  /** The length of the concatenation: every text once and one separator between neighbours. */
  lemma {:induction false} ConcatenationLength(texts: seq<string>)
    requires texts != []
    ensures |Join(texts, "\n")| == TotalLength(texts) + |texts| - 1
    decreases |texts|
  {
    if |texts| > 1 {
      var front := texts[..|texts| - 1];
      ConcatenationLength(front);
      TotalLengthSnoc(front, texts[|texts| - 1]);
      assert front + [texts[|texts| - 1]] == texts;
    }
  }

  /** The sum of the lengths of the texts. */
  function TotalLength(texts: seq<string>): nat
    decreases |texts|
  {
    if texts == [] then 0 else |texts[0]| + TotalLength(texts[1..])
  }

  lemma {:induction false} TotalLengthSnoc(texts: seq<string>, last: string)
    ensures TotalLength(texts + [last]) == TotalLength(texts) + |last|
    decreases |texts|
  {
    if texts != [] {
      assert (texts + [last])[1..] == texts[1..] + [last];
      TotalLengthSnoc(texts[1..], last);
    }
  }

  /** Texts without newlines come back from the concatenation by splitting at newlines. */
  lemma {:induction false} ConcatenationSplitsBack(entries: seq<TranscriptEntry>)
    requires entries != []
    requires forall i :: 0 <= i < |entries| ==> '\n' !in entries[i].text
    ensures SplitOn(Join(Texts(entries), "\n"), "\n") == Texts(entries)
  {
    SplitJoinRoundTrip(Texts(entries), '\n');
  }

  /** Three entries with texts a, b and c give "a\nb\nc". */
  lemma {:induction false} ConcatenationExample(entries: seq<TranscriptEntry>)
    requires |entries| == 3
    requires entries[0].text == "a" && entries[1].text == "b" && entries[2].text == "c"
    ensures Join(Texts(entries), "\n") == "a\nb\nc"
  {
    var texts := Texts(entries);
    assert Join(texts[..1], "\n") == "a";
    assert texts[..2][..1] == texts[..1];
    assert Join(texts[..2], "\n") == "a" + "\n" + "b";
    assert Join(texts, "\n") == Join(texts[..2], "\n") + "\n" + "c";
  }

  // Properties of the pipeline

  /** A blank ID fails with ErrVideoUnavailable, whatever the network would answer, in every entry point. */
  lemma {:induction false} BlankIdRejectedBeforeFetch(client: Client, videoId: string, code: string)
    requires Blank(videoId)
    ensures TranscriptFor(client, videoId) == Err(VideoUnavailable(videoId))
    ensures TranscriptInLanguage(client, videoId, code) == Err(VideoUnavailable(videoId))
    ensures AvailableTranscripts(client, videoId) == Err(VideoUnavailable(videoId))
  {
  }

  /**
   * The stages fail in order and each error reaches the caller unchanged:
   * the page fetch, then extraction, then the empty track list, which is
   * reported with the requested ID.
   */
  lemma {:induction false} FirstFailingStage(client: Client, videoId: string, code: string)
    ensures FetchVideoInfo(client, videoId).Err? ==>
      && TranscriptFor(client, videoId) == Err(FetchVideoInfo(client, videoId).error)
      && TranscriptInLanguage(client, videoId, code) == Err(FetchVideoInfo(client, videoId).error)
    ensures FetchVideoInfo(client, videoId).Ok? && AvailableTranscripts(client, videoId).Err? ==>
      && TranscriptFor(client, videoId) == Err(AvailableTranscripts(client, videoId).error)
      && TranscriptInLanguage(client, videoId, code) == Err(AvailableTranscripts(client, videoId).error)
    ensures AvailableTranscripts(client, videoId) == Ok([]) ==>
      && TranscriptFor(client, videoId) == Err(NoTranscriptFound(videoId))
      && TranscriptInLanguage(client, videoId, code) == Err(NoTranscriptFound(videoId))
  {
  }

  /**
   * A page that was fetched but holds no captions marker (what an unknown ID
   * returns) makes every entry point report ErrVideoUnavailable, with an
   * empty ID.
   */
  lemma {:induction false} PageWithoutCaptionsIsUnavailable(client: Client, videoId: string, code: string)
    requires FetchVideoInfo(client, videoId).Ok?
    requires !Contains(FetchVideoInfo(client, videoId).value, CaptionsMarker)
    ensures TranscriptFor(client, videoId) == Err(VideoUnavailable(""))
    ensures TranscriptInLanguage(client, videoId, code) == Err(VideoUnavailable(""))
  {
    ExtractionFailures(FetchVideoInfo(client, videoId).value, client.unmarshal);
  }

  /**
   * A transcript is only delivered for a video whose page was fetched and
   * whose caption index lists the chosen track.
   */
  lemma {:induction false} DeliveredTranscript(client: Client, videoId: string)
    requires TranscriptFor(client, videoId).Ok?
    ensures !Blank(videoId)
    ensures AvailableTranscripts(client, videoId).Ok?
    ensures var tracks := AvailableTranscripts(client, videoId).value;
      tracks != [] && exists t :: t in tracks && TranscriptFor(client, videoId) == TrackTranscript(client, t)
  {
    var tracks := AvailableTranscripts(client, videoId).value;
    assert DefaultChoice(tracks) in tracks;
  }

  /**
   * The default policy and the explicit one: asking for "en" gives the same
   * outcome when the first English track has a URL, and asking for "" gives
   * the same outcome when there is no English track.
   */
  lemma {:induction false} DefaultMatchesExplicit(client: Client, videoId: string)
    ensures var tracks := AvailableTranscripts(client, videoId);
      tracks.Ok? && tracks.value != [] && LanguageChoice(tracks.value, "en").Some?
        && LanguageChoice(tracks.value, "en").value.baseUrl != ""
      ==> TranscriptFor(client, videoId) == TranscriptInLanguage(client, videoId, "en")
    ensures var tracks := AvailableTranscripts(client, videoId);
      tracks.Ok? && tracks.value != [] && LanguageChoice(tracks.value, "en").None?
      ==> TranscriptFor(client, videoId) == TranscriptInLanguage(client, videoId, "")
  {
    var tracks := AvailableTranscripts(client, videoId);
    if tracks.Ok? && tracks.value != [] {
      DefaultVersusEnglish(tracks.value);
      EmptyCodeSelectsFirst(tracks.value);
    }
  }

  /** The language error is only reported for a non-empty track list with no track in that language. */
  lemma {:induction false} LanguageNotFoundMeansNoMatch(client: Client, videoId: string, code: string)
    requires TranscriptInLanguage(client, videoId, code) == Err(LanguageNotFound(code))
    ensures AvailableTranscripts(client, videoId).Ok?
    ensures var tracks := AvailableTranscripts(client, videoId).value;
      tracks != [] && forall i :: 0 <= i < |tracks| ==> !HasPrefix(tracks[i].languageCode, code)
  {
    LanguageErrorStages(client, videoId, code);
    var tracks := AvailableTranscripts(client, videoId).value;
    assert LanguageChoice(tracks, code).None?;
  }

  /** The language error comes from the selection stage, after a page with a non-empty track list. */
  lemma {:induction false} LanguageErrorStages(client: Client, videoId: string, code: string)
    requires TranscriptInLanguage(client, videoId, code) == Err(LanguageNotFound(code))
    ensures AvailableTranscripts(client, videoId).Ok?
    ensures var tracks := AvailableTranscripts(client, videoId).value;
      tracks != [] && LanguageChoice(tracks, code).None?
  {
    var info := FetchVideoInfo(client, videoId);
    assert info.Ok?;
    var extracted := Extraction(info.value, client.unmarshal);
    ExtractionNotLanguageError(info.value, client.unmarshal);
    assert extracted.Ok?;
    assert AvailableTranscripts(client, videoId) == extracted;
  }

  /** Extraction never fails with the language error, which only the selection stage reports. */
  lemma {:induction false} ExtractionNotLanguageError(page: string, unmarshal: string -> Option<Json>)
    ensures Extraction(page, unmarshal).Err? ==> !Extraction(page, unmarshal).error.LanguageNotFound?
  {
    ExtractionFailures(page, unmarshal);
  }

  /** fetchTranscript does not look at the status code: only the body decides. */
  lemma {:induction false} StatusIsIgnored(client: Client, track: Transcript, status: int, body: Option<string>)
    requires client.web(track.baseUrl) == Reply(StatusOK, body)
    ensures TrackTranscript(client.(web := url => if url == track.baseUrl then Reply(status, body) else client.web(url)), track)
      == TrackTranscript(client, track)
  {
  }
}
