# yt-words transcript client, modelled in Dafny

This project models the core of the `transcript` package of yt-words-go, a
client that fetches the caption track of a video from the platform's watch
page. The package works in stages:

* **Page fetch** (`fetchVideoInfo`). Blank IDs are refused before any
  request. The watch page `https://www.youtube.com/watch?v=<id>` is then
  fetched.
* **Caption-index extraction** (`extractTranscriptData`).
  - Find the `"captions":` marker and the first `{` after it.
  - Count braces until the depth returns to zero. This count does not know
    about JSON strings.
  - Reject slices shorter than ten bytes.
  - Decode the slice and walk to
    `playerCaptionsTracklistRenderer.captionTracks`.
  - Map each object element to a `Transcript` record.
* **Track selection.**
  - The default policy takes the first track whose code starts with `en`. If
    there is none, or that track has an empty base URL, it takes the first
    track.
  - The explicit policy takes the first track whose code starts with the
    requested code, or reports an error.
* **Caption fetch** (`fetchTranscript`). Fetch the track's base URL, decode
  the XML document, and turn each `<text>` element into an entry with its
  text unescaped.
* **Helpers built on these stages:**
  - `GetTranscript`, `GetTranscriptWithLanguage`, `GetTranscriptString` and
    `ListAvailableTranscripts`;
  - `FetchMultipleTranscripts`, run one ID after another here;
  - `ConcatenateTranscript`, which joins texts with newlines;
  - `ExtractVideoID`, which accepts a bare ID, a watch URL or a short URL.

Strings are `seq<char>`, with one `char` standing for one byte, so Go's
`len` and indices carry over unchanged. The code the package calls but does
not own is a parameter of the model: each of the following is a function-typed
field of `Types.Client`:

* the HTTP GET, together with transport, status and body read;
* `json.Unmarshal`;
* the `encoding/xml` decoding;
* `html.UnescapeString`.

Every operation is therefore a deterministic function of its inputs and of
that client.

The modules are:

* `Wrappers`: Option.
* `Strings`: the `strings` functions the core calls.
* `Types`: records, errors, the JSON tree, the client.
* `CaptionIndex`: `extractTranscriptData`.
* `Selection`: the two selection loops.
* `VideoId`: `ExtractVideoID` and the parts of `net/url` it relies on.
* `Pipeline`: the remaining public operations.

Loops in the source are methods with loop invariants. Most methods are
proved equal to a specification function, and the properties are proved as
lemmas about those functions. The brace scan (`CaptionIndex.ScanObjectEnd`)
is specified by the predicate `IsObjectEnd` instead. `Pipeline.MapEntries`
states its result element by element. `Pipeline.FetchMultipleTranscripts`
states its result key by key. The outcome of extraction (`CaptionIndex.Extraction`)
picks the end of the balanced slice with `:|`, so it is ghost, and so are
the pipeline specifications built on it.

Where the code's comments and the code differ, the model follows the code:

* **Default selection.** The comment at transcript/youtube_transcript.go:114
  says that the first track is the fallback when no English track is found.
  The code tests for an empty base URL instead (lines 115-117). So an English
  track with an empty base URL also falls back to the first track.

Two more behaviours of the code are kept as written:

* **Caption fetch.** `fetchTranscript` does not check the HTTP status (lines
  249-253), and a transport error is returned as it is.
* **Page body.** A failure to read the page body is returned as that error,
  not as ErrVideoUnavailable (lines 159-162).

## Model

| member | source | states |
|---|---|---|
| CaptionIndex.ScanObjectEnd | transcript/youtube_transcript.go:182-199 | The brace scan from the first `{`. On success the slice is the shortest one whose braces balance: depth zero at the end, positive at every shorter non-empty prefix, equal counts of `{` and `}`, and it ends with `}`. On failure the depth stays positive up to the end of the page. |
| CaptionIndex.CaptionsObjectStart | transcript/youtube_transcript.go:168-180 | Without the `"captions":` marker the result is ErrVideoUnavailable with an empty ID, and only then. Otherwise the start is a `{` at or after the first marker, with no `{` between them. If there is no `{` after the marker, the result is the start-missing error. |
| CaptionIndex.ExtractTranscriptData | transcript/youtube_transcript.go:167-246 | The extractor returns exactly `Extraction`: the decode of the slice from the object start to the unique balanced end, or the error of the first stage that fails. |
| CaptionIndex.DecodeTracks | transcript/youtube_transcript.go:201-246 | The steps after the slice is cut (length guard, decode, walk to the tracks, track loop) equal `DecodeCaptions`. |
| CaptionIndex.DecodeCaptions | transcript/youtube_transcript.go:203-222 | A slice under ten bytes is rejected with that slice. Every error is one of the four decode errors. The result is Ok exactly when the slice is long enough and decodes to an object whose renderer object holds a `captionTracks` array. The Ok list is then `TracksOf` that array: one track per object element, in order. So it is never longer than the array. |
| CaptionIndex.ExtractionFailures | transcript/youtube_transcript.go:168-199 | A missing marker gives ErrVideoUnavailable with an empty ID. A marker with no `{` after it gives the start error. A start with no balanced end gives the end error. No other error kinds arise. |
| CaptionIndex.ExtractsBalancedObject | transcript/youtube_transcript.go:168-201 | Consider a page where the first `"captions":` marker comes right after some prefix. After the marker there is text without `{`, then a balanced object, then anything. Extraction decodes exactly that object, however deeply it nests. |
| CaptionIndex.MarkerFirstAfterQuoteFree | transcript/youtube_transcript.go:169 | A prefix without `"` can hold no part of the marker, so the marker after it is the first one. |
| CaptionIndex.ExtractionAt | transcript/youtube_transcript.go:168-201 | On any page, once the object start is known, a balanced object found there is what extraction decodes. |
| CaptionIndex.ObjectStartAfterGap | transcript/youtube_transcript.go:169-180 | When the marker after a prefix is the first occurrence on the page, the caption object starts right after that marker and the brace-free text that follows it. |
| CaptionIndex.ObjectEndInside | transcript/youtube_transcript.go:182-199 | A balanced object stays balanced, with the same end, inside any larger page. |
| CaptionIndex.QuotedBraceCloses | transcript/youtube_transcript.go:186-194 | The scan ignores quotes: in `{"a":"}"}` the quoted `}` closes the object after seven bytes. |
| CaptionIndex.TrackOf | transcript/youtube_transcript.go:231-242 | `IsGenerated` holds exactly when `kind` is the string `"asr"`. A `baseUrl` or `languageCode` that is present as a string is copied into the record, and a missing or ill-typed one gives `""`. The language is copied from `name.simpleText` when `name` is an object and `simpleText` is a string. Otherwise the language is `""`. |
| CaptionIndex.ObjectPositions | transcript/youtube_transcript.go:225-229 | The positions of the object elements, in strictly increasing order: all of them and nothing else. |
| CaptionIndex.TracksOfObjects | transcript/youtube_transcript.go:224-243 | The k-th track is the mapping of the k-th object element: order is kept and non-objects are skipped. |
| CaptionIndex.TracksOfConcat | transcript/youtube_transcript.go:224-243 | Tracks are appended element by element: the mapping of a concatenation is the concatenation of the mappings. |
| CaptionIndex.TracksOfLength | transcript/youtube_transcript.go:224-245 | There are never more tracks than array elements, and an empty array gives an empty list, not an error. |
| CaptionIndex.MapTracks | transcript/youtube_transcript.go:224-243 | The append loop yields `TracksOf` of the array. |
| Selection.FirstWithPrefix | transcript/youtube_transcript.go:107-112 | The position of the first track whose code has the prefix, or None when no track has it. |
| Selection.DefaultChoice | transcript/youtube_transcript.go:105-117 | The chosen track is an element of the list. It is the first `en` track when that track's base URL is non-empty, and otherwise the first track. With no `en` track it is the first track. |
| Selection.LanguageChoice | transcript/youtube_transcript.go:297-304 | Some exactly when some track's code has the requested prefix, and then the first such track. |
| Selection.SelectDefault | transcript/youtube_transcript.go:105-117 | The loop with `break` and the empty-URL fallback yields `DefaultChoice`. |
| Selection.SelectLanguage | transcript/youtube_transcript.go:297-304 | The loop with early return yields `LanguageChoice`. |
| Selection.DefaultVersusEnglish | transcript/youtube_transcript.go:105-117 | The default policy agrees with asking for `en` when the first `en` track has a URL. When that track has no URL, or there is no `en` track, it takes the first track. |
| Selection.EmptyCodeSelectsFirst | transcript/youtube_transcript.go:297-304 | Asking for the empty code selects the first track. |
| Selection.EmptyUrlEnglishFallsBack | transcript/youtube_transcript.go:115-117 | With tracks fr, en without URL and en-GB, the default policy picks fr, not en-GB. |
| Selection.SelectionExample | transcript/youtube_transcript.go:105-117 | With en-US and fr: the default is en-US, `fr` gives fr, and `de` gives nothing. |
| VideoId.ExtractVideoId | transcript/youtube_transcript.go:342-367 | An 11-byte input without `/` or `.` is returned unchanged. A non-bare input gives `""` when the watch branch yields nothing and the short marker does not occur exactly once. This covers the case with neither marker, a watch URL without a usable `v`, and a `youtu.be/` that occurs twice. |
| VideoId.QueryUnescape | transcript/youtube_transcript.go:351 | Query unescaping succeeds exactly when every `%` is followed by two hex digits. Text without `%` or `+` is unchanged. |
| VideoId.Get | transcript/youtube_transcript.go:352 | `Values.Get` returns the value of the first pair with the key, or `""` when no pair has it. |
| VideoId.ParseQueryAppend | transcript/youtube_transcript.go:351 | Parsing a query cut at an `&` concatenates the pairs of both sides, and fails when either side fails. |
| VideoId.GetSkips | transcript/youtube_transcript.go:352 | Pairs without the key in front do not change what `Get` finds. |
| VideoId.ParseQueryLeadingV | transcript/youtube_transcript.go:351-352 | A query that starts with `v=id` parses, and its `v` is `id`, whatever parseable parameters follow. |
| VideoId.ParsePlainPair | transcript/youtube_transcript.go:351 | A plain `key=value` query parses to that one pair. |
| VideoId.RawQueryAfterMark | transcript/youtube_transcript.go:350 | A URL with no fragment and no control byte, whose part before the first `?` url.Parse accepts, has the text after that `?` as its raw query. |
| VideoId.SchemeFound | transcript/youtube_transcript.go:350 | A letter followed by scheme characters and `:` is recognised as the scheme, and what follows the `:` is the rest of the URL. |
| VideoId.OpaqueSkipsEscapes | transcript/youtube_transcript.go:350 | After a scheme, a rest that does not start with `/` is opaque and accepted whatever escapes it holds. |
| VideoId.OpaqueUrlExample | transcript/youtube_transcript.go:350 | `https:youtube.com/watch%?v=VO6XEQIsCoM` has the raw query `v=VO6XEQIsCoM` even though its path holds a bad escape. |
| VideoId.MissingSchemeRejected | transcript/youtube_transcript.go:350 | A URL that starts with `:` is refused (missing scheme), so it has no raw query. |
| VideoId.ColonInFirstSegmentRejected | transcript/youtube_transcript.go:350 | Without a scheme, a `:` before the first `/` makes the parse fail. |
| VideoId.ParseQueryAccepts | transcript/youtube_transcript.go:351 | `url.ParseQuery` succeeds exactly when every `&`-separated segment is empty, or holds no `;` and has a key and a value with only valid escapes. |
| VideoId.WatchUrlYieldsParam | transcript/youtube_transcript.go:349-356 | A watch URL resolves to the first `v` value when four conditions hold. The query parses and names a non-empty `v`. The prefix before the marker holds no `?`, `#` or control byte. The query holds no `#` or control byte. url.Parse accepts the path. |
| VideoId.WatchUrlYieldsV | transcript/youtube_transcript.go:349-356 | A watch URL resolves to `id` when its query starts with `v=id`, whatever parseable parameters follow. The prefix and query must be as for WatchUrlYieldsParam, with the path accepted by url.Parse. |
| VideoId.WatchUrlYieldsLaterV | transcript/youtube_transcript.go:349-356 | A watch URL also resolves to `id` when its query has parseable parameters without `v` before `v=id`. The prefix and query must be as for WatchUrlYieldsParam, with the path accepted by url.Parse. |
| VideoId.RejectedPathHasNoWatchParam | transcript/youtube_transcript.go:350-356 | A URL whose part before `?` url.Parse refuses (for example a bad escape in a non-opaque path) has no raw query, so the watch branch yields nothing. |
| VideoId.ShortUrlYieldsSegment | transcript/youtube_transcript.go:359-364 | When the watch branch yields nothing and the short marker occurs exactly once, the result is a prefix of the text after the marker. It holds no `?` and stops at the first `?` or at the end. |
| VideoId.BareIdExample | youtube_transcript_test.go:14-18 | A bare ID is returned unchanged. |
| VideoId.WatchExample | youtube_transcript_test.go:19-23 | The full watch URL gives its ID. |
| VideoId.ShortExample | youtube_transcript_test.go:24-28 | The short URL gives its ID. |
| VideoId.WatchWithTimeExample | youtube_transcript_test.go:29-33 | The watch URL with `&t=123` gives its ID. |
| Pipeline.FetchVideoInfo | transcript/youtube_transcript.go:143-165 | A blank ID gives ErrVideoUnavailable for that ID. For a non-blank ID, a page is returned exactly when the watch URL answers 200 with a readable body, and it is that body. A transport failure or any other status gives ErrVideoUnavailable for the ID. A 200 with an unreadable body gives the read error. |
| Pipeline.MapEntries | transcript/youtube_transcript.go:268-275 | One entry per `<text>` element, in order, each the unescaped text with start and duration carried over. |
| Pipeline.TrackTranscript | transcript/youtube_transcript.go:248-278 | A transport failure, and only that, gives the request error for the track URL. Every other error is an XML error. Success comes exactly when there is a reply with a readable body that decodes. It then yields the entries of the decoded elements, one per element, each with its text unescaped and its times unchanged. |
| Pipeline.FetchTranscript | transcript/youtube_transcript.go:248-278 | The method yields `TrackTranscript`. |
| Pipeline.StatusIsIgnored | transcript/youtube_transcript.go:249-253 | The caption fetch gives the same result whatever status accompanies the body. |
| Pipeline.GetTranscript | transcript/youtube_transcript.go:90-120 | The method yields `TranscriptFor`: page, extraction, non-empty list, default choice, caption fetch. |
| Pipeline.GetTranscriptWithLanguage | transcript/youtube_transcript.go:282-305 | The method yields `TranscriptInLanguage`: the same stages with the explicit policy, and the language error when no track matches. |
| Pipeline.ListAvailableTranscripts | transcript/youtube_transcript.go:308-315 | The method yields the extraction of the fetched page, which may be an empty list. |
| Pipeline.GetTranscriptString | transcript/youtube_transcript.go:123-129 | Succeeds exactly when GetTranscript does, then with the entry texts joined by newlines. Otherwise it returns GetTranscript's error. |
| Pipeline.FetchMultipleTranscripts | transcript/youtube_transcript.go:318-338 | The result's keys are exactly the requested IDs whose transcript can be fetched, each mapped to that transcript. Failures are dropped. |
| Pipeline.ConcatenateTranscript | transcript/youtube_transcript.go:132-141 | The builder loop yields the entry texts joined with `"\n"`. |
| Pipeline.ConcatenationShape | transcript/youtube_transcript.go:132-141 | No entries give `""`, and one entry gives its text. Otherwise the result starts with the first text and ends with the last: there is no trailing separator. |
| Pipeline.ConcatenationLength | transcript/youtube_transcript.go:132-141 | The length is the sum of the text lengths plus one separator between each pair of neighbours. |
| Pipeline.ConcatenationSplitsBack | transcript/youtube_transcript.go:132-141 | Texts without newlines are recovered by splitting the result at newlines. |
| Pipeline.ConcatenationExample | transcript/youtube_transcript.go:132-141 | Texts a, b and c give `"a\nb\nc"`. |
| Pipeline.BlankIdRejectedBeforeFetch | transcript/youtube_transcript.go:144-146 | For any client, a blank ID makes GetTranscript, GetTranscriptWithLanguage and ListAvailableTranscripts fail with ErrVideoUnavailable for that ID. The network is never consulted (also youtube_transcript_test.go:62-66). |
| Pipeline.FirstFailingStage | transcript/youtube_transcript.go:90-103 | A page-fetch error, then an extraction error, reaches both entry points unchanged. An empty track list gives ErrNoTranscriptFound with the requested ID under both policies. |
| Pipeline.PageWithoutCaptionsIsUnavailable | transcript/youtube_transcript.go:169-173 | A fetched page without the captions marker makes both entry points report ErrVideoUnavailable with an empty ID, as the unknown-ID test expects (youtube_transcript_test.go:55-60). |
| Pipeline.DeliveredTranscript | transcript/youtube_transcript.go:90-120 | A delivered transcript comes from a non-blank ID whose page lists a non-empty set of tracks, and it is the caption fetch of one of them. |
| Pipeline.DefaultMatchesExplicit | transcript/youtube_transcript.go:105-117 | GetTranscript equals GetTranscriptWithLanguage with `en` when the first `en` track has a URL. It equals the call with `""` when there is no `en` track. |
| Pipeline.LanguageNotFoundMeansNoMatch | transcript/youtube_transcript.go:297-304 | The language error is reported only for a non-empty track list in which no code has the requested prefix. |
| Strings.IndexOf | transcript/youtube_transcript.go:169 | `strings.Index`: the first occurrence, with no earlier one, or None when there is no occurrence at all. |
| Strings.SplitOn | transcript/youtube_transcript.go:361-362 | `strings.Split` yields one part more than the separator has occurrences. |
| Strings.TrimSpace | transcript/youtube_transcript.go:144 | The result is a slice of the input that neither starts nor ends with white space, and everything left out on either side is white space. |
| Strings.SplitInTwo | transcript/youtube_transcript.go:361 | `strings.Split` gives two parts exactly when the separator occurs once. |
| Strings.SplitJoin | transcript/youtube_transcript.go:361-362 | Joining the parts of a split with the separator gives back the text. |
| Strings.SplitJoinRoundTrip | transcript/youtube_transcript.go:361-362 | Splitting a join of separator-free parts gives back the parts. |
| Strings.TrimSpaceEmptyIffBlank | transcript/youtube_transcript.go:144 | `strings.TrimSpace` gives `""` exactly when every byte is white space. |

## Left out

- HTTP I/O is the `web` field of the client. Requests, proxies (`NewClient`, `WithProxy`), transport errors and body reads are outcomes of that function, not modelled behaviour.
- `json.Unmarshal`, the `encoding/xml` decoding of the timed-text document and `html.UnescapeString` are client fields. Their inner workings, including the entity table, are not modelled.
- `float64` start and duration values are `real`s. They are carried through unchanged, and the code does no arithmetic on them.
- `FetchMultipleTranscripts` runs its goroutines under a mutex. The model processes the IDs one after another. It states the result after the join, not the interleavings.
- Error message texts, and the pointer versus value form of the error values, are not modelled. Go-level errors from the transport and the decoders are folded into `RequestFailed` and `XmlInvalid`.
- `ErrTranscriptsDisabled` is never produced by the code, so it is not modelled.
- cmd/yt-words/main.go is not part of this model. It is command-line glue with its own copy of the ID extraction.
- The functional test (youtube_transcript_test.go:88-133) needs the live network and is not modelled.
- VideoId.RawQuery: models `url.Parse` as far as it decides the raw query and whether it fails. That covers a control byte, a leading `:`, the scheme syntax, an opaque rest after the scheme, a `:` in the first segment of a relative path, and bad escapes in the path and the fragment. Host, port and user-info validation are not modelled: the authority's escapes are checked like the path's. The model therefore accepts some URLs with a malformed host or port that Go rejects.
- Strings.TrimSpace: only ASCII white space is trimmed, because strings hold bytes here. Multi-byte Unicode spaces are not recognised.
- CaptionIndex.DecodeCaptions: any decode result other than an object counts as invalid JSON. The slice always starts with `{`, so a real decode yields an object or fails.
- Pipeline.TrackTranscript: a body that cannot be read is reported as an XML error, because in the source the decoder surfaces that read error.
