/**
 * The caption-index extractor (extractTranscriptData): find the JSON object
 * that follows the `"captions":` marker of a watch page by counting braces,
 * then read the caption tracks out of its decoded tree.
 */
module CaptionIndex {
  import opened Wrappers
  import opened Strings
  import opened Types

  const CaptionsMarker := "\"captions\":"

  /** Slices shorter than this are rejected as implausible. */
  const MinJsonLength := 10

  /** The number of occurrences of `c` in `t`. */
  function CountChar(t: string, c: char): nat
    decreases |t|
  {
    if t == [] then 0
    else CountChar(t[..|t| - 1], c) + (if t[|t| - 1] == c then 1 else 0)
  }

  /** Brace depth at the end of `t`: opening braces minus closing braces. The scan ignores quotes, and so does this. */
  function Depth(t: string): int {
    CountChar(t, '{') - CountChar(t, '}')
  }

  /**
   * `s[start..e]` is the shortest slice from `start` whose braces balance:
   * depth zero at `e`, and positive at every earlier non-empty prefix.
   */
  predicate IsObjectEnd(s: string, start: nat, e: nat) {
    start < e <= |s|
    && Depth(s[start..e]) == 0
    && forall k :: start < k < e ==> Depth(s[start..k]) > 0
  }

  /** At most one position closes the object. */
  lemma {:induction false} ObjectEndIsUnique(s: string, start: nat, e: nat)
    requires IsObjectEnd(s, start, e)
    ensures forall e' :: IsObjectEnd(s, start, e') ==> e' == e
  {
  }

  /** Appending one character changes the depth by that character's weight. */
  lemma {:induction false} DepthStep(s: string, start: nat, i: nat)
    requires start <= i < |s|
    ensures Depth(s[start..i + 1]) ==
      Depth(s[start..i]) + (if s[i] == '{' then 1 else if s[i] == '}' then -1 else 0)
  {
    assert s[start..i + 1][..i - start] == s[start..i];
  }

  /**
   * The scan of extractTranscriptData: from the `{` at `start`, walk forward
   * keeping a brace count and stop where it returns to zero.
   */
  method ScanObjectEnd(s: string, start: nat) returns (end: Option<nat>)
    requires start < |s| && s[start] == '{'
    ensures end.Some? ==> IsObjectEnd(s, start, end.value) && s[end.value - 1] == '}'
    ensures end.Some? ==> CountChar(s[start..end.value], '{') == CountChar(s[start..end.value], '}')
    ensures end.None? ==> forall k :: start < k <= |s| ==> Depth(s[start..k]) > 0
  {
    var braceCount := 1;
    end := None;
    DepthStep(s, start, start);
    var i := start + 1;
    while i < |s|
      invariant start < i <= |s|
      invariant end == None
      invariant braceCount == Depth(s[start..i])
      invariant forall k :: start < k <= i ==> Depth(s[start..k]) > 0
    {
      DepthStep(s, start, i);
      if s[i] == '{' {
        braceCount := braceCount + 1;
      } else if s[i] == '}' {
        braceCount := braceCount - 1;
        if braceCount == 0 {
          end := Some(i + 1);
          break;
        }
      }
      i := i + 1;
    }
  }

  /** The string under `key`, or "" when the key is missing or holds another kind of value. */
  function StringField(m: map<string, Json>, key: string): string {
    if key in m && m[key].JString? then m[key].s else ""
  }

  /** The object under `key`, or the empty map when the key is missing or holds another kind of value. */
  function ObjectField(m: map<string, Json>, key: string): map<string, Json> {
    if key in m && m[key].JObject? then m[key].fields else map[]
  }

  /** One caption-track object as a Transcript record. */
  function TrackOf(m: map<string, Json>): (t: Transcript)
    ensures t.isGenerated <==> "kind" in m && m["kind"] == JString("asr")
    ensures ("baseUrl" !in m || !m["baseUrl"].JString?) ==> t.baseUrl == ""
    ensures ("languageCode" !in m || !m["languageCode"].JString?) ==> t.languageCode == ""
    ensures !("name" in m && m["name"].JObject? && "simpleText" in m["name"].fields && m["name"].fields["simpleText"].JString?)
      ==> t.language == ""
    ensures "baseUrl" in m && m["baseUrl"].JString? ==> t.baseUrl == m["baseUrl"].s
    ensures "languageCode" in m && m["languageCode"].JString? ==> t.languageCode == m["languageCode"].s
    ensures "name" in m && m["name"].JObject? && "simpleText" in m["name"].fields && m["name"].fields["simpleText"].JString?
      ==> t.language == m["name"].fields["simpleText"].s
  {
    Transcript(
      StringField(m, "baseUrl"),
      StringField(m, "languageCode"),
      StringField(ObjectField(m, "name"), "simpleText"),
      StringField(m, "kind") == "asr")
  }

  /** The tracks of a `captionTracks` array: one per object element, in order; other elements are skipped. */
  function TracksOf(items: seq<Json>): seq<Transcript>
    decreases |items|
  {
    if items == [] then []
    else
      var last := items[|items| - 1];
      TracksOf(items[..|items| - 1]) + (if last.JObject? then [TrackOf(last.fields)] else [])
  }

  /** The positions of the object elements of `items`, in increasing order. */
  function ObjectPositions(items: seq<Json>): (ps: seq<nat>)
    ensures |ps| <= |items|
    ensures forall k :: 0 <= k < |ps| ==> ps[k] < |items| && items[ps[k]].JObject?
    ensures forall k, l :: 0 <= k < l < |ps| ==> ps[k] < ps[l]
    ensures forall i :: 0 <= i < |items| && items[i].JObject? ==> i in ps
    decreases |items|
  {
    if items == [] then []
    else
      var n := |items| - 1;
      var front := ObjectPositions(items[..n]);
      assert forall i :: 0 <= i < n ==> items[..n][i] == items[i];
      front + (if items[n].JObject? then [n] else [])
  }

  /** The k-th track comes from the k-th object element: order is kept and nothing but objects contributes. */
  lemma {:induction false} TracksOfObjects(items: seq<Json>)
    ensures |TracksOf(items)| == |ObjectPositions(items)|
    ensures forall k :: 0 <= k < |TracksOf(items)| ==>
      TracksOf(items)[k] == TrackOf(items[ObjectPositions(items)[k]].fields)
    decreases |items|
  {
    if items != [] {
      var n := |items| - 1;
      var front := items[..n];
      TracksOfObjects(front);
      var ts, ps := TracksOf(front), ObjectPositions(front);
      var all, positions := TracksOf(items), ObjectPositions(items);
      assert all == ts + (if items[n].JObject? then [TrackOf(items[n].fields)] else []);
      assert positions == ps + (if items[n].JObject? then [n] else []);
      forall k | 0 <= k < |all|
        ensures all[k] == TrackOf(items[positions[k]].fields)
      {
        if k < |ts| {
          assert all[k] == ts[k] && positions[k] == ps[k];
          assert front[ps[k]] == items[ps[k]];
        } else {
          assert all[k] == TrackOf(items[n].fields) && positions[k] == n;
        }
      }
    }
  }

  /** Mapping a concatenation maps each half: the list is built element by element in source order. */
  lemma {:induction false} TracksOfConcat(a: seq<Json>, b: seq<Json>)
    ensures TracksOf(a + b) == TracksOf(a) + TracksOf(b)
    decreases |b|
  {
    if b == [] {
      assert a + b == a;
    } else {
      var n := |b| - 1;
      assert (a + b)[..|a + b| - 1] == a + b[..n];
      assert (a + b)[|a + b| - 1] == b[n];
      TracksOfConcat(a, b[..n]);
    }
  }

  /** There are never more tracks than array elements, and an empty array gives no tracks. */
  lemma {:induction false} TracksOfLength(items: seq<Json>)
    ensures |TracksOf(items)| <= |items|
    ensures items == [] ==> TracksOf(items) == []
  {
    TracksOfObjects(items);
  }

  /** The loop over `captionTracks` that appends one Transcript per object element. */
  method MapTracks(items: seq<Json>) returns (tracks: seq<Transcript>)
    ensures tracks == TracksOf(items)
  {
    tracks := [];
    for i := 0 to |items|
      invariant tracks == TracksOf(items[..i])
    {
      assert items[..i + 1][..i] == items[..i];
      match items[i]
      case JObject(m) =>
        tracks := tracks + [TrackOf(m)];
      case _ =>
    }
    assert items[..|items|] == items;
  }

  /**
   * What extractTranscriptData does with the balanced slice: the length guard,
   * the decode, and the walk down to the track array.
   */
  function DecodeCaptions(json: string, unmarshal: string -> Option<Json>): (r: Result<seq<Transcript>>)
    ensures |json| < MinJsonLength ==> r == Err(JsonTooShort(json))
    ensures r.Err? ==> r.error in {JsonTooShort(json), JsonInvalid(json), RendererMissing, CaptionTracksMissing}
    ensures r.Ok? <==> |json| >= MinJsonLength && HasTrackArray(unmarshal(json))
    ensures r.Ok? ==> r.value == TracksOf(TrackArray(unmarshal(json).value))
    ensures r.Ok? ==> |r.value| <= |TrackArray(unmarshal(json).value)|
  {
    if |json| < MinJsonLength then
      Err(JsonTooShort(json))
    else
      match unmarshal(json)
      case Some(JObject(top)) =>
        if "playerCaptionsTracklistRenderer" !in top || !top["playerCaptionsTracklistRenderer"].JObject? then
          Err(RendererMissing)
        else
          var renderer := top["playerCaptionsTracklistRenderer"].fields;
          if "captionTracks" !in renderer || !renderer["captionTracks"].JArray? then
            Err(CaptionTracksMissing)
          else
            TracksOfLength(renderer["captionTracks"].items);
            Ok(TracksOf(renderer["captionTracks"].items))
      case _ =>
        Err(JsonInvalid(json))
  }

  /** The decoded tree is an object whose renderer object holds a `captionTracks` array. */
  predicate HasTrackArray(tree: Option<Json>) {
    && tree.Some? && tree.value.JObject?
    && "playerCaptionsTracklistRenderer" in tree.value.fields
    && tree.value.fields["playerCaptionsTracklistRenderer"].JObject?
    && "captionTracks" in tree.value.fields["playerCaptionsTracklistRenderer"].fields
    && tree.value.fields["playerCaptionsTracklistRenderer"].fields["captionTracks"].JArray?
  }

  /** The `captionTracks` array of a tree that has one, or no items otherwise. */
  function TrackArray(tree: Json): seq<Json> {
    if HasTrackArray(Some(tree)) then
      tree.fields["playerCaptionsTracklistRenderer"].fields["captionTracks"].items
    else
      []
  }

  /**
   * Where the caption object starts: the first `{` at or after the first
   * occurrence of the captions marker.
   */
  function CaptionsObjectStart(page: string): (r: Result<nat>)
    ensures r == Err(VideoUnavailable("")) <==> !Contains(page, CaptionsMarker)
    ensures r.Err? ==> r.error in {VideoUnavailable(""), JsonStartMissing}
    ensures r.Ok? ==> r.value < |page| && page[r.value] == '{'
    ensures r.Ok? ==> IndexOf(page, CaptionsMarker).value <= r.value
    ensures r.Ok? ==> forall j :: IndexOf(page, CaptionsMarker).value <= j < r.value ==> page[j] != '{'
    ensures r == Err(JsonStartMissing) ==>
      forall j :: IndexOf(page, CaptionsMarker).value <= j < |page| ==> page[j] != '{'
  {
    match IndexOf(page, CaptionsMarker)
    case None => Err(VideoUnavailable(""))
    case Some(m) =>
      var tail := page[m..];
      forall j | m <= j < |page|
        ensures OccursAt(tail, "{", j - m) <==> page[j] == '{'
      {
        OccursChar(tail, '{', j - m);
      }
      match IndexOf(tail, "{")
      case None => Err(JsonStartMissing)
      case Some(o) => Ok(m + o)
  }

  /**
   * The outcome of extractTranscriptData on a page: the shortest balanced
   * slice from the caption object's start is decoded.
   */
  ghost function Extraction(page: string, unmarshal: string -> Option<Json>): Result<seq<Transcript>> {
    match CaptionsObjectStart(page)
    case Err(e) => Err(e)
    case Ok(start) =>
      if exists e: nat :: IsObjectEnd(page, start, e) then
        var e: nat :| IsObjectEnd(page, start, e);
        DecodeCaptions(page[start..e], unmarshal)
      else
        Err(JsonEndMissing)
  }

  /**
   * How extraction fails: without the marker the video counts as
   * unavailable; with it, the stages fail in order (no `{`, no balanced end,
   * then the decode of the slice).
   */
  lemma {:induction false} ExtractionFailures(page: string, unmarshal: string -> Option<Json>)
    ensures !Contains(page, CaptionsMarker) ==> Extraction(page, unmarshal) == Err(VideoUnavailable(""))
    ensures Contains(page, CaptionsMarker) && (forall j :: IndexOf(page, CaptionsMarker).value <= j < |page| ==> page[j] != '{')
      ==> Extraction(page, unmarshal) == Err(JsonStartMissing)
    ensures CaptionsObjectStart(page).Ok? && (forall e: nat :: !IsObjectEnd(page, CaptionsObjectStart(page).value, e))
      ==> Extraction(page, unmarshal) == Err(JsonEndMissing)
    ensures Extraction(page, unmarshal).Err? ==>
      (|| Extraction(page, unmarshal).error in {VideoUnavailable(""), JsonStartMissing, JsonEndMissing}
       || Extraction(page, unmarshal).error in {RendererMissing, CaptionTracksMissing}
       || Extraction(page, unmarshal).error.JsonTooShort?
       || Extraction(page, unmarshal).error.JsonInvalid?)
  {
    var start := CaptionsObjectStart(page);
    if Contains(page, CaptionsMarker) && start.Ok? {
      var m := IndexOf(page, CaptionsMarker).value;
      assert m <= start.value < |page| && page[start.value] == '{';
    }
  }

  /** A balanced object found inside a larger text is balanced there too. */
  lemma {:induction false} ObjectEndInside(page: string, obj: string, at: nat)
    requires at + |obj| <= |page| && page[at..at + |obj|] == obj
    requires IsObjectEnd(obj, 0, |obj|)
    ensures IsObjectEnd(page, at, at + |obj|)
  {
    forall k | 0 <= k <= |obj|
      ensures page[at..at + k] == obj[0..k]
    {
      assert page[at..at + k] == page[at..at + |obj|][..k];
    }
    assert Depth(page[at..at + |obj|]) == Depth(obj[0..|obj|]);
    forall k | at < k < at + |obj|
      ensures Depth(page[at..k]) > 0
    {
      assert page[at..k] == obj[0..k - at];
    }
  }

  /** With the marker first at `|pre|` and no `{` in `gap`, the caption object starts right after `gap`. */
  lemma {:induction false} ObjectStartAfterGap(pre: string, gap: string, rest: string)
    requires IndexOf(pre + CaptionsMarker, CaptionsMarker) == Some(|pre|) && '{' !in gap
    requires rest != [] && rest[0] == '{'
    ensures CaptionsObjectStart(pre + CaptionsMarker + gap + rest) == Ok(|pre| + |CaptionsMarker| + |gap|)
  {
    var page := pre + CaptionsMarker + gap + rest;
    MarkerStaysFirst(pre, gap, rest);
    NoBraceInGap(pre, gap, rest);
    FirstBraceAfterMarker(page, |pre|, |pre| + |CaptionsMarker| + |gap|);
  }

  /** Text after the first marker does not move it. */
  lemma {:induction false} MarkerStaysFirst(pre: string, gap: string, rest: string)
    requires IndexOf(pre + CaptionsMarker, CaptionsMarker) == Some(|pre|)
    ensures IndexOf(pre + CaptionsMarker + gap + rest, CaptionsMarker) == Some(|pre|)
  {
    assert pre + CaptionsMarker + gap + rest == (pre + CaptionsMarker) + (gap + rest);
    IndexOfExtend(pre + CaptionsMarker, gap + rest, CaptionsMarker, |pre|);
  }

  /** Between the marker and the object there is no `{`: the marker has none, and neither has the gap. */
  lemma {:induction false} NoBraceInGap(pre: string, gap: string, rest: string)
    requires '{' !in gap && rest != [] && rest[0] == '{'
    ensures var page, start := pre + CaptionsMarker + gap + rest, |pre| + |CaptionsMarker| + |gap|;
      start < |page| && page[start] == '{' && forall j :: |pre| <= j < start ==> page[j] != '{'
  {
    var page := pre + CaptionsMarker + gap + rest;
    var m := |pre|;
    var start := |pre| + |CaptionsMarker| + |gap|;
    assert page[start] == rest[0];
    forall j | m <= j < start
      ensures page[j] != '{'
    {
      if j < m + |CaptionsMarker| {
        assert page[j] == CaptionsMarker[j - m];
      } else {
        assert page[j] == gap[j - m - |CaptionsMarker|];
      }
    }
  }

  /** The caption object starts at the first `{` from the marker on. */
  lemma {:induction false} FirstBraceAfterMarker(page: string, m: nat, start: nat)
    requires IndexOf(page, CaptionsMarker) == Some(m)
    requires m <= start < |page| && page[start] == '{'
    requires forall j :: m <= j < start ==> page[j] != '{'
    ensures CaptionsObjectStart(page) == Ok(start)
  {
    var r := CaptionsObjectStart(page);
    assert r != Err(JsonStartMissing) by {
      assert m <= start < |page| && page[start] == '{';
    }
    assert r.Ok?;
    assert page[r.value] == '{' && m <= r.value;
    assert start <= r.value;
    assert r.value <= start;
  }

  /** Text without `"` cannot hold the marker, nor the start of one, so the marker after it is the first. */
  lemma {:induction false} MarkerFirstAfterQuoteFree(pre: string)
    requires '"' !in pre
    ensures IndexOf(pre + CaptionsMarker, CaptionsMarker) == Some(|pre|)
  {
    IndexOfAfter(pre, CaptionsMarker, CaptionsMarker);
  }

  /**
   * A page whose first marker is followed by text without `{`, then a
   * balanced object: extraction decodes exactly that object, whatever
   * follows it.
   */
  lemma {:induction false} ExtractsBalancedObject(pre: string, gap: string, obj: string, post: string, unmarshal: string -> Option<Json>)
    requires IndexOf(pre + CaptionsMarker, CaptionsMarker) == Some(|pre|) && '{' !in gap
    requires obj != [] && obj[0] == '{' && IsObjectEnd(obj, 0, |obj|)
    ensures Extraction(pre + CaptionsMarker + gap + (obj + post), unmarshal) == DecodeCaptions(obj, unmarshal)
  {
    ObjectStartAfterGap(pre, gap, obj + post);
    ExtractionAfterGap(pre, gap, obj, post, unmarshal);
  }

  /** Once the object is known to start right after the gap, extraction decodes it. */
  lemma {:induction false} ExtractionAfterGap(pre: string, gap: string, obj: string, post: string, unmarshal: string -> Option<Json>)
    requires CaptionsObjectStart(pre + CaptionsMarker + gap + (obj + post)) == Ok(|pre| + |CaptionsMarker| + |gap|)
    requires IsObjectEnd(obj, 0, |obj|)
    ensures Extraction(pre + CaptionsMarker + gap + (obj + post), unmarshal) == DecodeCaptions(obj, unmarshal)
  {
    ObjectSliceAtStart(pre, gap, obj, post);
    ExtractionAt(pre + CaptionsMarker + gap + (obj + post), |pre| + |CaptionsMarker| + |gap|, obj, unmarshal);
  }

  /** The object sits at the start position of the page built around it. */
  lemma {:induction false} ObjectSliceAtStart(pre: string, gap: string, obj: string, post: string)
    ensures var page, start := pre + CaptionsMarker + gap + (obj + post), |pre| + |CaptionsMarker| + |gap|;
      start + |obj| <= |page| && page[start..start + |obj|] == obj
  {
    var page := pre + CaptionsMarker + gap + (obj + post);
    assert page == (pre + CaptionsMarker + gap) + obj + post;
  }

  /** Once the start is known, a balanced object found there is what extraction decodes. */
  lemma {:induction false} ExtractionAt(page: string, start: nat, obj: string, unmarshal: string -> Option<Json>)
    requires CaptionsObjectStart(page) == Ok(start)
    requires start + |obj| <= |page| && page[start..start + |obj|] == obj
    requires IsObjectEnd(obj, 0, |obj|)
    ensures Extraction(page, unmarshal) == DecodeCaptions(obj, unmarshal)
  {
    var e := start + |obj|;
    ObjectEndInside(page, obj, start);
    ObjectEndIsUnique(page, start, e);
    assert Extraction(page, unmarshal) == DecodeCaptions(page[start..e], unmarshal);
  }

  /**
   * The scan does not know about JSON strings: in `{"a":"}"}` the quoted
   * brace already closes the object, after seven bytes.
   */
  lemma {:induction false} QuotedBraceCloses(s: string)
    requires s == "{\"a\":\"}\"}"
    ensures IsObjectEnd(s, 0, 7)
  {
    assert s[0..0] == [];
    DepthStep(s, 0, 0);
    DepthStep(s, 0, 1);
    DepthStep(s, 0, 2);
    DepthStep(s, 0, 3);
    DepthStep(s, 0, 4);
    DepthStep(s, 0, 5);
    DepthStep(s, 0, 6);
  }

  /** extractTranscriptData. */
  method ExtractTranscriptData(videoInfo: string, unmarshal: string -> Option<Json>)
    returns (r: Result<seq<Transcript>>)
    ensures r == Extraction(videoInfo, unmarshal)
  {
    var start := CaptionsObjectStart(videoInfo);
    if start.Err? {
      return Err(start.error);
    }
    var jsonStart := start.value;
    var jsonEnd := ScanObjectEnd(videoInfo, jsonStart);
    if jsonEnd.None? {
      return Err(JsonEndMissing);
    }
    ObjectEndIsUnique(videoInfo, jsonStart, jsonEnd.value);
    var captionsJson := videoInfo[jsonStart..jsonEnd.value];
    r := DecodeTracks(captionsJson, unmarshal);
  }

  /** The part of extractTranscriptData after the slice is cut: length guard, decode, walk, track loop. */
  method DecodeTracks(captionsJson: string, unmarshal: string -> Option<Json>)
    returns (r: Result<seq<Transcript>>)
    ensures r == DecodeCaptions(captionsJson, unmarshal)
  {
    if |captionsJson| < MinJsonLength {
      return Err(JsonTooShort(captionsJson));
    }
    match unmarshal(captionsJson)
    case Some(JObject(top)) =>
      if "playerCaptionsTracklistRenderer" !in top || !top["playerCaptionsTracklistRenderer"].JObject? {
        return Err(RendererMissing);
      }
      var renderer := top["playerCaptionsTracklistRenderer"].fields;
      if "captionTracks" !in renderer || !renderer["captionTracks"].JArray? {
        return Err(CaptionTracksMissing);
      }
      var tracks := MapTracks(renderer["captionTracks"].items);
      return Ok(tracks);
    case _ =>
      return Err(JsonInvalid(captionsJson));
  }
}
